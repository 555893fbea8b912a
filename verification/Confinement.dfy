/**
 Read confinement of one agent's commands: a list of read rules, and its translations to Seatbelt, bwrap and Landlock
 (apps/server/src/command-confinement.ts). A path is its sequence of segments; no segment starts with `..`.
 */
module Confinement {
  import opened Wrappers

  type Path = seq<string>

  datatype Rule = Rule(path: Path, allow: bool)

  predicate IsWithin(target: Path, root: Path) {
    root <= target
  }

  predicate IsStrictlyWithin(target: Path, root: Path) {
    target != root && IsWithin(target, root)
  }

  // ---------- The meaning of a rule list ----------

  /** The last rule covering the path decides; a path no rule covers is readable. */
  function Readable(rules: seq<Rule>, target: Path): bool {
    if rules == [] then true
    else if IsWithin(target, rules[|rules| - 1].path) then rules[|rules| - 1].allow
    else Readable(rules[..|rules| - 1], target)
  }

  method ReadableBy(rules: seq<Rule>, target: Path) returns (allowed: bool)
    ensures allowed == Readable(rules, target)
  {
    allowed := true;
    for i := 0 to |rules|
      invariant allowed == Readable(rules[..i], target)
    {
      assert rules[..i + 1][..i] == rules[..i];
      if IsWithin(target, rules[i].path) {
        allowed := rules[i].allow;
      }
    }
    assert rules[..|rules|] == rules;
  }

  predicate Covers(rules: seq<Rule>, i: int, target: Path) {
    0 <= i < |rules| && IsWithin(target, rules[i].path)
  }

  lemma {:induction false} LastCoveringDecides(rules: seq<Rule>, target: Path) returns (last: int)
    ensures -1 <= last < |rules|
    ensures last >= 0 ==> Covers(rules, last, target) && Readable(rules, target) == rules[last].allow
    ensures last == -1 ==> Readable(rules, target)
    ensures forall i :: last < i < |rules| ==> !Covers(rules, i, target)
  {
    if rules == [] {
      last := -1;
    } else if IsWithin(target, rules[|rules| - 1].path) {
      last := |rules| - 1;
    } else {
      var init := rules[..|rules| - 1];
      last := LastCoveringDecides(init, target);
      assert forall i :: 0 <= i < |init| ==> Covers(init, i, target) == Covers(rules, i, target);
    }
  }

  // ---------- Ordering rules ----------

  /** Length of the path as text: `/` for the root, one separator before every other segment. */
  function TextLength(p: Path): nat {
    if p == [] then 1 else SegmentsLength(p)
  }

  function SegmentsLength(p: Path): nat {
    if p == [] then 0 else SegmentsLength(p[..|p| - 1]) + 1 + |p[|p| - 1]|
  }

  /** Canonical paths have no empty segment. */
  predicate Canonical(p: Path) {
    forall i :: 0 <= i < |p| ==> p[i] != ""
  }

  lemma {:induction false} InsideIsLonger(p: Path, q: Path)
    requires p <= q && p != q && Canonical(q)
    ensures SegmentsLength(p) < SegmentsLength(q)
    ensures TextLength(p) < TextLength(q)
  {
    assert q[|q| - 1] != "";
    if p != q[..|q| - 1] {
      InsideIsLonger(p, q[..|q| - 1]);
    }
  }

  predicate NotAfter(a: Rule, b: Rule) {
    || TextLength(a.path) < TextLength(b.path)
    || (TextLength(a.path) == TextLength(b.path) && (b.allow || !a.allow))
  }

  predicate Ordered(rules: seq<Rule>) {
    forall i, j :: 0 <= i < j < |rules| ==> NotAfter(rules[i], rules[j])
  }

  /** The stable library sort: an element goes before the first one it must not follow. */
  function Insert(rule: Rule, rules: seq<Rule>): (r: seq<Rule>)
    requires Ordered(rules)
    ensures Ordered(r) && forall x :: x in r <==> x == rule || x in rules
  {
    if rules == [] then [rule]
    else if NotAfter(rule, rules[0]) then
      assert forall x :: x in [rule] + rules <==> x == rule || x in rules;
      [rule] + rules
    else
      var rest := Insert(rule, rules[1..]);
      assert rules == [rules[0]] + rules[1..];
      assert forall x :: x in rest ==> NotAfter(rules[0], x);
      [rules[0]] + rest
  }

  function Sort(rules: seq<Rule>): (r: seq<Rule>)
    ensures Ordered(r) && forall x :: x in r <==> x in rules
  {
    if rules == [] then []
    else
      assert rules == [rules[0]] + rules[1..];
      Insert(rules[0], Sort(rules[1..]))
  }

  /** The canonical forms of the paths that exist, each once. `canonical` knows exactly the existing ones. */
  function Existing(paths: seq<string>, canonical: map<string, Path>): (r: seq<Path>)
    ensures forall p :: p in r <==> exists s :: s in paths && s in canonical && canonical[s] == p
  {
    if paths == [] then []
    else
      var init, last := paths[..|paths| - 1], paths[|paths| - 1];
      var before := Existing(init, canonical);
      assert paths == init + [last];
      if last in canonical && canonical[last] !in before then before + [canonical[last]] else before
  }

  function Rules(paths: seq<Path>, allow: bool): (r: seq<Rule>)
    ensures forall x :: x in r <==> x.allow == allow && x.path in paths
  {
    if paths == [] then [] else
      assert paths == [paths[0]] + paths[1..];
      [Rule(paths[0], allow)] + Rules(paths[1..], allow)
  }

  function ReadRules(hidden: seq<string>, readable: seq<string>, workspaceRoot: string, canonical: map<string, Path>): seq<Rule> {
    Sort(Rules(Existing(hidden, canonical), false) + Rules(Existing(readable + [workspaceRoot], canonical), true))
  }

  /** Every hidden root above the path has a readable root between it and the path, or equal to it. */
  ghost predicate Narrowest(hidden: set<Path>, readable: set<Path>, target: Path) {
    forall h :: h in hidden && h <= target ==> exists a :: a in readable && h <= a <= target
  }

  ghost function Roots(paths: seq<string>, canonical: map<string, Path>): set<Path> {
    set s | s in paths && s in canonical :: canonical[s]
  }

  /** The rule list means what its two inputs say, in whatever order they are given. */
  lemma NarrowestRuleDecides(hidden: seq<string>, readable: seq<string>, workspaceRoot: string,
                             canonical: map<string, Path>, target: Path)
    requires forall s :: s in canonical ==> Canonical(canonical[s])
    ensures Readable(ReadRules(hidden, readable, workspaceRoot, canonical), target)
            <==> Narrowest(Roots(hidden, canonical), Roots(readable + [workspaceRoot], canonical), target)
  {
    var rules := ReadRules(hidden, readable, workspaceRoot, canonical);
    var denied, allowed := Roots(hidden, canonical), Roots(readable + [workspaceRoot], canonical);
    forall p ensures Rule(p, false) in rules <==> p in denied ensures Rule(p, true) in rules <==> p in allowed {}
    forall p | p in denied || p in allowed ensures Canonical(p) {}
    OrderedRulesDecide(rules, denied, allowed, target);
  }

  lemma OrderedRulesDecide(rules: seq<Rule>, denied: set<Path>, allowed: set<Path>, target: Path)
    requires Ordered(rules)
    requires forall p :: (Rule(p, false) in rules <==> p in denied) && (Rule(p, true) in rules <==> p in allowed)
    requires forall p :: p in denied || p in allowed ==> Canonical(p)
    ensures Readable(rules, target) <==> Narrowest(denied, allowed, target)
  {
    var last := LastCoveringDecides(rules, target);
    if last == -1 {
      forall h | h in denied && h <= target ensures false {
        var i :| 0 <= i < |rules| && rules[i] == Rule(h, false);
        assert Covers(rules, i, target);
      }
    } else if rules[last].allow {
      var a := rules[last].path;
      assert Rule(a, true) in rules;
      forall h | h in denied && h <= target ensures h <= a {
        CoveringRulesNest(rules, Rule(h, false), last, target);
      }
    } else {
      var h := rules[last].path;
      assert Rule(h, false) in rules;
      forall a | a in allowed && a <= target ensures !(h <= a) {
        CoveringRulesNest(rules, Rule(a, true), last, target);
        if h <= a { assert h == a; NotBefore(rules, Rule(a, true), last, target); }
      }
    }
  }

  lemma NotBefore(rules: seq<Rule>, rule: Rule, last: int, target: Path)
    requires Ordered(rules) && Covers(rules, last, target) && rule in rules && IsWithin(target, rule.path)
    requires forall i :: last < i < |rules| ==> !Covers(rules, i, target)
    ensures rule == rules[last] || NotAfter(rule, rules[last])
  {
    var i :| 0 <= i < |rules| && rules[i] == rule;
    assert Covers(rules, i, target);
  }

  /** Rules covering one path are nested, and the last of them is the innermost. */
  lemma CoveringRulesNest(rules: seq<Rule>, rule: Rule, last: int, target: Path)
    requires Ordered(rules) && Covers(rules, last, target) && rule in rules && IsWithin(target, rule.path)
    requires Canonical(rule.path)
    requires forall i :: last < i < |rules| ==> !Covers(rules, i, target)
    ensures rule.path <= rules[last].path
  {
    NotBefore(rules, rule, last, target);
    var p, q := rule.path, rules[last].path;
    HeadsAreNested(p, q, target);
    if |p| > |q| { InsideIsLonger(q, p); }
  }

  // ---------- Seatbelt: the last matching form wins ----------

  datatype Form =
    | FileRead(allow: bool, subpath: Path)
    | FileReadMetadata(literals: seq<Path>)
    | DenyUnixSocket(subpath: Path)
    | OtherForm(text: string)

  function DataReadable(forms: seq<Form>, target: Path): bool {
    if forms == [] then true
    else
      var f := forms[|forms| - 1];
      if f.FileRead? && IsWithin(target, f.subpath) then f.allow
      else DataReadable(forms[..|forms| - 1], target)
  }

  function MetadataReadable(forms: seq<Form>, target: Path): bool {
    if forms == [] then true
    else
      var f := forms[|forms| - 1];
      if f.FileRead? && IsWithin(target, f.subpath) then f.allow
      else if f.FileReadMetadata? && target in f.literals then true
      else MetadataReadable(forms[..|forms| - 1], target)
  }

  /** Whether the forms cut off the sockets at or below the path. */
  predicate SocketDenied(forms: seq<Form>, target: Path) {
    exists f :: f in forms && f.DenyUnixSocket? && IsWithin(target, f.subpath)
  }

  /** The forms begin with one read form for each rule, in order, and hold no other read form. */
  predicate ReadsFirst(rules: seq<Rule>, forms: seq<Form>) {
    && |rules| <= |forms|
    && (forall j :: 0 <= j < |rules| ==> forms[j] == FileRead(rules[j].allow, rules[j].path))
    && (forall j :: |rules| <= j < |forms| ==> !forms[j].FileRead?)
  }

  /** An ancestor of an allowed root, other than the root directory. */
  predicate AboveReadRoot(rules: seq<Rule>, p: Path) {
    exists r :: r in rules && r.allow && p != [] && IsStrictlyWithin(r.path, p)
  }

  const SIGNALS: seq<Form> := [OtherForm("(deny signal)"), OtherForm("(allow signal (target same-sandbox))")]
  const NETWORK_DENIALS: seq<Form> := [
    OtherForm("(deny network-outbound (remote ip))"),
    OtherForm("(deny network-inbound (local ip))"),
    OtherForm("(deny network-bind (local ip))"),
    OtherForm("(deny network-outbound (literal \"/private/var/run/mDNSResponder\"))")
  ]

  /** Signals reach only what runs in the same sandbox; the network is cut off exactly when it is to be. */
  predicate CutsOff(forms: seq<Form>, network: bool) {
    && (exists i :: 0 <= i < |forms| - 1 && forms[i] == SIGNALS[0] && forms[i + 1] == SIGNALS[1])
    && (forall f :: f in NETWORK_DENIALS ==> (f in forms <==> !network))
  }

  method SeatbeltForms(rules: seq<Rule>, network: bool) returns (forms: seq<Form>)
    ensures CutsOff(forms, network)
    ensures forall t :: DataReadable(forms, t) == Readable(rules, t)
    ensures forall t :: MetadataReadable(forms, t) == (Readable(rules, t) || AboveReadRoot(rules, t))
    ensures forall t :: SocketDenied(forms, t) <==> exists r :: r in rules && !r.allow && IsWithin(t, r.path)
    ensures ReadsFirst(rules, forms)
  {
    hide DataReadable, MetadataReadable, Readable, IsWithin;
    forms := [];
    for i := 0 to |rules|
      invariant |forms| == i && forall j :: 0 <= j < i ==> forms[j] == FileRead(rules[j].allow, rules[j].path)
    {
      forms := forms + [FileRead(rules[i].allow, rules[i].path)];
    }
    forall t ensures DataReadable(forms, t) == MetadataReadable(forms, t) == Readable(rules, t) {
      ReadFormsMeanRules(rules, forms, t);
    }
    var ancestors := Ancestors(rules);
    if ancestors != [] {
      var before := forms;
      forms := forms + [FileReadMetadata(ancestors)];
      forall t ensures DataReadable(forms, t) == DataReadable(before, t)
               ensures MetadataReadable(forms, t) == (MetadataReadable(before, t) || t in ancestors) {
        AppendMetadata(before, ancestors, t);
      }
    }
    assert forall t :: t in ancestors <==> AboveReadRoot(rules, t);
    ghost var readForms := forms;
    assert forall f :: f in forms ==> !f.DenyUnixSocket?;
    for i := 0 to |rules|
      invariant forall t :: DataReadable(forms, t) == DataReadable(readForms, t)
      invariant forall t :: MetadataReadable(forms, t) == MetadataReadable(readForms, t)
      invariant forall t :: SocketDenied(forms, t) <==> exists r :: r in rules[..i] && !r.allow && IsWithin(t, r.path)
      invariant ReadsFirst(rules, forms)
      invariant forall f :: f in forms ==> !f.OtherForm?
    {
      if !rules[i].allow {
        forall t { AppendForm(forms, DenyUnixSocket(rules[i].path), t); }
        forms := forms + [DenyUnixSocket(rules[i].path)];
      }
      assert rules[..i + 1] == rules[..i] + [rules[i]];
    }
    assert rules[..|rules|] == rules;
    ghost var plain := forms;
    forms := AppendOther(forms, "(deny signal)");
    forms := AppendOther(forms, "(allow signal (target same-sandbox))");
    if !network {
      forms := AppendOther(forms, "(deny network-outbound (remote ip))");
      forms := AppendOther(forms, "(deny network-inbound (local ip))");
      forms := AppendOther(forms, "(deny network-bind (local ip))");
      forms := AppendOther(forms, "(deny network-outbound (literal \"/private/var/run/mDNSResponder\"))");
    }
    CutsOffAsAsked(plain, forms, network);
  }

  lemma CutsOffAsAsked(plain: seq<Form>, forms: seq<Form>, network: bool)
    requires forall f :: f in plain ==> !f.OtherForm?
    requires forms == plain + SIGNALS + if network then [] else NETWORK_DENIALS
    ensures CutsOff(forms, network)
  {
    assert forms[|plain|] == SIGNALS[0] && forms[|plain| + 1] == SIGNALS[1];
    DenialsAreNoSignals();
    hide SIGNALS, NETWORK_DENIALS;
    if network {
      assert forms == plain + SIGNALS;
    } else {
      forall f | f in NETWORK_DENIALS ensures f in forms {}
    }
  }

  lemma DenialsAreNoSignals()
    ensures forall f :: f in NETWORK_DENIALS ==> f.OtherForm? && f !in SIGNALS
    ensures |SIGNALS| == 2
  {
    assert "(deny network-outbound (remote ip))"[6] == 'n' && "(deny network-inbound (local ip))"[6] == 'n';
    assert "(deny network-bind (local ip))"[6] == 'n';
    assert "(deny network-outbound (literal \"/private/var/run/mDNSResponder\"))"[6] == 'n';
    assert "(deny signal)"[6] == 's' && "(allow signal (target same-sandbox))"[6] == ' ';
  }

  method AppendOther(forms: seq<Form>, text: string) returns (r: seq<Form>)
    ensures forall t :: DataReadable(r, t) == DataReadable(forms, t)
    ensures forall t :: MetadataReadable(r, t) == MetadataReadable(forms, t)
    ensures forall t :: SocketDenied(r, t) <==> SocketDenied(forms, t)
    ensures forall rules :: ReadsFirst(rules, forms) ==> ReadsFirst(rules, r)
    ensures r == forms + [OtherForm(text)]
  {
    r := forms + [OtherForm(text)];
    forall t { AppendForm(forms, OtherForm(text), t); }
  }

  lemma AppendMetadata(forms: seq<Form>, literals: seq<Path>, t: Path)
    ensures DataReadable(forms + [FileReadMetadata(literals)], t) == DataReadable(forms, t)
    ensures MetadataReadable(forms + [FileReadMetadata(literals)], t) == (MetadataReadable(forms, t) || t in literals)
  {
    assert (forms + [FileReadMetadata(literals)])[..|forms|] == forms;
  }

  lemma AppendForm(forms: seq<Form>, f: Form, t: Path)
    requires f.OtherForm? || f.DenyUnixSocket?
    ensures DataReadable(forms + [f], t) == DataReadable(forms, t)
    ensures MetadataReadable(forms + [f], t) == MetadataReadable(forms, t)
    ensures SocketDenied(forms + [f], t) <==> SocketDenied(forms, t) || (f.DenyUnixSocket? && IsWithin(t, f.subpath))
  {
    assert (forms + [f])[..|forms|] == forms;
    assert forall g :: g in forms + [f] <==> g in forms || g == f;
  }

  lemma {:induction false} ReadFormsMeanRules(rules: seq<Rule>, forms: seq<Form>, t: Path)
    requires |forms| == |rules|
    requires forall j :: 0 <= j < |rules| ==> forms[j] == FileRead(rules[j].allow, rules[j].path)
    ensures DataReadable(forms, t) == MetadataReadable(forms, t) == Readable(rules, t)
  {
    if rules != [] {
      ReadFormsMeanRules(rules[..|rules| - 1], forms[..|forms| - 1], t);
    }
  }

  /** The proper ancestors of allowed roots, without the root directory, each once. */
  method Ancestors(rules: seq<Rule>) returns (ancestors: seq<Path>)
    ensures forall t :: t in ancestors <==> AboveReadRoot(rules, t)
  {
    ancestors := [];
    for i := 0 to |rules|
      invariant forall t :: t in ancestors <==> AboveReadRoot(rules[..i], t)
    {
      assert rules[..i + 1] == rules[..i] + [rules[i]];
      ghost var before := ancestors;
      var path := rules[i].path;
      if rules[i].allow && path != [] {
        var current := path[..|path| - 1];
        while current != []
          invariant current <= path && |current| < |path|
          invariant forall t :: t in ancestors <==> t in before || (t <= path && |current| < |t| < |path|)
          decreases |current|
        {
          assert forall t :: t <= path && |t| == |current| ==> t == current;
          if current !in ancestors {
            ancestors := ancestors + [current];
          }
          current := current[..|current| - 1];
        }
      }
    }
    assert rules[..|rules|] == rules;
  }

  // ---------- bwrap: the last mount covering a path is what shows there ----------

  datatype Token = Flag(name: string) | Operand(path: Path)

  /** An empty directory, or what the host has at `source`. */
  datatype Mount = Hidden(at: Path) | Shown(source: Path, at: Path, writable: bool)

  function BwrapArgs(rules: seq<Rule>, workspace: Path, workspaceWrite: bool, network: bool): seq<Token> {
    MountArgs(rules, workspace, workspaceWrite) + if network then [] else [Flag("--unshare-net")]
  }

  function MountArgs(rules: seq<Rule>, workspace: Path, workspaceWrite: bool): seq<Token> {
    if rules == [] then [] else MountArg(rules[0], workspace, workspaceWrite) + MountArgs(rules[1..], workspace, workspaceWrite)
  }

  function MountArg(rule: Rule, workspace: Path, workspaceWrite: bool): seq<Token> {
    if !rule.allow then [Flag("--tmpfs"), Operand(rule.path)]
    else if rule.path == workspace && workspaceWrite then [Flag("--bind"), Operand(rule.path), Operand(rule.path)]
    else [Flag("--ro-bind"), Operand(rule.path), Operand(rule.path)]
  }

  /** How bwrap reads the arguments: each mount goes on top of the ones before it. */
  function Mounts(args: seq<Token>): seq<Mount> {
    if |args| >= 2 && args[0] == Flag("--tmpfs") && args[1].Operand? then [Hidden(args[1].path)] + Mounts(args[2..])
    else if |args| >= 3 && args[0] == Flag("--bind") && args[1].Operand? && args[2].Operand? then
      [Shown(args[1].path, args[2].path, true)] + Mounts(args[3..])
    else if |args| >= 3 && args[0] == Flag("--ro-bind") && args[1].Operand? && args[2].Operand? then
      [Shown(args[1].path, args[2].path, false)] + Mounts(args[3..])
    else if |args| >= 1 then Mounts(args[1..])
    else []
  }

  /** The mount on top at a path, if any. */
  function Top(mounts: seq<Mount>, target: Path): Option<Mount> {
    if mounts == [] then None
    else if IsWithin(target, mounts[|mounts| - 1].at) then Some(mounts[|mounts| - 1])
    else Top(mounts[..|mounts| - 1], target)
  }

  function MountOf(rule: Rule, workspace: Path, workspaceWrite: bool): Mount {
    if rule.allow then Shown(rule.path, rule.path, rule.path == workspace && workspaceWrite) else Hidden(rule.path)
  }

  lemma {:induction false} MountsOfRules(rules: seq<Rule>, workspace: Path, workspaceWrite: bool, rest: seq<Token>)
    requires rest == [] || rest == [Flag("--unshare-net")]
    ensures var mounts := Mounts(MountArgs(rules, workspace, workspaceWrite) + rest);
            |mounts| == |rules| && forall i :: 0 <= i < |rules| ==> mounts[i] == MountOf(rules[i], workspace, workspaceWrite)
  {
    hide Mounts, MountArg;
    var args := MountArgs(rules, workspace, workspaceWrite) + rest;
    if rules == [] {
      assert args == rest;
      NoMount(rest);
    } else {
      var tail := MountArgs(rules[1..], workspace, workspaceWrite) + rest;
      assert args == MountArg(rules[0], workspace, workspaceWrite) + tail;
      OneMount(rules[0], workspace, workspaceWrite, tail);
      MountsOfRules(rules[1..], workspace, workspaceWrite, rest);
    }
  }

  lemma NoMount(rest: seq<Token>)
    requires rest == [] || rest == [Flag("--unshare-net")]
    ensures Mounts(rest) == []
  {
  }

  lemma OneMount(rule: Rule, workspace: Path, workspaceWrite: bool, tail: seq<Token>)
    ensures Mounts(MountArg(rule, workspace, workspaceWrite) + tail)
            == [MountOf(rule, workspace, workspaceWrite)] + Mounts(tail)
  {
    var head := MountArg(rule, workspace, workspaceWrite);
    var args := head + tail;
    assert args[|head|..] == tail;
    assert |"--tmpfs"| == 7 && |"--bind"| == 6 && |"--ro-bind"| == 9;
    assert args[0] == head[0] && args[1] == head[1] && (|head| == 3 ==> args[2] == head[2]);
  }

  /** The rule that decides a path, if one covers it. */
  function Deciding(rules: seq<Rule>, target: Path): Option<Rule> {
    if rules == [] then None
    else if IsWithin(target, rules[|rules| - 1].path) then Some(rules[|rules| - 1])
    else Deciding(rules[..|rules| - 1], target)
  }

  /**
   What the mounts show at a path: the host's own content there exactly when the rules let it be read, an empty directory
   otherwise, nothing of theirs where no rule covers it; and writable exactly when the workspace may be written and the
   rule that decides the path is the workspace's own.
   */
  ghost predicate ShowsAsRuled(rules: seq<Rule>, workspace: Path, workspaceWrite: bool, mounts: seq<Mount>, target: Path) {
    var top := Top(mounts, target);
    && (top.None? || top.value.Shown? <==> Readable(rules, target))
    && (top.None? <==> forall r :: r in rules ==> !IsWithin(target, r.path))
    && (top.Some? ==> IsWithin(target, top.value.at))
    && (top.Some? && top.value.Shown? ==> top.value.source == top.value.at)
    && (top.Some? && top.value.Shown? && top.value.writable
        <==> workspaceWrite && Deciding(rules, target) == Some(Rule(workspace, true)))
  }

  lemma BwrapShowsReadable(rules: seq<Rule>, workspace: Path, workspaceWrite: bool, network: bool, target: Path)
    ensures ShowsAsRuled(rules, workspace, workspaceWrite, Mounts(BwrapArgs(rules, workspace, workspaceWrite, network)), target)
  {
    var rest := if network then [] else [Flag("--unshare-net")];
    MountsOfRules(rules, workspace, workspaceWrite, rest);
    TopIsDeciding(rules, Mounts(BwrapArgs(rules, workspace, workspaceWrite, network)), workspace, workspaceWrite, target);
    NoneDecidesUncovered(rules, target);
  }

  lemma {:induction false} NoneDecidesUncovered(rules: seq<Rule>, target: Path)
    ensures Deciding(rules, target).None? <==> forall r :: r in rules ==> !IsWithin(target, r.path)
    ensures Deciding(rules, target).Some? ==> Deciding(rules, target).value in rules && IsWithin(target, Deciding(rules, target).value.path)
  {
    if rules != [] {
      NoneDecidesUncovered(rules[..|rules| - 1], target);
      assert rules == rules[..|rules| - 1] + [rules[|rules| - 1]];
    }
  }

  /** The network is cut off exactly when it is to be. */
  lemma {:induction false} UnsharesExactly(rules: seq<Rule>, workspace: Path, workspaceWrite: bool, network: bool)
    ensures Flag("--unshare-net") in BwrapArgs(rules, workspace, workspaceWrite, network) <==> !network
  {
    MountArgsUnshareNothing(rules, workspace, workspaceWrite);
  }

  lemma {:induction false} MountArgsUnshareNothing(rules: seq<Rule>, workspace: Path, workspaceWrite: bool)
    ensures Flag("--unshare-net") !in MountArgs(rules, workspace, workspaceWrite)
  {
    if rules != [] {
      MountArgsUnshareNothing(rules[1..], workspace, workspaceWrite);
      assert |"--unshare-net"| == 13 && |"--tmpfs"| == 7 && |"--bind"| == 6 && |"--ro-bind"| == 9;
    }
  }

  lemma {:induction false} TopIsDeciding(rules: seq<Rule>, mounts: seq<Mount>, workspace: Path, workspaceWrite: bool, target: Path)
    requires |mounts| == |rules|
    requires forall i :: 0 <= i < |rules| ==> mounts[i] == MountOf(rules[i], workspace, workspaceWrite)
    ensures var rule := Deciding(rules, target);
            && Top(mounts, target) == (if rule.None? then None else Some(MountOf(rule.value, workspace, workspaceWrite)))
            && Readable(rules, target) == (rule.None? || rule.value.allow)
  {
    if rules != [] {
      TopIsDeciding(rules[..|rules| - 1], mounts[..|mounts| - 1], workspace, workspaceWrite, target);
    }
  }
}
