/**
 The Landlock translation: an allow-only list of roots found by walking down the directories that contain a rule
 (apps/server/src/command-confinement.ts:110-155).
 */
module Landlock {
  import opened Wrappers
  import opened Confinement

  /** `Link(None)` is a link whose target cannot be resolved; `Folder(false)` a directory that cannot be listed. */
  datatype Entry = Folder(listable: bool) | Plain | Link(target: Option<Path>)

  type Files = map<Path, Entry>

  predicate CoveredByWritable(writable: seq<Path>, p: Path) {
    exists root :: root in writable && IsWithin(p, root)
  }

  /** Some rule lies strictly inside. */
  predicate Nested(rules: seq<Rule>, p: Path) {
    exists r :: r in rules && IsStrictlyWithin(r.path, p)
  }

  /** The walk lists this directory. */
  predicate Open(files: Files, rules: seq<Rule>, writable: seq<Path>, d: Path) {
    && d in files && files[d] == Folder(true)
    && !CoveredByWritable(writable, d) && Nested(rules, d)
  }

  /** An entry the walk grants as it stands. */
  predicate EntryGranted(rules: seq<Rule>, writable: seq<Path>, p: Path) {
    !CoveredByWritable(writable, p) && !Nested(rules, p) && Readable(rules, p)
  }

  /** A link the walk grants: it and its target are readable, and the target holds no rule. */
  predicate LinkGranted(files: Files, rules: seq<Rule>, p: Path) {
    && p in files && files[p].Link? && files[p].target.Some?
    && Readable(rules, p) && Readable(rules, files[p].target.value) && !Nested(rules, files[p].target.value)
  }

  /** `g` is granted by the walk that starts at `from`. */
  ghost predicate GrantedFrom(files: Files, rules: seq<Rule>, writable: seq<Path>, from: Path, g: Path) {
    && from <= g && g in files
    && (forall k :: |from| <= k < |g| ==> Open(files, rules, writable, g[..k]))
    && if files[g].Link? then |from| < |g| && LinkGranted(files, rules, g) else EntryGranted(rules, writable, g)
  }

  function Names(files: Files, d: Path): set<string> {
    set p | p in files && |p| == |d| + 1 && d <= p :: p[|d|]
  }

  function Depth(rules: seq<Rule>): nat {
    if rules == [] then 0
    else if |rules[0].path| > Depth(rules[1..]) then |rules[0].path| else Depth(rules[1..])
  }

  lemma {:induction false} RulesWithinDepth(rules: seq<Rule>, r: Rule)
    requires r in rules
    ensures |r.path| <= Depth(rules)
  {
    if r != rules[0] {
      assert r in rules[1..];
      RulesWithinDepth(rules[1..], r);
    }
  }

  lemma NestedIsShallow(rules: seq<Rule>, p: Path)
    requires Nested(rules, p)
    ensures |p| < Depth(rules)
  {
    var r :| r in rules && IsStrictlyWithin(r.path, p);
    RulesWithinDepth(rules, r);
  }

  lemma NameIsEntry(files: Files, d: Path, n: string)
    requires n in Names(files, d)
    ensures d + [n] in files
  {
    var p :| p in files && |p| == |d| + 1 && d <= p && p[|d|] == n;
    assert p == d + [n];
  }

  method LandlockReadRoots(files: Files, rules: seq<Rule>, writable: seq<Path>) returns (roots: seq<Path>)
    requires [] in files && !files[[]].Link?
    ensures forall g :: g in roots <==> GrantedFrom(files, rules, writable, [], g)
  {
    roots := Visit(files, rules, writable, []);
  }

  method Visit(files: Files, rules: seq<Rule>, writable: seq<Path>, entry: Path) returns (roots: seq<Path>)
    requires entry in files && !files[entry].Link?
    ensures forall g :: g in roots <==> GrantedFrom(files, rules, writable, entry, g)
    decreases if Nested(rules, entry) then Depth(rules) - |entry| else 0, 1
  {
    hide Readable, LinkGranted;
    roots := [];
    if CoveredByWritable(writable, entry) {
      NotOpened(files, rules, writable, entry);
      return;
    }
    if !Nested(rules, entry) {
      NotOpened(files, rules, writable, entry);
      if Readable(rules, entry) {
        roots := [entry];
      }
      return;
    }
    if files[entry] != Folder(true) {
      NotOpened(files, rules, writable, entry);
      return;
    }
    NestedIsShallow(rules, entry);
    roots := VisitChildren(files, rules, writable, entry);
  }

  // Where the walk does not go on, only the entry itself can be granted.
  lemma NotOpened(files: Files, rules: seq<Rule>, writable: seq<Path>, entry: Path)
    requires entry in files && !files[entry].Link? && !Open(files, rules, writable, entry)
    ensures forall g :: GrantedFrom(files, rules, writable, entry, g) <==> g == entry && EntryGranted(rules, writable, entry)
  {
    hide Readable, LinkGranted, Open, EntryGranted;
    forall g | GrantedFrom(files, rules, writable, entry, g) ensures g == entry {
      assert g[..|entry|] == entry;
    }
    assert entry[..|entry|] == entry;
  }

  method VisitChildren(files: Files, rules: seq<Rule>, writable: seq<Path>, entry: Path) returns (roots: seq<Path>)
    requires Open(files, rules, writable, entry) && |entry| < Depth(rules)
    ensures forall g :: g in roots <==> GrantedFrom(files, rules, writable, entry, g)
    decreases Depth(rules) - |entry|, 0
  {
    hide Readable, LinkGranted, Open, EntryGranted, GrantedFrom;
    roots := [];
    var names, done := Names(files, entry), {};
    while names != {}
      invariant names !! done && names + done == Names(files, entry)
      invariant forall g :: g in roots <==> GrantedThrough(files, rules, writable, entry, done, g)
      decreases names
    {
      var name :| name in names;
      NameIsEntry(files, entry, name);
      var child := entry + [name];
      var more := [];
      ChildIsShallower(rules, entry, child);
      if files[child].Link? {
        LinkChild(files, rules, writable, entry, child);
        if LinkGranted(files, rules, child) {
          more := [child];
        }
      } else {
        more := Visit(files, rules, writable, child);
      }
      ThroughOneMore(files, rules, writable, entry, done, name, roots, more);
      names, done := names - {name}, done + {name};
      roots := roots + more;
    }
    ThroughAll(files, rules, writable, entry);
  }

  lemma ChildIsShallower(rules: seq<Rule>, entry: Path, child: Path)
    requires |child| == |entry| + 1 && |entry| < Depth(rules)
    ensures 0 <= (if Nested(rules, child) then Depth(rules) - |child| else 0) < Depth(rules) - |entry|
  {
    if Nested(rules, child) { NestedIsShallow(rules, child); }
  }

  /** Granted below `entry` through one of the named children: from the child on, or as a link at the child. */
  ghost predicate GrantedThrough(files: Files, rules: seq<Rule>, writable: seq<Path>, entry: Path, names: set<string>, g: Path) {
    entry < g && g[|entry|] in names && GrantedBelow(files, rules, writable, entry, g)
  }

  ghost predicate GrantedBelow(files: Files, rules: seq<Rule>, writable: seq<Path>, entry: Path, g: Path)
    requires entry < g
  {
    var child := g[..|entry| + 1];
    child in files && if files[child].Link? then g == child && LinkGranted(files, rules, g)
                      else GrantedFrom(files, rules, writable, child, g)
  }

  lemma LinkChild(files: Files, rules: seq<Rule>, writable: seq<Path>, entry: Path, child: Path)
    requires child in files && files[child].Link? && |child| == |entry| + 1 && entry <= child
    ensures forall g :: child <= g ==> (GrantedBelow(files, rules, writable, entry, g) <==> g == child && LinkGranted(files, rules, child))
  {
    hide Readable, LinkGranted;
    forall g | child <= g
      ensures GrantedBelow(files, rules, writable, entry, g) <==> g == child && LinkGranted(files, rules, child)
    {
      assert g[..|child|] == child;
    }
  }

  lemma ThroughOneMore(files: Files, rules: seq<Rule>, writable: seq<Path>, entry: Path, done: set<string>, name: string,
                       roots: seq<Path>, more: seq<Path>)
    requires entry + [name] in files
    requires forall g :: g in roots <==> GrantedThrough(files, rules, writable, entry, done, g)
    requires var child := entry + [name];
             if files[child].Link? then more == if LinkGranted(files, rules, child) then [child] else []
             else forall g :: g in more <==> GrantedFrom(files, rules, writable, child, g)
    ensures forall g :: g in roots + more <==> GrantedThrough(files, rules, writable, entry, done + {name}, g)
  {
    hide LinkGranted, Open, EntryGranted;
    var child := entry + [name];
    forall g ensures g in more <==> entry < g && g[|entry|] == name && GrantedBelow(files, rules, writable, entry, g) {
      if entry < g && g[|entry|] == name {
        assert g[..|child|] == child;
      }
      if g in more { assert child <= g && g[|entry|] == child[|entry|]; }
    }
    assert forall g :: g in roots + more <==> g in roots || g in more;
  }

  lemma ThroughAll(files: Files, rules: seq<Rule>, writable: seq<Path>, entry: Path)
    requires Open(files, rules, writable, entry)
    ensures forall g :: GrantedThrough(files, rules, writable, entry, Names(files, entry), g)
                        <==> GrantedFrom(files, rules, writable, entry, g)
  {
    forall g ensures GrantedThrough(files, rules, writable, entry, Names(files, entry), g)
                     <==> GrantedFrom(files, rules, writable, entry, g) {
      OneStepDown(files, rules, writable, entry, g);
    }
  }

  lemma OneStepDown(files: Files, rules: seq<Rule>, writable: seq<Path>, entry: Path, g: Path)
    requires Open(files, rules, writable, entry)
    ensures GrantedThrough(files, rules, writable, entry, Names(files, entry), g)
            <==> GrantedFrom(files, rules, writable, entry, g)
  {
    hide Readable, LinkGranted, GrantedFrom, GrantedThrough;
    if GrantedFrom(files, rules, writable, entry, g) {
      DownThroughChild(files, rules, writable, entry, g);
    }
    if GrantedThrough(files, rules, writable, entry, Names(files, entry), g) {
      UpFromChild(files, rules, writable, entry, g);
    }
  }

  lemma DownThroughChild(files: Files, rules: seq<Rule>, writable: seq<Path>, entry: Path, g: Path)
    requires Open(files, rules, writable, entry) && GrantedFrom(files, rules, writable, entry, g)
    ensures GrantedThrough(files, rules, writable, entry, Names(files, entry), g)
  {
    hide Readable, LinkGranted;
    assert g[..|g|] == g;
    assert entry < g by { assert g == entry ==> !EntryGranted(rules, writable, g); }
    var child := g[..|entry| + 1];
    assert |child| == |g| ==> child == g;
    assert |child| < |g| ==> Open(files, rules, writable, g[..|child|]);
    assert child in files && |child| == |entry| + 1 && entry <= child && child[|entry|] == g[|entry|];
    assert GrantedBelow(files, rules, writable, entry, g);
  }

  lemma UpFromChild(files: Files, rules: seq<Rule>, writable: seq<Path>, entry: Path, g: Path)
    requires Open(files, rules, writable, entry) && GrantedThrough(files, rules, writable, entry, Names(files, entry), g)
    ensures GrantedFrom(files, rules, writable, entry, g)
  {
    hide Readable, LinkGranted, EntryGranted, Open;
    var child := g[..|entry| + 1];
    forall k | |entry| <= k < |g| ensures Open(files, rules, writable, g[..k]) {
      if k == |entry| { assert g[..k] == entry; }
    }
  }

  // ---------- What the granted roots mean ----------

  /** Two paths with the same covering rules have the same decision. */
  lemma {:induction false} SameCoverSameDecision(rules: seq<Rule>, p: Path, q: Path)
    requires forall r :: r in rules ==> (IsWithin(p, r.path) <==> IsWithin(q, r.path))
    ensures Readable(rules, p) == Readable(rules, q)
  {
    if rules != [] && !IsWithin(p, rules[|rules| - 1].path) {
      SameCoverSameDecision(rules[..|rules| - 1], p, q);
    }
  }

  /** Below a path that holds no rule, everything is decided as the path itself. */
  lemma DecidedAsAbove(rules: seq<Rule>, p: Path, below: Path)
    requires !Nested(rules, p) && p <= below
    ensures Readable(rules, below) == Readable(rules, p)
  {
    forall r | r in rules ensures IsWithin(p, r.path) <==> IsWithin(below, r.path) {
      assert !IsStrictlyWithin(r.path, p);
      if IsWithin(below, r.path) { HeadsAreNested(r.path, p, below); }
    }
    SameCoverSameDecision(rules, below, p);
  }

  /** Landlock lets nothing be read that the rules hide: not below a granted entry, not below a granted link's target. */
  lemma GrantsAreReadable(files: Files, rules: seq<Rule>, writable: seq<Path>, g: Path, t: Path)
    requires GrantedFrom(files, rules, writable, [], g)
    requires if files[g].Link? then files[g].target.Some? && files[g].target.value <= t else g <= t
    ensures Readable(rules, t)
  {
    DecidedAsAbove(rules, if files[g].Link? then files[g].target.value else g, t);
  }

  /** The path is reached from the root through listable directories only, no link on the way or at the end. */
  ghost predicate ReachedPlainly(files: Files, t: Path) {
    && t in files && !files[t].Link?
    && forall k :: 0 <= k < |t| ==> t[..k] in files && files[t[..k]] == Folder(true)
  }

  ghost predicate Granted(files: Files, rules: seq<Rule>, writable: seq<Path>, t: Path) {
    exists g :: GrantedFrom(files, rules, writable, [], g) && !files[g].Link? && g <= t
  }

  /** On paths reached plainly and left to the walk, a root covers exactly what is readable and holds no rule. */
  lemma GrantedExactlyWhenReadable(files: Files, rules: seq<Rule>, writable: seq<Path>, t: Path)
    requires ReachedPlainly(files, t) && !CoveredByWritable(writable, t)
    ensures Granted(files, rules, writable, t) <==> Readable(rules, t) && !Nested(rules, t)
  {
    if Granted(files, rules, writable, t) {
      var g :| GrantedFrom(files, rules, writable, [], g) && !files[g].Link? && g <= t;
      GrantsAreReadable(files, rules, writable, g, t);
      forall r | r in rules ensures !IsStrictlyWithin(r.path, t) {
        if IsStrictlyWithin(r.path, t) { assert IsStrictlyWithin(r.path, g); }
      }
    } else if Readable(rules, t) && !Nested(rules, t) {
      var k := FirstWithoutRules(rules, t);
      var g := t[..k];
      DecidedAsAbove(rules, g, t);
      assert !files[g].Link? by { if k == |t| { assert g == t; } }
      forall j | 0 <= j <= k ensures !CoveredByWritable(writable, t[..j]) { AboveUncovered(writable, t, j); }
      forall j | 0 <= j < k ensures Open(files, rules, writable, g[..j]) {
        assert g[..j] == t[..j];
      }
      assert GrantedFrom(files, rules, writable, [], g);
    }
  }

  lemma AboveUncovered(writable: seq<Path>, t: Path, j: int)
    requires !CoveredByWritable(writable, t) && 0 <= j <= |t|
    ensures !CoveredByWritable(writable, t[..j])
  {
    if root :| root in writable && IsWithin(t[..j], root) {
      assert IsWithin(t, root);
    }
  }

  lemma FirstWithoutRules(rules: seq<Rule>, t: Path) returns (k: nat)
    requires !Nested(rules, t)
    ensures k <= |t| && !Nested(rules, t[..k]) && forall j :: 0 <= j < k ==> Nested(rules, t[..j])
  {
    assert t[..|t|] == t;
    k := 0;
    while Nested(rules, t[..k])
      invariant k <= |t| && forall j :: 0 <= j < k ==> Nested(rules, t[..j])
      decreases |t| - k
    {
      k := k + 1;
    }
  }

  /** No granted root lies inside another. */
  lemma RootsFormAntichain(files: Files, rules: seq<Rule>, writable: seq<Path>, g: Path, h: Path)
    requires GrantedFrom(files, rules, writable, [], g) && GrantedFrom(files, rules, writable, [], h) && g <= h
    ensures g == h
  {
    assert h[..|g|] == g;
  }
}
