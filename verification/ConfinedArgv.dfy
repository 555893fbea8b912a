/**
 Rewriting the command line of the platform's sandbox runner (apps/server/src/command-confinement.ts:157-200), and what
 the extended command may read. A Seatbelt profile is its list of forms; paths are already split into segments.
 */
module ConfinedArgv {
  import opened Wrappers
  import opened Confinement
  import opened Landlock

  datatype Arg = Word(text: string) | At(path: Path) | Profile(forms: seq<Form>)

  /** The base name of the runner. */
  datatype Runner = SandboxExec | Bwrap | LandlockRun | OtherRunner

  const SEPARATOR := Word("--")
  const PROFILE_FLAG := Word("-p")

  datatype Grant = Grant(flag: string, path: Path)

  const EVERYTHING := Grant("--ro", [])

  function IndexOf(args: seq<Arg>, a: Arg): (r: Option<nat>)
    ensures r.Some? ==> r.value < |args| && args[r.value] == a && a !in args[..r.value]
    ensures r.None? ==> a !in args
  {
    if args == [] then None
    else if args[0] == a then Some(0)
    else
      var rest := IndexOf(args[1..], a);
      if rest.None? then None
      else
        assert args[..rest.value + 1] == [args[0]] + args[1..][..rest.value];
        Some(rest.value + 1)
  }

  // ---------- Landlock arguments ----------

  /** Pairs of a flag and a path. */
  predicate Paired(args: seq<Arg>) {
    |args| % 2 == 0 && forall i :: 0 <= i < |args| ==> if i % 2 == 0 then args[i].Word? else args[i].At?
  }

  function Grants(args: seq<Arg>): seq<Grant>
    requires Paired(args)
  {
    if args == [] then [] else [Grant(args[0].text, args[1].path)] + Grants(args[2..])
  }

  function Spelled(grants: seq<Grant>): (r: seq<Arg>)
    ensures Paired(r)
  {
    if grants == [] then [] else [Word(grants[0].flag), At(grants[0].path)] + Spelled(grants[1..])
  }

  /** Everything but the grant to read the whole file system. */
  function Kept(grants: seq<Grant>): seq<Grant> {
    if grants == [] then [] else (if grants[0] == EVERYTHING then [] else [grants[0]]) + Kept(grants[1..])
  }

  function Writable(grants: seq<Grant>): seq<Path> {
    if grants == [] then [] else (if grants[0].flag == "--rw" then [grants[0].path] else []) + Writable(grants[1..])
  }

  function ReadGrants(roots: seq<Path>): seq<Grant> {
    if roots == [] then [] else [Grant("--ro", roots[0])] + ReadGrants(roots[1..])
  }

  lemma {:induction false} GrantsOfSpelled(grants: seq<Grant>)
    ensures Grants(Spelled(grants)) == grants
  {
    if grants != [] {
      GrantsOfSpelled(grants[1..]);
      assert Spelled(grants)[2..] == Spelled(grants[1..]);
    }
  }

  lemma PairedParts(args: seq<Arg>, i: nat)
    requires Paired(args) && i <= |args| && i % 2 == 0
    ensures Paired(args[..i]) && Paired(args[i..])
  {
    var rest := args[i..];
    forall j | 0 <= j < |rest| ensures if j % 2 == 0 then rest[j].Word? else rest[j].At? {
      assert rest[j] == args[i + j] && (i + j) % 2 == j % 2;
    }
  }

  lemma {:induction false} GrantsSplit(args: seq<Arg>, i: nat)
    requires Paired(args) && i <= |args| && i % 2 == 0
    ensures Paired(args[..i]) && Paired(args[i..]) && Grants(args) == Grants(args[..i]) + Grants(args[i..])
  {
    hide Paired;
    PairedParts(args, i);
    if i == 0 {
      assert args[0..] == args && args[..0] == [];
    } else {
      PairedParts(args, 2);
      GrantsSplit(args[2..], i - 2);
      assert args[2..][..i - 2] == args[..i][2..] && args[2..][i - 2..] == args[i..];
    }
  }

  lemma {:induction false} KeptSplit(a: seq<Grant>, b: seq<Grant>)
    ensures Kept(a + b) == Kept(a) + Kept(b)
  {
    if a == [] {
      assert a + b == b;
    } else {
      hide Kept;
      assert (a + b)[1..] == a[1..] + b;
      KeptSplit(a[1..], b);
      KeptOfFirst(a);
      KeptOfFirst(a + b);
    }
  }

  lemma KeptOfFirst(grants: seq<Grant>)
    requires grants != []
    ensures Kept(grants) == (if grants[0] == EVERYTHING then [] else [grants[0]]) + Kept(grants[1..])
  {
  }

  lemma {:induction false} WritableSplit(a: seq<Grant>, b: seq<Grant>)
    ensures Writable(a + b) == Writable(a) + Writable(b)
  {
    if a == [] {
      assert a + b == b;
    } else {
      hide Writable;
      assert (a + b)[1..] == a[1..] + b;
      WritableSplit(a[1..], b);
      WritableOfFirst(a);
      WritableOfFirst(a + b);
    }
  }

  lemma WritableOfFirst(grants: seq<Grant>)
    requires grants != []
    ensures Writable(grants) == (if grants[0].flag == "--rw" then [grants[0].path] else []) + Writable(grants[1..])
  {
  }

  lemma {:induction false} SpelledSplit(a: seq<Grant>, b: seq<Grant>)
    ensures Spelled(a + b) == Spelled(a) + Spelled(b)
  {
    if a == [] {
      assert a + b == b;
    } else {
      assert (a + b)[1..] == a[1..] + b;
      SpelledSplit(a[1..], b);
    }
  }

  lemma OneMoreGrant(profile: seq<Arg>, i: nat)
    requires Paired(profile) && i + 1 < |profile| && i % 2 == 0
    ensures Paired(profile[..i]) && Paired(profile[..i + 2])
    ensures var g := Grant(profile[i].text, profile[i + 1].path);
            var before, after := Grants(profile[..i]), Grants(profile[..i + 2]);
            && Kept(after) == (if g == EVERYTHING then Kept(before) else Kept(before) + [g])
            && Writable(after) == (if g.flag == "--rw" then Writable(before) + [g.path] else Writable(before))
  {
    GrantsSplit(profile, i);
    GrantsSplit(profile, i + 2);
    GrantsSplit(profile[..i + 2], i);
    assert profile[..i + 2][..i] == profile[..i];
    assert profile[..i + 2][i..] == [profile[i], profile[i + 1]];
    var g := Grant(profile[i].text, profile[i + 1].path);
    assert Grants([profile[i], profile[i + 1]]) == [g];
    KeptSplit(Grants(profile[..i]), [g]);
    WritableSplit(Grants(profile[..i]), [g]);
  }

  /** Keeps every grant but the one for reading everything, and notes the writable roots. */
  method KeepGrants(profile: seq<Arg>) returns (kept: seq<Arg>, writable: seq<Path>)
    requires Paired(profile)
    ensures kept == Spelled(Kept(Grants(profile))) && writable == Writable(Grants(profile))
  {
    hide Grants, Kept, Writable, Spelled;
    kept, writable := [], [];
    var index := 0;
    NothingKept(profile);
    while index < |profile|
      invariant index <= |profile| && index % 2 == 0 && Paired(profile[..index])
      invariant kept == Spelled(Kept(Grants(profile[..index]))) && writable == Writable(Grants(profile[..index]))
    {
      var g := Grant(profile[index].text, profile[index + 1].path);
      OneMoreGrant(profile, index);
      if g != EVERYTHING {
        if profile[index].text == "--rw" {
          writable := writable + [profile[index + 1].path];
        }
        OneSpelled(Kept(Grants(profile[..index])), g);
        kept := kept + [profile[index], profile[index + 1]];
      } else {
        EverythingIsNoWrite();
      }
      index := index + 2;
    }
    assert profile[..|profile|] == profile;
  }

  lemma NothingKept(profile: seq<Arg>)
    ensures Paired(profile[..0])
    ensures Spelled(Kept(Grants(profile[..0]))) == [] && Writable(Grants(profile[..0])) == []
  {
  }

  lemma EverythingIsNoWrite()
    ensures EVERYTHING.flag != "--rw"
  {
    assert "--ro"[3] != "--rw"[3];
  }

  lemma OneSpelled(grants: seq<Grant>, g: Grant)
    ensures Spelled(grants + [g]) == Spelled(grants) + [Word(g.flag), At(g.path)]
  {
    SpelledSplit(grants, [g]);
    assert Spelled([g]) == [Word(g.flag), At(g.path)] + Spelled([]);
  }

  // ---------- bwrap arguments ----------

  function Worded(tokens: seq<Token>): seq<Arg> {
    if tokens == [] then []
    else [if tokens[0].Flag? then Word(tokens[0].name) else At(tokens[0].path)] + Worded(tokens[1..])
  }

  /** Arguments as bwrap reads them. */
  function Tokens(args: seq<Arg>): seq<Token> {
    if args == [] then []
    else (match args[0]
          case Word(text) => [Flag(text)]
          case At(path) => [Operand(path)]
          case Profile(_) => []) + Tokens(args[1..])
  }

  lemma {:induction false} TokensOfWorded(tokens: seq<Token>)
    ensures Tokens(Worded(tokens)) == tokens
  {
    if tokens != [] {
      TokensOfWorded(tokens[1..]);
      assert Worded(tokens)[1..] == Worded(tokens[1..]);
    }
  }

  lemma {:induction false} WordsOfTokens(tokens: seq<Token>, name: string)
    ensures Word(name) in Worded(tokens) <==> Flag(name) in tokens
  {
    if tokens != [] { WordsOfTokens(tokens[1..], name); }
  }

  /** Added behind bwrap's own arguments they show what the rules say, and cut the network off exactly when it can and shall be. */
  ghost predicate ConfinesBwrap(rules: seq<Rule>, workspace: Path, workspaceWrite: bool, network: bool, networkControl: bool, added: seq<Arg>) {
    && (Word("--unshare-net") in added <==> networkControl && !network)
    && forall t :: ShowsAsRuled(rules, workspace, workspaceWrite, Mounts(Tokens(added)), t)
  }

  lemma BwrapArgsConfine(rules: seq<Rule>, workspace: Path, workspaceWrite: bool, network: bool, networkControl: bool)
    ensures ConfinesBwrap(rules, workspace, workspaceWrite, network, networkControl,
                          Worded(BwrapArgs(rules, workspace, workspaceWrite, network || !networkControl)))
  {
    hide BwrapArgs, ShowsAsRuled, Worded, Tokens;
    var args := BwrapArgs(rules, workspace, workspaceWrite, network || !networkControl);
    UnsharesExactly(rules, workspace, workspaceWrite, network || !networkControl);
    WordsOfTokens(args, "--unshare-net");
    TokensOfWorded(args);
    forall t ensures ShowsAsRuled(rules, workspace, workspaceWrite, Mounts(args), t) {
      BwrapShowsReadable(rules, workspace, workspaceWrite, network || !networkControl, t);
    }
  }

  /** The forms added to a Seatbelt profile mean what the rules say, for data, metadata, sockets, signals and the network. */
  ghost predicate ConfinesSeatbelt(rules: seq<Rule>, network: bool, forms: seq<Form>) {
    && ReadsFirst(rules, forms) && CutsOff(forms, network)
    && (forall t :: DataReadable(forms, t) == Readable(rules, t))
    && (forall t :: MetadataReadable(forms, t) == (Readable(rules, t) || AboveReadRoot(rules, t)))
    && (forall t :: SocketDenied(forms, t) <==> exists r :: r in rules && !r.allow && IsWithin(t, r.path))
  }

  // ---------- The rewrite ----------

  /** Whatever stands behind `-p` is a profile. */
  predicate ProfileFollows(args: seq<Arg>) {
    var at := IndexOf(args, PROFILE_FLAG);
    at.Some? && at.value + 1 < |args| ==> args[at.value + 1].Profile?
  }

  /** The runner's own part and the command behind the separator; nothing when there is no runner. */
  function Split(argv: seq<Arg>): (r: Option<(seq<Arg>, seq<Arg>)>)
    ensures r.Some? ==> argv != [] && argv == [argv[0]] + r.value.0 + r.value.1 && SEPARATOR !in r.value.0
                        && r.value.1 != [] && r.value.1[0] == SEPARATOR
    ensures r.None? <==> SEPARATOR !in argv || argv[0] == SEPARATOR
  {
    var at := IndexOf(argv, SEPARATOR);
    if at.None? || at.value < 1 then None
    else
      assert argv == [argv[0]] + argv[1..at.value] + argv[at.value..];
      Some((argv[1..at.value], argv[at.value..]))
  }

  method ExtendConfinedArgv(argv: seq<Arg>, runner: Runner, rules: seq<Rule>, workspace: Path, workspaceWrite: bool,
                            network: bool, networkControl: bool, files: Files) returns (r: seq<Arg>)
    requires [] in files && !files[[]].Link?
    requires runner.LandlockRun? && Split(argv).Some? ==> Paired(Split(argv).value.0)
    requires runner.SandboxExec? && Split(argv).Some? ==> ProfileFollows(Split(argv).value.0)
    ensures Split(argv).None? || runner.OtherRunner? ==> r == argv
    ensures Split(argv).Some? && runner.SandboxExec? ==>
      var (profile, command) := Split(argv).value;
      var at := IndexOf(profile, PROFILE_FLAG);
      if at.None? || at.value + 1 >= |profile| then r == argv
      else
        exists forms ::
          && ConfinesSeatbelt(rules, network, forms)
          && r == [argv[0]] + profile[at.value + 1 := Profile(profile[at.value + 1].forms + forms)] + command
    ensures Split(argv).Some? && runner.Bwrap? ==>
      var (profile, command) := Split(argv).value;
      exists added ::
        && ConfinesBwrap(rules, workspace, workspaceWrite, network, networkControl, added)
        && r == [argv[0]] + profile + added + command
    ensures Split(argv).Some? && runner.LandlockRun? ==>
      var (profile, command) := Split(argv).value;
      exists roots ::
        && IsWalk(files, rules, Writable(Grants(profile)), roots)
        && r == [argv[0]] + Spelled(ReadGrants(roots) + Kept(Grants(profile))) + command
  {
    hide ReadsFirst, CutsOff, ConfinesBwrap, BwrapArgs, Worded, Grants, Kept, Writable, Spelled, ReadGrants, IndexOf, SEPARATOR, PROFILE_FLAG, Split;
    var parts := Split(argv);
    if parts.None? { return argv; }
    var (profile, command) := parts.value;
    match runner {
      case SandboxExec =>
        var at := IndexOf(profile, PROFILE_FLAG);
        if at.None? || at.value + 1 >= |profile| { return argv; }
        var forms := SeatbeltForms(rules, network);
        assert ConfinesSeatbelt(rules, network, forms);
        r := [argv[0]] + profile[at.value + 1 := Profile(profile[at.value + 1].forms + forms)] + command;
      case Bwrap =>
        BwrapArgsConfine(rules, workspace, workspaceWrite, network, networkControl);
        r := [argv[0]] + profile + Worded(BwrapArgs(rules, workspace, workspaceWrite, network || !networkControl)) + command;
      case LandlockRun =>
        var kept, writable := KeepGrants(profile);
        var roots := LandlockReadRoots(files, rules, writable);
        SpelledSplit(ReadGrants(roots), Kept(Grants(profile)));
        assert IsWalk(files, rules, writable, roots);
        r := [argv[0]] + (Spelled(ReadGrants(roots)) + kept) + command;
      case OtherRunner => return argv;
    }
  }

  /** The roots the walk finds. */
  ghost predicate IsWalk(files: Files, rules: seq<Rule>, writable: seq<Path>, roots: seq<Path>) {
    forall g :: g in roots <==> GrantedFrom(files, rules, writable, [], g)
  }

  // ---------- What the extended command may read ----------

  /** Seatbelt: a path some rule covers is decided by the rules, any other as the runner's own profile says. */
  lemma {:induction false} RulesOverrideTheProfile(rules: seq<Rule>, own: seq<Form>, forms: seq<Form>, t: Path)
    requires ReadsFirst(rules, forms)
    ensures DataReadable(own + forms, t) ==
            if Deciding(rules, t).Some? then Deciding(rules, t).value.allow else DataReadable(own, t)
  {
    if |forms| > 0 {
      var init := forms[..|forms| - 1];
      assert (own + forms)[..|own + forms| - 1] == own + init;
      if |rules| < |forms| {
        RulesOverrideTheProfile(rules, own, init, t);
      } else {
        RulesOverrideTheProfile(rules[..|rules| - 1], own, init, t);
      }
    } else {
      assert own + forms == own;
    }
  }

  /** bwrap: the same, with the runner's own mounts below those of the rules. */
  lemma {:induction false} RulesMountOnTop(own: seq<Mount>, mounts: seq<Mount>, t: Path)
    ensures Top(own + mounts, t) == if Top(mounts, t).Some? then Top(mounts, t) else Top(own, t)
  {
    if mounts == [] {
      assert own + mounts == own;
    } else {
      assert (own + mounts)[..|own + mounts| - 1] == own + mounts[..|mounts| - 1];
      RulesMountOnTop(own, mounts[..|mounts| - 1], t);
    }
  }

  lemma {:induction false} ReadGrantsHold(roots: seq<Path>, g: Grant)
    ensures g in ReadGrants(roots) <==> g.flag == "--ro" && g.path in roots
  {
    if roots != [] { ReadGrantsHold(roots[1..], g); }
  }

  lemma {:induction false} KeptHold(grants: seq<Grant>, g: Grant)
    ensures g in Kept(grants) <==> g in grants && g != EVERYTHING
  {
    if grants != [] { KeptHold(grants[1..], g); }
  }

  lemma {:induction false} WritableHold(grants: seq<Grant>, p: Path)
    ensures p in Writable(grants) <==> Grant("--rw", p) in grants
  {
    if grants != [] { WritableHold(grants[1..], p); }
  }

  /** What a granted path opens: everything below it, or below what it leads to when it is a link. */
  predicate Opens(files: Files, g: Path, t: Path) {
    g in files && if files[g].Link? then files[g].target.Some? && files[g].target.value <= t else g <= t
  }

  /** Some grant, for reading or for writing, opens the path. */
  ghost predicate Reads(files: Files, grants: seq<Grant>, t: Path) {
    exists g :: g in grants && (g.flag == "--ro" || g.flag == "--rw") && Opens(files, g.path, t)
  }

  ghost predicate OpenedForWriting(files: Files, own: seq<Grant>, t: Path) {
    exists p :: p in Writable(own) && Opens(files, p, t)
  }

  /** The runner granted reading everything and writing some paths. */
  predicate OwnGrants(own: seq<Grant>) {
    forall g :: g in own ==> g == EVERYTHING || g.flag == "--rw"
  }

  lemma ExtendedGrants(own: seq<Grant>, roots: seq<Path>)
    requires OwnGrants(own)
    ensures forall g :: g in ReadGrants(roots) + Kept(own) <==>
              (g.flag == "--ro" && g.path in roots) || (g.flag == "--rw" && g.path in Writable(own))
  {
    forall g ensures g in ReadGrants(roots) + Kept(own) <==>
                       (g.flag == "--ro" && g.path in roots) || (g.flag == "--rw" && g.path in Writable(own)) {
      ReadGrantsHold(roots, g);
      KeptHold(own, g);
      WritableHold(own, g.path);
      EverythingIsNoWrite();
    }
  }

  /**
   Landlock, for every path whatever: when the runner granted reading everything and writing some paths, then after the
   rewrite only what those paths open can still be read, and what the rules allow and holds no rule. That includes
   whatever a granted link leads to.
   */
  lemma OnlyAllowedIsRead(files: Files, rules: seq<Rule>, own: seq<Grant>, roots: seq<Path>, t: Path)
    requires OwnGrants(own) && IsWalk(files, rules, Writable(own), roots)
    requires Reads(files, ReadGrants(roots) + Kept(own), t)
    ensures OpenedForWriting(files, own, t) || (Readable(rules, t) && !Nested(rules, t))
  {
    hide GrantedFrom;
    ExtendedGrants(own, roots);
    var all := ReadGrants(roots) + Kept(own);
    var g :| g in all && (g.flag == "--ro" || g.flag == "--rw") && Opens(files, g.path, t);
    if g.path !in Writable(own) {
      assert GrantedFrom(files, rules, Writable(own), [], g.path);
      GrantsAreReadable(files, rules, Writable(own), g.path, t);
      GrantHoldsNoRule(files, rules, Writable(own), g.path, t);
    }
  }

  lemma GrantHoldsNoRule(files: Files, rules: seq<Rule>, writable: seq<Path>, g: Path, t: Path)
    requires GrantedFrom(files, rules, writable, [], g) && Opens(files, g, t)
    ensures !Nested(rules, t)
  {
    var top := if files[g].Link? then files[g].target.value else g;
    forall r | r in rules ensures !IsStrictlyWithin(r.path, t) {
      if IsStrictlyWithin(r.path, t) { assert IsStrictlyWithin(r.path, top); }
    }
  }

  /** Every writable path stays so, and nothing else becomes writable. */
  lemma WritableStays(own: seq<Grant>, roots: seq<Path>)
    requires OwnGrants(own)
    ensures forall p :: Grant("--rw", p) in ReadGrants(roots) + Kept(own) <==> Grant("--rw", p) in own
  {
    ExtendedGrants(own, roots);
    EverythingIsNoWrite();
    forall p ensures p in Writable(own) <==> Grant("--rw", p) in own { WritableHold(own, p); }
  }

  /**
   And a path reached without links can be read exactly when one of those paths opens it, or the rules let it be read and
   none lies inside it.
   */
  lemma ExtendedLandlockReads(files: Files, rules: seq<Rule>, own: seq<Grant>, roots: seq<Path>, t: Path)
    requires ReachedPlainly(files, t) && OwnGrants(own) && IsWalk(files, rules, Writable(own), roots)
    ensures Reads(files, ReadGrants(roots) + Kept(own), t) <==>
            OpenedForWriting(files, own, t) || (Readable(rules, t) && !Nested(rules, t))
    ensures forall p :: Grant("--rw", p) in ReadGrants(roots) + Kept(own) <==> Grant("--rw", p) in own
  {
    WritableStays(own, roots);
    ExtendedGrants(own, roots);
    var all := ReadGrants(roots) + Kept(own);
    if Reads(files, all, t) { OnlyAllowedIsRead(files, rules, own, roots, t); }
    if p :| p in Writable(own) && (Opens(files, p, t) || IsWithin(t, p)) {
      PlainAncestor(files, p, t);
      assert Grant("--rw", p) in all;
    } else if Readable(rules, t) && !Nested(rules, t) {
      GrantedExactlyWhenReadable(files, rules, Writable(own), t);
      var g :| GrantedFrom(files, rules, Writable(own), [], g) && !files[g].Link? && g <= t;
      assert Grant("--ro", g) in all;
    }
  }

  /** Nothing above a path reached plainly is a link, so a grant there opens the path. */
  lemma PlainAncestor(files: Files, p: Path, t: Path)
    requires ReachedPlainly(files, t)
    ensures IsWithin(t, p) ==> Opens(files, p, t)
  {
    if IsWithin(t, p) {
      assert p == t[..|p|];
      if |p| == |t| { assert p == t; }
    }
  }
}
