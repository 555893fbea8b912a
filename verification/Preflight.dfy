/**
 The checks before a data-directory move (apps/desktop/src/data-move-plan.ts:257-314) and what they give the protocol:
 the plan they let through is one it can be undone and finished from.
 */
module Preflight {
  import opened Wrappers
  import opened FileTrees
  import opened MovePlan
  import opened DataMove
  import opened JsonPaths

  datatype Location = Local | Network | Synchronized(provider: string)

  /** In the order they are looked for. */
  datatype Problem =
    | NotAbsolute
    | SameDirectory
    | InsideSource
    | ContainsSource
    | NotDirectory
    | NotEmpty
    | OnNetwork
    | InSync(provider: string)
    | NotWritable
    | InsufficientSpace(required: nat, available: nat)
    | PathTooLong(longest: nat)

  /** `Threw` is an error that is none of the problems. */
  datatype Checked = Refused(problem: Problem) | Threw | Planned(plan: Plan, files: nat)

  /**
   A move as asked for: both directories by their resolved paths and the trees below them, and what the system says of
   the target. The text lengths are those of the two paths.
   */
  datatype Proposal = Proposal(
    sourceRoot: Path,
    source: Tree,
    targetRoot: Path,
    target: Tree,
    absolute: bool,
    ancestorIsDirectory: bool,
    location: Location,
    writable: bool,
    sameDevice: bool,
    available: nat,
    windows: bool,
    sourceLength: nat,
    targetLength: nat,
    links: Links)
  {
    function How(): Method {
      if sameDevice then Move else Copy
    }
  }

  const LONGEST_WINDOWS_PATH := 260

  /** A tenth more than is copied, rounded up. */
  function RequiredBytes(bytes: nat): (r: nat)
    ensures 11 * bytes <= 10 * r < 11 * bytes + 10
  {
    (bytes * 11 + 9) / 10
  }

  /** What the move takes along from below all units. */
  ghost function Taken(m: Proposal): Tree {
    map p | p in m.source && (exists u :: IsUnit(m.source, u) && u <= p) && !(m.How().Copy? && IsRebuildable(p)) :: m.source[p]
  }

  ghost predicate Objects(m: Proposal, problem: Problem) {
    match problem
    case NotAbsolute => !m.absolute
    case SameDirectory => m.sourceRoot == m.targetRoot
    case InsideSource => m.sourceRoot <= m.targetRoot
    case ContainsSource => m.targetRoot <= m.sourceRoot
    case NotDirectory => if [] in m.target then !m.target[[]].Dir? else !m.ancestorIsDirectory
    case NotEmpty => [] in m.target && !OnlyIgnorable(m.target)
    case OnNetwork => m.location == Network
    case InSync(provider) => m.location == Synchronized(provider)
    case NotWritable => !m.writable
    case InsufficientSpace(required, available) =>
      m.How().Copy? && available == m.available < required == RequiredBytes(TotalBytes(Taken(m)))
    case PathTooLong(longest) =>
      && m.windows && m.sourceLength < m.targetLength && LONGEST_WINDOWS_PATH < longest
      && m.targetLength + 1 <= longest && Longest(Taken(m), longest - m.targetLength - 1)
  }

  function Rank(problem: Problem): nat {
    match problem
    case NotAbsolute => 0
    case SameDirectory => 1
    case InsideSource => 2
    case ContainsSource => 3
    case NotDirectory => 4
    case NotEmpty => 5
    case OnNetwork => 6
    case InSync(_) => 7
    case NotWritable => 8
    case InsufficientSpace(_, _) => 9
    case PathTooLong(_) => 10
  }

  /** Nothing speaks against the move before the problems of this rank. */
  ghost predicate ClearBefore(m: Proposal, rank: nat) {
    forall problem :: Objects(m, problem) ==> rank <= Rank(problem)
  }

  /** Looking for the target below something that is no directory: an error, but on Windows, where it is just missing. */
  predicate CannotLook(m: Proposal) {
    [] !in m.target && !m.ancestorIsDirectory && !m.windows
  }

  predicate OnlyIgnorable(target: Tree) {
    forall p :: p in target && p != [] ==> p[0] in IGNORABLE
  }

  lemma NamesAreIgnorable(target: Tree)
    requires Closed(target)
    ensures Children(target, []) <= IGNORABLE <==> OnlyIgnorable(target)
  {
    hide IGNORABLE;
    if Children(target, []) <= IGNORABLE {
      forall p | p in target && p != [] ensures p[0] in IGNORABLE {
        ChildBelow(target, [], p);
        assert p[0] in Children(target, []);
      }
    }
    if OnlyIgnorable(target) {
      forall name | name in Children(target, []) ensures name in IGNORABLE {
        var p :| p in target && |p| == 1 && p[0] == name;
      }
    }
  }

  lemma CarriedIsTaken(m: Proposal, units: seq<Path>)
    requires forall p :: p in units <==> IsUnit(m.source, p)
    ensures CarriedByAll(m.source, units, m.How()) == Taken(m)
  {
    hide IsRebuildable, IsUnit;
    forall p ensures Covered(Roots(units), p) <==> exists u :: IsUnit(m.source, u) && u <= p {
      if u :| IsUnit(m.source, u) && u <= p { assert u in Roots(units); }
    }
  }

  lemma LongestIsUnique(t: Tree, m: nat, n: nat)
    requires Longest(t, m) && Longest(t, n)
    ensures m == n
  {
    hide Length;
  }

  /** The checks that do not look at the source. */
  method CheckTarget(m: Proposal) returns (r: Option<Checked>)
    requires Closed(m.target)
    ensures r.Some? ==> r.value.Threw? || (r.value.Refused? && Objects(m, r.value.problem) && ClearBefore(m, Rank(r.value.problem)))
    ensures r == Some(Threw) <==> ClearBefore(m, Rank(NotDirectory)) && CannotLook(m)
    ensures r.None? ==> ClearBefore(m, 9)
  {
    hide IGNORABLE, OnlyIgnorable, Children, Closed, Taken, Longest, RequiredBytes;
    var problem := CheckRoots(m);
    if problem.Some? { return Some(Refused(problem.value)); }
    if [] !in m.target && !m.ancestorIsDirectory && !m.windows { return Some(Threw); }
    NamesAreIgnorable(m.target);
    if [] in m.target {
      if !m.target[[]].Dir? { return Some(Refused(NotDirectory)); }
      if !(Children(m.target, []) <= IGNORABLE) { return Some(Refused(NotEmpty)); }
    } else if !m.ancestorIsDirectory {
      return Some(Refused(NotDirectory));
    }
    if m.location.Network? { return Some(Refused(OnNetwork)); }
    if m.location.Synchronized? { return Some(Refused(InSync(m.location.provider))); }
    if !m.writable { return Some(Refused(NotWritable)); }
    return None;
  }

  method CheckRoots(m: Proposal) returns (r: Option<Problem>)
    ensures r.Some? ==> Objects(m, r.value) && ClearBefore(m, Rank(r.value)) && Rank(r.value) < Rank(NotDirectory)
    ensures r.None? ==> ClearBefore(m, Rank(NotDirectory))
  {
    hide OnlyIgnorable, Taken, Longest, RequiredBytes;
    if !m.absolute { return Some(NotAbsolute); }
    if m.targetRoot <= m.sourceRoot && m.sourceRoot <= m.targetRoot { return Some(SameDirectory); }
    if m.sourceRoot <= m.targetRoot { return Some(InsideSource); }
    if m.targetRoot <= m.sourceRoot { return Some(ContainsSource); }
    return None;
  }

  /**
   The move is refused for the first thing that speaks against it, unless looking for it fails, and planned exactly when nothing does; the plan lists
   every unit once and sizes what it takes along.
   */
  method PreflightMove(m: Proposal) returns (r: Checked)
    requires Closed(m.source) && [] in m.source && Closed(m.target)
    ensures r.Planned? <==> forall problem :: !Objects(m, problem)
    ensures r.Refused? ==> Objects(m, r.problem) && ClearBefore(m, Rank(r.problem))
    ensures r.Threw? <==> ClearBefore(m, Rank(NotDirectory)) && CannotLook(m)
    ensures r.Planned? ==>
      && r.plan.source == m.source && r.plan.target == m.target && r.plan.how == m.How() && r.plan.links == m.links
      && Disjoint(r.plan.units) && (forall p :: p in r.plan.units <==> IsUnit(m.source, p))
      && r.plan.bytes == TotalBytes(CarriedByAll(m.source, r.plan.units, m.How())) == TotalBytes(Taken(m))
      && r.files == |Files(Taken(m))|
  {
    hide IGNORABLE, IsUnit, Taken, Files, Longest, Disjoint, RequiredBytes, CarriedByAll;
    var stopped := CheckTarget(m);
    if stopped.Some? {
      assert stopped == Some(Threw) ==> Objects(m, NotDirectory);
      return stopped.value;
    }
    var units := ListMoveUnits(m.source);
    var scan := ScanMove(m.source, units, m.How());
    CarriedIsTaken(m, units);
    if m.How().Copy? {
      var required := RequiredBytes(scan.bytes);
      if m.available < required {
        assert Objects(m, InsufficientSpace(required, m.available));
        return Refused(InsufficientSpace(required, m.available));
      }
    }
    SpaceSuffices(m, scan);
    if m.windows {
      // Moving to a longer path must not push a file beyond what the system takes.
      var longest := m.targetLength + 1 + scan.longest;
      if m.targetLength > m.sourceLength && longest > LONGEST_WINDOWS_PATH {
        assert Objects(m, PathTooLong(longest));
        return Refused(PathTooLong(longest));
      }
    }
    NothingTooLong(m, scan);
    r := Planned(Plan(m.source, m.target, m.How(), units, scan.bytes, m.links), scan.files);
  }

  lemma SpaceSuffices(m: Proposal, scan: Size)
    requires Sizes(Taken(m), scan) && ClearBefore(m, 9)
    requires m.How().Copy? ==> RequiredBytes(scan.bytes) <= m.available
    ensures ClearBefore(m, 10)
  {
    hide Taken, Longest, Files, RequiredBytes;
  }

  lemma NothingTooLong(m: Proposal, scan: Size)
    requires Sizes(Taken(m), scan) && ClearBefore(m, 10)
    requires m.windows && m.sourceLength < m.targetLength ==> m.targetLength + 1 + scan.longest <= LONGEST_WINDOWS_PATH
    ensures forall problem :: !Objects(m, problem)
  {
    hide Taken, Longest, Files;
    forall problem ensures !Objects(m, problem) {
      if Objects(m, problem) { LongestIsUnique(Taken(m), problem.longest - m.targetLength - 1, scan.longest); }
    }
  }

  /** Directories that passed share no entry, so one of the trees never changes with the other. */
  lemma PassedRootsShareNothing(sourceRoot: Path, targetRoot: Path, p: Path)
    requires !(sourceRoot <= targetRoot) && !(targetRoot <= sourceRoot)
    ensures !(sourceRoot <= p && targetRoot <= p)
  {
    if sourceRoot <= p && targetRoot <= p { HeadsAreNested(sourceRoot, targetRoot, p); }
  }

  /** The segments of a path, each behind a separator. */
  function Rendered(p: Path, sep: char): string {
    if p == [] then "" else [sep] + p[0] + Rendered(p[1..], sep)
  }

  /** A path as text. An absolute one starts with the segment "" or, on Windows, with that of its drive. */
  function Spelled(p: Path, sep: char): string
    requires p != []
  {
    Rendered(p, sep)[1..]
  }

  /** The length that the plan counts is that of the path as text. */
  lemma {:induction false} LengthIsSpelled(p: Path, sep: char)
    requires p != []
    ensures Length(p) == |Spelled(p, sep)|
  {
    RenderedParts(p, sep);
    if |p| > 1 {
      LengthIsSpelled(p[1..], sep);
      RenderedParts(p[1..], sep);
    } else {
      assert p[1..] == [];
    }
  }

  predicate Segments(p: Path, sep: char) {
    forall i, c :: 0 <= i < |p| && c in p[i] ==> c != sep && c != '/'
  }

  lemma RenderedParts(p: Path, sep: char)
    requires p != []
    ensures Rendered(p, sep) != "" && Rendered(p, sep)[0] == sep && Rendered(p, sep)[1..] == p[0] + Rendered(p[1..], sep)
    ensures Rendered(p[1..], sep) == "" || Rendered(p[1..], sep)[0] == sep
  {
    var head, rest := p[0], Rendered(p[1..], sep);
    assert Rendered(p, sep) == [sep] + head + rest == [sep] + (head + rest);
    assert p[1..] != [] ==> rest == [sep] + p[1..][0] + Rendered(p[1..][1..], sep);
  }

  lemma SegmentIsClean(p: Path, sep: char)
    requires p != [] && Segments(p, sep)
    ensures sep !in p[0] && '/' !in p[0]
    ensures Segments(p[1..], sep)
  {
  }

  /** Of two texts that start with a segment, one below the other: the segments are the same, and so it is with the rests. */
  lemma SameSegment(h: string, x: string, k: string, y: string, sep: char)
    requires sep !in h && '/' !in h && sep !in k && '/' !in k
    requires (x == "" || x[0] == sep) && (y == "" || y[0] == sep)
    requires Below(k + y, h + x, sep)
    ensures h == k && Below(y, x, sep)
  {
    var a, b := h + x, k + y;
    assert forall i :: 0 <= i < |h| ==> a[i] == h[i];
    assert forall i :: 0 <= i < |k| ==> b[i] == k[i];
    assert forall i :: 0 <= i < |a| ==> a[i] == b[i];
    assert forall i :: 0 <= i < |h| ==> h[i] != sep && h[i] != '/';
    assert forall i :: 0 <= i < |k| ==> k[i] != sep && k[i] != '/';
    assert |a| > |h| ==> a[|h|] == sep;
    assert |b| > |k| ==> b[|k|] == sep;
    assert |h| >= |k|;
    assert h == k;
    assert x == a[|h|..] && y == b[|h|..];
  }

  lemma SameHead(p: Path, q: Path, sep: char)
    requires p != [] && q != [] && Segments(p, sep) && Segments(q, sep) && Below(Rendered(q, sep), Rendered(p, sep), sep)
    ensures p[0] == q[0] && Below(Rendered(q[1..], sep), Rendered(p[1..], sep), sep)
    ensures Segments(p[1..], sep) && Segments(q[1..], sep)
  {
    hide Below, Rendered, Segments;
    RenderedParts(p, sep);
    RenderedParts(q, sep);
    SegmentIsClean(p, sep);
    SegmentIsClean(q, sep);
    BelowWithoutFirst(Rendered(p, sep), Rendered(q, sep), sep);
    SameSegment(p[0], Rendered(p[1..], sep), q[0], Rendered(q[1..], sep), sep);
  }

  lemma BelowWithoutFirst(a: string, b: string, sep: char)
    requires a != "" && b != "" && a[0] == b[0]
    ensures Below(b, a, sep) <==> Below(b[1..], a[1..], sep)
  {
    if a[1..] <= b[1..] {
      assert a == [a[0]] + a[1..] && b == [a[0]] + b[1..];
    }
  }

  lemma {:induction false} BelowMeansInside(p: Path, q: Path, sep: char)
    requires Segments(p, sep) && Segments(q, sep) && Below(Rendered(q, sep), Rendered(p, sep), sep)
    ensures p <= q
  {
    if p != [] {
      RenderedParts(p, sep);
      assert q != [];
      SameHead(p, q, sep);
      BelowMeansInside(p[1..], q[1..], sep);
    }
  }

  lemma SpelledBelow(p: Path, q: Path, sep: char)
    requires p != [] && q != [] && Below(Spelled(q, sep), Spelled(p, sep), sep)
    ensures Below(Rendered(q, sep), Rendered(p, sep), sep)
  {
    hide Below;
    RenderedParts(p, sep);
    RenderedParts(q, sep);
    BelowWithoutFirst(Rendered(p, sep), Rendered(q, sep), sep);
  }

  /**
   The data directories of roots that passed are unrelated as texts, whatever the separator, so rewriting the path records
   is steady.
   */
  lemma PassedRootsAreUnrelated(sourceRoot: Path, targetRoot: Path, sep: char)
    requires !(sourceRoot <= targetRoot) && !(targetRoot <= sourceRoot) && Segments(sourceRoot, sep) && Segments(targetRoot, sep)
    requires sep in {'/', '\\'}
    ensures Unrelated(Spelled(targetRoot + DATA, sep), Spelled(sourceRoot + DATA, sep), sep)
    ensures Steady([Spelled(sourceRoot + DATA, sep)], Spelled(targetRoot + DATA, sep), sep)
  {
    hide Below, Rendered, Steady, Spelled;
    var s, t := sourceRoot + DATA, targetRoot + DATA;
    assert forall c :: c in "data" ==> c !in {'/', '\\'};
    assert Segments(s, sep) && Segments(t, sep);
    if Below(Spelled(t, sep), Spelled(s, sep), sep) {
      SpelledBelow(s, t, sep);
      BelowMeansInside(s, t, sep);
      PrefixOfOneLonger(sourceRoot, targetRoot);
    }
    if Below(Spelled(s, sep), Spelled(t, sep), sep) {
      SpelledBelow(t, s, sep);
      BelowMeansInside(t, s, sep);
      PrefixOfOneLonger(targetRoot, sourceRoot);
    }
    UnrelatedIsSteady([Spelled(s, sep)], Spelled(t, sep), sep);
  }

  lemma PrefixOfOneLonger(a: Path, b: Path)
    requires a + DATA <= b + DATA
    ensures a <= b
  {
    assert |a| <= |b| && a == (a + DATA)[..|a|] == (b + DATA)[..|a|] == b[..|a|];
  }

  /** No ignorable file of the target has a unit's name. */
  predicate NoUnitInTarget(source: Tree, target: Tree) {
    forall p :: p in source && |p| == 1 && p[0] in IGNORABLE ==> p !in target
  }

  /**
   What the checks let through is a plan the protocol's theorems hold for, unless the source itself has an ignorable file
   that the target has too, which the checks do not look at.
   */
  lemma PassedPlansAreAdmissible(m: Proposal, plan: Plan)
    requires plan.source == m.source && plan.target == m.target && (forall problem :: !Objects(m, problem))
    requires Closed(plan.source) && [] in plan.source && Closed(plan.target)
    requires Disjoint(plan.units) && forall p :: p in plan.units <==> IsUnit(plan.source, p)
    requires NoUnitInTarget(plan.source, plan.target)
    ensures Admissible(plan)
  {
    hide IGNORABLE, IsUnit, Objects, NoUnitInTarget, OnlyIgnorable;
    TargetIsFree(m);
    UnitShapes(plan);
    AllIgnorable(plan.target);
    forall p | p in plan.target ensures !Covered(Roots(plan.units), p) {
      if u :| u in Roots(plan.units) && u <= p {
        UnitNotAbove(plan, u, p);
      }
    }
  }

  lemma TargetIsFree(m: Proposal)
    requires !Objects(m, NotDirectory) && !Objects(m, NotEmpty) && Closed(m.target)
    ensures [] in m.target ==> m.target[[]].Dir?
    ensures OnlyIgnorable(m.target)
  {
    hide IGNORABLE, Taken, Longest, RequiredBytes;
    if [] !in m.target { AbsentHoldsNothing(m.target); }
  }

  lemma AllIgnorable(target: Tree)
    requires OnlyIgnorable(target)
    ensures forall p :: p in target && p != [] ==> p[0] in IGNORABLE
  {
  }

  lemma UnitShapes(plan: Plan)
    requires forall p :: p in plan.units <==> IsUnit(plan.source, p)
    ensures forall u :: u in plan.units ==> u in plan.source && 1 <= |u| <= 2 && (|u| == 2 ==> DATA <= u)
  {
    hide IGNORABLE, IsPathRecord, IsLock;
    assert |DATA| == 1;
    forall u | u in plan.units && |u| == 2 ensures DATA <= u {
      assert u[..1] == DATA;
    }
  }

  lemma AbsentHoldsNothing(target: Tree)
    requires Closed(target) && [] !in target
    ensures target == map[]
  {
    if target != map[] {
      var p :| p in target;
      AncestorsPresent(target, p, []);
    }
  }

  /** Below `data` the target has nothing, and of the top-level entries it has none that the source has. */
  lemma UnitNotAbove(plan: Plan, u: Path, p: Path)
    requires Closed(plan.target) && OnlyIgnorable(plan.target) && NoUnitInTarget(plan.source, plan.target)
    requires IsUnit(plan.source, u) && p in plan.target
    ensures !(u <= p)
  {
    hide IGNORABLE, IsLock;
    DataIsNotIgnorable();
    if |u| == 2 {
      assert u[..1][0] == DATA[0];
    } else if u <= p {
      AncestorsPresent(plan.target, p, u);
    }
  }

  /** A marker left by an earlier move lies in a unit, so it travels along. */
  lemma OldMarkerIsCarried(plan: Plan)
    requires Closed(plan.source) && forall p :: p in plan.units <==> IsUnit(plan.source, p)
    requires MARKER in plan.source
    ensures Covered(Roots(plan.units), MARKER)
  {
    hide IsLock;
    assert MARKER[..1] == DATA && MARKER[..2] == HOST_DIR && HOST_DIR[..1] == DATA;
    assert HOST_DIR[1][0] == 'h' && BACKUPS[1][0] == 'b';
    AncestorsPresent(plan.source, MARKER, DATA);
    AncestorsPresent(plan.source, MARKER, HOST_DIR);
    assert HOST_DIR[1] != BACKUPS[1];
    assert IsUnit(plan.source, HOST_DIR);
    assert HOST_DIR in Roots(plan.units) && HOST_DIR <= MARKER;
  }
}
