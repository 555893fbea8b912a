/**
 The state of a data-directory move: the two trees, the journal record, and what each stage of the protocol has
 done to them (apps/desktop/src/data-move.ts). Everything here is pure; `Desktop.dfy` runs the protocol.

 Assumptions, all about the moment the record is written: no unit name exists in the target and the target holds
 at most ignorable files; every unit is an entry of the source.
 */
module DataMove {
  import opened Wrappers
  import opened FileTrees
  import opened MovePlan
  import opened JsonPaths

  datatype Phase = Requested | Moving | Switched | Completed | Failed

  datatype Rewrite = Rewrite(file: Path, original: string)

  datatype Record = Record(
    phase: Phase,
    how: Method,
    units: seq<Path>,
    bytes: nat,
    createdTarget: Option<bool>,
    rewrites: Option<seq<Rewrite>>)
  {
    function Entries(): seq<Rewrite> {
      if rewrites.Some? then rewrites.value else []
    }

    function WithoutRewrites(): Record {
      this.(rewrites := None)
    }
  }

  datatype Root = Source | Target

  const MARKER: Path := ["data", "host", "data-root-moved.json"]
  const HOST_DIR: Path := ["data", "host"]
  const DSH: Path := ["data", "dsh"]
  const SESSION_STORAGE: Path := ["data", "dsh", "session-storage.json"]
  const RESET_MARKER: Path := ["data", "sessions.sqlite.nekro-nxt-reset-required.json"]
  const ARCHIVES: Path := ["data", "dsh", "session-archives"]
  const IGNORABLE: set<string> := {".DS_Store", "Thumbs.db", "desktop.ini", ".localized"}

  /** Files whose content names the old data root. */
  predicate IsPathRecord(p: Path) {
    p == SESSION_STORAGE || p == RESET_MARKER || (|p| == 5 && p[..3] == ARCHIVES && p[4] == "manifest.json")
  }

  /** Directories a path record is looked for in. */
  predicate OnTheWay(p: Path) {
    p == DATA || p == DSH || p == ARCHIVES || (|p| == 4 && p[..3] == ARCHIVES)
  }

  predicate HasDataUnit(units: seq<Path>) {
    exists u :: u in units && DATA < u
  }

  /**
   The text of a JSON file and back, the check of a database file, whether the location file can be written, and the names
   the move writes: libraries, facts and strings the move is given.
   */
  datatype Host = Host(
    parse: string -> Option<Json>,
    render: Json -> string,
    sound: Node -> bool,
    switches: bool,
    prefixes: seq<string>,
    replacement: string,
    sep: char,
    marker: string)
  {
    function Update(text: string): Option<string> {
      match parse(text)
      case None => None
      case Some(v) => Some(render(JsonPaths.Rewrite(v, prefixes, replacement, sep)))
    }
  }

  /**
   The world behind symbolic links, by what a link says: the text of the file there, if it can be read; whether path
   records behind a linked directory can all be found, read and rewritten; whether the marker can be written behind one,
   and whether it can be removed there.
   */
  datatype Links = Links(
    text: string -> Option<string>,
    records: string -> bool,
    takesMarker: string -> bool,
    losesMarker: string -> bool)
  {
    /** What reading an entry as a file gives. */
    function Text(node: Node): Option<string> {
      match node
      case File(t) => Some(t)
      case Link(to) => text(to)
      case _ => None
    }
  }

  /** Both trees, the unit list and the planned bytes as they are when the move is requested. */
  datatype Plan = Plan(source: Tree, target: Tree, how: Method, units: seq<Path>, bytes: nat, links: Links)

  ghost predicate Admissible(plan: Plan) {
    && Closed(plan.source) && [] in plan.source
    && Disjoint(plan.units)
    && (forall u :: u in plan.units ==> u in plan.source && 1 <= |u| <= 2 && (|u| == 2 ==> DATA <= u))
    && Closed(plan.target) && ([] in plan.target ==> plan.target[[]].Dir?)
    && (forall p :: p in plan.target && p != [] ==> p[0] in IGNORABLE)
    && (forall p :: p in plan.target ==> !Covered(Roots(plan.units), p))
  }

  // ---------- What may be where before the switch ----------

  /** Directories the move itself creates in the target. */
  predicate Scaffold(plan: Plan, p: Path) {
    p == [] || (HasDataUnit(plan.units) && (p == DATA || p == HOST_DIR))
  }

  ghost predicate SourceOk(plan: Plan, source: Tree, away: set<Path>) {
    && (forall p :: p in source ==> p in plan.source && source[p] == plan.source[p] && !Covered(away, p))
    && (forall p :: p in plan.source && !Covered(away, p) && p != MARKER ==> p in source)
    && (plan.how.Copy? ==> source == plan.source)
  }

  /** Where the move may put entries: below a unit already renamed, or below any unit while copying. */
  ghost function Receiving(plan: Plan, away: set<Path>): set<Path> {
    if plan.how.Move? then away else Roots(plan.units)
  }

  ghost predicate TargetOk(plan: Plan, target: Tree, away: set<Path>, dirty: set<Path>) {
    && (forall p :: p in plan.target ==> p in target && target[p] == plan.target[p])
    && (forall p :: p in target && p !in plan.target ==> Added(plan, target[p], away, p))
    && (forall p :: p in plan.source && p != MARKER && Covered(away, p)
          ==> p in target && (p !in dirty ==> target[p] == plan.source[p]))
  }

  ghost predicate Added(plan: Plan, node: Node, away: set<Path>, p: Path) {
    || p == MARKER
    || (Scaffold(plan, p) && node.Dir?)
    || (Covered(Receiving(plan, away), p) && (plan.how.Move? ==> p in plan.source))
  }

  /** Every journaled original is what the file read as before the move. */
  ghost predicate JournalOk(plan: Plan, r: Record) {
    forall e :: e in r.Entries() ==> IsOriginal(plan, e)
  }

  ghost predicate IsOriginal(plan: Plan, e: Rewrite) {
    IsPathRecord(e.file) && e.file in plan.source && plan.links.Text(plan.source[e.file]) == Some(e.original)
  }

  ghost predicate Journals(r: Record, p: Path) {
    exists e :: e in r.Entries() && e.file == p
  }

  ghost predicate CreatedOk(plan: Plan, r: Record, target: Tree) {
    && ([] in target && [] !in plan.target ==> r.createdTarget == Some(true))
    && (r.createdTarget == Some(true) ==> [] !in plan.target)
  }

  /** A record from which the move can be undone when the trees are as given and `dirty` files were rewritten. */
  ghost predicate RecordOk(plan: Plan, r: Record, source: Tree, target: Tree, dirty: set<Path>) {
    && r.how == plan.how && r.units == plan.units && r.bytes == plan.bytes
    && r.phase in {Requested, Moving}
    && (r.phase == Requested ==> source == plan.source && target == plan.target)
    && JournalOk(plan, r)
    && (forall p :: p in dirty ==> Journals(r, p))
    && CreatedOk(plan, r, target)
  }

  /** The plan once a path record has been put back from the journal: a regular file, whatever it was. */
  function PutBack(plan: Plan, e: Rewrite): Plan {
    plan.(source := plan.source[e.file := File(e.original)])
  }

  /** Nothing but linked path records of a move by renaming differs: they are regular files with the text they led to. */
  ghost predicate Flattens(original: Plan, plan: Plan) {
    && plan == original.(source := plan.source)
    && plan.source.Keys == original.source.Keys
    && forall p :: p in plan.source && plan.source[p] != original.source[p] ==> Flattened(original, p, plan.source[p])
  }

  ghost predicate Flattened(original: Plan, p: Path, node: Node)
    requires p in original.source
  {
    && original.how.Move? && IsPathRecord(p) && original.source[p].Link?
    && node.File? && original.links.Text(original.source[p]) == Some(node.text)
  }

  /** The trees after an undo: as before the move, except that a stale marker of an earlier move may be gone. */
  ghost predicate BackHome(plan: Plan, source: Tree, target: Tree) {
    && target == plan.target
    && (source == plan.source || (plan.how.Move? && MARKER in plan.source && source == plan.source - {MARKER}))
  }

  /** The one source tree undoing can end in, from wherever it starts. */
  function Undone(plan: Plan, source: Tree): Tree {
    if MARKER in plan.source && MARKER !in source then plan.source - {MARKER} else plan.source
  }

  // ---------- What a finished move leaves ----------

  /** The target once its directories exist, before anything is transferred. */
  function Prepared(plan: Plan): Tree {
    plan.target + map[[] := Dir] + if HasDataUnit(plan.units) then map[DATA := Dir] else map[]
  }

  ghost function Copied(source: Tree, p: Path): Tree {
    map q | q in Carried(source, p, Copy) && !source[q].Other? :: source[q]
  }

  /** What the transfer brings: every entry below a unit, and for a copy only what is not rebuildable. */
  ghost function Delivered(plan: Plan): Tree {
    map p | p in plan.source && Covered(Roots(plan.units), p)
      && (plan.how.Copy? ==> !IsRebuildable(p) && !plan.source[p].Other?) :: plan.source[p]
  }

  function Updated(plan: Plan, host: Host, node: Node): Node {
    var text := plan.links.Text(node);
    if text.Some? && host.Update(text.value).Some? then File(host.Update(text.value).value) else node
  }

  /** The marker goes behind a link where `data/host` is one. */
  ghost predicate MarkerElsewhere(t: Tree) {
    HOST_DIR in t && t[HOST_DIR].Link?
  }

  /** The tree a completed move leaves in the target. */
  ghost function Arrived(plan: Plan, host: Host): Tree {
    Prepared(plan)
    + (map p | p in Delivered(plan) :: if IsPathRecord(p) then Updated(plan, host, Delivered(plan)[p]) else Delivered(plan)[p])
    + if HasDataUnit(plan.units) && !MarkerElsewhere(Delivered(plan)) then map[HOST_DIR := Dir, MARKER := File(host.marker)] else map[]
  }

  ghost function LeftBehind(plan: Plan): Tree {
    if plan.how.Move? then Without(plan.source, Roots(plan.units)) else plan.source
  }

  // ---------- The same, entry by entry ----------

  /** The entry is taken along: it lies below a unit, and a copy does not leave it out. */
  ghost predicate Travels(plan: Plan, p: Path) {
    && p in plan.source && (exists u :: u in plan.units && u <= p)
    && (plan.how.Copy? ==> !IsRebuildable(p) && !plan.source[p].Other?)
  }

  /** What reading an entry gives: its own text, or that of the file a link leads to. */
  predicate ReadsAs(links: Links, node: Node, text: string) {
    node == File(text) || (node.Link? && links.text(node.to) == Some(text))
  }

  lemma TextIsWhatItReadsAs(links: Links, node: Node)
    ensures forall text :: links.Text(node) == Some(text) <==> ReadsAs(links, node, text)
  {
  }

  /** A path record in the target: its text read as JSON, renewed, and written as a file of its own. */
  ghost predicate RecordRenewed(plan: Plan, host: Host, p: Path, node: Node)
    requires p in plan.source
  {
    exists text, v, w ::
      && ReadsAs(plan.links, plan.source[p], text) && host.parse(text) == Some(v)
      && Renewed(v, w, host.prefixes, host.replacement, host.sep) && node == File(host.render(w))
  }

  /**
   What a completed move is for. Everything that travels is in the target as it was, but for the path records, which name
   the new root; what the target had is still there; the marker stands; there is nothing else.
   */
  ghost predicate HasMoved(plan: Plan, host: Host, target: Tree) {
    && Closed(target)
    && (forall p :: p in plan.target ==> p in target && target[p] == plan.target[p])
    && (forall p :: Travels(plan, p) && !IsPathRecord(p) && p != MARKER ==> p in target && target[p] == plan.source[p])
    && (forall p :: Travels(plan, p) && IsPathRecord(p) ==> p in target && RecordRenewed(plan, host, p, target[p]))
    && (HasDataUnit(plan.units) && !(HOST_DIR in target && target[HOST_DIR].Link?) ==> MARKER in target && target[MARKER] == File(host.marker))
    && (forall p :: p in target ==> p in plan.target || Travels(plan, p) || p == [] || (HasDataUnit(plan.units) && p in {DATA, HOST_DIR, MARKER}))
  }

  /** What a completed move leaves: everything after a copy, and what travelled nowhere after a move. */
  ghost predicate HasLeft(plan: Plan, source: Tree) {
    && (forall p :: p in source ==> p in plan.source && source[p] == plan.source[p])
    && (forall p :: p in plan.source ==> (p in source <==> plan.how.Copy? || forall u :: u in plan.units ==> !(u <= p)))
  }

  // ---------- Names ----------
  // The proofs below only need how the fixed paths are nested, so they hide the literals.

  lemma FixedPaths()
    ensures |DATA| == 1 && |HOST_DIR| == 2 && |MARKER| == 3
    ensures DATA < HOST_DIR < MARKER
  {
  }

  lemma PathRecordNames(p: Path)
    requires IsPathRecord(p)
    ensures DATA < p && p != MARKER && p != HOST_DIR
  {
    assert SESSION_STORAGE[1][0] == 'd' && HOST_DIR[1][0] == 'h';
    assert |RESET_MARKER[1]| != |HOST_DIR[1]|;
    if |p| == 5 && p[..3] == ARCHIVES { assert p[..3][0] == "data"; }
  }

  lemma DataIsNotIgnorable()
    ensures DATA[0] !in IGNORABLE
  {
    assert "data"[0] == 'd' && "data"[1] == 'a' && "desktop.ini"[1] == 'e';
    assert ".DS_Store"[0] == '.' && "Thumbs.db"[0] == 'T' && ".localized"[0] == '.';
  }

  // An ignorable entry of the target is not below `data`.
  lemma TargetAvoidsData(plan: Plan, p: Path)
    requires Admissible(plan) && p in plan.target
    ensures !(DATA <= p) && p != MARKER && p != HOST_DIR && !IsPathRecord(p)
  {
    hide DATA, HOST_DIR, MARKER, IGNORABLE, IsPathRecord;
    DataIsNotIgnorable();
    FixedPaths();
    if IsPathRecord(p) { PathRecordNames(p); }
  }

  lemma RootIsDirectory(plan: Plan)
    requires Admissible(plan)
    ensures [] in plan.target ==> plan.target[[]].Dir?
  {
  }

  lemma NotBothUnits(plan: Plan, u: Path, v: Path)
    requires Admissible(plan) && u in plan.units && v in plan.units && u <= v
    ensures u == v
  {
    var i :| 0 <= i < |plan.units| && plan.units[i] == u;
    var j :| 0 <= j < |plan.units| && plan.units[j] == v;
  }

  lemma UnitNames(plan: Plan, u: Path)
    requires Admissible(plan) && u in plan.units
    ensures u != [] && u != MARKER && u in plan.source
    ensures HasDataUnit(plan.units) ==> u != DATA
    ensures |u| == 2 ==> HasDataUnit(plan.units) && DATA in plan.source && !Covered(Roots(plan.units), DATA)
  {
    hide DATA, MARKER, HOST_DIR, IGNORABLE, IsPathRecord, Disjoint;
    FixedPaths();
    if HasDataUnit(plan.units) {
      var v :| v in plan.units && DATA < v;
      if u == DATA { NotBothUnits(plan, u, v); }
    }
    if |u| == 2 {
      AncestorsPresent(plan.source, u, DATA);
      forall v | v in Roots(plan.units) ensures !(v <= DATA) {
        if v <= DATA { NotBothUnits(plan, v, u); }
      }
    }
  }

  // ---------- Renaming a unit there and back ----------

  ghost predicate Renamed(plan: Plan, source: Tree, target: Tree, away: set<Path>) {
    && source == Without(plan.source, away)
    && target == Prepared(plan) + Within(plan.source, away)
  }

  /** Nothing of the target is in the way: a unit's entries are disjoint from the prepared directories. */
  lemma PreparedIsClear(plan: Plan, u: Path, p: Path)
    requires Admissible(plan) && u in plan.units && u <= p
    ensures p !in Prepared(plan)
  {
    hide DATA, MARKER, HOST_DIR, IGNORABLE, IsPathRecord, Disjoint, HasDataUnit;
    UnitNames(plan, u);
    FixedPaths();
    assert u in Roots(plan.units);
    assert Covered(Roots(plan.units), p);
    assert p == DATA ==> u == DATA by { if p == DATA { assert 1 <= |u| <= |DATA|; } }
  }

  lemma RenameAway(plan: Plan, source: Tree, target: Tree, away: set<Path>, u: Path)
    requires Admissible(plan) && Renamed(plan, source, target, away)
    requires away <= Roots(plan.units) && u in plan.units && u !in away
    ensures u in source
    ensures Renamed(plan, source - Under(source, u).Keys, target + Under(source, u), away + {u})
  {
    hide Admissible, Prepared, MARKER, DATA, HasDataUnit;
    forall p | u <= p ensures !Covered(away, p) {
      if v :| v in away && v <= p {
        HeadsAreNested(u, v, p);
        if u <= v { NotBothUnits(plan, u, v); } else { NotBothUnits(plan, v, u); }
      }
    }
    UnitNames(plan, u);
    forall p ensures Covered(away + {u}, p) <==> Covered(away, p) || u <= p {
      CoveredByOneMore(away, u, p);
    }
    OneUnitMoves(plan.source, away, u);
    MovedTogether(Prepared(plan), Within(plan.source, away), Under(plan.source, u));
  }

  lemma MovedTogether(a: Tree, b: Tree, c: Tree)
    ensures (a + b) + c == a + (b + c)
  {
  }

  lemma OneUnitMoves(t: Tree, away: set<Path>, u: Path)
    requires forall p :: Covered(away + {u}, p) <==> Covered(away, p) || u <= p
    requires forall p :: u <= p ==> !Covered(away, p)
    ensures Under(Without(t, away), u) == Under(t, u)
    ensures Without(t, away + {u}) == Without(t, away) - Under(t, u).Keys
    ensures Within(t, away + {u}) == Within(t, away) + Under(t, u)
  {
    hide Covered;
  }

  lemma RenamedIsUndoable(plan: Plan, source: Tree, target: Tree, away: set<Path>)
    requires Admissible(plan) && plan.how.Move? && away <= Roots(plan.units) && Renamed(plan, source, target, away)
    ensures SourceOk(plan, source, away) && TargetOk(plan, target, away, {})
  {
    hide DATA, MARKER, HOST_DIR, Admissible, HasDataUnit, Prepared;
    forall p | p in plan.source && Covered(away, p) ensures p !in Prepared(plan) {
      var u :| u in away && u <= p;
      PreparedIsClear(plan, u, p);
    }
    PreparedKeepsTarget(plan);
  }

  lemma PreparedKeepsTarget(plan: Plan)
    requires Admissible(plan)
    ensures forall p :: p in plan.target ==> p in Prepared(plan) && Prepared(plan)[p] == plan.target[p]
    ensures forall p :: p in Prepared(plan) && p !in plan.target ==> Scaffold(plan, p) && Prepared(plan)[p].Dir?
  {
    hide DATA, MARKER, HOST_DIR, HasDataUnit, Admissible;
    FixedPaths();
    RootIsDirectory(plan);
    forall p | p in plan.target ensures p != DATA { TargetAvoidsData(plan, p); }
  }

  /** Bringing one unit home again, once its files hold their originals. */
  lemma RenameHome(plan: Plan, source: Tree, target: Tree, away: set<Path>, u: Path)
    requires Admissible(plan) && plan.how.Move? && away <= Roots(plan.units) && u in away
    requires SourceOk(plan, source, away) && TargetOk(plan, target, away, {}) && MARKER !in target
    ensures SourceOk(plan, source + Under(target, u), away - {u})
    ensures TargetOk(plan, target - Under(target, u).Keys, away - {u}, {})
  {
    hide DATA, MARKER, HOST_DIR, Admissible, Covered, HasDataUnit, SourceOk, TargetOk;
    forall p ensures Covered(away, p) <==> Covered(away - {u}, p) || u <= p
             ensures u <= p ==> !Covered(away - {u}, p) {
      assert away == (away - {u}) + {u} && u in plan.units;
      CoveredByOneMore(away - {u}, u, p);
      if u <= p { OnlyUnitAbove(plan, away, u, p); }
    }
    forall p | p in target && u <= p ensures p in plan.source && target[p] == plan.source[p] && p !in plan.target {
      HomeboundEntry(plan, target, away, u, p);
    }
    SourceGains(plan, source, target, away, u);
    TargetLoses(plan, target, away, u);
  }

  lemma SourceGains(plan: Plan, source: Tree, target: Tree, away: set<Path>, u: Path)
    requires plan.how.Move? && u in away
    requires SourceOk(plan, source, away) && TargetOk(plan, target, away, {})
    requires forall p :: Covered(away, p) <==> Covered(away - {u}, p) || u <= p
    requires forall p :: u <= p ==> !Covered(away - {u}, p)
    requires forall p :: p in target && u <= p ==> p in plan.source && target[p] == plan.source[p]
    ensures SourceOk(plan, source + Under(target, u), away - {u})
  {
    hide MARKER, Covered, Added;
  }

  lemma TargetLoses(plan: Plan, target: Tree, away: set<Path>, u: Path)
    requires plan.how.Move? && u in away && TargetOk(plan, target, away, {})
    requires forall p :: Covered(away, p) <==> Covered(away - {u}, p) || u <= p
    requires forall p :: u <= p ==> !Covered(away - {u}, p)
    requires forall p :: p in target && u <= p ==> p !in plan.target
    ensures TargetOk(plan, target - Under(target, u).Keys, away - {u}, {})
  {
    hide MARKER, Covered, Scaffold;
  }

  lemma OnlyUnitAbove(plan: Plan, away: set<Path>, u: Path, p: Path)
    requires Admissible(plan) && away <= Roots(plan.units) && u in plan.units && u <= p
    ensures !Covered(away - {u}, p)
  {
    if v :| v in away - {u} && v <= p {
      HeadsAreNested(u, v, p);
      if u <= v { NotBothUnits(plan, u, v); } else { NotBothUnits(plan, v, u); }
    }
  }

  lemma HomeboundEntry(plan: Plan, target: Tree, away: set<Path>, u: Path, p: Path)
    requires Admissible(plan) && plan.how.Move? && away <= Roots(plan.units) && u in away && u <= p
    requires TargetOk(plan, target, away, {}) && MARKER !in target && p in target
    ensures p in plan.source && target[p] == plan.source[p] && p !in plan.target
  {
    hide Admissible, DATA, MARKER, HOST_DIR, IGNORABLE, Scaffold;
    assert u in Roots(plan.units) && Covered(Roots(plan.units), p) && Covered(away, p);
    UnitsClear(plan, p);
    if Scaffold(plan, p) { ScaffoldIsCarried(plan, u, p); }
  }

  lemma UnitsClear(plan: Plan, p: Path)
    requires Admissible(plan) && Covered(Roots(plan.units), p)
    ensures p !in plan.target
  {
    hide Covered;
  }

  /** A directory of the move that lies at or below a unit is an entry of the source. */
  lemma ScaffoldIsCarried(plan: Plan, u: Path, p: Path)
    requires Admissible(plan) && u in plan.units && u <= p && Scaffold(plan, p)
    ensures p in plan.source
  {
    hide DATA, MARKER, HOST_DIR, IsPathRecord, IGNORABLE, Disjoint, HasDataUnit;
    FixedPaths();
    UnitNames(plan, u);
    // The unit is not `data` when another lies in it, so it is the directory itself.
    assert u == p[..|u|] && 1 <= |u| && HOST_DIR[..1] == DATA;
    assert DATA[..1] == DATA && HOST_DIR[..2] == HOST_DIR;
    assert u == p;
  }

  // ---------- Single changes of the target ----------

  lemma WithoutMarker(plan: Plan, target: Tree, away: set<Path>, dirty: set<Path>)
    requires Admissible(plan) && TargetOk(plan, target, away, dirty)
    ensures TargetOk(plan, target - {MARKER}, away, dirty)
  {
    hide DATA, MARKER, HOST_DIR, Admissible, Covered, HasDataUnit;
    forall p | p in plan.target ensures p != MARKER { TargetAvoidsData(plan, p); }
  }

  lemma WithMarker(plan: Plan, target: Tree, away: set<Path>, dirty: set<Path>, node: Node)
    requires Admissible(plan) && TargetOk(plan, target, away, dirty)
    ensures TargetOk(plan, target[MARKER := node], away, dirty)
  {
    hide DATA, MARKER, HOST_DIR, Admissible, Covered, HasDataUnit;
    forall p | p in plan.target ensures p != MARKER { TargetAvoidsData(plan, p); }
  }

  lemma WithScaffold(plan: Plan, target: Tree, away: set<Path>, dirty: set<Path>, p: Path)
    requires Admissible(plan) && TargetOk(plan, target, away, dirty) && Scaffold(plan, p) && p !in target
    ensures TargetOk(plan, target[p := Dir], away, dirty)
  {
    hide DATA, MARKER, HOST_DIR, Admissible, Covered, Scaffold;
  }

  /** Entries below units may come and go while copying; the source side does not depend on them. */
  lemma WithCopied(plan: Plan, target: Tree, dirty: set<Path>, p: Path, node: Node)
    requires Admissible(plan) && plan.how.Copy? && TargetOk(plan, target, {}, dirty) && Covered(Roots(plan.units), p)
    ensures TargetOk(plan, target[p := node], {}, dirty) && TargetOk(plan, target - {p}, {}, dirty)
    ensures p != [] && p !in plan.target
  {
    hide DATA, MARKER, HOST_DIR, Scaffold, IsPathRecord, IGNORABLE, Closed, Disjoint;
  }

  lemma WithRewritten(plan: Plan, target: Tree, away: set<Path>, dirty: set<Path>, p: Path, node: Node)
    requires Admissible(plan) && TargetOk(plan, target, away, dirty) && IsPathRecord(p) && p in target
    ensures TargetOk(plan, target[p := node], away, dirty + {p})
    ensures p != []
  {
    hide DATA, MARKER, HOST_DIR, Admissible, Covered, HasDataUnit, IsPathRecord;
    FixedPaths();
    PathRecordNames(p);
    forall q | q in plan.target ensures q != p { TargetAvoidsData(plan, q); }
  }

  /** Putting a path record back where the move has it. From then on it counts as the original, link or not. */
  lemma WithOriginal(plan: Plan, target: Tree, away: set<Path>, dirty: set<Path>, e: Rewrite)
    requires Admissible(plan) && TargetOk(plan, target, away, dirty) && IsPathRecord(e.file) && e.file in plan.source
    ensures e.file in target ==> TargetOk(PutBack(plan, e), target[e.file := File(e.original)], away, dirty - {e.file})
    ensures e.file !in target ==> TargetOk(plan, target, away, dirty - {e.file})
    ensures e.file != []
  {
    hide DATA, MARKER, HOST_DIR, Admissible, Covered, HasDataUnit, IsPathRecord;
    FixedPaths();
    PathRecordNames(e.file);
    forall q | q in plan.target ensures q != e.file { TargetAvoidsData(plan, q); }
  }

  /** A path record in the target is one the move brought, so the source has no such entry. */
  lemma PathRecordIsAway(plan: Plan, target: Tree, away: set<Path>, dirty: set<Path>, p: Path)
    requires Admissible(plan) && plan.how.Move? && TargetOk(plan, target, away, dirty) && IsPathRecord(p) && p in target
    ensures Covered(away, p)
  {
    hide DATA, MARKER, HOST_DIR, Admissible, Covered, HasDataUnit, IsPathRecord;
    FixedPaths();
    PathRecordNames(p);
    if p in plan.target { TargetAvoidsData(plan, p); }
  }

  lemma PutBackKeepsSource(plan: Plan, source: Tree, away: set<Path>, e: Rewrite)
    requires SourceOk(plan, source, away) && plan.how.Move? && e.file in plan.source && Covered(away, e.file)
    ensures SourceOk(PutBack(plan, e), source, away)
  {
    hide MARKER, Covered;
  }

  lemma PutBackStaysAdmissible(plan: Plan, e: Rewrite)
    requires Admissible(plan) && IsOriginal(plan, e)
    ensures Admissible(PutBack(plan, e))
  {
    hide IsPathRecord, Covered, Disjoint, IGNORABLE, DATA;
    var after := PutBack(plan, e);
    assert !plan.source[e.file].Dir?;
    forall p | p in after.source && |p| > 0 ensures p[..|p| - 1] in after.source && after.source[p[..|p| - 1]].Dir? {
      assert p[..|p| - 1] in plan.source && plan.source[p[..|p| - 1]].Dir?;
    }
  }

  lemma PutBackKeepsRecord(plan: Plan, r: Record, source: Tree, target: Tree, dirty: set<Path>, e: Rewrite)
    requires RecordOk(plan, r, source, target, dirty) && r.phase == Moving && IsOriginal(plan, e)
    ensures RecordOk(PutBack(plan, e), r, source, target, dirty)
  {
    hide IsPathRecord, Journals;
    var after := PutBack(plan, e);
    forall f | f in r.Entries() ensures IsOriginal(after, f) {
      assert IsOriginal(plan, f);
    }
  }

  lemma PutBackFlattens(original: Plan, plan: Plan, e: Rewrite)
    requires Flattens(original, plan) && plan.how.Move? && IsOriginal(plan, e)
    ensures Flattens(original, PutBack(plan, e))
  {
    hide IsPathRecord;
  }

  lemma RecordStays(plan: Plan, r: Record, source: Tree, target: Tree, dirty: set<Path>,
                    source': Tree, target': Tree, dirty': set<Path>)
    requires RecordOk(plan, r, source, target, dirty) && r.phase == Moving
    requires [] in target' ==> [] in target
    requires forall p :: p in dirty' ==> p in dirty || Journals(r, p)
    ensures RecordOk(plan, r, source', target', dirty')
  {
    hide JournalOk, Journals;
  }

  // ---------- What is left once every unit is home ----------

  /** Only the directories the move made are still there besides what the target held before. */
  ghost predicate OnlyScaffoldLeft(plan: Plan, target: Tree) {
    && (forall p :: p in plan.target ==> p in target && target[p] == plan.target[p])
    && (forall p :: p in target && p !in plan.target ==> Scaffold(plan, p) && target[p].Dir?)
  }

  lemma UnitsAllHome(plan: Plan, source: Tree, target: Tree)
    requires SourceOk(plan, source, {}) && TargetOk(plan, target, {}, {}) && MARKER !in target
    requires plan.how.Copy? ==> forall p :: p in target ==> !Covered(Roots(plan.units), p)
    ensures OnlyScaffoldLeft(plan, target)
    ensures source == plan.source || (plan.how.Move? && MARKER in plan.source && source == plan.source - {MARKER})
  {
    hide MARKER, Scaffold;
    forall p ensures !Covered({}, p) {}
    if MARKER in source || MARKER !in plan.source {
      assert source == plan.source;
    } else {
      assert source == plan.source - {MARKER};
    }
  }

  /** Removing the made directories, deepest first, leaves exactly what was there. */
  lemma ScaffoldRemoved(plan: Plan, target: Tree)
    requires Admissible(plan) && OnlyScaffoldLeft(plan, target)
    ensures HOST_DIR in target ==> forall p :: p in target ==> !(HOST_DIR < p)
    ensures DATA in target ==> forall p :: p in target && DATA < p ==> p == HOST_DIR
    ensures HOST_DIR !in plan.target && DATA !in plan.target
    ensures [] !in plan.target ==> plan.target == map[]
    ensures forall p :: p in target && p !in plan.target ==> p in {[], DATA, HOST_DIR}
  {
    hide DATA, MARKER, HOST_DIR, Admissible, HasDataUnit;
    FixedPaths();
    forall p | p in plan.target ensures !(DATA <= p) && [] in plan.target {
      TargetAvoidsData(plan, p);
      TargetIsClosed(plan);
      AncestorsPresent(plan.target, p, []);
    }
  }

  lemma TargetIsClosed(plan: Plan)
    requires Admissible(plan)
    ensures Closed(plan.target) && Closed(plan.source)
  {
    hide Closed;
  }

  // ---------- Copying and rewriting ----------

  lemma DeliveredByCopy(plan: Plan, i: nat)
    requires i < |plan.units| && Disjoint(plan.units)
    ensures CopiedUpTo(plan, i + 1) == CopiedUpTo(plan, i) + Copied(plan.source, plan.units[i])
  {
    hide IsRebuildable, Covered, Disjoint;
    forall p ensures Covered(Roots(plan.units[..i + 1]), p) <==> Covered(Roots(plan.units[..i]), p) || plan.units[i] <= p {
      CoveredUpTo(plan.units, i, p);
    }
  }

  ghost function CopiedUpTo(plan: Plan, i: nat): Tree
    requires i <= |plan.units|
  {
    map p | p in plan.source && Covered(Roots(plan.units[..i]), p)
      && !IsRebuildable(p) && !plan.source[p].Other? :: plan.source[p]
  }

  lemma CopiedAll(plan: Plan)
    requires plan.how.Copy?
    ensures CopiedUpTo(plan, |plan.units|) == Delivered(plan)
    ensures CopiedUpTo(plan, 0) == map[]
  {
    hide IsRebuildable;
    assert plan.units[..|plan.units|] == plan.units;
  }

  ghost function Rewrote(plan: Plan, host: Host, t: Tree, done: set<Path>): Tree {
    map p | p in t :: if p in done then Updated(plan, host, t[p]) else t[p]
  }

  /** Every file that records paths in a freshly filled target came from a unit, unchanged. */
  lemma PathRecordDelivered(plan: Plan, p: Path)
    requires Admissible(plan) && IsPathRecord(p) && p in Prepared(plan) + Delivered(plan)
    ensures p in Delivered(plan) && p in plan.source && Delivered(plan)[p] == plan.source[p]
    ensures (Prepared(plan) + Delivered(plan))[p] == plan.source[p]
  {
    hide DATA, MARKER, HOST_DIR, Admissible, IsPathRecord, IsRebuildable, Covered, HasDataUnit;
    PathRecordNames(p);
    FixedPaths();
    if p in Prepared(plan) {
      PreparedKeepsTarget(plan);
      if p in plan.target { TargetAvoidsData(plan, p); }
    }
  }

  lemma RewroteIsArrived(plan: Plan, host: Host, target: Tree, done: set<Path>)
    requires Admissible(plan)
    requires target == Rewrote(plan, host, Prepared(plan) + Delivered(plan), done)
    requires forall p :: p in done <==> p in Prepared(plan) + Delivered(plan) && IsPathRecord(p)
    ensures HasDataUnit(plan.units) && !MarkerElsewhere(target)
            ==> target + map[HOST_DIR := Dir, MARKER := File(host.marker)] == Arrived(plan, host)
    ensures !HasDataUnit(plan.units) || MarkerElsewhere(target) ==> target == Arrived(plan, host)
  {
    hide DATA, MARKER, HOST_DIR, Admissible, IsPathRecord, IsRebuildable, Covered, HasDataUnit, Updated, Prepared, Delivered, MarkerElsewhere;
    forall p | p in done ensures p in Delivered(plan) { PathRecordDelivered(plan, p); }
    var moved := map p | p in Delivered(plan) :: if IsPathRecord(p) then Updated(plan, host, Delivered(plan)[p]) else Delivered(plan)[p];
    assert target == Prepared(plan) + moved;
    assert target + map[] == target;
    MarkerElsewhereStays(plan, host, target, moved);
  }

  lemma MarkerElsewhereStays(plan: Plan, host: Host, target: Tree, moved: Tree)
    requires Admissible(plan) && target == Prepared(plan) + moved && moved.Keys == Delivered(plan).Keys
    requires forall p :: p in moved && !IsPathRecord(p) ==> moved[p] == Delivered(plan)[p]
    ensures MarkerElsewhere(target) <==> MarkerElsewhere(Delivered(plan))
  {
    hide DATA, MARKER, HOST_DIR, Admissible, IsPathRecord, IsRebuildable, Covered, HasDataUnit, Prepared, Delivered;
    if IsPathRecord(HOST_DIR) { PathRecordNames(HOST_DIR); }
    PreparedKeepsTarget(plan);
    if HOST_DIR in plan.target { TargetAvoidsData(plan, HOST_DIR); }
  }

  lemma InitiallyUndoable(plan: Plan)
    requires Admissible(plan)
    ensures SourceOk(plan, plan.source, {}) && TargetOk(plan, plan.target, {}, {})
  {
    hide Admissible, MARKER, Added;
    forall p ensures !Covered({}, p) {}
  }

  /** The record a move is requested with. */
  function RequestedRecord(how: Method, units: seq<Path>, bytes: nat): Record {
    Record(Requested, how, units, bytes, None, None)
  }

  lemma RequestedIsUndoable(plan: Plan)
    ensures RecordOk(plan, RequestedRecord(plan.how, plan.units, plan.bytes), plan.source, plan.target, {})
    ensures RequestedRecord(plan.how, plan.units, plan.bytes).phase == Requested
    ensures {} <= Roots(plan.units)
  {
    hide IsPathRecord;
  }

  lemma NextUnit(plan: Plan, i: nat)
    requires Admissible(plan) && i < |plan.units|
    ensures plan.units[i] !in Roots(plan.units[..i]) && plan.units[i] in Roots(plan.units)
    ensures Roots(plan.units[..i + 1]) == Roots(plan.units[..i]) + {plan.units[i]}
    ensures Covered(Roots(plan.units), plan.units[i])
  {
    hide *;
    if plan.units[i] in Roots(plan.units[..i]) { DistinctUnits(plan, i); }
    FirstUnits(plan.units, i);
    CoveredByRoot(Roots(plan.units), plan.units[i]);
  }

  lemma CoveredByRoot(roots: set<Path>, u: Path)
    requires u in roots
    ensures Covered(roots, u)
  {
  }

  lemma FirstUnits(units: seq<Path>, i: nat)
    requires i < |units|
    ensures Roots(units[..i + 1]) == Roots(units[..i]) + {units[i]} && units[i] in Roots(units)
  {
  }

  lemma DistinctUnits(plan: Plan, i: nat)
    requires Admissible(plan) && i < |plan.units|
    ensures plan.units[i] !in Roots(plan.units[..i])
  {
    forall j | 0 <= j < i ensures plan.units[j] != plan.units[i] {
      assert plan.units[i] <= plan.units[i];
    }
  }

  lemma CopiedPruned(source: Tree, p: Path)
    requires Closed(source)
    ensures IsRebuildable(p) || p !in source ==> Copied(source, p) == map[]
    ensures p in source && !source[p].Dir? && !IsRebuildable(p)
            ==> Copied(source, p) == if source[p].Other? then map[] else map[p := source[p]]
  {
    hide IsRebuildable;
    PrunedWhole(source, p, Copy);
  }

  lemma CopiedOneMore(source: Tree, p: Path, done: set<string>, name: string)
    requires name !in done
    ensures var copied := Copied(source, p);
            && Through(copied, p, done + {name}) == Through(copied, p, done) + Copied(source, p + [name])
            && TotalBytes(Through(copied, p, done + {name}))
               == TotalBytes(Through(copied, p, done)) + TotalBytes(Copied(source, p + [name]))
  {
    hide IsRebuildable;
    var copied, child := Copied(source, p), p + [name];
    OneMoreChild(copied, p, done, name);
    assert Under(copied, child) == Copied(source, child) by { assert p <= child; }
    TotalBytesUnion(Through(copied, p, done), Under(copied, child));
  }

  lemma AddedInTurn(t: Tree, a: Tree, b: Tree, both: Tree)
    requires both == a + b
    ensures (t + a) + b == t + both
  {
  }

  lemma Overwritten(t: Tree, p: Path, node: Node, whole: Tree)
    requires p in whole
    ensures t[p := node] + whole == t + whole
    ensures t[p := node][p := whole[p]] == t + map[p := whole[p]]
  {
  }

  lemma AlreadyThere(t: Tree, p: Path, below: Tree, whole: Tree)
    requires p in t && t[p] == Dir && whole == map[p := Dir] + below
    ensures t + below == t + whole || p in below
  {
  }

  lemma CopiedWhole(source: Tree, p: Path)
    requires Closed(source) && p in source && source[p].Dir? && !IsRebuildable(p)
    ensures var copied := Copied(source, p); var below := Through(copied, p, Children(source, p));
            copied == map[p := Dir] + below && p !in below && TotalBytes(copied) == TotalBytes(below)
  {
    hide IsRebuildable;
    var copied := Copied(source, p);
    forall q | q in copied && q != p ensures q in Through(copied, p, Children(source, p)) {
      ChildBelow(source, p, q);
    }
    TotalBytesSplit(copied, p);
    assert copied - {p} == Through(copied, p, Children(source, p));
  }

  /** A copy counts the bytes the scan planned for the same entries. */
  lemma CopyCountsWhatWasPlanned(source: Tree, p: Path)
    ensures TotalBytes(Copied(source, p)) == TotalBytes(Carried(source, p, Copy))
  {
    hide IsRebuildable;
    var copied := Copied(source, p);
    var skipped := map q | q in Carried(source, p, Copy) && source[q].Other? :: source[q];
    TotalBytesUnion(copied, skipped);
    assert copied + skipped == Carried(source, p, Copy);
    OtherEntriesAreEmpty(skipped);
  }

  lemma {:induction false} OtherEntriesAreEmpty(t: Tree)
    requires forall p :: p in t ==> t[p].Other?
    ensures TotalBytes(t) == 0
    decreases |t|
  {
    if t != map[] {
      var p :| p in t && TotalBytes(t) == Bytes(t[p]) + TotalBytes(t - {p});
      OtherEntriesAreEmpty(t - {p});
    }
  }
}
