/**
 What a data-directory move carries: the units it handles one by one and the content a copy may leave behind
 (apps/desktop/src/data-move-plan.ts).
 */
module MovePlan {
  import opened FileTrees
  import opened Wrappers

  datatype Method = Move | Copy

  const DATA: Path := ["data"]
  const BACKUPS: Path := ["data", "backups"]
  const CHROMIUM_LOCKS: set<string> := {"SingletonLock", "SingletonSocket", "SingletonCookie", "lockfile"}
  const REBUILDABLE_DATA: set<Path> := {
    ["data", "logs"],
    ["data", "extension-cache"],
    ["data", "extension-files"],
    ["data", "runtimes"],
    ["data", "dsh", "plugin-staging"],
    ["data", "dsh", "request-images"],
    ["data", "dsh", "pnpm-store"]
  }
  const ELECTRON_CACHES: set<string> := {
    "Cache", "Code Cache", "GPUCache", "DawnCache", "DawnGraphiteCache", "DawnWebGPUCache", "GraphiteDawnCache",
    "GrShaderCache", "ShaderCache"
  }

  predicate IsRebuildable(p: Path) {
    p != [] &&
    (|| (exists entry :: entry in REBUILDABLE_DATA && entry <= p)
     || p[0] == "Crashpad"
     || p[0] in ELECTRON_CACHES
     || (p[0] == "Partitions" && |p| >= 3 && p[2] in ELECTRON_CACHES))
  }

  /** A directory that a copy leaves out as a whole. */
  predicate RebuildableRoot(p: Path) {
    || p in REBUILDABLE_DATA
    || p == ["Crashpad"]
    || (|p| == 1 && p[0] in ELECTRON_CACHES)
    || (|p| == 3 && p[0] == "Partitions" && p[2] in ELECTRON_CACHES)
  }

  /** What a copy leaves out are these directories with everything below them. */
  lemma RebuildableExactlyBelowRoots(p: Path)
    ensures IsRebuildable(p) <==> exists root :: RebuildableRoot(root) && root <= p
  {
    hide REBUILDABLE_DATA, ELECTRON_CACHES;
    RootsHaveNames();
    if IsRebuildable(p) {
      if entry :| entry in REBUILDABLE_DATA && entry <= p {
        assert RebuildableRoot(entry);
      } else if p[0] == "Crashpad" || p[0] in ELECTRON_CACHES {
        assert RebuildableRoot(p[..1]) && p[..1] <= p by { assert p[..1] == [p[0]]; }
      } else {
        assert RebuildableRoot(p[..3]) && p[..3] <= p;
      }
    }
    if root :| RebuildableRoot(root) && root <= p {
      assert root != [];
    }
  }

  lemma RootsHaveNames()
    ensures [] !in REBUILDABLE_DATA
  {
  }

  /** Leaving out an entry leaves out everything below it: pruning the walk loses nothing else. */
  lemma RebuildableIsClosedBelow(p: Path, q: Path)
    requires p <= q && IsRebuildable(p)
    ensures IsRebuildable(q)
  {
    if entry :| entry in REBUILDABLE_DATA && entry <= p {
      assert entry <= q;
    }
  }

  /** What a move with this method takes along from below one unit. */
  ghost function Carried(source: Tree, unit: Path, how: Method): Tree
  {
    map p | p in source && unit <= p && !(how.Copy? && IsRebuildable(p)) :: source[p]
  }

  predicate IsLock(name: string) {
    name in CHROMIUM_LOCKS
  }

  ghost predicate IsUnit(source: Tree, p: Path) {
    p in source
    && (|| (|p| == 1 && !IsLock(p[0]) && (p == DATA ==> !source[p].Dir?))
        || (|p| == 2 && p[..1] == DATA && DATA in source && source[DATA].Dir? && p != BACKUPS))
  }

  /** No unit lies inside another, so handling them one by one touches every entry at most once. */
  ghost predicate Disjoint(units: seq<Path>) {
    forall i, j :: 0 <= i < |units| && 0 <= j < |units| && units[i] <= units[j] ==> i == j
  }

  method ListMoveUnits(source: Tree) returns (units: seq<Path>)
    requires Closed(source)
    ensures forall p :: p in units <==> IsUnit(source, p)
    ensures Disjoint(units)
  {
    units := [];
    var names, done := Children(source, []), {};
    // Directory listings are sorted; no result below depends on the order, so any order is allowed here.
    while names != {}
      invariant names !! done && names + done == Children(source, [])
      invariant forall p :: p in units <==> IsUnit(source, p) && p[0] in done
      invariant Disjoint(units)
      decreases names
    {
      var name :| name in names;
      names, done := names - {name}, done + {name};
      var more := [];
      TopLevel(source, name);
      if !IsLock(name) {
        if name != "data" || !source[DATA].Dir? {
          more := [[name]];
        } else {
          more := EntriesOf(source, DATA, BACKUPS);
        }
      }
      JoinUnits(units, more, name);
      units := units + more;
    }
    forall p | IsUnit(source, p) ensures p in units {
      ChildBelow(source, [], p);
    }
  }

  lemma JoinUnits(units: seq<Path>, more: seq<Path>, name: string)
    requires Disjoint(units) && Disjoint(more)
    requires forall p :: p in units ==> p != [] && p[0] != name
    requires forall p :: p in more ==> p != [] && p[0] == name
    ensures Disjoint(units + more)
    ensures forall p :: p in units + more <==> p in units || p in more
  {
    var all := units + more;
    forall i, j | 0 <= i < |all| && 0 <= j < |all| && all[i] <= all[j] ensures i == j {
      assert all[i] in (if i < |units| then units else more) && all[j] in (if j < |units| then units else more);
      assert all[i][0] == all[j][0];
    }
  }

  lemma DataIsNoLock()
    ensures !IsLock("data")
  {
    assert "data"[0] == 'd' && "lockfile"[0] == 'l' && forall s :: s in CHROMIUM_LOCKS && s != "lockfile" ==> s[0] == 'S';
  }

  // Which units a top-level name gives rise to.
  lemma TopLevel(source: Tree, name: string)
    requires Closed(source) && name in Children(source, [])
    ensures [name] in source
    ensures IsLock(name) ==> forall p :: p != [] && p[0] == name ==> !IsUnit(source, p)
    ensures !IsLock(name) && ([name] == DATA ==> !source[DATA].Dir?)
            ==> forall p :: IsUnit(source, p) && p[0] == name <==> p == [name]
    ensures [name] == DATA && source[DATA].Dir?
            ==> forall p :: IsUnit(source, p) && p[0] == name <==> p in source && |p| == 2 && DATA <= p && p != BACKUPS
    ensures !IsLock("data")
  {
    hide IsLock, BACKUPS;
    var q :| q in source && |q| == 1 && q[0] == name;
    assert q == [name];
    DataIsNoLock();
    forall p | IsUnit(source, p) && p[0] == name ensures IsLock(name) ==> false {
      if |p| == 2 { assert p[..1][0] == "data"; }
    }
    forall p | IsUnit(source, p) && p[0] == name && |p| == 1 ensures p == [name] {}
    if |DATA| == 1 && [name] != DATA { assert name != "data"; }
    forall p | IsUnit(source, p) && |p| == 2 ensures p[0] == "data" { assert p[..1][0] == "data"; }
  }

  /** `units` lists the named entries of `dir`, except `kept`. */
  ghost predicate Lists(units: seq<Path>, dir: Path, names: set<string>, kept: Path) {
    && Disjoint(units)
    && forall p :: p in units <==> |p| == |dir| + 1 && dir <= p && p[|dir|] in names && p != kept
  }

  lemma ListsOneMore(units: seq<Path>, dir: Path, names: set<string>, kept: Path, name: string)
    requires Lists(units, dir, names, kept) && name !in names
    ensures var unit := dir + [name];
            Lists(if unit != kept then units + [unit] else units, dir, names + {name}, kept)
  {
    var unit := dir + [name];
    forall p | |p| == |unit| && dir <= p && p[|dir|] == name ensures p == unit {}
    if unit != kept { SameLengthDisjoint(units, unit); }
  }

  method EntriesOf(source: Tree, dir: Path, kept: Path) returns (units: seq<Path>)
    requires dir in source
    ensures forall p :: p in units <==> p in source && |p| == |dir| + 1 && dir <= p && p != kept
    ensures Disjoint(units)
  {
    units := [];
    var names, done := Children(source, dir), {};
    while names != {}
      invariant names !! done && names + done == Children(source, dir)
      invariant Lists(units, dir, done, kept)
      decreases names
    {
      var name :| name in names;
      ListsOneMore(units, dir, done, kept, name);
      names, done := names - {name}, done + {name};
      if dir + [name] != kept {
        units := units + [dir + [name]];
      }
    }
    forall p | |p| == |dir| + 1 && dir <= p ensures p[|dir|] in Children(source, dir) <==> p in source {
      ChildIsEntry(source, dir, p);
    }
  }

  lemma ChildIsEntry(source: Tree, dir: Path, p: Path)
    requires |p| == |dir| + 1 && dir <= p
    ensures p[|dir|] in Children(source, dir) <==> p in source
  {
    if p[|dir|] in Children(source, dir) {
      var q :| q in source && |q| == |dir| + 1 && dir <= q && q[|dir|] == p[|dir|];
      assert q == p;
    }
  }

  lemma SameLengthDisjoint(units: seq<Path>, unit: Path)
    requires Disjoint(units) && unit !in units && forall p :: p in units ==> |p| == |unit|
    ensures Disjoint(units + [unit])
  {
    var all := units + [unit];
    forall i, j | 0 <= i < |all| && 0 <= j < |all| && all[i] <= all[j] ensures i == j {
      assert all[i] in units || all[i] == unit;
      assert all[j] in units || all[j] == unit;
      assert all[i] == all[j];
    }
  }

  /** The unit of a unit list an entry belongs to is the only one above it. */
  lemma OneUnitAbove(units: seq<Path>, i: nat, j: nat, p: Path)
    requires Disjoint(units) && i < |units| && j < |units| && units[i] <= p && units[j] <= p
    ensures i == j
  {
    HeadsAreNested(units[i], units[j], p);
  }

  function Roots(units: seq<Path>): set<Path> {
    set u | u in units
  }

  ghost function CarriedByAll(source: Tree, units: seq<Path>, how: Method): Tree {
    map p | p in source && Covered(Roots(units), p) && !(how.Copy? && IsRebuildable(p)) :: source[p]
  }

  // ---------- What the walk sums up ----------

  /** Of a set of entries: their bytes, how many are not directories, and the longest of their names. */
  datatype Size = Size(bytes: nat, files: nat, longest: nat)

  const NOTHING := Size(0, 0, 0)

  function Plus(a: Size, b: Size): Size {
    Size(a.bytes + b.bytes, a.files + b.files, if a.longest < b.longest then b.longest else a.longest)
  }

  /** Characters of a relative path, separators included. */
  function Length(p: Path): nat {
    if p == [] then 0 else if |p| == 1 then |p[0]| else |p[0]| + 1 + Length(p[1..])
  }

  function Files(t: Tree): set<Path> {
    set p | p in t && !t[p].Dir?
  }

  ghost predicate Longest(t: Tree, n: nat) {
    && (forall p :: p in t ==> Length(p) <= n)
    && (n == 0 || exists p :: p in t && Length(p) == n)
  }

  ghost predicate Sizes(t: Tree, s: Size) {
    s.bytes == TotalBytes(t) && s.files == |Files(t)| && Longest(t, s.longest)
  }

  lemma SizesOfNothing()
    ensures Sizes(map[], NOTHING)
  {
    assert Files(map[]) == {};
  }

  lemma SizesOfOne(p: Path, node: Node)
    ensures Sizes(map[p := node], Size(Bytes(node), if node.Dir? then 0 else 1, Length(p)))
  {
    BytesOfOne(p, node);
    assert Files(map[p := node]) == if node.Dir? then {} else {p};
  }

  lemma SizesOfUnion(a: Tree, b: Tree, x: Size, y: Size)
    requires a.Keys !! b.Keys && Sizes(a, x) && Sizes(b, y)
    ensures Sizes(a + b, Plus(x, y))
  {
    hide Longest, Files;
    TotalBytesUnion(a, b);
    FilesOfUnion(a, b);
    LongestOfUnion(a, b, x, y);
  }

  lemma FilesOfUnion(a: Tree, b: Tree)
    requires a.Keys !! b.Keys
    ensures |Files(a + b)| == |Files(a)| + |Files(b)|
  {
    assert Files(a + b) == Files(a) + Files(b);
  }

  lemma LongestOfUnion(a: Tree, b: Tree, x: Size, y: Size)
    requires Longest(a, x.longest) && Longest(b, y.longest) && a.Keys !! b.Keys
    ensures Longest(a + b, Plus(x, y).longest)
  {
    hide Length;
    if 0 < x.longest && y.longest <= x.longest {
      var p :| p in a && Length(p) == x.longest;
      assert p in a + b;
    } else if 0 < y.longest {
      var p :| p in b && Length(p) == y.longest;
      assert p in a + b;
    }
  }

  /** What a move is planned to carry: the entries it takes along, each counted once. */
  method ScanMove(source: Tree, units: seq<Path>, how: Method) returns (size: Size)
    requires Closed(source) && Disjoint(units)
    ensures Sizes(CarriedByAll(source, units, how), size)
  {
    hide IsRebuildable, Sizes, Carried;
    size := NOTHING;
    assert CarriedByAll(source, [], how) == map[];
    SizesOfNothing();
    for i := 0 to |units|
      invariant Sizes(CarriedByAll(source, units[..i], how), size)
    {
      var more := Visit(source, units[i], how);
      OneMoreUnit(source, units, i, how);
      SizesOfUnion(CarriedByAll(source, units[..i], how), Carried(source, units[i], how), size, more);
      size := Plus(size, more);
    }
    assert units[..|units|] == units;
  }

  lemma CoveredUpTo(units: seq<Path>, i: nat, p: Path)
    requires Disjoint(units) && i < |units|
    ensures Covered(Roots(units[..i + 1]), p) <==> Covered(Roots(units[..i]), p) || units[i] <= p
    ensures Covered(Roots(units[..i]), p) ==> !(units[i] <= p)
  {
    assert Roots(units[..i + 1]) == Roots(units[..i]) + {units[i]};
    CoveredByOneMore(Roots(units[..i]), units[i], p);
    if Covered(Roots(units[..i]), p) && units[i] <= p {
      var u :| u in Roots(units[..i]) && u <= p;
      var j :| 0 <= j < i && units[j] == u;
      OneUnitAbove(units, i, j, p);
    }
  }

  lemma OneMoreUnit(source: Tree, units: seq<Path>, i: nat, how: Method)
    requires Disjoint(units) && i < |units|
    ensures CarriedByAll(source, units[..i + 1], how)
            == CarriedByAll(source, units[..i], how) + Carried(source, units[i], how)
    ensures CarriedByAll(source, units[..i], how).Keys !! Carried(source, units[i], how).Keys
  {
    hide IsRebuildable, Covered, Disjoint;
    forall p ensures Covered(Roots(units[..i + 1]), p) <==> Covered(Roots(units[..i]), p) || units[i] <= p
             ensures Covered(Roots(units[..i]), p) ==> !(units[i] <= p) {
      CoveredUpTo(units, i, p);
    }
  }

  method Visit(source: Tree, relative: Path, how: Method) returns (size: Size)
    requires Closed(source)
    ensures Sizes(Carried(source, relative, how), size)
    decreases |Under(source, relative)|
  {
    hide IsRebuildable, Carried, Through, Under, Closed, Sizes, Length;
    PrunedWhole(source, relative, how);
    SizesOfNothing();
    if how.Copy? && IsRebuildable(relative) {
      return NOTHING;
    }
    if relative !in source {
      return NOTHING;
    }
    ghost var carried := Carried(source, relative, how);
    SizesOfOne(relative, source[relative]);
    if !source[relative].Dir? {
      return Size(Bytes(source[relative]), 1, Length(relative));
    }
    size := Size(0, 0, Length(relative));
    NothingThroughNone(carried, relative);
    var names, done := Children(source, relative), {};
    CarriedWhole(source, relative, how);
    assert map[relative := source[relative]] + Through(carried, relative, {}) == map[relative := source[relative]];
    while names != {}
      invariant names !! done && names + done == Children(source, relative)
      invariant Sizes(map[relative := source[relative]] + Through(carried, relative, done), size)
      decreases names
    {
      var name :| name in names;
      UnderShrinks(source, relative, name);
      var more := Visit(source, relative + [name], how);
      OneMoreVisited(source, relative, how, done, name, size, more);
      names, done := names - {name}, done + {name};
      size := Plus(size, more);
    }
    assert carried == map[relative := source[relative]] + (carried - {relative});
  }

  lemma BytesOfOne(p: Path, node: Node)
    ensures TotalBytes(map[p := node]) == Bytes(node)
  {
    assert map[p := node] - {p} == map[];
    TotalBytesSplit(map[p := node], p);
  }

  lemma NothingThroughNone(t: Tree, p: Path)
    ensures Through(t, p, {}) == map[]
  {
  }

  lemma OneMoreVisited(source: Tree, relative: Path, how: Method, done: set<string>, name: string, size: Size, more: Size)
    requires name !in done && relative in source
    requires Sizes(map[relative := source[relative]] + Through(Carried(source, relative, how), relative, done), size)
    requires Sizes(Carried(source, relative + [name], how), more)
    ensures Sizes(map[relative := source[relative]] + Through(Carried(source, relative, how), relative, done + {name}), Plus(size, more))
  {
    hide IsRebuildable, Sizes;
    var carried, child := Carried(source, relative, how), relative + [name];
    var itself := map[relative := source[relative]];
    OneMoreChild(carried, relative, done, name);
    assert Under(carried, child) == Carried(source, child, how) by {
      assert relative <= child;
    }
    SizesOfUnion(itself + Through(carried, relative, done), Under(carried, child), size, more);
    assert itself + Through(carried, relative, done + {name}) == itself + Through(carried, relative, done) + Under(carried, child);
  }

  lemma RebuildableCarriesNothing(source: Tree, relative: Path)
    requires IsRebuildable(relative)
    ensures Carried(source, relative, Copy) == map[]
  {
    hide IsRebuildable;
    forall p | relative <= p ensures IsRebuildable(p) { RebuildableIsClosedBelow(relative, p); }
  }

  lemma CarriedIsUnder(source: Tree, relative: Path, how: Method)
    ensures forall p :: p in Carried(source, relative, how) ==>
              p in Under(source, relative) && Carried(source, relative, how)[p] == source[p]
    ensures relative in source && !(how.Copy? && IsRebuildable(relative)) ==> relative in Carried(source, relative, how)
  {
    hide IsRebuildable;
  }

  /** What the walk skips early holds nothing it should have carried. */
  lemma PrunedWhole(source: Tree, relative: Path, how: Method)
    requires Closed(source)
    ensures (how.Copy? && IsRebuildable(relative)) || relative !in source
            ==> Carried(source, relative, how) == map[]
    ensures relative in source && !source[relative].Dir? && !(how.Copy? && IsRebuildable(relative))
            ==> Carried(source, relative, how) == map[relative := source[relative]]
  {
    hide IsRebuildable, Carried, Under, Closed;
    CarriedIsUnder(source, relative, how);
    if how.Copy? && IsRebuildable(relative) {
      RebuildableCarriesNothing(source, relative);
    } else if relative !in source {
      NothingUnderAbsent(source, relative);
    } else if !source[relative].Dir? {
      OnlyItselfUnderLeaf(source, relative);
    }
  }

  lemma CarriedWhole(source: Tree, relative: Path, how: Method)
    requires Closed(source) && relative in source
    requires !(how.Copy? && IsRebuildable(relative))
    ensures var carried := Carried(source, relative, how);
            && relative in carried && carried[relative] == source[relative]
            && carried - {relative} == Through(carried, relative, Children(source, relative))
  {
    hide IsRebuildable;
    var carried := Carried(source, relative, how);
    forall q | q in carried && q != relative ensures q in Through(carried, relative, Children(source, relative)) {
      ChildBelow(source, relative, q);
    }
  }
}
