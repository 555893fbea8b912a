/**
 The data-directory move itself: `runDataMove`, `undoDataMove`, migration mode and the decision every launch takes
 (apps/desktop/src/data-move.ts, data-move-mode.ts, main.ts). Every change of the disk is one atomic effect that may
 be carried out, fail, or be the last thing before a crash; a crash keeps the disk and loses the process.
 */
module DataMoveProtocol {
  import opened Wrappers
  import opened FileTrees
  import opened MovePlan
  import opened JsonPaths
  import opened DataMove
  import W = RecordWriter

  /** How one effect ends. A crash after the effect is a crash before the next one. */
  datatype Fate = Done | Broken | Crashed

  datatype Decision = Normal | Migrate | Busy | Undo | Finish | Abandon

  function DecideStartup(record: Option<Record>, migrationFlag: bool, location: Root, ownerAlive: bool): Decision {
    if record.None? || record.value.phase.Completed? || record.value.phase.Failed? then Normal
    else if record.value.phase.Switched? || location.Target? then Finish
    else if migrationFlag && record.value.phase.Requested? then Migrate
    else if ownerAlive then Busy
    else if record.value.phase.Requested? then Abandon
    else Undo
  }

  /** What a launch came to: the app opened a directory, or nothing was opened. */
  datatype Outcome = Opened(root: Root) | NotOpened

  // ---------- What the record writer lets happen to the record on disk ----------

  /** Between two effects only a heartbeat writes. */
  predicate Stepped(before: Option<Record>, current: Record, after: Option<Record>) {
    after == before || after == Some(current)
  }

  /** However a save ends. */
  predicate Saved(before: Option<Record>, current: Record, next: Record, after: Option<Record>) {
    after == before || after == Some(current) || after == Some(next)
  }

  /** The writer's chain as the protocol sees it: the record on disk and the one last handed over; every save was awaited. */
  ghost predicate Shows(c: W.Chain<Record>, onDisk: Option<Record>, current: Record) {
    c.Valid() && W.Awaited(c) && onDisk == Some(c.Disk().progress) && current == c.Current().progress
  }

  /** Any beats and any writes that settle between two effects are one `Step`. */
  lemma WriterSteps(c: W.Chain<Record>, events: seq<W.Event<Record>>, onDisk: Option<Record>, current: Record)
    requires Shows(c, onDisk, current) && forall e :: e in events ==> !e.Save?
    ensures exists after :: Stepped(onDisk, current, after) && Shows(W.After(c, events), after, current)
  {
    W.BeatsLeaveOldOrCurrent(c, events);
    assert Shows(W.After(c, events), Some(W.After(c, events).Disk().progress), current);
  }

  /** Any run of the writer up to the end of an awaited write is one `Save`, and one cut short leaves no other record. */
  lemma WriterSaves(c: W.Chain<Record>, events: seq<W.Event<Record>>, onDisk: Option<Record>, current: Record, next: Record, now: int)
    requires Shows(c, onDisk, current) && forall e :: e in events ==> !e.Save?
    ensures var saving := W.Next(c, W.Save(next, now));
            && saving.Valid() && W.After(saving, events).Valid()
            && Saved(onDisk, current, next, Some(W.After(saving, events).Disk().progress))
            && (forall ok :: W.EndsWithWrite(saving, events, |c.history|, ok) ==>
                  exists after :: Shows(W.After(saving, events), after, next) && Saved(onDisk, current, next, after)
                                  && (ok ==> after == Some(next)))
  {
    W.SavingIsPending(c, next, now);
    W.SavingLeavesOldOrNew(c, next, now, events);
    var saving := W.Next(c, W.Save(next, now));
    forall ok | W.EndsWithWrite(saving, events, |c.history|, ok)
      ensures exists after :: Shows(W.After(saving, events), after, next) && Saved(onDisk, current, next, after)
                              && (ok ==> after == Some(next))
    {
      W.AwaitedSaveSettles(saving, events, |c.history|, ok, c.Disk().progress, current, next);
      assert Shows(W.After(saving, events), Some(W.After(saving, events).Disk().progress), next);
    }
  }

  class Desktop {
    const host: Host
    const links: Links
    /** No step fails of itself or crashes; otherwise each step may do either. */
    const faultless: bool
    ghost const original: Plan
    /** The original plan, but for linked path records that an undo has put back as regular files. */
    ghost var plan: Plan
    // On disk.
    var source: Tree
    var target: Tree
    var location: Root
    var record: Option<Record>
    // In the running process: the record as last handed to the writer.
    var current: Record
    var completedBytes: nat
    // Units that are in the target now, and files whose content differs from before the move.
    ghost var away: set<Path>
    ghost var dirty: set<Path>

    // ---------- What holds between any two effects ----------

    /** Before the switch: whatever the move did so far can be undone from the record on disk. */
    ghost predicate Recoverable()
      reads this
    {
      && Admissible(plan) && Flattens(original, plan) && plan.links == links && location == Source
      && away <= Roots(plan.units)
      && SourceOk(plan, source, away) && TargetOk(plan, target, away, dirty)
      && record.Some? && RecordOk(plan, record.value, source, target, dirty)
      && (record.value.phase == Requested ==> plan == original)
    }

    /** The same, and the running process holds a record that would do as well. */
    ghost predicate Undoable()
      reads this
    {
      Recoverable() && RecordOk(plan, current, source, target, dirty) && (current.phase == Requested ==> plan == original)
    }

    /** The move is over and did not happen. */
    ghost predicate Restored()
      reads this
    {
      && Admissible(plan) && Flattens(original, plan) && location == Source && BackHome(plan, source, target)
      && record.Some? && record.value.phase == Failed
    }

    /** The location file names the target, and the target is complete. */
    ghost predicate Switched()
      reads this
    {
      && Admissible(plan) && plan == original && Completable(plan, host)
      && location == Target && source == LeftBehind(plan) && target == Arrived(plan, host)
      && record.Some? && record.value.phase in {Moving, Phase.Switched, Completed}
    }

    /** What every launch may rely on finding. */
    ghost predicate Consistent()
      reads this
    {
      Recoverable() || Restored() || Switched()
    }

    /** The moment the move has been requested: the record is written, nothing else has happened. */
    constructor Request(host: Host, faultless: bool, ghost plan: Plan, how: Method, units: seq<Path>, bytes: nat,
                        source: Tree, target: Tree, links: Links)
      requires Admissible(plan) && plan == Plan(source, target, how, units, bytes, links)
      ensures this.host == host && this.original == this.plan == plan && this.links == links && this.faultless == faultless
      ensures Recoverable() && record.value.phase == Requested
      ensures this.source == source && this.target == target
    {
      hide Admissible, SourceOk, TargetOk, RecordOk, Roots, RequestedRecord, Flattens;
      this.host, this.faultless, this.original, this.plan, this.links := host, faultless, plan, plan, links;
      this.source, this.target, this.location := source, target, Source;
      this.record := Some(RequestedRecord(how, units, bytes));
      this.current := RequestedRecord(how, units, bytes);
      this.completedBytes := 0;
      this.away, this.dirty := {}, {};
      new;
      InitiallyUndoable(plan);
      RequestedIsUndoable(plan);
      FlattensItself(plan);
    }

    // ---------- Effects ----------

    /** One effect's fate; the heartbeat may have rewritten the record with the current one meanwhile. */
    method Step() returns (f: Fate)
      modifies this`record
      ensures Stepped(old(record), current, record)
      ensures faultless ==> f.Done?
    {
      f := *;
      if faultless { f := Done; }
      var beat: bool := *;
      if beat { record := Some(current); }
    }

    /** Hands a record to the writer and waits for it. */
    method Save(r: Record) returns (f: Fate)
      requires Undoable() && RecordOk(plan, r, source, target, dirty) && (r.phase == Requested ==> plan == original)
      modifies this`record, this`current
      ensures current == r && Undoable()
      ensures f.Done? ==> record == Some(r)
      ensures Saved(old(record), old(current), r, record)
      ensures faultless ==> f.Done?
    {
      hide Admissible, SourceOk, TargetOk, RecordOk, Flattens, Roots;
      f := Step();
      current := r;
      if f.Done? {
        record := Some(r);
      } else {
        f := Step();
        if f.Done? { f := Broken; }
      }
    }

    // ---------- Running the move ----------

    /** The phase is `moving` both on disk and in memory, so trees may change. */
    ghost predicate Working()
      reads this
    {
      Undoable() && record == Some(current) && current.phase == Moving
    }

    /** What the running process may rely on between two effects. */
    lemma AtWork()
      requires Working()
      ensures Admissible(plan) && links == plan.links && SourceOk(plan, source, away) && TargetOk(plan, target, away, dirty)
      ensures RecordOk(plan, current, source, target, dirty) && away <= Roots(plan.units)
      ensures current.how == plan.how && current.units == plan.units && current.bytes == plan.bytes && current.phase == Moving
    {
      hide Admissible, SourceOk, TargetOk, Flattens, JournalOk, CreatedOk, Journals;
    }

    method WorkStep() returns (f: Fate)
      requires Working()
      modifies this`record
      ensures Working() && record == old(record)
      ensures faultless ==> f.Done?
    {
      hide Admissible, SourceOk, TargetOk, RecordOk, Flattens;
      f := Step();
    }

    /** One change of the target. */
    method SetTarget(t: Tree)
      requires Working() && TargetOk(plan, t, away, dirty)
      requires [] in t ==> [] in target || current.createdTarget == Some(true)
      modifies this`target
      ensures Working() && target == t
    {
      hide Admissible, SourceOk, TargetOk, Flattens, JournalOk, Journals;
      target := t;
    }

    method RunDataMove() returns (f: Fate)
      requires Working() && source == plan.source && target == plan.target && away == {} && dirty == {}
      modifies this`source, this`target, this`record, this`current, this`completedBytes, this`away, this`dirty
      ensures Undoable() && current.phase == Moving && record.value.phase == Moving
      ensures f.Done? ==> source == LeftBehind(plan) && target == Arrived(plan, host)
      ensures f.Done? ==> HasLeft(plan, source) && HasMoved(plan, host, target)
      ensures f.Done? ==>
        completedBytes == if plan.how.Move? then plan.bytes else TotalBytes(CarriedByAll(plan.source, plan.units, Copy))
      ensures f.Done? ==> Completable(plan, host)
      ensures faultless && Completable(plan, host) ==> f.Done?
      ensures faultless && !f.Done? ==> f == Broken
      ensures faultless || f.Done? ==> (MarkerBlocked(plan.links, target) <==> MarkerBlocked(plan.links, Transferred()))
    {
      hide Admissible, SourceOk, TargetOk, Prepared, Delivered, LeftBehind, Arrived, Covered, Completable, MarkerBlocked, CarriedByAll, Flattens, DatabasesSound,
        HasMoved, HasLeft;
      completedBytes := 0;
      var created := [] !in target;
      f := Save(current.(createdTarget := Some(created)));
      if !f.Done? { return; }
      f := CreateDirectories();
      if !f.Done? { return; }
      f := Transfer();
      CompletableMeansSound(plan, host);
      if !f.Done? { return; }
      // The last point a cancel is honored.
      f := Step();
      if !f.Done? { return; }
      f := UpdatePathRecords();
      if f.Done? { PlanIsAdmissible(); CompletedHasMoved(plan, host); }
    }

    /** Brings everything over, by renaming it or by copying it and checking the databases. */
    method Transfer() returns (f: Fate)
      requires Working() && away == {} && dirty == {} && source == plan.source && target == Prepared(plan) && completedBytes == 0
      modifies this`source, this`target, this`record, this`completedBytes, this`away
      ensures Working()
      ensures f.Done? ==> source == LeftBehind(plan) && target == Transferred() && (plan.how.Copy? ==> DatabasesSound(host, target))
      ensures f.Done? ==>
        completedBytes == if plan.how.Move? then plan.bytes else TotalBytes(CarriedByAll(plan.source, plan.units, Copy))
      ensures faultless && (plan.how.Copy? ==> DatabasesSound(host, Transferred())) ==> f.Done?
      ensures faultless && !f.Done? ==> f == Broken && target == Transferred()
    {
      hide Working, Prepared, Delivered, LeftBehind, CarriedByAll, DatabasesSound, Admissible, SourceOk, TargetOk, RecordOk, Roots;
      AtWork();
      if current.how.Move? {
        f := RenameUnits();
        if !f.Done? { return; }
        AtWork();
        CountAll();
      } else {
        f := CopyUnits();
        if !f.Done? { return; }
        f := CheckDatabases();
      }
    }

    method CountAll()
      requires Working()
      modifies this`completedBytes
      ensures Working() && completedBytes == current.bytes
    {
      hide Admissible, SourceOk, TargetOk, RecordOk, Flattens;
      completedBytes := current.bytes;
    }

    lemma PlanIsAdmissible()
      requires Undoable()
      ensures Admissible(plan)
    {
      hide Admissible;
    }

    /** From here on the run is no longer cancelled: the path records, then the marker. */
    method UpdatePathRecords() returns (f: Fate)
      requires Working() && dirty == {} && target == Transferred() && (plan.how.Copy? ==> DatabasesSound(host, target))
      modifies this`target, this`record, this`current, this`dirty
      ensures Undoable() && current.phase == Moving && record.value.phase == Moving
      ensures f.Done? ==> target == Arrived(plan, host) && Completable(plan, host)
      ensures faultless && Completable(plan, host) ==> f.Done?
      ensures faultless && !f.Done? ==> f == Broken
      ensures MarkerBlocked(plan.links, target) <==> MarkerBlocked(plan.links, Transferred())
    {
      hide Admissible, SourceOk, TargetOk, RecordOk, Prepared, Delivered, Arrived, Covered, HasDataUnit, Listable, Rewritable, Updatable, DatabasesSound, MarkerFits,
        MarkerBlocked, MarkerElsewhere, Rewrote, Flattens;
      UpdatableIsRewritable(plan, host, Transferred());
      f := RewritePathRecords();
      if !f.Done? { return; }
      CurrentPlan();
      RewroteIsArrived(plan, host, target, PathRecordsOf(Transferred()));
      MarkerStillFits(plan, host, Transferred(), PathRecordsOf(Transferred()));
      if HasDataUnit(current.units) {
        f := WriteMarker();
      }
    }

    method CreateDirectories() returns (f: Fate)
      requires Working() && source == plan.source && target == plan.target && away == {} && dirty == {}
      requires current.createdTarget == Some([] !in target)
      modifies this`target, this`record
      ensures Working()
      ensures f.Done? ==> target == Prepared(plan)
      ensures faultless ==> f.Done?
    {
      hide Working, Admissible, TargetOk, HasDataUnit, Prepared, DATA;
      f := WorkStep();
      if !f.Done? { return; }
      AtWork();
      FixedPaths();
      PreparedInSteps(plan);
      if [] !in target {
        WithScaffold(plan, target, away, dirty, []);
        SetTarget(target[[] := Dir]);
      }
      if HasDataUnit(current.units) {
        f := WorkStep();
        if !f.Done? { return; }
        if DATA !in target {
          AtWork();
          WithScaffold(plan, target, away, dirty, DATA);
          SetTarget(target[DATA := Dir]);
        }
      }
    }

    method RenameUnits() returns (f: Fate)
      requires Working() && plan.how.Move? && away == {} && dirty == {}
      requires source == plan.source && target == Prepared(plan)
      modifies this`source, this`target, this`record, this`away
      ensures Working()
      ensures f.Done? ==> source == LeftBehind(plan) && target == Prepared(plan) + Delivered(plan)
      ensures faultless ==> f.Done?
    {
      hide Working, Renamed, Admissible, Prepared, Delivered, LeftBehind;
      f := Done;
      NothingAwayYet(plan, source, target);
      AtWork();
      for i := 0 to |current.units|
        invariant Working() && f.Done? && dirty == {}
        invariant away == Roots(plan.units[..i]) && Renamed(plan, source, target, away)
      {
        f := WorkStep();
        if !f.Done? { return; }
        AtWork();
        NextUnit(plan, i);
        RenameUnit(current.units[i]);
      }
      assert plan.units[..|plan.units|] == plan.units;
      RenamedAll(plan, source, target);
    }

    method RenameUnit(unit: Path)
      requires Working() && plan.how.Move? && dirty == {} && Renamed(plan, source, target, away)
      requires unit in plan.units && unit !in away
      modifies this`source, this`target, this`away
      ensures Working() && away == old(away) + {unit} && Renamed(plan, source, target, away)
    {
      hide Admissible, SourceOk, TargetOk, Covered, Prepared, JournalOk, CreatedOk, Renamed, Flattens;
      RenameAway(plan, source, target, away, unit);
      RenamedHasRoot(plan, source, target, away);
      RenamedIsUndoable(plan, source - Under(source, unit).Keys, target + Under(source, unit), away + {unit});
      RecordStays(plan, current, source, target, dirty, source - Under(source, unit).Keys, target + Under(source, unit), dirty);
      // A unit that is not there any more would be passed over; nothing but the move takes one away.
      if unit in source {
        source, target := source - Under(source, unit).Keys, target + Under(source, unit);
        away := away + {unit};
      }
    }

    method CopyUnits() returns (f: Fate)
      requires Working() && plan.how.Copy? && away == {} && dirty == {}
      requires source == plan.source && target == Prepared(plan)
      modifies this`target, this`record, this`completedBytes
      ensures Working()
      ensures f.Done? ==> source == LeftBehind(plan) && target == Prepared(plan) + Delivered(plan)
      // The bytes counted while copying are the bytes planned.
      ensures f.Done? ==> completedBytes == old(completedBytes) + TotalBytes(CarriedByAll(plan.source, plan.units, Copy))
      ensures faultless ==> f.Done?
    {
      hide Admissible, SourceOk, TargetOk, Covered, Prepared, Delivered, JournalOk, CreatedOk, CopiedUpTo, Copied, CarriedByAll, Flattens;
      f := Done;
      CopiedAll(plan);
      NothingCarried(plan);
      for i := 0 to |current.units|
        invariant Working() && f.Done?
        invariant target == Prepared(plan) + CopiedUpTo(plan, i)
        invariant completedBytes == old(completedBytes) + TotalBytes(CarriedByAll(plan.source, plan.units[..i], Copy))
      {
        NextUnit(plan, i);
        UnitsDisjoint(plan);
        DeliveredByCopy(plan, i);
        CopyHasRoom(plan, i);
        CountsOneMoreUnit(plan, i);
        f := CopyEntry(current.units[i]);
        if !f.Done? { return; }
      }
      assert plan.units[..|plan.units|] == plan.units;
    }

    /** The copied databases are checked before any path is rewritten. */
    method CheckDatabases() returns (f: Fate)
      requires Working()
      modifies this`record
      ensures Working()
      ensures f.Done? ==> DatabasesSound(host, target)
      ensures faultless && DatabasesSound(host, target) ==> f.Done?
      ensures faultless && !f.Done? ==> f == Broken
    {
      hide Working, DATA;
      f := Done;
      var names, done := Children(target, DATA), {};
      while names != {}
        invariant Working() && f.Done?
        invariant names !! done && names + done == Children(target, DATA)
        invariant forall name :: name in done && IsDatabase(name) && DATA + [name] in target ==> host.sound(target[DATA + [name]])
        decreases names
      {
        var name :| name in names;
        names, done := names - {name}, done + {name};
        if |name| >= 7 && name[|name| - 7..] == ".sqlite" && DATA + [name] in target {
          f := WorkStep();
          if !f.Done? { return; }
          if !host.sound(target[DATA + [name]]) {
            NotSound(host, target, name);
            return Broken;
          }
        }
      }
      ChildrenOfData(target);
    }

    /** One entry and everything below it, except what the app rebuilds by itself. */
    method CopyEntry(relative: Path) returns (f: Fate)
      requires Working() && plan.how.Copy? && away == {} && dirty == {} && Covered(Roots(plan.units), relative)
      modifies this`target, this`record, this`completedBytes
      ensures Working()
      ensures f.Done? ==> target == old(target) + Copied(source, relative)
      ensures f.Done? ==> completedBytes == old(completedBytes) + TotalBytes(Copied(source, relative))
      ensures faultless && Copied(source, relative).Keys !! old(target).Keys ==> f.Done?
      decreases |Under(source, relative)|
    {
      hide Working, Admissible, SourceOk, TargetOk, Covered, IsRebuildable, Copied, Under, Closed;
      AtWork();
      SourceWhileCopying(plan, source, away);
      f := WorkStep();
      if !f.Done? { return; }
      CopiedNothing(source, relative);
      assert target + map[] == target;
      if IsRebuildable(relative) || relative !in source || source[relative].Other? { return; }
      CopiedHoldsItself(source, relative);
      if relative in target {
        return Broken;
      }
      if source[relative].Dir? {
        f := CopyDirectory(relative);
      } else {
        CopiedLeaf(source, relative);
        f := CopyLeaf(relative);
      }
    }

    method CopyDirectory(relative: Path) returns (f: Fate)
      requires Working() && plan.how.Copy? && away == {} && dirty == {} && Covered(Roots(plan.units), relative)
      requires Closed(source) && relative in source && source[relative].Dir? && !IsRebuildable(relative)
      modifies this`target, this`record, this`completedBytes
      ensures Working()
      ensures f.Done? ==> target == old(target) + Copied(source, relative)
      ensures f.Done? ==> completedBytes == old(completedBytes) + TotalBytes(Copied(source, relative))
      ensures faultless && Copied(source, relative).Keys !! old(target).Keys ==> f.Done?
      decreases |Under(source, relative)|, 1
    {
      hide Admissible, SourceOk, TargetOk, Covered, RecordOk, IsRebuildable, Copied, Under, Closed;
      CopiedWhole(source, relative);
      Overwritten(target, relative, Dir, Copied(source, relative));
      Place(relative, Dir);
      f := CopyChildren(relative);
    }

    method CopyLeaf(relative: Path) returns (f: Fate)
      requires Working() && plan.how.Copy? && away == {} && dirty == {} && Covered(Roots(plan.units), relative)
      requires relative in source && (source[relative].File? || source[relative].Link?)
      modifies this`target, this`record, this`completedBytes
      ensures Working()
      ensures f.Done? ==> target == old(target) + map[relative := source[relative]]
      ensures f.Done? ==> completedBytes == old(completedBytes) + Bytes(source[relative])
      ensures faultless ==> f.Done?
    {
      hide Admissible, SourceOk, TargetOk, Covered, RecordOk;
      f := Done;
      Overwritten(target, relative, File(""), map[relative := source[relative]]);
      if source[relative].File? {
        // The file exists, with less than its content, before it is complete.
        Place(relative, File(""));
        f := Step();
        if !f.Done? { return; }
        Place(relative, source[relative]);
        completedBytes := completedBytes + |source[relative].text|;
      } else {
        Place(relative, source[relative]);
      }
    }

    method CopyChildren(relative: Path) returns (f: Fate)
      requires Working() && plan.how.Copy? && away == {} && dirty == {} && Covered(Roots(plan.units), relative)
      requires Closed(source) && relative in source && source[relative].Dir? && !IsRebuildable(relative)
      requires relative in target && target[relative] == Dir
      modifies this`target, this`record, this`completedBytes
      ensures Working()
      ensures f.Done? ==> target == old(target) + Copied(source, relative)
      ensures f.Done? ==> completedBytes == old(completedBytes) + TotalBytes(Copied(source, relative))
      ensures faultless && Copied(source, relative).Keys - {relative} !! old(target).Keys ==> f.Done?
      decreases |Under(source, relative)|, 0
    {
      hide Admissible, SourceOk, TargetOk, Covered, JournalOk, RecordOk, IsRebuildable, Copied, Through, Under, Closed, Children;
      ghost var copied := Copied(source, relative);
      CopiedWhole(source, relative);
      var names, done := Children(source, relative), {};
      f := Done;
      ThroughNothing(copied, relative);
      assert Through(copied, relative, done) == map[] && target + map[] == target;
      while names != {}
        invariant Working() && f.Done?
        invariant names !! done && names + done == Children(source, relative)
        invariant target == old(target) + Through(copied, relative, done)
        invariant completedBytes == old(completedBytes) + TotalBytes(Through(copied, relative, done))
        decreases names
      {
        var name :| name in names;
        UnderShrinks(source, relative, name);
        CopiedOneMore(source, relative, done, name);
        CoveredBelow(Roots(plan.units), relative, relative + [name]);
        ChildHasRoom(source, relative, done, name, old(target));
        AddedInTurn(old(target), Through(copied, relative, done), Copied(source, relative + [name]),
                    Through(copied, relative, done + {name}));
        f := CopyEntry(relative + [name]);
        if !f.Done? { return; }
        names, done := names - {name}, done + {name};
      }
      AlreadyThere(old(target), relative, Through(copied, relative, done), copied);
    }

    method Place(p: Path, node: Node)
      requires Working() && plan.how.Copy? && away == {} && dirty == {} && Covered(Roots(plan.units), p)
      modifies this`target
      ensures Working() && target == old(target)[p := node]
    {
      hide Admissible, SourceOk, TargetOk, Covered, JournalOk;
      WithCopied(plan, target, dirty, p, node);
      SetTarget(target[p := node]);
    }

    /** The trees once everything is transferred and nothing is rewritten yet. */
    ghost function Transferred(): Tree
      reads this
    {
      Prepared(plan) + Delivered(plan)
    }

    /** Looking for path records fails where a directory on the way is none; behind links the world decides. */
    method PathRecordFiles() returns (ok: bool, files: seq<Path>)
      requires links == plan.links
      ensures ok <==> Listable(plan.links, target)
      ensures ok ==> forall p :: p in files <==> p in target && IsPathRecord(p)
    {
      hide IsPathRecord, OnTheWay, DATA, DSH, ARCHIVES, SESSION_STORAGE, RESET_MARKER, Passable, Listable, Listed, IsManifest;
      ListableExactly(plan.links, target);
      WhereRecordsAre(target);
      files := [];
      ok := CanPass(DATA);
      if ok { ok := CanPass(DSH); }
      if ok { ok := CanPass(ARCHIVES); }
      if !ok { return; }
      NoManifest();
      if SESSION_STORAGE in target { files := files + [SESSION_STORAGE]; }
      if RESET_MARKER in target { files := files + [RESET_MARKER]; }
      var names, done := Listed(target, ARCHIVES), {};
      while names != {}
        invariant names !! done && names + done == Listed(target, ARCHIVES)
        invariant forall name :: name in done && ARCHIVES + [name] in target ==> Passable(links, target[ARCHIVES + [name]])
        invariant forall p :: p in files <==> p in target && (p == SESSION_STORAGE || p == RESET_MARKER || IsManifest(done, p))
        decreases names
      {
        var name :| name in names;
        ok := CanPass(ARCHIVES + [name]);
        if !ok { return; }
        var manifest := ARCHIVES + [name, "manifest.json"];
        OneMoreManifest(done, name);
        names, done := names - {name}, done + {name};
        if manifest in target { files := files + [manifest]; }
      }
    }

    method CanPass(p: Path) returns (ok: bool)
      ensures ok <==> (p in target ==> Passable(links, target[p]))
    {
      ok := p !in target || target[p].Dir? || (target[p].Link? && links.records(target[p].to));
    }

    method RewritePathRecords() returns (f: Fate)
      requires Working() && dirty == {} && target == Transferred()
      modifies this`target, this`record, this`current, this`dirty
      ensures Undoable() && current.phase == Moving && record.value.phase == Moving
      ensures f.Done? ==> Working() && target == Rewrote(plan, host, Transferred(), PathRecordsOf(Transferred()))
      ensures f.Done? ==> Listable(plan.links, Transferred()) && Updatable(plan, host, Transferred())
      ensures faultless && Listable(plan.links, Transferred()) && Updatable(plan, host, Transferred()) ==> f.Done?
      ensures faultless && !f.Done? ==> f == Broken
      ensures MarkerBlocked(plan.links, target) <==> MarkerBlocked(plan.links, Transferred())
      ensures current == old(current).(rewrites := current.rewrites)
    {
      hide Admissible, SourceOk, TargetOk, Covered, Prepared, Delivered, RecordOk, IsPathRecord, Updated, Journals, Listable, MarkerBlocked,
        IsOriginal, Flattens;
      f := Broken;
      var ok, files := PathRecordFiles();
      if !ok { return; }
      var originals;
      f, originals := ReadOriginals(files);
      if !f.Done? { return; }
      // Journal the originals first: an undone move puts them back before it renames the files home.
      JournalWith(plan, current, source, target, originals);
      f := Save(current.(rewrites := Some(originals)));
      if !f.Done? { return; }
      f := ApplyRewrites(originals);
      assert PathRecordsOf(Transferred()) == FilesOf(originals) by {
        forall p | p in PathRecordsOf(Transferred()) ensures p in FilesOf(originals) {
          var j :| 0 <= j < |files| && files[j] == p;
          assert originals[j] in originals;
        }
        forall e | e in originals ensures e.file in PathRecordsOf(Transferred()) {
          var j :| 0 <= j < |originals| && originals[j] == e;
          assert files[j] in files;
        }
      }
    }

    /** The entries are the originals of these files, as they read in both trees. */
    ghost predicate AreOriginals(originals: seq<Rewrite>)
      reads this
    {
      forall e :: e in originals ==>
        IsOriginal(plan, e) && e.file in Transferred() && plan.links.Text(Transferred()[e.file]) == Some(e.original)
    }

    method ReadOriginals(files: seq<Path>) returns (f: Fate, originals: seq<Rewrite>)
      requires Working() && dirty == {} && target == Transferred()
      requires forall p :: p in files ==> p in target && IsPathRecord(p)
      modifies this`record
      ensures Working()
      ensures f.Done? ==> |originals| == |files| && AreOriginals(originals)
                          && forall j :: 0 <= j < |files| ==> originals[j].file == files[j]
      ensures faultless && (forall p :: p in files ==> plan.links.Text(target[p]).Some?) ==> f.Done?
      ensures faultless && !f.Done? ==> f == Broken
    {
      hide Admissible, SourceOk, TargetOk, Covered, Prepared, Delivered, RecordOk, IsPathRecord, Flattens;
      originals := [];
      f := Done;
      for i := 0 to |files|
        invariant Working() && f.Done? && |originals| == i
        invariant forall j :: 0 <= j < i ==> originals[j].file == files[j]
        invariant AreOriginals(originals)
      {
        f := Step();
        if !f.Done? { return; }
        assert files[i] in files;
        PathRecordDelivered(plan, files[i]);
        var text := links.Text(target[files[i]]);
        if text.None? {
          return Broken, originals;
        }
        originals := originals + [Rewrite(files[i], text.value)];
      }
    }

    method ApplyRewrites(originals: seq<Rewrite>) returns (f: Fate)
      requires Working() && dirty == {} && target == Transferred()
      requires current.rewrites == Some(originals) && AreOriginals(originals)
      modifies this`target, this`record, this`dirty
      ensures Working()
      ensures f.Done? ==> target == Rewrote(plan, host, Transferred(), FilesOf(originals))
      ensures f.Done? ==> forall e :: e in originals ==> host.Update(e.original).Some?
      ensures faultless && (forall e :: e in originals ==> host.Update(e.original).Some?) ==> f.Done?
      ensures faultless && !f.Done? ==> f == Broken
      ensures MarkerBlocked(plan.links, target) <==> MarkerBlocked(plan.links, Transferred())
    {
      hide Working, Prepared, Delivered, Rewrote, MarkerBlocked, IsOriginal, Updated;
      NothingRewritten(plan, host, target);
      f := Done;
      for i := 0 to |originals|
        invariant Working() && f.Done?
        invariant target == Rewrote(plan, host, Transferred(), FilesOf(originals[..i]))
        invariant forall j :: 0 <= j < i ==> host.Update(originals[j].original).Some?
        invariant MarkerBlocked(plan.links, target) <==> MarkerBlocked(plan.links, Transferred())
      {
        f := WorkStep();
        if !f.Done? { return; }
        var e := originals[i];
        var next := host.Update(e.original);
        if next.None? {
          return Broken;
        }
        assert e in originals && e in current.Entries();
        assert FilesOf(originals[..i + 1]) == FilesOf(originals[..i]) + {e.file};
        RewriteOne(plan, host, Transferred(), FilesOf(originals[..i]), e, next.value);
        RecordOf(plan, e);
        RewriteBlocksNothing(plan, target, e.file, File(next.value));
        ReplaceRecord(e, next.value);
      }
      assert originals[..|originals|] == originals;
    }

    /** One path record is replaced by its rewritten text; the journal on disk has its original. */
    method ReplaceRecord(e: Rewrite, next: string)
      requires Working() && e in current.Entries() && IsPathRecord(e.file) && e.file in target
      modifies this`target, this`dirty
      ensures Working() && target == old(target)[e.file := File(next)] && dirty == old(dirty) + {e.file}
    {
      hide Admissible, SourceOk, TargetOk, IsPathRecord, Flattens, JournalOk, CreatedOk;
      WithRewritten(plan, target, away, dirty, e.file, File(next));
      assert Journals(current, e.file);
      RecordStays(plan, current, source, target, dirty, source, target[e.file := File(next)], dirty + {e.file});
      target, dirty := target[e.file := File(next)], dirty + {e.file};
    }

    /** Where `data/host` is a link the marker is written behind it, and the tree does not change. */
    method WriteMarker() returns (f: Fate)
      requires Working() && HasDataUnit(plan.units)
      modifies this`target, this`record
      ensures Working()
      ensures f.Done? ==> MarkerFits(plan.links, old(target))
      ensures f.Done? ==> target == if MarkerElsewhere(old(target)) then old(target)
                                    else old(target) + map[HOST_DIR := Dir, MARKER := File(host.marker)]
      ensures faultless && MarkerFits(plan.links, old(target)) ==> f.Done?
      ensures faultless && !f.Done? ==> f == Broken
      ensures MarkerBlocked(plan.links, target) <==> MarkerBlocked(plan.links, old(target))
    {
      hide Working, MarkerFits, MarkerBlocked, HasDataUnit, MARKER, HOST_DIR;
      MarkerCases(plan.links, target);
      AtWork();
      if HOST_DIR in target && target[HOST_DIR].Link? {
        f := WorkStep();
        if f.Done? && !(links.takesMarker(target[HOST_DIR].to) && !(MARKER in target && target[MARKER].Dir?)) { f := Broken; }
        return;
      }
      f := MakeMarkerDirectory();
      if !f.Done? { return; }
      f := WorkStep();
      if !f.Done? { return; }
      if MARKER in target && target[MARKER].Dir? {
        return Broken;
      }
      ghost var before := old(target);
      assert MarkerWritten(before, host.marker) == target[MARKER := File(host.marker)];
      PutMarker();
    }

    method MakeMarkerDirectory() returns (f: Fate)
      requires Working() && HasDataUnit(plan.units) && !MarkerElsewhere(target)
      modifies this`target, this`record
      ensures Working()
      ensures HOST_DIR in old(target) ==> target == old(target) && (f.Done? ==> target[HOST_DIR].Dir?)
      ensures HOST_DIR !in old(target) ==> target == if f.Done? then old(target)[HOST_DIR := Dir] else old(target)
      ensures faultless && (HOST_DIR in target ==> target[HOST_DIR].Dir?) ==> f.Done?
      ensures faultless && !f.Done? ==> f == Broken
    {
      hide Working, TargetOk, Admissible, HasDataUnit, DATA, MARKER, HOST_DIR;
      FixedPaths();
      f := WorkStep();
      if !f.Done? { return; }
      AtWork();
      if HOST_DIR !in target {
        WithScaffold(plan, target, away, dirty, HOST_DIR);
        SetTarget(target[HOST_DIR := Dir]);
      } else if !target[HOST_DIR].Dir? {
        return Broken;
      }
    }

    method PutMarker()
      requires Working()
      modifies this`target
      ensures Working() && target == old(target)[MARKER := File(host.marker)]
    {
      hide Working, TargetOk, Admissible, MARKER;
      AtWork();
      WithMarker(plan, target, away, dirty, File(host.marker));
      MarkerIsNotRoot();
      SetTarget(target[MARKER := File(host.marker)]);
    }

    // ---------- Undoing it ----------

    /** Undoing may start, or start over, from here. */
    ghost predicate Unfinished()
      reads this
    {
      Undoable() && current.phase == Moving && record.value.phase == Moving
    }

    /**
     Puts the source back and clears the target. Whatever effect it is cut short at, it can start over, and once it
     completes the trees are those of an undo that was never interrupted. Undisturbed it completes exactly when the
     marker can be removed; nothing at all happens when it cannot.
     */
    method UndoDataMove() returns (f: Fate)
      requires Unfinished()
      modifies this`source, this`target, this`record, this`away, this`dirty, this`plan
      ensures Unfinished() && (record == old(record) || record == Some(current))
      ensures f.Done? ==> source == Undone(plan, old(source)) && target == plan.target && BackHome(plan, source, target)
      // Linked path records the journal has are put back as regular files; nothing else of the plan changes.
      ensures FlattenedBy(plan, current.Entries(), target) == FlattenedBy(old(plan), current.Entries(), old(target))
      ensures f.Done? ==> plan == FlattenedBy(old(plan), current.Entries(), old(target))
      ensures faultless && !MarkerBlocked(links, old(target)) ==> f.Done?
      ensures MarkerBlocked(links, old(target)) ==> !f.Done? && source == old(source) && target == old(target) && plan == old(plan)
      ensures MARKER in source <==> MARKER in old(source)
    {
      hide Admissible, SourceOk, TargetOk, Covered, RecordOk, MARKER, MarkerBlocked, FlattenedBy, BackHome, Flattens;
      CurrentPlan();
      f := RemoveMarker();
      if !f.Done? { return; }
      if current.how.Move? {
        f := RestoreOriginals();
        if !f.Done? { return; }
        FlatStays(plan, current.Entries(), target, target);
        ghost var t := target;
        f := RenameUnitsBack();
        FlatStays(plan, current.Entries(), t, target);
      } else {
        NothingAwayWhileCopying(plan, source, target, away, dirty);
        away, dirty := {}, {};
        RecordStays(plan, current, source, target, old(dirty), source, target, {});
        RecordStays(plan, record.value, source, target, old(dirty), source, target, {});
        f := RemoveCopies();
        CopyFlattensNothing(plan, current.Entries());
      }
      if !f.Done? { return; }
      UnitsAllHome(plan, source, target);
      ghost var left := target;
      f := RemoveDirectories();
      if plan.how.Move? { FlatStays(plan, current.Entries(), left, target); }
    }

    /** Interrupted any number of times and started over by later launches, undoing ends as if it ran once. */
    method UndoUntilDone(attempts: nat) returns (f: Fate)
      requires Unfinished()
      modifies this
      ensures Unfinished()
      ensures f.Done? ==> source == Undone(plan, old(source)) && target == plan.target
      ensures f.Done? ==> plan == FlattenedBy(old(plan), old(record).value.Entries(), old(target))
    {
      hide Admissible, SourceOk, TargetOk, RecordOk, BackHome, MARKER, FlattenedBy, MarkerBlocked, Flattens;
      f := Crashed;
      for i := 0 to attempts
        invariant Unfinished() && !f.Done? && record == old(record)
        invariant FlattenedBy(plan, old(record).value.Entries(), target) == FlattenedBy(old(plan), old(record).value.Entries(), old(target))
        invariant MARKER in source <==> MARKER in old(source)
      {
        current := record.value;
        f := UndoDataMove();
        if f.Done? { return; }
      }
    }

    method RemoveMarker() returns (f: Fate)
      requires Unfinished()
      modifies this`target, this`record
      ensures Unfinished() && (record == old(record) || record == Some(current))
      ensures f.Done? ==> MARKER !in target && !MarkerBlocked(links, old(target))
      ensures target == if f.Done? then old(target) - {MARKER} else old(target)
      ensures FlattenedBy(plan, current.Entries(), target) == FlattenedBy(plan, current.Entries(), old(target))
      ensures faultless && !MarkerBlocked(links, old(target)) ==> f.Done?
    {
      hide Admissible, SourceOk, TargetOk, Covered, RecordOk, MARKER, DATA, HOST_DIR, FlattenedBy, Flattens, IsOriginal;
      CurrentPlan();
      f := Step();
      if !f.Done? { return; }
      if Bars(links, target, DATA) || Bars(links, target, HOST_DIR) || (MARKER in target && target[MARKER].Dir?) {
        return Broken;
      }
      WithoutMarker(plan, target, away, dirty);
      TreesChanged(target - {MARKER}, dirty);
      MarkerFlattensNothing(plan, current.Entries(), target);
      target := target - {MARKER};
    }

    /** Both records still fit after a change that did not create the target. */
    lemma TreesChanged(target': Tree, dirty': set<Path>)
      requires Unfinished()
      requires [] in target' ==> [] in target
      requires forall p :: p in dirty' ==> p in dirty || (Journals(current, p) && Journals(record.value, p))
      ensures RecordOk(plan, current, source, target', dirty')
      ensures RecordOk(plan, record.value, source, target', dirty')
    {
      hide JournalOk, Journals;
    }

    method RestoreOriginals() returns (f: Fate)
      requires Unfinished() && MARKER !in target && plan.how.Move?
      modifies this`target, this`record, this`dirty, this`plan
      ensures Unfinished() && MARKER !in target && (record == old(record) || record == Some(current))
      ensures f.Done? ==> dirty == {}
      ensures plan.(source := old(plan).source) == old(plan) && plan.source.Keys == old(plan).source.Keys
      ensures FlattenedBy(plan, current.Entries(), target) == FlattenedBy(old(plan), current.Entries(), old(target))
      ensures f.Done? ==> NoneLinked(plan, current.Entries(), target)
      ensures faultless ==> f.Done?
    {
      hide Admissible, SourceOk, TargetOk, Covered, RecordOk, IsPathRecord, MARKER, FlattenedBy, Flattens, IsOriginal;
      f := Done;
      CurrentPlan();
      var entries := current.Entries();
      for i := 0 to |entries|
        invariant Unfinished() && f.Done? && MARKER !in target && (record == old(record) || record == Some(current))
        invariant plan.(source := old(plan).source) == old(plan) && plan.source.Keys == old(plan).source.Keys
        invariant forall e :: e in entries ==> IsOriginal(plan, e)
        invariant forall p :: p in dirty ==> exists j :: i <= j < |entries| && entries[j].file == p
        invariant FlattenedBy(plan, entries, target) == FlattenedBy(old(plan), entries, old(target))
        invariant NoneLinked(plan, entries[..i], target)
      {
        f := Step();
        if !f.Done? { return; }
        RestoreOne(entries, i);
      }
      assert entries[..|entries|] == entries;
    }

    /** One original is put back where the move has the file. */
    method RestoreOne(entries: seq<Rewrite>, i: nat)
      requires Unfinished() && MARKER !in target && plan.how.Move? && entries == current.Entries() && i < |entries|
      requires forall e :: e in entries ==> IsOriginal(plan, e)
      requires forall p :: p in dirty ==> exists j :: i <= j < |entries| && entries[j].file == p
      requires NoneLinked(plan, entries[..i], target)
      modifies this`target, this`dirty, this`plan
      ensures Unfinished() && MARKER !in target
      ensures plan.(source := old(plan).source) == old(plan) && plan.source.Keys == old(plan).source.Keys
      ensures forall e :: e in entries ==> IsOriginal(plan, e)
      ensures dirty == old(dirty) - {entries[i].file}
      ensures FlattenedBy(plan, entries, target) == FlattenedBy(old(plan), entries, old(target))
      ensures NoneLinked(plan, entries[..i + 1], target)
    {
      hide Admissible, SourceOk, TargetOk, Covered, RecordOk, IsPathRecord, MARKER, FlattenedBy, Flattens, IsOriginal, NoneLinked;
      var e := entries[i];
      assert e in entries;
      OriginalIsNotMarker(plan, e);
      RecordOf(plan, e);
      WithOriginal(plan, target, away, dirty, e);
      TreesChanged(if e.file in target then target[e.file := File(e.original)] else target, dirty - {e.file});
      NoneLinkedYet(plan, entries, i, target);
      if e.file in target {
        PathRecordIsAway(plan, target, away, dirty, e.file);
        PutBackKeepsSource(plan, source, away, e);
        PutBackStaysAdmissible(plan, e);
        PutBackFlattens(original, plan, e);
        PutBackKeepsRecord(plan, current, source, target[e.file := File(e.original)], dirty - {e.file}, e);
        PutBackKeepsRecord(plan, record.value, source, target[e.file := File(e.original)], dirty - {e.file}, e);
        PutBackKeepsOriginals(plan, entries, e);
        PutBackAgrees(plan, entries, e, target);
        target := target[e.file := File(e.original)];
        plan := PutBack(plan, e);
      }
      dirty := dirty - {e.file};
    }

    method BringHome(unit: Path)
      requires Unfinished() && plan.how.Move? && dirty == {} && MARKER !in target && unit in away
      modifies this`source, this`target, this`away
      ensures Unfinished() && MARKER !in target && away == old(away) - {unit} && target.Keys <= old(target).Keys
      ensures MARKER in source <==> MARKER in old(source)
    {
      hide Admissible, SourceOk, TargetOk, Covered, RecordOk, MARKER;
      RenameHome(plan, source, target, away, unit);
      RecordStays(plan, current, source, target, dirty, source + Under(target, unit), target - Under(target, unit).Keys, dirty);
      RecordStays(plan, record.value, source, target, dirty, source + Under(target, unit), target - Under(target, unit).Keys, dirty);
      source, target := source + Under(target, unit), target - Under(target, unit).Keys;
      away := away - {unit};
    }

    method RenameUnitsBack() returns (f: Fate)
      requires Unfinished() && plan.how.Move? && dirty == {} && MARKER !in target
      modifies this`source, this`target, this`record, this`away
      ensures Unfinished() && MARKER !in target && (record == old(record) || record == Some(current))
      ensures target.Keys <= old(target).Keys
      ensures MARKER in source <==> MARKER in old(source)
      ensures f.Done? ==> away == {}
      ensures faultless ==> f.Done?
    {
      hide Admissible, SourceOk, TargetOk, Covered, RecordOk, MARKER;
      f := Done;
      CurrentPlan();
      var i := |current.units|;
      AwayUpToAll(plan.units, away);
      while i > 0
        invariant 0 <= i <= |current.units|
        invariant Unfinished() && f.Done? && MARKER !in target && away <= Roots(plan.units[..i])
        invariant MARKER in source <==> MARKER in old(source)
        invariant target.Keys <= old(target).Keys && (record == old(record) || record == Some(current))
      {
        i := i - 1;
        var unit := current.units[i];
        NextUnit(plan, i);
        f := Step();
        if !f.Done? { return; }
        HomeOrAway(plan, source, target, away, unit);
        if unit in target && unit !in source {
          if |unit| == 2 {
            // `data` never left the source, so making sure it exists changes nothing.
            DataStayed(plan, source, away, unit);
            f := Step();
            if !f.Done? { return; }
          }
          BringHome(unit);
        }
      }
      assert plan.units[..0] == [];
    }

    method RemoveCopies() returns (f: Fate)
      requires Unfinished() && plan.how.Copy? && away == {} && dirty == {} && MARKER !in target
      modifies this`target, this`record
      ensures Unfinished() && MARKER !in target && (record == old(record) || record == Some(current))
      ensures f.Done? ==> forall p :: p in target ==> !Covered(Roots(plan.units), p)
      ensures faultless ==> f.Done?
    {
      hide Admissible, SourceOk, TargetOk, RecordOk, MARKER, Covered;
      f := Done;
      CurrentPlan();
      for i := 0 to |current.units|
        invariant Unfinished() && f.Done? && MARKER !in target && (record == old(record) || record == Some(current))
        invariant forall p, j :: p in target && 0 <= j < i ==> !(plan.units[j] <= p)
      {
        NextUnit(plan, i);
        f := RemoveRecursively(current.units[i]);
        if !f.Done? { return; }
      }
      NothingCovered(plan.units, target);
    }

    /** `rm -r`: entry by entry, so it too can be cut short. */
    method RemoveRecursively(unit: Path) returns (f: Fate)
      requires Unfinished() && plan.how.Copy? && away == {} && dirty == {} && Covered(Roots(plan.units), unit)
      modifies this`target, this`record
      ensures Unfinished() && (record == old(record) || record == Some(current))
      ensures forall p :: p in target ==> p in old(target)
      ensures f.Done? ==> forall p :: p in target ==> !(unit <= p)
      ensures faultless ==> f.Done?
    {
      hide Admissible, SourceOk, TargetOk, RecordOk, Covered;
      var left := set p | p in target && unit <= p;
      f := Done;
      while left != {}
        invariant Unfinished() && f.Done? && (record == old(record) || record == Some(current))
        invariant forall p :: p in target ==> p in old(target)
        invariant forall p :: p in target && unit <= p ==> p in left
        invariant forall p :: p in left ==> unit <= p
        decreases left
      {
        f := Step();
        if !f.Done? { return; }
        var p :| p in left;
        CoveredBelow(Roots(plan.units), unit, p);
        WithCopied(plan, target, dirty, p, Dir);
        TreesChanged(target - {p}, dirty);
        target, left := target - {p}, left - {p};
      }
    }

    /** Only directories the move made, and only empty ones. */
    method RemoveDirectories() returns (f: Fate)
      requires Unfinished() && OnlyScaffoldLeft(plan, target) && away == {} && dirty == {} && MARKER !in target
      requires source == plan.source || (plan.how.Move? && MARKER in plan.source && source == plan.source - {MARKER})
      modifies this`target, this`record
      ensures Unfinished() && target.Keys <= old(target).Keys && (record == old(record) || record == Some(current))
      ensures f.Done? ==> target == plan.target && BackHome(plan, source, target)
      ensures faultless ==> f.Done?
    {
      hide Admissible, SourceOk, TargetOk, RecordOk, MARKER, Covered, DATA, HOST_DIR, Scaffold;
      FixedPaths();
      ScaffoldRemoved(plan, target);
      f := RemoveDirectory(HOST_DIR);
      if !f.Done? { return; }
      ScaffoldRemoved(plan, target);
      f := RemoveDirectory(DATA);
      if !f.Done? { return; }
      ScaffoldRemoved(plan, target);
      CreatedMeansEmpty(plan, current, source, target, dirty);
      if current.createdTarget == Some(true) {
        f := RemoveDirectory([]);
        if !f.Done? { return; }
      }
      assert target == plan.target;
    }

    method RemoveDirectory(dir: Path) returns (f: Fate)
      requires Unfinished() && OnlyScaffoldLeft(plan, target) && away == {} && dirty == {} && MARKER !in target
      requires dir !in plan.target
      modifies this`target, this`record
      ensures Unfinished() && OnlyScaffoldLeft(plan, target) && MARKER !in target
      ensures record == old(record) || record == Some(current)
      ensures forall p :: p in target ==> p in old(target)
      ensures f.Done? && (forall p :: p in old(target) ==> !(dir < p)) ==> dir !in target
      ensures faultless ==> f.Done?
    {
      hide Admissible, SourceOk, TargetOk, RecordOk, MARKER, Covered, Scaffold;
      LeftAreDirectories(plan, target, dir);
      f := Step();
      if !f.Done? || dir !in target { return; }
      if !target[dir].Dir? {
        return Broken;
      }
      if forall p :: p in target ==> !(dir < p) {
        WithoutDirectory(plan, target, dir);
        TreesChanged(target - {dir}, dirty);
        target := target - {dir};
      }
    }

    /** The record in memory names the planned units, and journals only originals. */
    lemma CurrentPlan()
      requires Undoable()
      ensures current.how == plan.how && current.units == plan.units
      ensures forall e :: e in current.Entries() ==> IsOriginal(plan, e)
      ensures forall p :: p in dirty ==> Journals(current, p)
    {
      hide IsPathRecord, Journals, IsOriginal;
    }

    // ---------- Launches ----------

    /** No launch can get past this: the move is unfinished on record, and its undo cannot even start. */
    ghost predicate Stuck()
      reads this
    {
      Recoverable() && record.value.phase == Moving && MarkerBlocked(links, target)
    }

    /** Migration mode: runs or undoes the move, and leaves whatever a later launch needs to carry on. */
    method RunDataMoveMode(kind: Decision) returns (relaunch: bool)
      requires Recoverable() && current == record.value
      requires kind == if current.phase == Requested then Migrate else Undo
      modifies this
      ensures Consistent()
      ensures relaunch ==> location == Target
      ensures faultless && kind == Migrate && Completable(old(plan), host) && host.switches ==> relaunch && Switched() && record.value.phase == Completed
      ensures faultless && kind == Migrate && !(Completable(old(plan), host) && host.switches) ==>
        if MarkerBlocked(links, Whole(old(plan))) then Stuck() else Restored()
      ensures kind == Undo && MarkerBlocked(links, old(target)) ==> Stuck()
      ensures faultless && kind == Undo && !MarkerBlocked(links, old(target)) ==> Restored()
      ensures kind == Undo ==> !relaunch && location == Source
      ensures faultless && (relaunch || Restored()) ==> record.value.rewrites.None?
    {
      hide Completable, Admissible, SourceOk, TargetOk, JournalOk, CreatedOk, BackHome, Arrived, LeftBehind, MarkerBlocked, Flattens, FlattenedBy,
        Prepared, Delivered, CarriedByAll, HasMoved, HasLeft;
      relaunch := false;
      // Claim the record.
      var f := Save(current);
      if !f.Done? { return; }
      if kind == Undo {
        GiveUp();
        return;
      }
      InitiallyUndoable(plan);
      StartMoving(plan, current, source, target, dirty);
      away, dirty := {}, {};
      f := Save(current.(phase := Moving));
      if !f.Done? { return; }
      f := RunDataMove();
      if f == Crashed { return; }
      if f == Broken {
        GiveUp();
        return;
      }
      f := Step();
      if f == Crashed { return; }
      if f == Broken || !host.switches {
        GiveUp();
        return;
      }
      // The switch-over point.
      location := Target;
      FinishRecord();
      relaunch := true;
    }

    method GiveUp()
      requires Unfinished()
      modifies this`source, this`target, this`record, this`current, this`away, this`dirty, this`plan
      ensures Consistent()
      ensures MarkerBlocked(links, old(target)) ==> Stuck()
      ensures faultless && !MarkerBlocked(links, old(target)) ==> Restored() && record.value.rewrites.None?
      ensures location == Source
    {
      hide Admissible, SourceOk, TargetOk, RecordOk, BackHome, MarkerBlocked, FlattenedBy, Flattens;
      var f := UndoDataMove();
      if !f.Done? { return; }
      f := Step();
      current := current.WithoutRewrites().(phase := Failed);
      if f.Done? { record := Some(current); }
      f := Step();
    }

    method FinishRecord()
      requires Switched()
      modifies this`record, this`current
      ensures Switched()
      ensures faultless ==> record.value.phase == Completed && record.value.rewrites.None?
    {
      hide Admissible, Arrived, LeftBehind, Completable;
      current := current.(phase := Phase.Switched);
      var f := Step();
      if f.Done? {
        record := Some(current);
        current := current.WithoutRewrites().(phase := Completed);
        f := Step();
        if f.Done? { record := Some(current); }
      }
    }

    /** A synchronous write before the app starts. */
    method Attempt() returns (f: Fate)
      ensures faultless ==> f.Done?
    {
      f := *;
      if faultless { f := Done; }
    }

    /** The old directory as it was, but for what `BackHome` and `Flattens` admit. */
    ghost predicate Returned()
      reads this
    {
      Flattens(original, plan) && BackHome(plan, source, target)
    }

    /** The new directory with everything in it. */
    ghost predicate Moved()
      reads this
    {
      plan == original && HasLeft(plan, source) && HasMoved(plan, host, target)
    }

    lemma SwitchedIsMoved()
      requires Switched()
      ensures Moved()
    {
      hide Admissible, Arrived, LeftBehind, Completable, HasLeft, HasMoved;
      CompletedHasMoved(plan, host);
    }

    /** The move is on record and not over, and the location file still names the source. */
    predicate Pending()
      reads this
    {
      record.Some? && record.value.phase in {Requested, Moving} && location == Source
    }

    /** This launch is the one that is to carry out the move. */
    predicate Asked(migrationFlag: bool)
      reads this
    {
      Pending() && migrationFlag && record.value.phase == Requested
    }

    /** One launch, from reading the record to opening a directory, handing over to migration mode, or giving way. */
    method Launch(migrationFlag: bool, ownerAlive: bool) returns (o: Outcome)
      requires Consistent()
      modifies this
      ensures Consistent()
      ensures o.Opened? ==> o.root == location
      ensures o == Opened(Source) ==> Returned()
      ensures o == Opened(Target) ==> Moved()
      ensures old(Stuck()) ==> Stuck() && o == NotOpened
      ensures faultless && !ownerAlive && !o.Opened? ==> if old(Passes(migrationFlag)) then Over() else Stuck()
      ensures !ownerAlive && o.Opened? ==> old(Passes(migrationFlag))
      ensures faultless && old(Over()) ==> o.Opened?
      // A launch gives way to a process that is at work, and touches nothing.
      ensures ownerAlive && old(Pending() && !Asked(migrationFlag)) ==>
        o == NotOpened && source == old(source) && target == old(target) && location == old(location) && record == old(record)
      // Once the move is over a launch just opens the directory.
      ensures old(record.Some? && record.value.phase in {Completed, Failed}) ==>
        o == Opened(location) && source == old(source) && target == old(target) && location == old(location) && record == old(record)
      // A move that nobody is there to carry out does not begin.
      ensures old(Pending() && record.value.phase == Requested && !migrationFlag) ==>
        source == old(source) && target == old(target) && location == Source
      ensures faultless && !ownerAlive && old(Pending() && record.value.phase == Requested && !migrationFlag) ==>
        o == Opened(Source) && Ended(old(record), Failed)
      // A move that was left half done is undone, whatever the flag says, and no directory is opened meanwhile.
      ensures !ownerAlive && old(Pending() && record.value.phase == Moving) ==> o == NotOpened && location == Source
      ensures faultless && !ownerAlive && old(Pending() && record.value.phase == Moving && !MarkerBlocked(links, target)) ==>
        Restored() && record.value.rewrites.None?
      // The launch that is asked to carries the move out, if it can be done at all.
      ensures old(Asked(migrationFlag)) ==> o == NotOpened
      ensures faultless && old(Asked(migrationFlag)) && Completable(old(plan), host) && host.switches ==>
        Switched() && record.value.phase == Completed && record.value.rewrites.None?
      // After the switch a launch only closes the record and opens the new directory.
      ensures old(!Pending() && record.Some? && record.value.phase !in {Completed, Failed}) ==>
        && source == old(source) && target == old(target) && location == old(location)
        && (faultless ==> o == Opened(location) && Ended(old(record), Completed))
    {
      hide Completable, Admissible, SourceOk, TargetOk, JournalOk, BackHome, Arrived, LeftBehind, MarkerBlocked, Flattens, Prepared, Delivered, HasMoved, HasLeft;
      current := record.value;
      if Switched() { SwitchedIsMoved(); }
      match DecideStartup(record, migrationFlag, location, ownerAlive)
      case Normal =>
        return Opened(location);
      case Busy =>
        return NotOpened;
      case Finish =>
        // Failing to write the record does not keep the app from opening the directory.
        var f := Attempt();
        if f == Crashed { return NotOpened; }
        if f.Done? { record := Some(record.value.WithoutRewrites().(phase := Completed)); }
        return Opened(location);
      case Abandon =>
        UntouchedIsHome(plan);
        var f := Attempt();
        if f == Crashed { return NotOpened; }
        if f.Done? { record := Some(record.value.WithoutRewrites().(phase := Failed)); }
        return Opened(location);
      case kind =>
        var relaunch := RunDataMoveMode(kind);
        return NotOpened;
    }

    /** The record is as it was, but over, and its journal is gone. */
    predicate Ended(before: Option<Record>, phase: Phase)
      reads this
      requires before.Some?
    {
      record.Some? && record.value.phase == phase && record.value.rewrites.None?
      && record.value.how == before.value.how && record.value.units == before.value.units
    }

    /** The record says that the move is over. */
    ghost predicate Over()
      reads this
    {
      Consistent() && record.value.phase in {Completed, Failed}
    }

    /** An undisturbed launch gets the move over with: it completes, or the undo can remove the marker. */
    ghost predicate Passes(migrationFlag: bool)
      reads this
      requires Consistent()
    {
      match DecideStartup(record, migrationFlag, location, false)
      case Migrate => (Completable(plan, host) && host.switches) || !MarkerBlocked(links, Whole(plan))
      case Undo => !MarkerBlocked(links, target)
      case _ => true
    }

    /**
     From whatever a crash left, two or more launches that nothing disturbs open a directory exactly when the first of
     them gets the move over with; which directory, and that it is restored or complete, `Launch` says. Otherwise the app
     never opens a directory again.
     */
    method UndisturbedLaunches(migrationFlag: bool, more: nat) returns (o: Outcome)
      requires Consistent() && faultless
      modifies this
      ensures Consistent()
      ensures o.Opened? <==> old(Passes(migrationFlag))
      ensures o == Opened(Source) ==> Returned()
      ensures o == Opened(Target) ==> Moved()
    {
      hide Recoverable, BackHome, LeftBehind, Arrived, Completable, Admissible, Passes, Returned, Moved, MarkerBlocked, Flattens, Consistent, Stuck, Over;
      o := Launch(migrationFlag, false);
      if o.Opened? { return; }
      o := Launch(false, false);
      for i := 0 to more
        invariant Consistent()
        invariant if old(Passes(migrationFlag)) then o.Opened? else Stuck() && o == NotOpened
        invariant o == Opened(Source) ==> Returned()
        invariant o == Opened(Target) ==> Moved()
      {
        if o.Opened? { return; }
        o := Launch(false, false);
      }
    }

    /**
     Any number of launches, each cut short anywhere: the first directory the app opens is the old one with everything
     back in place, or the new one with everything in it, according to the location file.
     */
    method Launches(launches: seq<(bool, bool)>) returns (o: Outcome)
      requires Consistent()
      modifies this
      ensures Consistent()
      ensures o == Opened(Source) ==> location == Source && Returned()
      ensures o == Opened(Target) ==> location == Target && Moved()
      ensures old(Stuck()) ==> o == NotOpened
    {
      hide *;
      o := NotOpened;
      for i := 0 to |launches|
        invariant Consistent() && o == NotOpened
        invariant old(Stuck()) ==> Stuck()
      {
        o := Launch(launches[i].0, launches[i].1);
        if o.Opened? { return; }
      }
    }
  }

  // ---------- What an undisturbed move needs ----------

  /** Everything that arrives, before any path record is rewritten. */
  ghost function Whole(plan: Plan): Tree {
    Prepared(plan) + Delivered(plan)
  }

  predicate Passable(links: Links, node: Node) {
    node.Dir? || (node.Link? && links.records(node.to))
  }

  /** The names listed in a directory. */
  function Listed(t: Tree, dir: Path): set<string> {
    set p | p in t && dir < p :: p[|dir|]
  }

  predicate IsManifest(names: set<string>, p: Path) {
    |p| == |ARCHIVES| + 2 && ARCHIVES <= p && p[|ARCHIVES|] in names && p[|ARCHIVES| + 1] == "manifest.json"
  }

  lemma OneMoreManifest(names: set<string>, name: string)
    ensures forall p :: IsManifest(names + {name}, p) <==> IsManifest(names, p) || p == ARCHIVES + [name, "manifest.json"]
  {
    hide ARCHIVES;
    forall p | IsManifest({name}, p) ensures p == ARCHIVES + [name, "manifest.json"] {}
  }

  lemma NoManifest()
    ensures forall p :: !IsManifest({}, p)
  {
  }

  lemma ListedBelow(t: Tree, p: Path)
    requires p in t && |p| >= 4 && p[..3] == ARCHIVES
    ensures p[3] in Listed(t, ARCHIVES) && (|p| == 4 ==> p == ARCHIVES + [p[3]])
  {
    assert |ARCHIVES| == 3 && ARCHIVES < p;
  }

  /** The records of a tree, by their names. */
  lemma WhereRecordsAre(t: Tree)
    ensures forall p :: p in t && IsPathRecord(p) <==>
              p in t && (p == SESSION_STORAGE || p == RESET_MARKER || IsManifest(Listed(t, ARCHIVES), p))
  {
    assert |ARCHIVES| == 3;
    hide ARCHIVES, SESSION_STORAGE, RESET_MARKER, Listed;
    forall p | p in t && |p| >= 4 && p[..3] == ARCHIVES ensures p[3] in Listed(t, ARCHIVES) { ListedBelow(t, p); }
  }

  /** The directories they are looked for in, by their names. */
  lemma ListableExactly(links: Links, t: Tree)
    ensures Listable(links, t) <==>
            && (forall p :: p in {DATA, DSH, ARCHIVES} && p in t ==> Passable(links, t[p]))
            && (forall name :: name in Listed(t, ARCHIVES) && ARCHIVES + [name] in t ==> Passable(links, t[ARCHIVES + [name]]))
  {
    assert |ARCHIVES| == 3;
    hide ARCHIVES, DATA, DSH, Passable, Listed;
    forall p | p in t && |p| == 4 && p[..3] == ARCHIVES ensures p[3] in Listed(t, ARCHIVES) && p == ARCHIVES + [p[3]] { ListedBelow(t, p); }
    forall name ensures OnTheWay(ARCHIVES + [name]) { assert (ARCHIVES + [name])[..3] == ARCHIVES; }
  }

  /** Looking for path records meets directories only, or links behind which it works. */
  ghost predicate Listable(links: Links, t: Tree) {
    forall p :: p in t && OnTheWay(p) ==> Passable(links, t[p])
  }

  /** Every path record is a text that can be read, and read as JSON. */
  ghost predicate Rewritable(plan: Plan, host: Host, t: Tree) {
    forall p :: p in t && IsPathRecord(p) ==> exists text :: ReadsAs(plan.links, t[p], text) && host.parse(text).Some?
  }

  ghost predicate Updatable(plan: Plan, host: Host, t: Tree) {
    forall p :: p in t && IsPathRecord(p) ==>
      var text := plan.links.Text(t[p]); text.Some? && host.Update(text.value).Some?
  }

  lemma UpdatableIsRewritable(plan: Plan, host: Host, t: Tree)
    ensures Updatable(plan, host, t) <==> Rewritable(plan, host, t)
  {
    hide IsPathRecord, ReadsAs;
    forall p | p in t && IsPathRecord(p)
      ensures (plan.links.Text(t[p]).Some? && host.Update(plan.links.Text(t[p]).value).Some?)
              <==> exists text :: ReadsAs(plan.links, t[p], text) && host.parse(text).Some?
    {
      TextIsWhatItReadsAs(plan.links, t[p]);
      UpdatesWhatParses(host, plan.links.Text(t[p]));
    }
  }

  lemma UpdatesWhatParses(host: Host, text: Option<string>)
    ensures text.Some? ==> (host.Update(text.value).Some? <==> host.parse(text.value).Some?)
  {
  }

  /** The marker can be written. */
  predicate MarkerFits(links: Links, t: Tree) {
    && (HOST_DIR in t ==> t[HOST_DIR].Dir? || (t[HOST_DIR].Link? && links.takesMarker(t[HOST_DIR].to)))
    && !(MARKER in t && t[MARKER].Dir?)
  }

  /** An entry that a file cannot lie below, so that even removing one that is not there fails. */
  predicate Bars(links: Links, t: Tree, p: Path) {
    p in t && !t[p].Dir? && !(t[p].Link? && links.losesMarker(t[p].to))
  }

  /** The marker cannot be removed: something above it is no directory, or it is one itself. */
  predicate MarkerBlocked(links: Links, t: Tree) {
    Bars(links, t, DATA) || Bars(links, t, HOST_DIR) || (MARKER in t && t[MARKER].Dir?)
  }

  predicate IsDatabase(name: string) {
    |name| >= 7 && name[|name| - 7..] == ".sqlite"
  }

  /** Every database in the data directory passes its check. */
  predicate DatabasesSound(host: Host, t: Tree) {
    forall p :: p in t && |p| == 2 && DATA <= p && IsDatabase(p[1]) ==> host.sound(t[p])
  }

  lemma CompletableMeansSound(plan: Plan, host: Host)
    ensures Completable(plan, host) && plan.how.Copy? ==> DatabasesSound(host, Whole(plan))
  {
  }

  lemma NotSound(host: Host, t: Tree, name: string)
    requires IsDatabase(name) && DATA + [name] in t && !host.sound(t[DATA + [name]])
    ensures !DatabasesSound(host, t)
  {
    assert (DATA + [name])[1] == name;
  }

  lemma ChildrenOfData(t: Tree)
    ensures forall p :: p in t && |p| == 2 && DATA <= p ==> p[1] in Children(t, DATA) && p == DATA + [p[1]]
  {
  }

  /** What was transferred lets the move complete. */
  ghost predicate Completable(plan: Plan, host: Host) {
    && (plan.how.Copy? ==> DatabasesSound(host, Whole(plan)))
    && Listable(plan.links, Whole(plan)) && Rewritable(plan, host, Whole(plan))
    && (HasDataUnit(plan.units) ==> MarkerFits(plan.links, Whole(plan)))
  }

  /** The trees of a move that completed are what it was for. */
  lemma CompletedHasMoved(plan: Plan, host: Host)
    requires Admissible(plan) && Completable(plan, host)
    ensures HasMoved(plan, host, Arrived(plan, host)) && HasLeft(plan, LeftBehind(plan))
  {
    hide Admissible, IsRebuildable, IsPathRecord, MARKER, HOST_DIR, DATA, Prepared, Delivered, Arrived, LeftBehind, Travels, RecordRenewed,
      Completable, Closed, HasDataUnit, MarkerElsewhere, Updated, Covered;
    LeftBehindIsLeft(plan);
    ArrivedIsClosed(plan, host);
    forall p | p in plan.target ensures p in Arrived(plan, host) && Arrived(plan, host)[p] == plan.target[p] { TargetStays(plan, host, p); }
    forall p ensures Travels(plan, p) ==> p in plan.source { TravelsIsDelivered(plan, p); }
    forall p | Travels(plan, p) && !IsPathRecord(p) && p != MARKER
      ensures p in Arrived(plan, host) && Arrived(plan, host)[p] == plan.source[p] { TravellerArrives(plan, host, p); }
    forall p | Travels(plan, p) && IsPathRecord(p)
      ensures p in Arrived(plan, host) && RecordRenewed(plan, host, p, Arrived(plan, host)[p]) { RecordArrives(plan, host, p); }
    MarkerArrives(plan, host);
    forall p | p in Arrived(plan, host)
      ensures p in plan.target || Travels(plan, p) || p == [] || (HasDataUnit(plan.units) && p in {DATA, HOST_DIR, MARKER}) {
      NothingElseArrives(plan, host, p);
    }
  }

  lemma LeftBehindIsLeft(plan: Plan)
    ensures HasLeft(plan, LeftBehind(plan))
  {
    forall p | p in plan.source ensures Covered(Roots(plan.units), p) <==> exists u :: u in plan.units && u <= p { CoveredByUnit(plan, p); }
  }

  lemma CoveredByUnit(plan: Plan, p: Path)
    ensures Covered(Roots(plan.units), p) <==> exists u :: u in plan.units && u <= p
  {
    if u :| u in plan.units && u <= p { assert u in Roots(plan.units); }
  }

  lemma TravelsIsDelivered(plan: Plan, p: Path)
    ensures Travels(plan, p) <==> p in Delivered(plan)
    ensures Travels(plan, p) ==> p in plan.source
    ensures p in Delivered(plan) ==> Delivered(plan)[p] == plan.source[p]
  {
    hide IsRebuildable, Covered;
    CoveredByUnit(plan, p);
  }

  lemma TargetStays(plan: Plan, host: Host, p: Path)
    requires Admissible(plan) && p in plan.target
    ensures p in Arrived(plan, host) && Arrived(plan, host)[p] == plan.target[p]
  {
    hide Admissible, IsRebuildable, IsPathRecord, MARKER, HOST_DIR, DATA, Delivered, Updated, MarkerElsewhere, HasDataUnit;
    FixedPaths();
    TargetAvoidsData(plan, p);
    PreparedKeepsTarget(plan);
    NotDeliveredOnto(plan, p);
  }

  lemma NotDeliveredOnto(plan: Plan, p: Path)
    requires Admissible(plan) && p in plan.target
    ensures p !in Delivered(plan)
  {
    hide IsRebuildable, Covered, Closed, Disjoint, IGNORABLE;
  }

  lemma TravellerArrives(plan: Plan, host: Host, p: Path)
    requires Admissible(plan) && Completable(plan, host) && Travels(plan, p) && !IsPathRecord(p) && p != MARKER
    ensures p in Arrived(plan, host) && Arrived(plan, host)[p] == plan.source[p]
  {
    hide Admissible, IsPathRecord, MARKER, HOST_DIR, DATA, Prepared, Delivered, Updated, HasDataUnit, Listable, Rewritable, Travels;
    TravelsIsDelivered(plan, p);
    if p == HOST_DIR { assert Whole(plan)[HOST_DIR] == Delivered(plan)[HOST_DIR]; }
  }

  lemma RecordArrives(plan: Plan, host: Host, p: Path)
    requires Admissible(plan) && Completable(plan, host) && Travels(plan, p) && IsPathRecord(p)
    ensures p in Arrived(plan, host) && RecordRenewed(plan, host, p, Arrived(plan, host)[p])
  {
    hide Admissible, IsPathRecord, MARKER, HOST_DIR, DATA, Prepared, Delivered, HasDataUnit, Listable, MarkerFits, Travels;
    TravelsIsDelivered(plan, p);
    PathRecordNames(p);
    assert p in Whole(plan) && Whole(plan)[p] == plan.source[p];
    UpdatableIsRewritable(plan, host, Whole(plan));
    TextIsWhatItReadsAs(plan.links, plan.source[p]);
    var text := plan.links.Text(plan.source[p]).value;
    var v := host.parse(text).value;
    RewriteRenews(v, host.prefixes, host.replacement, host.sep);
  }

  lemma MarkerArrives(plan: Plan, host: Host)
    ensures HasDataUnit(plan.units) && !(HOST_DIR in Arrived(plan, host) && Arrived(plan, host)[HOST_DIR].Link?) ==>
              MARKER in Arrived(plan, host) && Arrived(plan, host)[MARKER] == File(host.marker)
  {
    hide IsPathRecord, MARKER, HOST_DIR, DATA, Prepared, Delivered, HasDataUnit, Updated;
    if IsPathRecord(HOST_DIR) { PathRecordNames(HOST_DIR); }
  }

  lemma NothingElseArrives(plan: Plan, host: Host, p: Path)
    requires p in Arrived(plan, host)
    ensures p in plan.target || Travels(plan, p) || p == [] || (HasDataUnit(plan.units) && p in {DATA, HOST_DIR, MARKER})
  {
    hide IsPathRecord, MARKER, HOST_DIR, DATA, Delivered, HasDataUnit, Updated, Travels;
    TravelsIsDelivered(plan, p);
  }

  /** Every entry that arrives has its directory. */
  lemma ArrivedIsClosed(plan: Plan, host: Host)
    requires Admissible(plan) && Completable(plan, host)
    ensures Closed(Arrived(plan, host))
  {
    hide Admissible, Completable, IsPathRecord, MARKER, HOST_DIR, DATA, Prepared, Delivered, Arrived, HasDataUnit, Updated, Travels, IsRebuildable;
    forall p | p in Arrived(plan, host) && |p| > 0 ensures IsDirectory(Arrived(plan, host), p[..|p| - 1]) {
      if Travels(plan, p) {
        TravellerHasParent(plan, host, p);
      } else {
        OtherHasParent(plan, host, p);
      }
    }
  }

  predicate IsDirectory(t: Tree, p: Path) {
    p in t && t[p].Dir?
  }

  lemma OtherHasParent(plan: Plan, host: Host, p: Path)
    requires Admissible(plan) && Completable(plan, host) && p in Arrived(plan, host) && |p| > 0 && !Travels(plan, p)
    ensures IsDirectory(Arrived(plan, host), p[..|p| - 1])
  {
    hide Admissible, Completable, IsPathRecord, MARKER, HOST_DIR, DATA, Prepared, Delivered, Arrived, HasDataUnit, Updated, Travels, IsRebuildable;
    FixedPaths();
    NothingElseArrives(plan, host, p);
    RootAndDataArrive(plan, host);
    if p in plan.target {
      TargetIsClosed(plan);
      TargetStays(plan, host, p[..|p| - 1]);
    } else if p == DATA {
      assert p[..0] == [];
    } else if p == HOST_DIR {
      assert p[..1] == DATA;
    } else {
      assert p[..2] == HOST_DIR;
      MarkerHasParent(plan, host);
    }
  }

  lemma MarkerHasParent(plan: Plan, host: Host)
    requires MARKER in Arrived(plan, host) && MARKER !in plan.target && !Travels(plan, MARKER) && Admissible(plan)
    ensures IsDirectory(Arrived(plan, host), HOST_DIR)
  {
    hide Admissible, IsPathRecord, MARKER, HOST_DIR, DATA, Delivered, HasDataUnit, Updated, Travels;
    FixedPaths();
    TravelsIsDelivered(plan, MARKER);
  }

  lemma RootAndDataArrive(plan: Plan, host: Host)
    requires Admissible(plan)
    ensures IsDirectory(Arrived(plan, host), [])
    ensures HasDataUnit(plan.units) ==> IsDirectory(Arrived(plan, host), DATA)
  {
    hide Admissible, IsPathRecord, MARKER, HOST_DIR, DATA, Delivered, Updated;
    FixedPaths();
    NoneTravelsAsRoot(plan);
    if HasDataUnit(plan.units) {
      var u :| u in plan.units && DATA < u;
      DataStaysHere(plan, u);
    }
  }

  lemma NoneTravelsAsRoot(plan: Plan)
    requires Admissible(plan)
    ensures [] !in Delivered(plan)
  {
    hide Admissible, IsRebuildable;
    if Covered(Roots(plan.units), []) {
      var u :| u in Roots(plan.units) && u <= [];
      UnitNames(plan, u);
    }
  }

  lemma DataStaysHere(plan: Plan, u: Path)
    requires Admissible(plan) && u in plan.units && DATA < u
    ensures DATA !in Delivered(plan)
  {
    hide Admissible, IsRebuildable, DATA;
    FixedPaths();
    UnitIsShort(plan, u);
    UnitNames(plan, u);
  }

  lemma UnitIsShort(plan: Plan, u: Path)
    requires Admissible(plan) && u in plan.units
    ensures u in plan.source && 1 <= |u| <= 2 && (|u| == 2 ==> DATA <= u)
  {
    hide Closed, Disjoint, IGNORABLE, Covered;
  }

  lemma TravellerHasParent(plan: Plan, host: Host, p: Path)
    requires Admissible(plan) && Completable(plan, host) && Travels(plan, p) && |p| > 0
    ensures IsDirectory(Arrived(plan, host), p[..|p| - 1])
  {
    hide Admissible, Completable, IsPathRecord, MARKER, HOST_DIR, DATA, Prepared, Delivered, Arrived, HasDataUnit, Updated, IsRebuildable;
    FixedPaths();
    var u :| u in plan.units && u <= p;
    var q := p[..|p| - 1];
    UnitIsShort(plan, u);
    RootAndDataArrive(plan, host);
    if u == p {
      if |u| == 2 {
        UnitNames(plan, u);
        assert q == DATA;
      } else {
        assert q == [];
      }
    } else {
      assert u <= q <= p;
      TargetIsClosed(plan);
      AncestorsPresent(plan.source, p, q);
      if plan.how.Copy? && IsRebuildable(q) { RebuildableIsClosedBelow(q, p); }
      DirectoryArrives(plan, host, q);
    }
  }

  lemma DirectoryArrives(plan: Plan, host: Host, q: Path)
    requires Admissible(plan) && Completable(plan, host) && Travels(plan, q) && plan.source[q].Dir?
    ensures IsDirectory(Arrived(plan, host), q)
  {
    hide Admissible, IsPathRecord, MARKER, HOST_DIR, DATA, Prepared, Delivered, HasDataUnit, Listable, Travels;
    TravelsIsDelivered(plan, q);
    FixedPaths();
    assert q in Whole(plan) && Whole(plan)[q] == Delivered(plan)[q];
    if IsPathRecord(q) { PathRecordNames(q); }
  }

  lemma MarkerStillFits(plan: Plan, host: Host, t: Tree, done: set<Path>)
    requires forall p :: p in done ==> p in t && IsPathRecord(p)
    ensures MarkerFits(plan.links, Rewrote(plan, host, t, done)) <==> MarkerFits(plan.links, t)
  {
    hide MARKER, HOST_DIR, IsPathRecord, DATA, Updated;
    forall p | p in done ensures p != MARKER && p != HOST_DIR { PathRecordNames(p); }
  }

  lemma MarkerIsNotRoot()
    ensures MARKER != []
  {
  }

  /** Writing the marker, step by step. */
  lemma MarkerCases(links: Links, t: Tree)
    ensures HOST_DIR in t && t[HOST_DIR].Link? ==>
              (MarkerFits(links, t) <==> links.takesMarker(t[HOST_DIR].to) && !(MARKER in t && t[MARKER].Dir?))
    ensures HOST_DIR in t && !t[HOST_DIR].Link? && !t[HOST_DIR].Dir? ==> !MarkerFits(links, t)
    ensures !(HOST_DIR in t && t[HOST_DIR].Link?) && (HOST_DIR in t ==> t[HOST_DIR].Dir?) ==>
              && (MarkerFits(links, t) <==> !(MARKER in t && t[MARKER].Dir?))
              && (MARKER in t[HOST_DIR := Dir] <==> MARKER in t) && (MARKER in t ==> t[HOST_DIR := Dir][MARKER] == t[MARKER])
              && (MarkerBlocked(links, t[HOST_DIR := Dir]) <==> MarkerBlocked(links, t))
              && (HOST_DIR in t ==> t[HOST_DIR := Dir] == t)
    ensures MarkerFits(links, t) && !MarkerElsewhere(t) ==>
              forall text :: MarkerWritten(t, text) == t + map[HOST_DIR := Dir, MARKER := File(text)]
                                && (MarkerBlocked(links, MarkerWritten(t, text)) <==> MarkerBlocked(links, t))
  {
    hide DATA, MARKER, HOST_DIR;
    FixedPaths();
  }

  function MarkerWritten(t: Tree, text: string): Tree {
    t[HOST_DIR := Dir][MARKER := File(text)]
  }

  lemma RewriteBlocksNothing(plan: Plan, t: Tree, p: Path, node: Node)
    requires IsPathRecord(p)
    ensures MarkerBlocked(plan.links, t[p := node]) <==> MarkerBlocked(plan.links, t)
  {
    hide MARKER, HOST_DIR, IsPathRecord, DATA;
    PathRecordNames(p);
  }

  /**
   A whole family of sources no undisturbed launch gets past: when `data` or `data/host` is a regular file, the move fails
   after it has carried it over, and the undo fails on the marker below it before it has put anything back.
   */
  lemma FileAboveTheMarkerSticks(plan: Plan, host: Host, p: Path)
    requires Admissible(plan) && p in {DATA, HOST_DIR} && p in plan.units && plan.source[p].File?
    ensures !Completable(plan, host) && MarkerBlocked(plan.links, Whole(plan))
  {
    hide Admissible, MARKER, HOST_DIR, DATA, IsPathRecord, Rewritable;
    FixedPaths();
    UnitNames(plan, p);
    UnitArrives(plan, p);
    assert p == HOST_DIR ==> HasDataUnit(plan.units);
    assert p == DATA ==> OnTheWay(p);
  }

  lemma UnitArrives(plan: Plan, p: Path)
    requires Admissible(plan) && p in plan.units && p in {DATA, HOST_DIR} && !plan.source[p].Other?
    ensures p in Whole(plan) && Whole(plan)[p] == plan.source[p]
  {
    hide Admissible, Prepared;
    UnitNames(plan, p);
    PreparedIsClear(plan, p, p);
    assert p in Roots(plan.units);
    NotRebuilt(p);
  }

  lemma NotRebuilt(p: Path)
    requires p in {DATA, HOST_DIR}
    ensures !IsRebuildable(p)
  {
    assert p[0] == "data" && "data"[0] == 'd';
    forall e | e in REBUILDABLE_DATA ensures !(e <= p) {
      assert "host"[0] == 'h' && (|e| == 2 ==> e[1][0] != 'h') && |e| >= 2;
    }
    assert "Crashpad"[0] == 'C' && forall c :: c in ELECTRON_CACHES ==> c[0] != 'd';
    assert "Partitions"[0] == 'P';
  }

  // ---------- Linked path records ----------

  predicate Journaled(entries: seq<Rewrite>, p: Path) {
    exists e :: e in entries && e.file == p
  }

  /** The plan once an undo has put back what the target has of the journaled files. */
  ghost function FlattenedBy(plan: Plan, entries: seq<Rewrite>, t: Tree): Plan {
    plan.(source := map p | p in plan.source ::
      if plan.how.Move? && p in t && plan.source[p].Link? && Journaled(entries, p) && plan.links.Text(plan.source[p]).Some?
      then File(plan.links.Text(plan.source[p]).value) else plan.source[p])
  }

  /** None of the journaled files in the target was a link. */
  ghost predicate NoneLinked(plan: Plan, entries: seq<Rewrite>, t: Tree) {
    forall e :: e in entries && e.file in t && e.file in plan.source ==> !plan.source[e.file].Link?
  }

  lemma FlatStays(plan: Plan, entries: seq<Rewrite>, t: Tree, t': Tree)
    requires NoneLinked(plan, entries, t) && t'.Keys <= t.Keys
    ensures FlattenedBy(plan, entries, t') == plan
  {
    assert FlattenedBy(plan, entries, t').source == plan.source;
  }

  lemma CopyFlattensNothing(plan: Plan, entries: seq<Rewrite>)
    requires plan.how.Copy?
    ensures forall t :: FlattenedBy(plan, entries, t) == plan
  {
    forall t ensures FlattenedBy(plan, entries, t) == plan {
      assert FlattenedBy(plan, entries, t).source == plan.source;
    }
  }

  lemma MarkerFlattensNothing(plan: Plan, entries: seq<Rewrite>, t: Tree)
    requires forall e :: e in entries ==> IsOriginal(plan, e)
    ensures FlattenedBy(plan, entries, t - {MARKER}) == FlattenedBy(plan, entries, t)
  {
    hide MARKER, IsPathRecord;
    forall e | e in entries ensures e.file != MARKER { PathRecordNames(e.file); }
    assert FlattenedBy(plan, entries, t - {MARKER}).source == FlattenedBy(plan, entries, t).source;
  }

  lemma PutBackAgrees(plan: Plan, entries: seq<Rewrite>, e: Rewrite, t: Tree)
    requires plan.how.Move? && e in entries && IsOriginal(plan, e) && e.file in t
    ensures FlattenedBy(PutBack(plan, e), entries, t[e.file := File(e.original)]) == FlattenedBy(plan, entries, t)
  {
    hide IsPathRecord;
    assert Journaled(entries, e.file);
    assert FlattenedBy(PutBack(plan, e), entries, t[e.file := File(e.original)]).source == FlattenedBy(plan, entries, t).source;
  }

  lemma PutBackKeepsOriginals(plan: Plan, entries: seq<Rewrite>, e: Rewrite)
    requires IsOriginal(plan, e) && forall f :: f in entries ==> IsOriginal(plan, f)
    ensures forall f :: f in entries ==> IsOriginal(PutBack(plan, e), f)
  {
    hide IsPathRecord;
  }

  lemma NoneLinkedYet(plan: Plan, entries: seq<Rewrite>, i: nat, t: Tree)
    requires i < |entries| && NoneLinked(plan, entries[..i], t)
    ensures entries[i].file in t ==>
              NoneLinked(PutBack(plan, entries[i]), entries[..i + 1], t[entries[i].file := File(entries[i].original)])
    ensures entries[i].file !in t ==> NoneLinked(plan, entries[..i + 1], t)
  {
    assert entries[..i + 1] == entries[..i] + [entries[i]];
  }

  lemma RecordOf(plan: Plan, e: Rewrite)
    requires IsOriginal(plan, e)
    ensures IsPathRecord(e.file) && e.file in plan.source
  {
  }

  /** Without linked path records, and for every copy, what an undo brings back is what was there. */
  lemma NothingLinkedNothingLost(original: Plan, plan: Plan)
    requires Flattens(original, plan)
    requires original.how.Copy? || forall p :: p in original.source && IsPathRecord(p) ==> !original.source[p].Link?
    ensures plan == original
  {
    hide IsPathRecord;
    assert plan.source == original.source;
  }

  /** A finished undo turned exactly those linked path records into files that the target had and the journal names. */
  lemma LostExactlyWhenJournaled(plan: Plan, entries: seq<Rewrite>, t: Tree, p: Path)
    requires p in plan.source && forall e :: e in entries ==> IsOriginal(plan, e)
    ensures FlattenedBy(plan, entries, t).source[p] != plan.source[p] <==>
            plan.how.Move? && plan.source[p].Link? && p in t && Journaled(entries, p)
  {
    hide IsPathRecord;
  }

  /** A copy never finds one of its entries in the target already. */
  lemma CopyHasRoom(plan: Plan, i: nat)
    requires Admissible(plan) && i < |plan.units|
    ensures Copied(plan.source, plan.units[i]).Keys !! (Prepared(plan) + CopiedUpTo(plan, i)).Keys
  {
    hide Admissible, Prepared, IsRebuildable, Covered;
    UnitsDisjoint(plan);
    forall p | p in Copied(plan.source, plan.units[i]) ensures p !in Prepared(plan) && p !in CopiedUpTo(plan, i) {
      PreparedIsClear(plan, plan.units[i], p);
      CoveredUpTo(plan.units, i, p);
    }
  }

  lemma NothingCarried(plan: Plan)
    ensures TotalBytes(CarriedByAll(plan.source, plan.units[..0], Copy)) == 0
  {
    hide IsRebuildable;
    assert CarriedByAll(plan.source, plan.units[..0], Copy) == map[];
  }

  lemma CountsOneMoreUnit(plan: Plan, i: nat)
    requires Disjoint(plan.units) && i < |plan.units|
    ensures TotalBytes(CarriedByAll(plan.source, plan.units[..i + 1], Copy))
            == TotalBytes(CarriedByAll(plan.source, plan.units[..i], Copy)) + TotalBytes(Copied(plan.source, plan.units[i]))
  {
    hide Disjoint, CarriedByAll, Carried, Copied;
    OneMoreUnit(plan.source, plan.units, i, Copy);
    TotalBytesUnion(CarriedByAll(plan.source, plan.units[..i], Copy), Carried(plan.source, plan.units[i], Copy));
    CopyCountsWhatWasPlanned(plan.source, plan.units[i]);
  }

  lemma ChildHasRoom(source: Tree, relative: Path, done: set<string>, name: string, t: Tree)
    requires name !in done
    ensures Copied(source, relative).Keys - {relative} !! t.Keys ==>
              Copied(source, relative + [name]).Keys !! (t + Through(Copied(source, relative), relative, done)).Keys
  {
    hide IsRebuildable;
    var child := relative + [name];
    forall p | p in Copied(source, child)
      ensures p in Copied(source, relative) && p != relative && p !in Through(Copied(source, relative), relative, done)
    {
      assert relative <= child <= p && p[|relative|] == name;
    }
  }

  lemma CopiedNothing(source: Tree, p: Path)
    requires Closed(source)
    ensures IsRebuildable(p) || p !in source || source[p].Other? ==> Copied(source, p) == map[] && TotalBytes(Copied(source, p)) == 0
  {
    hide IsRebuildable, Copied, Closed;
    CopiedPruned(source, p);
  }

  lemma CopiedLeaf(source: Tree, p: Path)
    requires Closed(source) && p in source && !source[p].Dir? && !source[p].Other? && !IsRebuildable(p)
    ensures Copied(source, p) == map[p := source[p]] && TotalBytes(Copied(source, p)) == Bytes(source[p])
  {
    hide IsRebuildable, Copied, Closed;
    CopiedPruned(source, p);
    NothingElse(p, source[p]);
    TotalBytesSplit(Copied(source, p), p);
  }

  lemma CopiedHoldsItself(source: Tree, p: Path)
    requires p in source && !IsRebuildable(p) && !source[p].Other?
    ensures p in Copied(source, p)
  {
    hide IsRebuildable;
  }

  lemma LeftAreDirectories(plan: Plan, target: Tree, dir: Path)
    requires OnlyScaffoldLeft(plan, target)
    ensures dir in target && dir !in plan.target ==> target[dir].Dir?
  {
  }

  lemma FlattensItself(plan: Plan)
    ensures Flattens(plan, plan)
  {
  }

  lemma PreparedInSteps(plan: Plan)
    requires Admissible(plan)
    ensures var rooted := if [] in plan.target then plan.target else plan.target[[] := Dir];
            && DATA !in rooted
            && Prepared(plan) == if HasDataUnit(plan.units) then rooted[DATA := Dir] else rooted
  {
    hide Admissible, HasDataUnit, DATA;
    FixedPaths();
    NoDataInTarget(plan);
    RootIsDirectory(plan);
  }

  lemma NoDataInTarget(plan: Plan)
    requires Admissible(plan)
    ensures DATA !in plan.target
  {
    hide Admissible;
    if DATA in plan.target { TargetAvoidsData(plan, DATA); }
  }

  lemma NothingAwayYet(plan: Plan, source: Tree, target: Tree)
    requires source == plan.source && target == Prepared(plan)
    ensures Renamed(plan, source, target, {}) && Roots(plan.units[..0]) == {}
  {
    hide Prepared;
    forall p ensures !Covered({}, p) {}
    assert Within(plan.source, {}) == map[];
    assert target + map[] == target;
    assert Without(plan.source, {}) == plan.source;
  }

  lemma ThroughNothing(t: Tree, p: Path)
    ensures Through(t, p, {}) == map[] && TotalBytes(Through(t, p, {})) == 0
  {
  }

  lemma RenamedHasRoot(plan: Plan, source: Tree, target: Tree, away: set<Path>)
    requires Renamed(plan, source, target, away)
    ensures [] in target
  {
    hide Covered;
  }

  lemma RenamedAll(plan: Plan, source: Tree, target: Tree)
    requires plan.how.Move? && Renamed(plan, source, target, Roots(plan.units))
    ensures source == LeftBehind(plan) && target == Prepared(plan) + Delivered(plan)
  {
    hide Prepared, Delivered;
    DeliveredByMove(plan);
  }

  lemma DeliveredByMove(plan: Plan)
    requires plan.how.Move?
    ensures Within(plan.source, Roots(plan.units)) == Delivered(plan)
    ensures Without(plan.source, Roots(plan.units)) == LeftBehind(plan)
  {
    hide IsRebuildable, Covered;
  }

  lemma UnitsDisjoint(plan: Plan)
    requires Admissible(plan)
    ensures Disjoint(plan.units)
  {
    hide Disjoint;
  }

  lemma SourceWhileCopying(plan: Plan, source: Tree, away: set<Path>)
    requires Admissible(plan) && plan.how.Copy? && SourceOk(plan, source, away)
    ensures source == plan.source && Closed(source)
  {
    hide Closed, Covered;
  }

  lemma CoveredBelow(roots: set<Path>, p: Path, q: Path)
    requires Covered(roots, p) && p <= q
    ensures Covered(roots, q)
  {
    var u :| u in roots && u <= p;
    assert u <= q;
  }

  ghost function PathRecordsOf(t: Tree): set<Path> {
    set p | p in t && IsPathRecord(p)
  }

  lemma NothingElse(p: Path, node: Node)
    ensures map[p := node] - {p} == map[] && TotalBytes(map[p := node] - {p}) == 0
  {
  }

  ghost function FilesOf(entries: seq<Rewrite>): set<Path> {
    set e | e in entries :: e.file
  }

  lemma JournalWith(plan: Plan, r: Record, source: Tree, target: Tree, originals: seq<Rewrite>)
    requires RecordOk(plan, r, source, target, {})
    requires forall e :: e in originals ==> IsOriginal(plan, e)
    ensures RecordOk(plan, r.(rewrites := Some(originals)), source, target, {})
  {
    hide IsPathRecord;
  }

  lemma NothingRewritten(plan: Plan, host: Host, t: Tree)
    ensures Rewrote(plan, host, t, {}) == t && FilesOf([]) == {}
  {
  }

  lemma RewriteOne(plan: Plan, host: Host, t: Tree, done: set<Path>, e: Rewrite, next: string)
    requires e.file in t && plan.links.Text(t[e.file]) == Some(e.original) && host.Update(e.original) == Some(next)
    ensures e.file in Rewrote(plan, host, t, done)
    ensures Rewrote(plan, host, t, done)[e.file := File(next)] == Rewrote(plan, host, t, done + {e.file})
  {
  }

  lemma OriginalIsNotMarker(plan: Plan, e: Rewrite)
    requires IsOriginal(plan, e)
    ensures e.file != MARKER && e.file != []
  {
    PathRecordNames(e.file);
  }

  lemma NothingAwayWhileCopying(plan: Plan, source: Tree, target: Tree, away: set<Path>, dirty: set<Path>)
    requires plan.how.Copy? && SourceOk(plan, source, away) && TargetOk(plan, target, away, dirty)
    ensures SourceOk(plan, source, {}) && TargetOk(plan, target, {}, {})
  {
    hide MARKER, Scaffold;
    forall p ensures !Covered({}, p) {}
  }

  lemma AwayUpToAll(units: seq<Path>, away: set<Path>)
    requires away <= Roots(units)
    ensures away <= Roots(units[..|units|])
  {
    assert units[..|units|] == units;
  }

  lemma HomeOrAway(plan: Plan, source: Tree, target: Tree, away: set<Path>, u: Path)
    requires Admissible(plan) && plan.how.Move? && u in plan.units && away <= Roots(plan.units)
    requires SourceOk(plan, source, away) && TargetOk(plan, target, away, {})
    ensures u in away <==> u !in source
    ensures u in away ==> u in target
  {
    hide MARKER, DATA, Scaffold, Admissible;
    UnitNames(plan, u);
    if u in away {
      assert Covered(away, u);
    } else {
      forall v | v in away ensures !(v <= u) {
        if v <= u { NotBothUnits(plan, v, u); }
      }
    }
  }

  lemma DataStayed(plan: Plan, source: Tree, away: set<Path>, u: Path)
    requires Admissible(plan) && SourceOk(plan, source, away) && away <= Roots(plan.units)
    requires u in plan.units && |u| == 2
    ensures DATA in source
  {
    hide MARKER, DATA, Scaffold, Admissible;
    FixedPaths();
    UnitNames(plan, u);
    assert Covered(away, DATA) ==> Covered(Roots(plan.units), DATA);
  }

  lemma NothingCovered(units: seq<Path>, target: Tree)
    requires forall p, j :: p in target && 0 <= j < |units| ==> !(units[j] <= p)
    ensures forall p :: p in target ==> !Covered(Roots(units), p)
  {
    forall p | p in target ensures !Covered(Roots(units), p) {
      forall u | u in Roots(units) ensures !(u <= p) {
        var j :| 0 <= j < |units| && units[j] == u;
      }
    }
  }

  lemma WithoutDirectory(plan: Plan, target: Tree, dir: Path)
    requires OnlyScaffoldLeft(plan, target) && TargetOk(plan, target, {}, {}) && dir !in plan.target
    ensures OnlyScaffoldLeft(plan, target - {dir}) && TargetOk(plan, target - {dir}, {}, {})
  {
    hide MARKER, Scaffold;
    forall p ensures !Covered({}, p) {}
  }

  lemma CreatedMeansEmpty(plan: Plan, r: Record, source: Tree, target: Tree, dirty: set<Path>)
    requires RecordOk(plan, r, source, target, dirty)
    ensures r.createdTarget == Some(true) <==> [] !in plan.target && r.createdTarget == Some(true)
    ensures [] in target && [] !in plan.target ==> r.createdTarget == Some(true)
  {
  }

  lemma StartMoving(plan: Plan, r: Record, source: Tree, target: Tree, dirty: set<Path>)
    requires RecordOk(plan, r, source, target, dirty) && r.phase == Requested
    ensures RecordOk(plan, r, source, target, {}) && RecordOk(plan, r.(phase := Moving), source, target, {})
  {
    hide IsPathRecord, Journals;
    assert r.(phase := Moving).Entries() == r.Entries();
  }

  /** A launch undoes only what has not been switched over, and starts a move only on trees nothing has touched. */
  lemma DecisionsMatchTheDisk(d: Desktop, migrationFlag: bool, ownerAlive: bool)
    requires d.Consistent()
    ensures var decision := DecideStartup(d.record, migrationFlag, d.location, ownerAlive);
            && (decision in {Undo, Migrate} ==> d.Recoverable() && d.location == Source)
            && (decision in {Migrate, Abandon} ==> d.source == d.plan.source && d.target == d.plan.target)
            && (decision == Finish ==> d.Switched())
            && (decision == Normal <==> d.record.value.phase in {Completed, Failed})
            && (decision == Busy <==> d.Pending() && ownerAlive && !d.Asked(migrationFlag))
            && (decision == Migrate <==> d.Asked(migrationFlag))
            && (decision == Undo <==> d.Pending() && !ownerAlive && d.record.value.phase == Moving)
            && (decision == Abandon <==> d.Pending() && !ownerAlive && d.record.value.phase == Requested && !migrationFlag)
            && (decision == Finish <==> !d.Pending() && d.record.value.phase !in {Completed, Failed})
  {
    hide Admissible, SourceOk, TargetOk, JournalOk, CreatedOk, BackHome, Arrived, LeftBehind, Completable;
  }

  /**
   Whatever was carried out so far, nothing is lost: every entry is still in the source as it was, or it is in the target,
   and if it reads differently there the journal on disk has its original. The trees only change once the record on disk
   says so.
   */
  lemma NothingIsLostBeforeTheSwitch(d: Desktop, p: Path)
    requires d.Recoverable() && p in d.plan.source && p != MARKER
    ensures || (p in d.source && d.source[p] == d.plan.source[p])
            || (p in d.target && d.target[p] == d.plan.source[p])
            || (p in d.target && exists e :: e in d.record.value.Entries() && e.file == p
                                             && d.plan.links.Text(d.plan.source[p]) == Some(e.original))
    ensures d.source != d.plan.source || d.target != d.plan.target ==> d.record.value.phase == Moving
  {
    hide Admissible, Added, IsPathRecord, MARKER, Covered;
    if p !in d.source {
      assert Covered(d.away, p);
      if p in d.dirty {
        var e :| e in d.record.value.Entries() && e.file == p;
        assert IsOriginal(d.plan, e);
      }
    }
  }

  /**
   The marker an earlier move left behind does not survive a move that ran to its end and is then undone. That is the
   only loss: the source is restored if and only if no unit carried such a marker.
   */
  lemma OldMarkerIsLostExactlyWhenCarried(plan: Plan, moved: Tree, undone: Tree)
    requires plan.how.Move? && moved == LeftBehind(plan)
    requires undone == Undone(plan, moved)
    ensures undone == plan.source <==> !(MARKER in plan.source && Covered(Roots(plan.units), MARKER))
  {
    hide MARKER, Covered;
  }

  lemma UntouchedIsHome(plan: Plan)
    ensures BackHome(plan, plan.source, plan.target)
  {
  }
}
