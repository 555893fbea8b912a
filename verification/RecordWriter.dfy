/**
 The single writer of a move's journal record: progress steps and the heartbeat share one chain of writes
 (apps/desktop/src/data-move-mode.ts:38-49, data-move.ts:347-364).
 */
module RecordWriter {

  /** What a record says about the move, and when its process last wrote. */
  datatype Version<P> = Version(progress: P, heartbeatAt: int)

  /** Progress is saved, the timer beats, or the write at the head of the chain settles. */
  datatype Event<P> = Save(progress: P, now: int) | Beat(now: int) | Settle(ok: bool)

  /**
   Everything ever handed to the writer, oldest first. The last `waiting` versions are not written yet; the disk holds
   version `written`; `saves[i]` counts the progress steps up to version `i`.
   */
  datatype Chain<P> = Chain(history: seq<Version<P>>, saves: seq<nat>, waiting: nat, written: nat)
  {
    ghost predicate Valid() {
      && |saves| == |history| && waiting + written < |history|
      && (forall i, j :: 0 <= i <= j < |saves| ==> saves[i] <= saves[j])
      && (forall i, j :: 0 <= i <= j < |saves| && saves[i] == saves[j] ==> history[i].progress == history[j].progress)
    }

    function Disk(): Version<P>
      requires waiting + written < |history|
    {
      history[written]
    }

    function Current(): Version<P>
      requires |history| > 0
    {
      history[|history| - 1]
    }
  }

  function Next<P>(c: Chain<P>, e: Event<P>): Chain<P>
    requires |c.history| == |c.saves| > 0 && c.waiting < |c.history|
  {
    match e
    case Save(progress, now) =>
      c.(history := c.history + [Version(progress, now)], saves := c.saves + [c.saves[|c.saves| - 1] + 1],
         waiting := c.waiting + 1)
    case Beat(now) =>
      c.(history := c.history + [Version(c.Current().progress, now)], saves := c.saves + [c.saves[|c.saves| - 1]],
         waiting := c.waiting + 1)
    case Settle(ok) =>
      if c.waiting == 0 then c
      else c.(waiting := c.waiting - 1, written := if ok then |c.history| - c.waiting else c.written)
  }

  lemma NextIsValid<P>(c: Chain<P>, e: Event<P>)
    requires c.Valid()
    ensures Next(c, e).Valid()
    ensures c.written <= Next(c, e).written
    ensures c.history <= Next(c, e).history && c.saves <= Next(c, e).saves
  {
  }

  ghost function After<P>(c: Chain<P>, events: seq<Event<P>>): Chain<P>
    requires c.Valid()
    decreases events
  {
    if events == [] then c
    else
      NextIsValid(c, events[0]);
      After(Next(c, events[0]), events[1..])
  }

  /** However steps, beats and writes interleave, what is on disk only ever gets newer. */
  lemma {:induction false} DiskNeverGoesBack<P>(c: Chain<P>, events: seq<Event<P>>)
    requires c.Valid()
    ensures var later := After(c, events);
            && later.Valid() && c.written <= later.written
            && c.history <= later.history && c.saves <= later.saves
            && c.saves[c.written] <= later.saves[later.written]
    decreases events
  {
    if events != [] {
      NextIsValid(c, events[0]);
      DiskNeverGoesBack(Next(c, events[0]), events[1..]);
    }
  }

  /** Once a progress step is on disk, it stays there, whatever beats and writes follow, until the next step. */
  lemma {:induction false} ConfirmedStepStaysOnDisk<P>(c: Chain<P>, events: seq<Event<P>>)
    requires c.Valid() && c.saves[c.written] == c.saves[|c.saves| - 1]
    requires forall e :: e in events ==> !e.Save?
    ensures After(c, events).Valid()
    ensures After(c, events).Disk().progress == c.Current().progress == After(c, events).Current().progress
    decreases events
  {
    if events != [] {
      var e := events[0];
      assert e in events;
      NextIsValid(c, e);
      var next := Next(c, e);
      assert next.saves[|next.saves| - 1] == c.saves[|c.saves| - 1];
      assert c.saves[c.written] <= next.saves[next.written] <= next.saves[|next.saves| - 1];
      ConfirmedStepStaysOnDisk(next, events[1..]);
    }
  }

  /**
   Once the write at the head of the chain settled well, its step or a newer one is on disk for good, whatever steps, beats
   and writes follow; and exactly its own progress, as long as no newer step was handed to the writer.
   */
  lemma SettledStepStays<P>(c: Chain<P>, events: seq<Event<P>>)
    requires c.Valid() && c.waiting > 0
    ensures var i := |c.history| - c.waiting;
            var later := After(Next(c, Settle(true)), events);
            && later.Valid() && c.history <= later.history
            && i <= later.written && c.saves[i] <= later.saves[later.written]
            && ((forall e :: e in events ==> !e.Save?) && c.saves[i] == c.saves[|c.saves| - 1] ==>
                  later.Disk().progress == c.history[i].progress)
  {
    var next := Next(c, Settle(true));
    NextIsValid(c, Settle(true));
    DiskNeverGoesBack(next, events);
    if (forall e :: e in events ==> !e.Save?) && next.saves[next.written] == next.saves[|next.saves| - 1] {
      ConfirmedStepStaysOnDisk(next, events);
    }
  }

  /** Every save was awaited: what still waits to be written are beats, which say what is current. */
  ghost predicate Awaited<P>(c: Chain<P>)
    requires c.Valid()
  {
    forall i :: |c.history| - c.waiting <= i < |c.history| ==> c.saves[i] == c.saves[|c.saves| - 1]
  }

  /** Between two effects, whatever beats come and writes settle: the disk keeps its progress or gets the current one. */
  lemma {:induction false} BeatsLeaveOldOrCurrent<P>(c: Chain<P>, events: seq<Event<P>>)
    requires c.Valid() && Awaited(c) && forall e :: e in events ==> !e.Save?
    ensures var later := After(c, events);
            && later.Valid() && Awaited(later) && later.Current().progress == c.Current().progress
            && (later.Disk().progress == c.Disk().progress || later.Disk().progress == c.Current().progress)
    decreases events
  {
    if events != [] {
      assert events[0] in events;
      NextIsValid(c, events[0]);
      OneBeat(c, events[0]);
      BeatsLeaveOldOrCurrent(Next(c, events[0]), events[1..]);
    }
  }

  lemma OneBeat<P>(c: Chain<P>, e: Event<P>)
    requires c.Valid() && Awaited(c) && !e.Save?
    ensures var next := Next(c, e);
            && next.Valid() && Awaited(next) && next.Current().progress == c.Current().progress
            && (next.Disk().progress == c.Disk().progress || next.Disk().progress == c.Current().progress)
  {
    if e.Settle? && c.waiting > 0 {
      SameProgress(c, |c.history| - c.waiting, |c.history| - 1);
    }
  }

  /** The write of version `i` is the last event, and it was waiting until then. */
  ghost predicate EndsWithWrite<P>(c: Chain<P>, events: seq<Event<P>>, i: nat, ok: bool)
    requires c.Valid()
    decreases events
  {
    && events != [] && c.waiting > 0
    && if |events| == 1 then events[0] == Settle(ok) && |c.history| - c.waiting == i
       else (NextIsValid(c, events[0]); !(events[0].Settle? && |c.history| - c.waiting == i) && EndsWithWrite(Next(c, events[0]), events[1..], i, ok))
  }

  /** The chain while version `i`, the last progress step, waits behind beats that say what was current before. */
  ghost predicate Pending<P>(c: Chain<P>, i: nat, disk: P, before: P, saved: P)
    requires c.Valid()
  {
    && |c.history| - c.waiting <= i < |c.history|
    && (forall j :: |c.history| - c.waiting <= j < i ==> c.history[j].progress == before)
    && (forall j :: i <= j < |c.history| ==> c.saves[j] == c.saves[|c.saves| - 1] && c.history[j].progress == saved)
    && c.Disk().progress in {disk, before}
  }

  /**
   A save that is awaited: when its write settled, the disk has the new progress if it settled well, and otherwise what it
   had, or what was current before. Nothing but the new progress is waiting then.
   */
  lemma {:induction false} AwaitedSaveSettles<P>(c: Chain<P>, events: seq<Event<P>>, i: nat, ok: bool, disk: P, before: P, saved: P)
    requires c.Valid() && Pending(c, i, disk, before, saved)
    requires (forall e :: e in events ==> !e.Save?) && EndsWithWrite(c, events, i, ok)
    ensures var later := After(c, events);
            && later.Valid() && Awaited(later) && later.Current().progress == saved
            && if ok then later.Disk().progress == saved else later.Disk().progress in {disk, before}
    decreases events
  {
    var e := events[0];
    assert e in events;
    NextIsValid(c, e);
    if |events| == 1 {
      assert events[1..] == [];
      LastWrite(c, i, ok, disk, before, saved);
    } else {
      StillPending(c, e, i, disk, before, saved);
      AwaitedSaveSettles(Next(c, e), events[1..], i, ok, disk, before, saved);
    }
  }

  lemma LastWrite<P>(c: Chain<P>, i: nat, ok: bool, disk: P, before: P, saved: P)
    requires c.Valid() && Pending(c, i, disk, before, saved) && c.waiting > 0 && |c.history| - c.waiting == i
    ensures var later := Next(c, Settle(ok));
            && later.Valid() && Awaited(later) && later.Current().progress == saved
            && if ok then later.Disk().progress == saved else later.Disk().progress in {disk, before}
  {
  }

  lemma StillPending<P>(c: Chain<P>, e: Event<P>, i: nat, disk: P, before: P, saved: P)
    requires c.Valid() && Pending(c, i, disk, before, saved)
    requires !e.Save? && !(e.Settle? && |c.history| - c.waiting == i)
    ensures Next(c, e).Valid() && Pending(Next(c, e), i, disk, before, saved)
  {
  }

  lemma SavingIsPending<P>(c: Chain<P>, progress: P, now: int)
    requires c.Valid() && Awaited(c)
    ensures var next := Next(c, Save(progress, now));
            && next.Valid() && Pending(next, |c.history|, c.Disk().progress, c.Current().progress, progress)
  {
    NextIsValid(c, Save(progress, now));
    forall j | |c.history| - c.waiting <= j < |c.history| ensures c.history[j].progress == c.Current().progress {
      SameProgress(c, j, |c.history| - 1);
    }
  }

  lemma {:induction false} PendingLeavesOldOrNew<P>(c: Chain<P>, events: seq<Event<P>>, i: nat, disk: P, before: P, saved: P)
    requires c.Valid() && Pending(c, i, disk, before, saved) && forall e :: e in events ==> !e.Save?
    ensures After(c, events).Valid() && After(c, events).Current().progress == saved
    ensures After(c, events).Disk().progress in {disk, before, saved}
    decreases events
  {
    if events != [] {
      var e := events[0];
      assert e in events;
      NextIsValid(c, e);
      if e.Settle? && |c.history| - c.waiting == i {
        LastWrite(c, i, e.ok, disk, before, saved);
        BeatsLeaveOldOrCurrent(Next(c, e), events[1..]);
      } else {
        StillPending(c, e, i, disk, before, saved);
        PendingLeavesOldOrNew(Next(c, e), events[1..], i, disk, before, saved);
      }
    }
  }

  /**
   While a step is being saved, and after that until the next one, whatever beats come and whatever writes fail: the disk
   has what it had, what was current before, or the new progress, and never anything older.
   */
  lemma SavingLeavesOldOrNew<P>(c: Chain<P>, progress: P, now: int, events: seq<Event<P>>)
    requires c.Valid() && Awaited(c) && forall e :: e in events ==> !e.Save?
    ensures var later := After(Next(c, Save(progress, now)), events);
            && later.Valid() && later.Current().progress == progress
            && later.Disk().progress in {c.Disk().progress, c.Current().progress, progress}
  {
    SavingIsPending(c, progress, now);
    PendingLeavesOldOrNew(Next(c, Save(progress, now)), events, |c.history|, c.Disk().progress, c.Current().progress, progress);
  }

  lemma SameProgress<P>(c: Chain<P>, i: nat, j: nat)
    requires c.Valid() && i < |c.saves| && j < |c.saves| && c.saves[i] == c.saves[j]
    ensures c.history[i].progress == c.history[j].progress
  {
  }

  class Writer<P> {
    var current: Version<P>
    var queue: seq<Version<P>>
    var disk: Version<P>
    ghost var chain: Chain<P>

    ghost predicate Valid()
      reads this
    {
      && chain.Valid() && current == chain.Current() && disk == chain.Disk()
      && queue == chain.history[|chain.history| - chain.waiting..]
    }

    constructor (claimed: Version<P>)
      ensures Valid() && current == disk == claimed && queue == []
    {
      current, queue, disk := claimed, [], claimed;
      chain := Chain([claimed], [0], 0, 0);
    }

    method WriteRecord(progress: P, now: int)
      requires Valid()
      modifies this
      ensures Valid() && chain == Next(old(chain), Save(progress, now))
      ensures current == Version(progress, now) && disk == old(disk) && queue == old(queue) + [current]
    {
      current := Version(progress, now);
      queue := queue + [current];
      NextIsValid(chain, Save(progress, now));
      chain := Next(chain, Save(progress, now));
    }

    method Heartbeat(now: int)
      requires Valid()
      modifies this
      ensures Valid() && chain == Next(old(chain), Beat(now))
      ensures current == old(current).(heartbeatAt := now) && disk == old(disk) && queue == old(queue) + [current]
    {
      current := current.(heartbeatAt := now);
      queue := queue + [current];
      NextIsValid(chain, Beat(now));
      chain := Next(chain, Beat(now));
    }

    /** The write at the head of the chain ends, well or badly; a failed one does not stop the ones behind it. */
    method SettleWrite(ok: bool)
      requires Valid()
      modifies this
      ensures Valid() && chain == Next(old(chain), Settle(ok)) && current == old(current)
      ensures if old(queue) == [] then queue == [] && disk == old(disk)
              else queue == old(queue)[1..] && disk == if ok then old(queue)[0] else old(disk)
    {
      if queue != [] {
        if ok { disk := queue[0]; }
        queue := queue[1..];
      }
      NextIsValid(chain, Settle(ok));
      chain := Next(chain, Settle(ok));
    }
  }
}
