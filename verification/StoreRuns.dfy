/**
 The profile store's operations cut at their awaits and driven by its queue (apps/desktop/src/instance-profiles.ts with
 serial-task-queue.ts). An operation begins by putting its envelope in memory, its save reaches the disk some time later
 or never, and it ends by keeping that or putting back the envelope it found.
 */
module StoreRuns {
  import opened Wrappers
  import opened InstanceProfiles
  import Q = SerialQueue

  /** An operation between its beginning and its end. */
  datatype Saving = Saving(previous: Envelope, written: Envelope, landed: bool)

  /** Nothing here keeps two operations from being open at once. */
  datatype Shared = Shared(memory: Envelope, disk: Envelope, open: map<Q.Task, Saving>)

  function Begun(u: Urls, s: Shared, task: Q.Task, op: Op): Shared {
    var next := Applied(u, s.memory, op);
    if next.None? then s
    else s.(memory := next.value, open := s.open[task := Saving(s.memory, next.value, false)])
  }

  /** The new file takes the place of the old one. */
  function Landed(s: Shared, task: Q.Task): Shared {
    if task !in s.open then s
    else s.(disk := s.open[task].written, open := s.open[task := s.open[task].(landed := true)])
  }

  function Ended(s: Shared, task: Q.Task): Shared {
    if task !in s.open then s
    else s.(memory := if s.open[task].landed then s.memory else s.open[task].previous, open := s.open - {task})
  }

  // ---------- Without the queue ----------

  /**
   Two operations that overlap: the second begins and ends within the first, whose save fails. Memory is then what the
   first found and the disk what the second wrote, so they are in step only if the two changed nothing that counts.
   */
  lemma OverlappingSavesDiverge(u: Urls, s: Shared, first: Op, second: Op)
    requires s.open == map[] && Applied(u, s.memory, first).Some?
    requires Applied(u, Applied(u, s.memory, first).value, second).Some?
    ensures var written := Applied(u, Applied(u, s.memory, first).value, second).value;
            var end := Ended(Ended(Landed(Begun(u, Begun(u, s, 0, first), 1, second), 1), 1), 0);
            && end == Shared(s.memory, written, map[])
            && (InStep(Store(end.memory, end.disk)) <==> exists origin :: WithLocalOrigin(written, origin) == s.memory)
  {
    hide Applied, WithLocalOrigin;
    var end := Ended(Ended(Landed(Begun(u, Begun(u, s, 0, first), 1, second), 1), 1), 0);
    assert end.open == map[];
  }

  // ---------- With the queue ----------

  /** `ops` by task number; `done` the operations that ended, in order, and whether each was saved. */
  datatype State = State(queue: Q.Log, ops: seq<Op>, shared: Shared, done: seq<(Op, bool)>)

  datatype Event = Submit(op: Op) | SaveLands | TaskEnds | Close

  /** The queue starts a task, if it is to. */
  function Driven(u: Urls, s: State, queue: Q.Log): State {
    if queue.running.Some? && |queue.started| > |s.queue.started| && queue.running.value < |s.ops| then
      s.(queue := queue, shared := Begun(u, s.shared, queue.running.value, s.ops[queue.running.value]))
    else s.(queue := queue)
  }

  function Next(u: Urls, s: State, e: Event): State {
    match e
    case Submit(op) => Driven(u, s.(ops := s.ops + [op]), Q.Next(s.queue, Q.Submit(|s.ops|)))
    case SaveLands => if s.queue.running.Some? then s.(shared := Landed(s.shared, s.queue.running.value)) else s
    case TaskEnds =>
      if s.queue.running.None? || s.queue.running.value >= |s.ops| then s
      else
        var task := s.queue.running.value;
        var saved := task in s.shared.open && s.shared.open[task].landed;
        Driven(u, s.(shared := Ended(s.shared, task), done := s.done + [(s.ops[task], saved)]), Q.Next(s.queue, Q.TaskEnds))
    case Close => s.(queue := Q.Next(s.queue, Q.Close))
  }

  function After(u: Urls, s: State, events: seq<Event>): State
    decreases events
  {
    if events == [] then s else After(u, Next(u, s, events[0]), events[1..])
  }

  /** A store that was just opened. */
  function Opened(s: Store): State {
    State(Q.EMPTY, [], Shared(s.memory, s.disk, map[]), [])
  }

  /** Whenever the queue starts an operation, the random id it draws is new. */
  ghost predicate FreshStart(u: Urls, s: State) {
    s.queue.running.Some? && s.queue.running.value < |s.ops| ==> FreshId(Found(s), s.ops[s.queue.running.value])
  }

  /** What the running operation found in memory when it began. */
  function Found(s: State): Envelope {
    if s.queue.running.Some? && s.queue.running.value in s.shared.open then s.shared.open[s.queue.running.value].previous
    else s.shared.memory
  }

  ghost predicate AllFreshStarts(u: Urls, s: State, events: seq<Event>)
    decreases events
  {
    FreshStart(u, s) && (events == [] || AllFreshStarts(u, Next(u, s, events[0]), events[1..]))
  }

  /** Tasks are numbered as submitted, so every task the queue knows has its operation. */
  ghost predicate Known(s: State) {
    Bounded(s.queue, |s.ops|)
  }

  ghost predicate Bounded(q: Q.Log, n: nat) {
    && (forall t :: t in q.accepted ==> t < n)
    && (forall t :: t in q.pending ==> t < n)
    && (q.running.Some? ==> q.running.value < n)
  }

  /**
   The store against the operations run one after the other: between operations it is where they lead, and while one is
   open that one found them there, wrote its own envelope, and the disk has the one or the other.
   */
  ghost predicate Serial(u: Urls, start: Store, s: State) {
    var base := AfterOps(u, start, s.done);
    match s.queue.running
    case None => s.shared == Shared(base.memory, base.disk, map[])
    case Some(task) =>
      task < |s.ops|
      && match Applied(u, base.memory, s.ops[task])
         case None => s.shared == Shared(base.memory, base.disk, map[])
         case Some(next) =>
           || s.shared == Shared(next, base.disk, map[task := Saving(base.memory, next, false)])
           || s.shared == Shared(next, next, map[task := Saving(base.memory, next, true)])
  }

  lemma {:induction false} AfterOneMoreOp(u: Urls, s: Store, ops: seq<(Op, bool)>, op: Op, saved: bool)
    ensures AfterOps(u, s, ops + [(op, saved)]) == Settled(u, AfterOps(u, s, ops), op, saved)
    decreases ops
  {
    hide Settled;
    var all := ops + [(op, saved)];
    if ops == [] {
      assert all[1..] == [];
      assert AfterOps(u, Settled(u, s, op, saved), []) == Settled(u, s, op, saved);
    } else {
      assert all[1..] == ops[1..] + [(op, saved)];
      AfterOneMoreOp(u, Settled(u, s, ops[0].0, ops[0].1), ops[1..], op, saved);
    }
  }

  lemma {:induction false} FreshOneMoreOp(u: Urls, s: Store, ops: seq<(Op, bool)>, op: Op, saved: bool)
    requires AllFresh(u, s, ops) && FreshId(AfterOps(u, s, ops).memory, op)
    ensures AllFresh(u, s, ops + [(op, saved)])
    decreases ops
  {
    hide Settled, FreshId;
    var all := ops + [(op, saved)];
    if ops == [] {
      assert all[1..] == [];
      assert AllFresh(u, Settled(u, s, op, saved), []);
    } else {
      assert all[1..] == ops[1..] + [(op, saved)];
      FreshOneMoreOp(u, Settled(u, s, ops[0].0, ops[0].1), ops[1..], op, saved);
    }
  }

  // ---------- One step ----------

  lemma KnownStep(u: Urls, s: State, e: Event)
    requires Known(s)
    ensures Known(Next(u, s, e))
  {
    hide Begun, Ended, Landed, Bounded, Q.Next;
    MoreBounded(s.queue, |s.ops|);
    match e
    case Submit(op) => StaysBounded(s.queue, Q.Submit(|s.ops|), |s.ops| + 1);
    case TaskEnds => StaysBounded(s.queue, Q.TaskEnds, |s.ops|);
    case Close => StaysBounded(s.queue, Q.Close, |s.ops|);
    case _ =>
  }

  lemma MoreBounded(q: Q.Log, n: nat)
    requires Bounded(q, n)
    ensures Bounded(q, n + 1)
  {
  }

  lemma StaysBounded(q: Q.Log, e: Q.Event, n: nat)
    requires Bounded(q, n) && (e.Submit? ==> e.task < n)
    ensures Bounded(Q.Next(q, e), n)
  {
    hide Q.Drained;
    match e
    case Submit(task) =>
      if !q.closed { DrainedStaysBounded(q.(accepted := q.accepted + [task], pending := q.pending + [task]), n); }
    case TaskEnds =>
      if q.running.Some? { DrainedStaysBounded(q.(finished := q.finished + [q.running.value], running := None), n); }
    case Close =>
  }

  lemma DrainedStaysBounded(q: Q.Log, n: nat)
    requires Bounded(q, n)
    ensures Bounded(Q.Drained(q), n)
  {
    if q.pending != [] {
      assert q.pending[0] in q.pending;
      forall t | t in q.pending[1..] ensures t in q.pending {}
    }
  }

  /** A task starts exactly when none was running, and is the one now running. */
  lemma QueueStarts(q: Q.Log, e: Q.Event)
    requires Q.Inv(q)
    ensures var r := Q.Next(q, e);
            && (|r.started| > |q.started| ==> r.running.Some? && (q.running.None? || e.TaskEnds?))
            && (|r.started| <= |q.started| ==> r.started == q.started && (e.TaskEnds? ==> r.running.None?) && (!e.TaskEnds? ==> r.running == q.running))
  {
  }

  lemma ABeginningIsSerial(u: Urls, base: Store, task: Q.Task, op: Op)
    ensures var b := Begun(u, Shared(base.memory, base.disk, map[]), task, op);
            match Applied(u, base.memory, op)
            case None => b == Shared(base.memory, base.disk, map[])
            case Some(next) => b == Shared(next, base.disk, map[task := Saving(base.memory, next, false)])
  {
    hide Applied;
  }

  /** Ending the running operation leaves the store where running it as one step would. */
  lemma AnEndIsSerial(u: Urls, base: Store, shared: Shared, task: Q.Task, op: Op)
    requires match Applied(u, base.memory, op)
             case None => shared == Shared(base.memory, base.disk, map[])
             case Some(next) =>
               || shared == Shared(next, base.disk, map[task := Saving(base.memory, next, false)])
               || shared == Shared(next, next, map[task := Saving(base.memory, next, true)])
    ensures var saved := task in shared.open && shared.open[task].landed;
            var after := Settled(u, base, op, saved);
            Ended(shared, task) == Shared(after.memory, after.disk, map[])
  {
    hide Applied;
    assert map[task := Saving(base.memory, shared.memory, false)] - {task} == map[];
    assert map[task := Saving(base.memory, shared.memory, true)] - {task} == map[];
  }

  lemma SerialDriven(u: Urls, start: Store, s: State, queue: Q.Log)
    requires s.shared == Shared(AfterOps(u, start, s.done).memory, AfterOps(u, start, s.done).disk, map[])
    requires queue.running.Some? ==> queue.running.value < |s.ops| && |queue.started| > |s.queue.started|
    ensures Serial(u, start, Driven(u, s, queue))
  {
    hide Applied, AfterOps, Begun;
    if queue.running.Some? {
      ABeginningIsSerial(u, AfterOps(u, start, s.done), queue.running.value, s.ops[queue.running.value]);
    }
  }

  lemma SerialStep(u: Urls, start: Store, s: State, e: Event)
    requires Q.Inv(s.queue) && Known(s) && Serial(u, start, s)
    ensures Serial(u, start, Next(u, s, e))
  {
    hide Applied, AfterOps, Begun, Ended, Settled, Q.Inv, Q.Next;
    KnownStep(u, s, e);
    match e
    case Submit(op) =>
      QueueStarts(s.queue, Q.Submit(|s.ops|));
      if s.queue.running.None? { SubmittedWhileIdle(u, start, s, op); } else { SubmittedWhileBusy(u, start, s, op); }
    case SaveLands => if s.queue.running.Some? { LandsSerially(u, start, s); }
    case TaskEnds => if s.queue.running.Some? { EndsSerially(u, start, s); }
    case Close => ClosingKeepsRunning(s.queue);
  }

  lemma ClosingKeepsRunning(q: Q.Log)
    ensures Q.Next(q, Q.Close).running == q.running
  {
  }

  lemma SubmittedWhileIdle(u: Urls, start: Store, s: State, op: Op)
    requires Q.Inv(s.queue) && Known(s) && Serial(u, start, s) && s.queue.running.None?
    ensures Serial(u, start, Next(u, s, Submit(op)))
  {
    hide Applied, AfterOps, Begun, Q.Inv, Q.Next;
    QueueStarts(s.queue, Q.Submit(|s.ops|));
    KnownStep(u, s, Submit(op));
    SerialDriven(u, start, s.(ops := s.ops + [op]), Q.Next(s.queue, Q.Submit(|s.ops|)));
  }

  lemma SubmittedWhileBusy(u: Urls, start: Store, s: State, op: Op)
    requires Q.Inv(s.queue) && Known(s) && Serial(u, start, s) && s.queue.running.Some?
    ensures Serial(u, start, Next(u, s, Submit(op)))
  {
    hide Applied, AfterOps, Begun, Q.Inv, Q.Next;
    QueueStarts(s.queue, Q.Submit(|s.ops|));
    assert (s.ops + [op])[s.queue.running.value] == s.ops[s.queue.running.value];
  }

  lemma LandsSerially(u: Urls, start: Store, s: State)
    requires Serial(u, start, s) && s.queue.running.Some?
    ensures Serial(u, start, Next(u, s, SaveLands))
  {
    hide Applied, AfterOps;
    var task, base := s.queue.running.value, AfterOps(u, start, s.done);
    if Applied(u, base.memory, s.ops[task]).Some? {
      var next := Applied(u, base.memory, s.ops[task]).value;
      assert map[task := Saving(base.memory, next, false)][task := Saving(base.memory, next, true)] == map[task := Saving(base.memory, next, true)];
      assert map[task := Saving(base.memory, next, true)][task := Saving(base.memory, next, true)] == map[task := Saving(base.memory, next, true)];
    }
  }

  lemma EndsSerially(u: Urls, start: Store, s: State)
    requires Q.Inv(s.queue) && Known(s) && Serial(u, start, s) && s.queue.running.Some?
    ensures Serial(u, start, Next(u, s, TaskEnds))
  {
    hide Applied, AfterOps, Begun, Ended, Settled, Q.Inv, Q.Next;
    var task, base := s.queue.running.value, AfterOps(u, start, s.done);
    var saved := task in s.shared.open && s.shared.open[task].landed;
    AnEndIsSerial(u, base, s.shared, task, s.ops[task]);
    AfterOneMoreOp(u, start, s.done, s.ops[task], saved);
    QueueStarts(s.queue, Q.TaskEnds);
    KnownStep(u, s, TaskEnds);
    SerialDriven(u, start, s.(shared := Ended(s.shared, task), done := s.done + [(s.ops[task], saved)]), Q.Next(s.queue, Q.TaskEnds));
  }

  lemma FoundIsBase(u: Urls, start: Store, s: State)
    requires Serial(u, start, s)
    ensures Found(s) == AfterOps(u, start, s.done).memory
  {
    hide Applied, AfterOps;
  }

  lemma DoneStaysFresh(u: Urls, start: Store, s: State, e: Event)
    requires Serial(u, start, s) && AllFresh(u, start, s.done) && FreshStart(u, s)
    ensures AllFresh(u, start, Next(u, s, e).done)
  {
    hide AfterOps, Begun, Ended, Q.Next, AllFresh, FreshId, Serial, Found;
    if e.TaskEnds? && s.queue.running.Some? && s.queue.running.value < |s.ops| {
      var task := s.queue.running.value;
      FoundIsBase(u, start, s);
      FreshOneMoreOp(u, start, s.done, s.ops[task], task in s.shared.open && s.shared.open[task].landed);
    }
  }

  /**
   An operation counts as saved exactly when its save reached the disk before it ended: then memory and disk have what it
   wrote, and otherwise both have what it found.
   */
  lemma SavedExactlyWhenLanded(u: Urls, start: Store, s: State, op: Op, next: Envelope)
    requires Q.Inv(s.queue) && Known(s) && Serial(u, start, s) && s.queue.running.Some? && s.queue.pending == []
    requires op == s.ops[s.queue.running.value] && Applied(u, AfterOps(u, start, s.done).memory, op) == Some(next)
    ensures s.queue.running.value in s.shared.open
    ensures var base := AfterOps(u, start, s.done);
            var landed := s.shared.open[s.queue.running.value].landed;
            var t := Next(u, s, TaskEnds);
            && t.done == s.done + [(op, landed)] && t.shared.open == map[]
            && t.shared.memory == (if landed then next else base.memory) && t.shared.disk == (if landed then next else base.disk)
    ensures var l := Next(u, s, SaveLands); l.shared.disk == next && l.shared.open[s.queue.running.value].landed
  {
    hide Applied, AfterOps;
    var task := s.queue.running.value;
    assert map[task := Saving(AfterOps(u, start, s.done).memory, next, false)] - {task} == map[];
    assert map[task := Saving(AfterOps(u, start, s.done).memory, next, true)] - {task} == map[];
  }

  /** Closing cancels whatever waits and leaves the running operation alone; nothing is accepted after it. */
  lemma ClosingEndsTheQueue(u: Urls, s: State, op: Op)
    requires !s.queue.closed
    ensures var t := Next(u, s, Close);
            && t.shared == s.shared && t.done == s.done && t.queue.running == s.queue.running && t.queue.pending == []
            && Next(u, t, Submit(op)).queue.accepted == t.queue.accepted && Next(u, t, Submit(op)).shared == t.shared
  {
  }

  // ---------- Whole runs ----------

  ghost predicate Inv(u: Urls, start: Store, s: State) {
    Q.Inv(s.queue) && Known(s) && Serial(u, start, s) && AllFresh(u, start, s.done)
  }

  lemma {:induction false} RunIsSerial(u: Urls, start: Store, s: State, events: seq<Event>)
    requires Inv(u, start, s) && AllFreshStarts(u, s, events)
    ensures Inv(u, start, After(u, s, events))
    decreases events
  {
    hide Q.Inv, Known, Serial, AllFresh, Next, FreshStart;
    if events != [] {
      var e := events[0];
      QueueStays(u, s, e);
      KnownStep(u, s, e);
      SerialStep(u, start, s, e);
      DoneStaysFresh(u, start, s, e);
      RunIsSerial(u, start, Next(u, s, e), events[1..]);
    }
  }

  lemma QueueStays(u: Urls, s: State, e: Event)
    requires Q.Inv(s.queue)
    ensures Q.Inv(Next(u, s, e).queue)
  {
    hide Q.Inv, Q.Next, Begun, Ended, Landed;
    match e
    case Submit(op) => Q.NextInv(s.queue, Q.Submit(|s.ops|));
    case TaskEnds => Q.NextInv(s.queue, Q.TaskEnds);
    case Close => Q.NextInv(s.queue, Q.Close);
    case _ =>
  }

  lemma OpenedIsSerial(u: Urls, start: Store)
    ensures Inv(u, start, Opened(start))
  {
  }

  /**
   In every interleaving of submissions, saves that land or never do, endings and closing: whenever no operation runs, the
   store is where the operations that ended lead when run one after the other, memory is consistent, and it is in step
   with the disk. While one runs, memory is consistent all the same.
   */
  lemma InStepWheneverNothingRuns(u: Urls, start: Store, events: seq<Event>)
    requires Consistent(start.memory) && InStep(start) && AllFreshStarts(u, Opened(start), events)
    ensures var s := After(u, Opened(start), events);
            && Consistent(s.shared.memory)
            && (s.queue.running.None? ==>
                  && Store(s.shared.memory, s.shared.disk) == AfterOps(u, start, s.done)
                  && InStep(Store(s.shared.memory, s.shared.disk)))
  {
    hide Q.Inv, Known, AllFresh, AfterOps, Applied, Consistent, InStep, AllFreshStarts, After, Opened;
    OpenedIsSerial(u, start);
    RunIsSerial(u, start, Opened(start), events);
    var s := After(u, Opened(start), events);
    var base := AfterOps(u, start, s.done);
    StoreStaysConsistent(u, start, s.done);
    if s.queue.running.Some? {
      LastFresh(u, start, Opened(start), events);
      FoundIsBase(u, start, s);
      var op := s.ops[s.queue.running.value];
      if Applied(u, base.memory, op).Some? { AppliedKeepsConsistent(u, base.memory, op); }
    }
  }

  lemma {:induction false} LastFresh(u: Urls, start: Store, s: State, events: seq<Event>)
    requires AllFreshStarts(u, s, events)
    ensures FreshStart(u, After(u, s, events))
    decreases events
  {
    hide Next, FreshStart;
    if events != [] { LastFresh(u, start, Next(u, s, events[0]), events[1..]); }
  }

  /** The operations that ended are those of the tasks the queue finished, in the order they were submitted. */
  lemma {:induction false} DoneInOrder(u: Urls, s: State, events: seq<Event>)
    requires Q.Inv(s.queue) && Known(s) && DoneMatches(s)
    ensures DoneMatches(After(u, s, events)) && After(u, s, events).queue.finished <= After(u, s, events).queue.accepted
    decreases events
  {
    hide Q.Inv, Known, DoneMatches, Next;
    if events == [] {
      FinishedAreAccepted(s.queue);
    } else {
      QueueStays(u, s, events[0]);
      KnownStep(u, s, events[0]);
      DoneStep(u, s, events[0]);
      DoneInOrder(u, Next(u, s, events[0]), events[1..]);
    }
  }

  ghost predicate DoneMatches(s: State) {
    |s.done| == |s.queue.finished|
    && forall i :: 0 <= i < |s.done| ==> s.queue.finished[i] < |s.ops| && s.done[i].0 == s.ops[s.queue.finished[i]]
  }

  lemma FinishedAreAccepted(q: Q.Log)
    requires Q.Inv(q)
    ensures q.finished <= q.accepted
  {
  }

  lemma DoneStep(u: Urls, s: State, e: Event)
    requires Q.Inv(s.queue) && Known(s) && DoneMatches(s)
    ensures DoneMatches(Next(u, s, e))
  {
    hide Begun, Ended, Landed;
  }
}
