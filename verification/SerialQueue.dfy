/** The queue that runs one task at a time, in the order submitted (apps/desktop/src/serial-task-queue.ts). */
module SerialQueue {
  import opened Wrappers

  type Task = nat

  /** What happened to every task ever submitted. */
  datatype Log = Log(
    accepted: seq<Task>,
    started: seq<Task>,
    finished: seq<Task>,
    rejected: seq<Task>,
    running: Option<Task>,
    pending: seq<Task>,
    closed: bool)

  datatype Event = Submit(task: Task) | Close | TaskEnds

  const EMPTY := Log([], [], [], [], None, [], false)

  /** Starts the oldest pending task if nothing runs. */
  function Drained(q: Log): Log {
    if q.running.Some? || q.pending == [] then q
    else q.(running := Some(q.pending[0]), started := q.started + [q.pending[0]], pending := q.pending[1..])
  }

  function Next(q: Log, e: Event): Log {
    match e
    case Submit(task) =>
      if q.closed then q.(rejected := q.rejected + [task])
      else Drained(q.(accepted := q.accepted + [task], pending := q.pending + [task]))
    case Close =>
      if q.closed then q else q.(closed := true, rejected := q.rejected + q.pending, pending := [])
    case TaskEnds =>
      if q.running.None? then q
      else Drained(q.(finished := q.finished + [q.running.value], running := None))
  }

  function After(q: Log, events: seq<Event>): Log
    decreases events
  {
    if events == [] then q else After(Next(q, events[0]), events[1..])
  }

  function Running(q: Log): seq<Task> {
    if q.running.Some? then [q.running.value] else []
  }

  /**
   Tasks start in the order they were accepted and one at a time; a task waits only behind a running one; closing drops
   what waits and nothing else.
   */
  ghost predicate Inv(q: Log) {
    && q.started == q.finished + Running(q)
    && q.started + q.pending <= q.accepted
    && (!q.closed ==> q.started + q.pending == q.accepted && q.rejected == [])
    && (q.closed ==> q.pending == [] && q.accepted[|q.started|..] <= q.rejected)
    && (q.pending != [] ==> q.running.Some?)
  }

  lemma NextInv(q: Log, e: Event)
    requires Inv(q)
    ensures Inv(Next(q, e))
    ensures q.closed ==> Next(q, e).started == q.started
    ensures q.accepted <= Next(q, e).accepted && q.started <= Next(q, e).started && q.rejected <= Next(q, e).rejected
  {
    if e.TaskEnds? && q.running.Some? {
      assert q.pending != [] ==> q.pending == [q.pending[0]] + q.pending[1..];
    }
  }

  function Submitted(events: seq<Event>): seq<Task> {
    if events == [] then []
    else (if events[0].Submit? then [events[0].task] else []) + Submitted(events[1..])
  }

  /** Every task that is done, running, waiting or refused, with multiplicity. */
  ghost function Held(q: Log): multiset<Task> {
    multiset(q.finished) + multiset(Running(q)) + multiset(q.pending) + multiset(q.rejected)
  }

  lemma DrainConserves(q: Log)
    ensures Held(Drained(q)) == Held(q)
  {
    if q.running.None? && q.pending != [] {
      assert multiset(q.pending) == multiset{q.pending[0]} + multiset(q.pending[1..]) by {
        assert q.pending == [q.pending[0]] + q.pending[1..];
      }
      assert Running(Drained(q)) == [q.pending[0]];
    }
  }

  lemma NextConserves(q: Log, e: Event)
    ensures Held(Next(q, e)) == Held(q) + if e.Submit? then multiset{e.task} else multiset{}
  {
    hide Drained, Held;
    match e
    case Submit(task) =>
      SubmittingConserves(q, task);
      if !q.closed { DrainConserves(q.(accepted := q.accepted + [task], pending := q.pending + [task])); }
    case Close => ClosingConserves(q);
    case TaskEnds =>
      if q.running.Some? {
        EndingConserves(q);
        DrainConserves(q.(finished := q.finished + [q.running.value], running := None));
      }
  }

  lemma SubmittingConserves(q: Log, task: Task)
    ensures Held(q.(rejected := q.rejected + [task])) == Held(q) + multiset{task}
    ensures Held(q.(accepted := q.accepted + [task], pending := q.pending + [task])) == Held(q) + multiset{task}
  {
  }

  lemma ClosingConserves(q: Log)
    ensures Held(q.(closed := true, rejected := q.rejected + q.pending, pending := [])) == Held(q)
  {
  }

  lemma EndingConserves(q: Log)
    requires q.running.Some?
    ensures Held(q.(finished := q.finished + [q.running.value], running := None)) == Held(q)
  {
  }

  lemma SubmittedStep(events: seq<Event>)
    requires events != []
    ensures multiset(Submitted(events))
            == (if events[0].Submit? then multiset{events[0].task} else multiset{}) + multiset(Submitted(events[1..]))
  {
  }

  /** Over any run: the start order is the submission order, and no task is lost or run twice. */
  lemma {:induction false} FifoAndConserving(q: Log, events: seq<Event>)
    requires Inv(q)
    ensures var later := After(q, events);
            && Inv(later) && later.started <= later.accepted
            && Held(later) == Held(q) + multiset(Submitted(events))
            && (q.closed ==> later.closed && later.started == q.started)
    decreases events
  {
    hide Held, Submitted, Inv;
    if events != [] {
      NextInv(q, events[0]);
      NextConserves(q, events[0]);
      SubmittedStep(events);
      FifoAndConserving(Next(q, events[0]), events[1..]);
    } else {
      NothingSubmitted();
      StartedAreAccepted(q);
    }
  }

  lemma NothingSubmitted()
    ensures Submitted([]) == []
  {
  }

  lemma StartedAreAccepted(q: Log)
    requires Inv(q)
    ensures q.started <= q.accepted
  {
  }

  class SerialTaskQueue {
    var pending: seq<Task>
    var running: bool
    var closed: bool
    ghost var log: Log

    ghost predicate Valid()
      reads this
    {
      Inv(log) && pending == log.pending && running == log.running.Some? && closed == log.closed
    }

    constructor ()
      ensures Valid() && log == EMPTY
    {
      pending, running, closed, log := [], false, false, EMPTY;
    }

    method Run(task: Task) returns (accepted: bool)
      requires Valid()
      modifies this
      ensures Valid() && log == Next(old(log), Submit(task)) && accepted == !old(closed)
      ensures old(closed) ==> pending == old(pending) && running == old(running)
      ensures !old(closed) ==> running && pending == (if old(running) then old(pending) + [task] else [])
    {
      NextInv(log, Submit(task));
      if closed {
        log := log.(rejected := log.rejected + [task]);
        return false;
      }
      pending := pending + [task];
      log := log.(accepted := log.accepted + [task], pending := pending);
      Drain();
      return true;
    }

    method CloseQueue()
      requires Valid()
      modifies this
      ensures Valid() && log == Next(old(log), Close)
      ensures closed && pending == [] && running == old(running) && log.rejected == old(log).rejected + old(pending)
    {
      NextInv(log, Close);
      if closed { return; }
      closed := true;
      log := log.(closed := true, rejected := log.rejected + pending, pending := []);
      pending := [];
    }

    /** The running task settles, well or badly. */
    method Finish()
      requires Valid()
      modifies this
      ensures Valid() && log == Next(old(log), TaskEnds)
      ensures running <==> old(running) && old(pending) != []
      ensures running ==> log.running == Some(old(pending)[0]) && pending == old(pending)[1..]
      ensures closed == old(closed)
    {
      NextInv(log, TaskEnds);
      if !running { return; }
      running := false;
      log := log.(finished := log.finished + [log.running.value], running := None);
      Drain();
    }

    method Drain()
      requires pending == log.pending && running == log.running.Some?
      modifies this`pending, this`running, this`log
      ensures log == Drained(old(log)) && pending == log.pending && running == log.running.Some?
    {
      if running || pending == [] { return; }
      running := true;
      log := log.(running := Some(pending[0]), started := log.started + [pending[0]], pending := pending[1..]);
      pending := pending[1..];
    }
  }
}
