/**
 Keeping one Host child running (apps/desktop/src/host-supervisor.ts). The code between two awaits is one atomic
 segment; `Event` names each segment by what it resumes on, and a run is any sequence of them. Notification callbacks
 are taken not to throw.
 */
module HostSupervisor {
  import opened Wrappers

  type Child = nat

  const HOST_RESTART_EXIT_CODE := 75

  /** A `start` between its awaits. */
  datatype Starting = NotStarting | AwaitingReady(launch: Child) | Unwinding(failed: Child)

  /** The supervision loop between its awaits. `Over` keeps the settled promise until `stop` drops it. */
  datatype Supervision =
    | Absent
    | AwaitingExit(active: Child)
    | Delaying
    | AwaitingCandidate(candidate: Child)
    | Discarding(failed: Child)
    | Over

  /** A pending `stop`: the launch it captured, and whether that launch is known to be gone. */
  datatype Stopping = Stopping(captured: Option<Child>, gone: bool)

  /**
   The field `#lifecycle` with the signal of the lifecycle that last began: unset and aborted, set, set and aborted, or
   unset by another call although it was not aborted.
   */
  datatype Lifecycle = NotStarted | Running | Aborted | Cleared
  {
    predicate Unset() {
      NotStarted? || Cleared?
    }

    predicate Going() {
      Running? || Cleared?
    }

    /** The field is unset. */
    function Unsetting(): Lifecycle {
      if Going() then Cleared else NotStarted
    }

    /** The signal is aborted. */
    function Aborting(): Lifecycle {
      if Unset() then NotStarted else Aborted
    }
  }

  datatype Limits = Limits(delays: seq<nat>, window: nat, budget: nat)
  {
    predicate Valid() {
      delays != [] && window > 0 && budget > 0
    }
  }

  /**
   `older` is a `start` that is pending while a later one is; its lifecycle is aborted. A run is followed as far as it has
   one such `start` at most.
   */
  datatype State = State(
    spawned: nat,
    exited: map<Child, int>,
    current: Option<Child>,
    lifecycle: Lifecycle,
    starting: Starting,
    older: Starting,
    supervision: Supervision,
    stopping: Option<Stopping>,
    failures: seq<int>)

  datatype Event =
    | Exits(child: Child, code: int)
    | CallStart(spawns: bool)
    | StartReady(ready: bool)
    | StartUnwound
    | OlderReady
    | OlderUnwound
    | CallStop
    | StopSeesExit
    | StopSettles
    | ExitSeen(now: int)
    | DelayEnds(elapsed: bool, spawns: bool, now: int)
    | CandidateReady(ready: bool, now: int)
    | CandidateGone(now: int)

  const INITIAL := State(0, map[], None, NotStarted, NotStarting, NotStarting, Absent, None, [])

  ghost function Live(s: State): set<Child> {
    set c | 0 <= c < s.spawned && c !in s.exited
  }

  // ---------- The segments ----------

  /** Failures older than the window are forgotten, then this one is added. */
  function Expired(failures: seq<int>, earliest: int): seq<int> {
    if failures != [] && failures[0] < earliest then Expired(failures[1..], earliest) else failures
  }

  function Registered(limits: Limits, failures: seq<int>, now: int): seq<int> {
    Expired(failures, now - limits.window) + [now]
  }

  /** The head of the inner loop: a planned restart, a restart within the budget, or the end. */
  function NextAttempt(limits: Limits, s: State, planned: bool, now: int): State {
    if !s.lifecycle.Going() then s.(supervision := Over)
    else if planned then s.(supervision := Delaying)
    else
      var failures := Registered(limits, s.failures, now);
      s.(failures := failures, supervision := if |failures| > limits.budget then Over else Delaying)
  }

  function Forget(s: State, child: Child): State {
    if s.current == Some(child) then s.(current := None) else s
  }

  function Next(limits: Limits, s: State, e: Event): State {
    match e
    case Exits(child, code) =>
      if child < s.spawned && child !in s.exited then s.(exited := s.exited[child := code]) else s
    case CallStart(spawns) =>
      if !s.lifecycle.Unset() || !spawns then s
      else s.(spawned := s.spawned + 1, current := Some(s.spawned), lifecycle := Running, starting := AwaitingReady(s.spawned),
              older := if s.starting.NotStarting? then s.older else s.starting)
    case StartReady(ready) =>
      if !s.starting.AwaitingReady? then s
      else if ready && s.lifecycle.Going() then
        s.(starting := NotStarting, supervision := AwaitingExit(s.starting.launch))
      else if s.current.Some? then s.(lifecycle := s.lifecycle.Aborting(), starting := Unwinding(s.current.value))
      else s.(lifecycle := NotStarted, starting := NotStarting)
    case StartUnwound =>
      if s.starting.Unwinding? && s.starting.failed in s.exited then
        Forget(s, s.starting.failed).(lifecycle := NotStarted, starting := NotStarting)
      else s
    case OlderReady =>
      // Whatever it waited for, its own signal is aborted; what it then ends is the current launch.
      if !s.older.AwaitingReady? then s
      else if s.current.Some? then s.(older := Unwinding(s.current.value))
      else s.(lifecycle := s.lifecycle.Unsetting(), older := NotStarting)
    case OlderUnwound =>
      if s.older.Unwinding? && s.older.failed in s.exited then
        Forget(s, s.older.failed).(lifecycle := s.lifecycle.Unsetting(), older := NotStarting)
      else s
    case CallStop =>
      if s.stopping.Some? || s.lifecycle.Unset() then s
      else s.(lifecycle := Aborted, stopping := Some(Stopping(s.current, s.current.None?)))
    case StopSeesExit =>
      if s.stopping.Some? && s.stopping.value.captured.Some? && s.stopping.value.captured.value in s.exited then
        s.(stopping := Some(s.stopping.value.(gone := true)))
      else s
    case StopSettles =>
      if StopMaySettle(s) then
        s.(current := if s.current == s.stopping.value.captured then None else s.current,
           lifecycle := s.lifecycle.Unsetting(), supervision := Absent, stopping := None)
      else s
    case ExitSeen(now) =>
      if !s.supervision.AwaitingExit? || s.supervision.active !in s.exited then s
      else NextAttempt(limits, Forget(s, s.supervision.active), s.exited[s.supervision.active] == HOST_RESTART_EXIT_CODE, now)
    case DelayEnds(elapsed, spawns, now) =>
      if !s.supervision.Delaying? then s
      else if !s.lifecycle.Going() then s.(supervision := Over)
      else if elapsed && spawns then
        s.(spawned := s.spawned + 1, current := Some(s.spawned), supervision := AwaitingCandidate(s.spawned))
      else if elapsed && s.current.Some? then s.(supervision := Discarding(s.current.value))
      else NextAttempt(limits, s, false, now)
    case CandidateReady(ready, now) =>
      if !s.supervision.AwaitingCandidate? then s
      else if ready && s.lifecycle.Going() then s.(supervision := AwaitingExit(s.supervision.candidate))
      else if s.current.Some? then s.(supervision := Discarding(s.current.value))
      else NextAttempt(limits, s, false, now)
    case CandidateGone(now) =>
      if s.supervision.Discarding? && s.supervision.failed in s.exited then
        NextAttempt(limits, Forget(s, s.supervision.failed), false, now)
      else s
  }

  predicate StopMaySettle(s: State) {
    s.stopping.Some? && s.stopping.value.gone && s.supervision in {Absent, Over}
  }

  // ---------- Safety ----------

  /** `start` is called only when no earlier `start` or `stop` is still pending. */
  predicate Allowed(s: State, e: Event) {
    e.CallStart? && s.lifecycle.Unset() ==>
      s.starting.NotStarting? && s.older.NotStarting? && s.stopping.None? && s.lifecycle.NotStarted?
  }

  ghost predicate Only(s: State, child: Option<Child>) {
    forall c :: c in Live(s) ==> child == Some(c)
  }

  ghost predicate Inv(s: State) {
    && Only(s, s.current) && s.older.NotStarting? && !s.lifecycle.Cleared?
    && (forall c :: c in s.exited ==> c < s.spawned)
    && (s.current.Some? ==> s.current.value < s.spawned)
    && (s.lifecycle == NotStarted ==> Live(s) == {} && s.supervision.Absent?)
    && (s.lifecycle == NotStarted && s.starting.NotStarting? && s.stopping.None? ==> s.current.None?)
    && (!s.starting.NotStarting? ==> s.supervision.Absent?)
    && (match s.supervision
        case Absent => s.lifecycle == Running ==> s.starting.AwaitingReady?
        case AwaitingExit(active) => active < s.spawned && Only(s, Some(active)) && (s.lifecycle == Running ==> s.current == Some(active))
        case Delaying => Live(s) == {} && s.current.None?
        case AwaitingCandidate(candidate) => s.current == Some(candidate)
        case Discarding(failed) => Only(s, Some(failed)) && s.current == Some(failed)
        case Over => Live(s) == {})
    && (match s.starting
        case AwaitingReady(launch) =>
          launch < s.spawned && Only(s, Some(launch)) && (s.lifecycle == NotStarted || s.current == Some(launch))
        case Unwinding(failed) => failed < s.spawned && Only(s, Some(failed)) && (s.current.None? || s.current == Some(failed))
        case NotStarting => true)
    && (s.stopping.Some? ==>
        && s.lifecycle != Running
        && (s.stopping.value.captured.None? ==> s.stopping.value.gone)
        && (s.stopping.value.captured.Some? ==> s.stopping.value.captured.value < s.spawned)
        && Only(s, s.stopping.value.captured)
        && (s.current.None? || s.current == s.stopping.value.captured)
        && (s.stopping.value.gone ==> Live(s) == {}))
  }

  lemma InitialInv()
    ensures Inv(INITIAL)
  {
  }

  lemma NextInv(limits: Limits, s: State, e: Event)
    requires Inv(s) && Allowed(s, e)
    ensures Inv(Next(limits, s, e))
  {
    hide *;
    match e
    case CallStart(_) => StartInv(limits, s, e);
    case StartReady(_) => StartInv(limits, s, e);
    case StartUnwound => StartInv(limits, s, e);
    case OlderReady => OlderInv(limits, s, e);
    case OlderUnwound => OlderInv(limits, s, e);
    case ExitSeen(_) => ExitInv(limits, s, e);
    case DelayEnds(_, _, _) => DelayInv(limits, s, e);
    case CandidateReady(_, _) => CandidateInv(limits, s, e);
    case CandidateGone(_) => DiscardInv(limits, s, e);
    case _ => StopInv(limits, s, e);
  }

  lemma StartInv(limits: Limits, s: State, e: Event)
    requires Inv(s) && Allowed(s, e) && (e.CallStart? || e.StartReady? || e.StartUnwound?)
    ensures Inv(Next(limits, s, e))
  {
  }

  lemma StopInv(limits: Limits, s: State, e: Event)
    requires Inv(s) && (e.Exits? || e.CallStop? || e.StopSeesExit? || e.StopSettles?)
    ensures Inv(Next(limits, s, e))
  {
  }

  lemma OlderInv(limits: Limits, s: State, e: Event)
    requires Inv(s) && (e.OlderReady? || e.OlderUnwound?)
    ensures Inv(Next(limits, s, e))
  {
    hide Registered;
  }

  lemma ExitInv(limits: Limits, s: State, e: Event)
    requires Inv(s) && e.ExitSeen?
    ensures Inv(Next(limits, s, e))
  {
    hide Registered;
  }

  lemma DelayInv(limits: Limits, s: State, e: Event)
    requires Inv(s) && e.DelayEnds?
    ensures Inv(Next(limits, s, e))
  {
    hide Registered;
  }

  lemma CandidateInv(limits: Limits, s: State, e: Event)
    requires Inv(s) && e.CandidateReady?
    ensures Inv(Next(limits, s, e))
  {
    hide Registered;
  }

  lemma DiscardInv(limits: Limits, s: State, e: Event)
    requires Inv(s) && e.CandidateGone?
    ensures Inv(Next(limits, s, e))
  {
    hide Registered;
  }

  ghost predicate AllAllowed(limits: Limits, s: State, events: seq<Event>)
    decreases events
  {
    events == [] || (Allowed(s, events[0]) && AllAllowed(limits, Next(limits, s, events[0]), events[1..]))
  }

  function After(limits: Limits, s: State, events: seq<Event>): State
    decreases events
  {
    if events == [] then s else After(limits, Next(limits, s, events[0]), events[1..])
  }

  /** In every interleaving at most one child is live, and it is the one the supervisor knows about. */
  lemma {:induction false} AtMostOneChild(limits: Limits, s: State, events: seq<Event>)
    requires Inv(s) && AllAllowed(limits, s, events)
    ensures var later := After(limits, s, events);
            && Inv(later)
            && forall a, b :: a in Live(later) && b in Live(later) ==> a == b && later.current == Some(a)
    decreases events
  {
    if events != [] {
      NextInv(limits, s, events[0]);
      AtMostOneChild(limits, Next(limits, s, events[0]), events[1..]);
    }
  }

  /** So it is for every run of a new supervisor, and none of them leaves a child behind that no lifecycle accounts for. */
  lemma NewSupervisorIsSafe(limits: Limits, events: seq<Event>)
    requires AllAllowed(limits, INITIAL, events)
    ensures var s := After(limits, INITIAL, events);
            && (forall a, b :: a in Live(s) && b in Live(s) ==> a == b)
            && (s.lifecycle == NotStarted ==> Live(s) == {})
  {
    hide Next;
    InitialInv();
    AtMostOneChild(limits, INITIAL, events);
  }

  /** No lifecycle that could still spawn: stopping, stopped, or given up after too many crashes. */
  predicate Quiet(s: State) {
    !s.lifecycle.Going() || s.supervision == Over
  }

  /** Once `stop` was requested, or the crash budget is spent, only another `start` spawns a child. */
  lemma {:induction false} NothingSpawnsWhenQuiet(limits: Limits, s: State, events: seq<Event>)
    requires Inv(s) && Quiet(s) && AllAllowed(limits, s, events)
    requires forall e :: e in events ==> !e.CallStart?
    ensures var later := After(limits, s, events); Quiet(later) && later.spawned == s.spawned && Live(later) <= Live(s)
    decreases events
  {
    if events != [] {
      assert events[0] in events;
      NextInv(limits, s, events[0]);
      QuietStays(limits, s, events[0]);
      NothingSpawnsWhenQuiet(limits, Next(limits, s, events[0]), events[1..]);
    }
  }

  lemma QuietStays(limits: Limits, s: State, e: Event)
    requires Inv(s) && Quiet(s) && !e.CallStart?
    ensures Quiet(Next(limits, s, e)) && Next(limits, s, e).spawned == s.spawned
    ensures Live(Next(limits, s, e)) <= Live(s)
  {
  }

  lemma StopMakesQuiet(limits: Limits, s: State)
    requires Inv(s)
    ensures Quiet(Next(limits, s, CallStop))
  {
  }

  /** Only `start` sets a lifecycle, and one that was told to end is never taken up again. */
  lemma OnlyStartSetsALifecycle(limits: Limits, s: State, e: Event)
    requires !e.CallStart?
    ensures s.lifecycle.Unset() ==> Next(limits, s, e).lifecycle.Unset()
    ensures !s.lifecycle.Going() ==> !Next(limits, s, e).lifecycle.Going()
  {
  }

  /** When `stop` settles, or returns at once because nothing runs, no child is live. */
  lemma StoppedMeansNoChild(limits: Limits, s: State)
    requires Inv(s)
    ensures StopMaySettle(s) ==> Live(Next(limits, s, StopSettles)) == {}
    ensures s.stopping.None? && s.lifecycle == NotStarted ==> Live(s) == {}
  {
  }

  // ---------- Progress ----------

  /** Some run without another `start` leads from the one state to the other. */
  ghost predicate Leads(limits: Limits, s: State, t: State) {
    exists events: seq<Event> :: (forall e :: e in events ==> !e.CallStart?) && After(limits, s, events) == t
  }

  lemma LeadsToItself(limits: Limits, s: State)
    ensures Leads(limits, s, s)
  {
    assert After(limits, s, []) == s;
  }

  /** One more segment; nothing but a `start` can break the invariant. */
  lemma LeadsOn(limits: Limits, s: State, t: State, e: Event)
    requires Leads(limits, s, t) && Inv(t) && !e.CallStart?
    ensures Leads(limits, s, Next(limits, t, e)) && Inv(Next(limits, t, e))
  {
    hide Next, Inv;
    var events: seq<Event> :| (forall e :: e in events ==> !e.CallStart?) && After(limits, s, events) == t;
    AfterAll(limits, s, events, [e]);
    AfterOne(limits, t, e);
    assert forall f :: f in events + [e] ==> !f.CallStart?;
    NextInv(limits, t, e);
  }

  /** A pending `start` whose process never gets ready ends its child and can be called again. */
  lemma FailedStartUnwinds(limits: Limits, s: State) returns (t: State)
    requires Inv(s) && s.starting.AwaitingReady? && s.stopping.None? && s.lifecycle.Running?
    ensures Leads(limits, s, t) && Inv(t)
    ensures t.starting.NotStarting? && t.lifecycle.NotStarted? && t.current.None? && Live(t) == {} && t.spawned == s.spawned
  {
    hide Leads, Inv;
    var launch := s.starting.launch;
    LeadsToItself(limits, s);
    PendingStartIsCurrent(s);
    LeadsOn(limits, s, s, StartReady(false));
    t := Next(limits, s, StartReady(false));
    LeadsOn(limits, s, t, Exits(launch, 0));
    t := Next(limits, t, Exits(launch, 0));
    LeadsOn(limits, s, t, StartUnwound);
    t := Next(limits, t, StartUnwound);
    NotStartedIsEmpty(t);
  }

  lemma PendingStartIsCurrent(s: State)
    requires Inv(s) && s.starting.AwaitingReady? && s.lifecycle.Running?
    ensures s.current == Some(s.starting.launch) && s.starting.launch < s.spawned
  {
  }

  lemma NotStartedIsEmpty(s: State)
    requires Inv(s) && s.lifecycle.NotStarted?
    ensures Live(s) == {}
  {
  }

  /** A requested `stop` can always come to its end, wherever start and supervision were, and spawns nothing on the way. */
  lemma StopCanEnd(limits: Limits, s: State) returns (t: State)
    requires Inv(s) && s.stopping.Some?
    ensures Leads(limits, s, t) && Inv(t)
    ensures t.stopping.None? && t.lifecycle.NotStarted? && t.supervision.Absent? && Live(t) == {} && t.spawned == s.spawned
  {
    hide Leads, Inv;
    LeadsToItself(limits, s);
    t := s;
    if t.stopping.value.captured.Some? {
      LeadsOn(limits, s, t, Exits(t.stopping.value.captured.value, 0));
      t := Next(limits, t, Exits(t.stopping.value.captured.value, 0));
      CapturedHasExited(limits, s);
    }
    LeadsOn(limits, s, t, StopSeesExit);
    t := Next(limits, t, StopSeesExit);
    StopKnows(t);
    t := SupervisionCanEnd(limits, s, t);
    StopKnows(t);
    LeadsOn(limits, s, t, StopSettles);
    t := Next(limits, t, StopSettles);
    NotStartedIsEmpty(t);
  }

  /** Told to end, the supervision loop ends once what it waits for has come. */
  lemma SupervisionCanEnd(limits: Limits, s: State, from: State) returns (t: State)
    requires Leads(limits, s, from) && Inv(from) && from.stopping.Some? && from.stopping.value.gone
    ensures Leads(limits, s, t) && Inv(t) && t.stopping == from.stopping && t.supervision in {Absent, Over} && t.spawned == from.spawned
  {
    hide Leads, Inv;
    t := from;
    StopKnows(t);
    if t.supervision.AwaitingExit? {
      LeadsOn(limits, s, t, ExitSeen(0));
      t := Next(limits, t, ExitSeen(0));
    } else if t.supervision.Delaying? {
      LeadsOn(limits, s, t, DelayEnds(false, false, 0));
      t := Next(limits, t, DelayEnds(false, false, 0));
    } else {
      if t.supervision.AwaitingCandidate? {
        LeadsOn(limits, s, t, CandidateReady(false, 0));
        t := Next(limits, t, CandidateReady(false, 0));
        StopKnows(t);
      }
      if t.supervision.Discarding? {
        LeadsOn(limits, s, t, CandidateGone(0));
        t := Next(limits, t, CandidateGone(0));
      }
    }
  }

  lemma CapturedHasExited(limits: Limits, s: State)
    requires Inv(s) && s.stopping.Some? && s.stopping.value.captured.Some?
    ensures s.stopping.value.captured.value in Next(limits, s, Exits(s.stopping.value.captured.value, 0)).exited
  {
  }

  /** Once the captured child is known to be gone, whatever the loop waits for has happened. */
  lemma StopKnows(s: State)
    requires Inv(s) && s.stopping.Some? && (s.stopping.value.captured.Some? ==> s.stopping.value.gone)
    ensures s.stopping.value.gone && !s.lifecycle.Going() && Live(s) == {}
    ensures s.supervision.AwaitingExit? ==> s.supervision.active in s.exited
    ensures s.supervision.Discarding? ==> s.supervision.failed in s.exited
  {
    assert forall c: Child :: c < s.spawned && c !in s.exited ==> c in Live(s);
  }

  /** A child that exits is followed by another at once when it asked for it, and otherwise as long as the budget lasts. */
  lemma ExitIsAnswered(limits: Limits, s: State, now: int, later: int)
    requires s.lifecycle.Running? && s.supervision.AwaitingExit? && s.supervision.active in s.exited && s.current == Some(s.supervision.active)
    ensures var planned := s.exited[s.supervision.active] == 75;
            var t := Next(limits, s, ExitSeen(now));
            && t.current.None? && t.failures == (if planned then s.failures else Registered(limits, s.failures, now))
            && if planned || |t.failures| <= limits.budget
               then Next(limits, t, DelayEnds(true, true, later))
                    == t.(spawned := s.spawned + 1, current := Some(s.spawned), supervision := AwaitingCandidate(s.spawned))
               else t.supervision.Over?
  {
  }

  /** A candidate that comes up is supervised; one that does not is ended, and then counts as a failure. */
  lemma CandidateIsAnswered(limits: Limits, s: State, now: int, code: int, later: int)
    requires s.lifecycle.Running? && s.supervision.AwaitingCandidate? && s.current == Some(s.supervision.candidate)
    requires s.supervision.candidate < s.spawned && s.supervision.candidate !in s.exited
    ensures Next(limits, s, CandidateReady(true, now)) == s.(supervision := AwaitingExit(s.supervision.candidate))
    ensures var c := s.supervision.candidate;
            var ended := Next(limits, Next(limits, s, CandidateReady(false, now)), Exits(c, code));
            var t := Next(limits, ended, CandidateGone(later));
            && ended.supervision == Discarding(c) && ended.failures == s.failures
            && t.current.None? && t.failures == Registered(limits, s.failures, later)
            && t.supervision == if |t.failures| <= limits.budget then Delaying else Over
  {
  }

  lemma {:induction false} AfterAll(limits: Limits, s: State, events: seq<Event>, rest: seq<Event>)
    ensures After(limits, s, events + rest) == After(limits, After(limits, s, events), rest)
    decreases events
  {
    hide Next;
    if events == [] {
      assert events + rest == rest;
    } else {
      assert (events + rest)[1..] == events[1..] + rest;
      AfterAll(limits, Next(limits, s, events[0]), events[1..], rest);
    }
  }

  lemma AfterTwo(limits: Limits, s: State, e: Event, f: Event)
    ensures After(limits, s, [e, f]) == Next(limits, Next(limits, s, e), f)
  {
    hide Next;
    assert [e, f][1..] == [f] && [f][1..] == [];
    assert After(limits, Next(limits, s, e), [f]) == After(limits, Next(limits, Next(limits, s, e), f), []);
  }

  /** Some run from here, with no further `start` out of turn, leaves a child alive that no lifecycle accounts for. */
  ghost predicate CanForget(limits: Limits, s: State) {
    exists events :: AllAllowed(limits, s, events) && Forgotten(After(limits, s, events))
  }

  ghost predicate Forgotten(s: State) {
    s.lifecycle.Unset() && Live(s) != {}
  }

  /** The forgotten child is still the current one, and nothing has told its lifecycle to end. */
  predicate StillOn(s: State, child: Child) {
    s.lifecycle.Cleared? && s.current == Some(child)
  }

  lemma NoneForgotten(s: State)
    requires Inv(s)
    ensures !Forgotten(s)
  {
  }

  /** While a `stop` is pending, the child of a new `start` is forgotten as soon as that `stop` settles. */
  lemma StopForgetsNewChild(limits: Limits, s: State)
    requires Inv(s) && s.lifecycle == NotStarted && s.stopping.Some?
    ensures var t := Next(limits, s, CallStart(true));
            && AllAllowed(limits, t, [StopSeesExit, StopSettles])
            && Forgotten(After(limits, t, [StopSeesExit, StopSettles]))
            && StillOn(After(limits, t, [StopSeesExit, StopSettles]), s.spawned)
  {
    hide After, Inv;
    var t := Next(limits, s, CallStart(true));
    CapturedIsGone(limits, s);
    AfterTwo(limits, t, StopSeesExit, StopSettles);
    var u := Next(limits, Next(limits, t, StopSeesExit), StopSettles);
    assert s.spawned in Live(u);
    assert [StopSeesExit, StopSettles][1..] == [StopSettles] && [StopSettles][1..] == [];
    assert AllAllowed(limits, Next(limits, t, StopSeesExit), [StopSettles]);
  }

  lemma CapturedIsGone(limits: Limits, s: State)
    requires Inv(s) && s.lifecycle == NotStarted && s.stopping.Some?
    ensures s.stopping.value.captured.Some? ==> s.stopping.value.captured.value in s.exited && s.stopping.value.captured.value < s.spawned
    ensures s.stopping.value.captured.None? ==> s.stopping.value.gone
    ensures s.supervision.Absent? && s.spawned !in s.exited
  {
    if s.stopping.value.captured.Some? {
      assert s.stopping.value.captured.value !in Live(s);
    }
  }

  /**
   While an earlier `start` is pending, whose own child is gone, it unsets the lifecycle of a new one: after it has ended
   whatever launch it took for its own, and by then the new lifecycle can have a child it does not know.
   */
  lemma OlderStartForgetsNewChild(limits: Limits, s: State)
    requires Inv(s) && s.lifecycle == NotStarted && !s.starting.NotStarting?
    ensures CanForget(limits, Next(limits, s, CallStart(true)))
  {
    if s.starting.Unwinding? {
      UnwindingForgets(limits, s);
    } else {
      AwaitingForgets(limits, s);
    }
  }

  lemma UnwindingForgets(limits: Limits, s: State)
    requires Inv(s) && s.lifecycle == NotStarted && s.starting.Unwinding?
    ensures var t := Next(limits, s, CallStart(true));
            && AllAllowed(limits, t, [OlderUnwound]) && Forgotten(After(limits, t, [OlderUnwound]))
            && StillOn(After(limits, t, [OlderUnwound]), s.spawned)
  {
    hide After;
    var t := Next(limits, s, CallStart(true));
    assert s.starting.failed !in Live(s);
    AfterOne(limits, t, OlderUnwound);
    assert s.spawned !in s.exited;
    assert s.spawned in Live(Next(limits, t, OlderUnwound));
    NoMoreStarts(limits, t, [OlderUnwound]);
  }

  /** The new start is supervised, the older one ends that child, and the restart brings up another. */
  lemma AwaitingForgets(limits: Limits, s: State)
    requires Inv(s) && s.lifecycle == NotStarted && s.starting.AwaitingReady?
    ensures CanForget(limits, Next(limits, s, CallStart(true)))
    ensures exists events :: StillOn(After(limits, Next(limits, s, CallStart(true)), events), s.spawned + 1)
  {
    hide After, AllAllowed;
    var n := s.spawned;
    assert n !in s.exited && n + 1 !in s.exited;
    var t := Next(limits, s, CallStart(true));
    var a, b, c := [StartReady(true), OlderReady], [Exits(n, HOST_RESTART_EXIT_CODE), ExitSeen(0)], [DelayEnds(true, true, 0), OlderUnwound];
    AfterAll(limits, t, a + b, c);
    AfterAll(limits, t, a, b);
    AfterTwo(limits, t, StartReady(true), OlderReady);
    var t2 := After(limits, t, a);
    AfterTwo(limits, t2, Exits(n, HOST_RESTART_EXIT_CODE), ExitSeen(0));
    var t4 := After(limits, t2, b);
    AfterTwo(limits, t4, DelayEnds(true, true, 0), OlderUnwound);
    var t6 := After(limits, t4, c);
    assert n + 1 in Live(t6);
    NoMoreStarts(limits, t, a + b + c);
    assert Forgotten(After(limits, t, a + b + c));
    assert StillOn(After(limits, t, a + b + c), n + 1);
  }

  /**
   The assumption on `start` is exact: with nothing started, a `start` that creates a process can end with a child
   forgotten alive if and only if a `stop` or an earlier `start` is pending.
   */
  lemma ForgottenExactlyWhenOneIsPending(limits: Limits, s: State)
    requires Inv(s) && s.lifecycle == NotStarted
    ensures Allowed(s, CallStart(true)) <==> s.starting.NotStarting? && s.stopping.None?
    ensures CanForget(limits, Next(limits, s, CallStart(true))) <==> !Allowed(s, CallStart(true))
  {
    hide Next, Inv, Forgotten, After, CanForget;
    NoOlder(s);
    var t := Next(limits, s, CallStart(true));
    if Allowed(s, CallStart(true)) {
      NextInv(limits, s, CallStart(true));
      NeverForgets(limits, t);
    } else if s.stopping.Some? {
      StopForgetsNewChild(limits, s);
      CanForgetBy(limits, t, [StopSeesExit, StopSettles]);
    } else {
      OlderStartForgetsNewChild(limits, s);
    }
  }

  lemma NoOlder(s: State)
    requires Inv(s)
    ensures s.older.NotStarting? && !s.lifecycle.Cleared?
  {
  }

  lemma CanForgetBy(limits: Limits, s: State, events: seq<Event>)
    requires AllAllowed(limits, s, events) && Forgotten(After(limits, s, events))
    ensures CanForget(limits, s)
  {
  }

  lemma NeverForgets(limits: Limits, s: State)
    requires Inv(s)
    ensures !CanForget(limits, s)
  {
    hide Next, Inv, Forgotten, After;
    forall events | AllAllowed(limits, s, events) ensures !Forgotten(After(limits, s, events)) {
      AtMostOneChild(limits, s, events);
      NoneForgotten(After(limits, s, events));
    }
  }

  /** Both ways to be pending are reached: `stop` during a failing `start` can settle before that `start` or after it. */
  lemma StartCanPendWithNothingStarted(limits: Limits)
    ensures var s := After(limits, INITIAL, [CallStart(true), CallStop] + [Exits(0, 0), StopSeesExit] + [StopSettles]);
            && AllAllowed(limits, INITIAL, [CallStart(true), CallStop] + [Exits(0, 0), StopSeesExit] + [StopSettles])
            && s.lifecycle == NotStarted && s.starting.AwaitingReady? && s.stopping.None?
  {
    var a, b, c := [CallStart(true), CallStop], [Exits(0, 0), StopSeesExit], [StopSettles];
    hide After, AllAllowed;
    AfterAll(limits, INITIAL, a + b, c);
    AfterAll(limits, INITIAL, a, b);
    AfterTwo(limits, INITIAL, CallStart(true), CallStop);
    var s2 := After(limits, INITIAL, a);
    AfterTwo(limits, s2, Exits(0, 0), StopSeesExit);
    AfterOne(limits, After(limits, s2, b), StopSettles);
    OneStart(limits, a + b + c);
  }

  lemma StopCanPendWithNothingStarted(limits: Limits)
    ensures var s := After(limits, INITIAL, [CallStart(true), CallStop] + [Exits(0, 0), StartReady(false)] + [StartUnwound]);
            && AllAllowed(limits, INITIAL, [CallStart(true), CallStop] + [Exits(0, 0), StartReady(false)] + [StartUnwound])
            && s.lifecycle == NotStarted && s.starting.NotStarting? && s.stopping.Some?
  {
    var a, b, c := [CallStart(true), CallStop], [Exits(0, 0), StartReady(false)], [StartUnwound];
    hide After, AllAllowed;
    AfterAll(limits, INITIAL, a + b, c);
    AfterAll(limits, INITIAL, a, b);
    AfterTwo(limits, INITIAL, CallStart(true), CallStop);
    var s2 := After(limits, INITIAL, a);
    AfterTwo(limits, s2, Exits(0, 0), StartReady(false));
    AfterOne(limits, After(limits, s2, b), StartUnwound);
    OneStart(limits, a + b + c);
  }

  lemma AfterOne(limits: Limits, s: State, e: Event)
    ensures After(limits, s, [e]) == Next(limits, s, e)
  {
    hide Next;
    assert [e][1..] == [];
    assert After(limits, Next(limits, s, e), []) == Next(limits, s, e);
  }

  /** A run with no `start` but the first is allowed. */
  lemma OneStart(limits: Limits, events: seq<Event>)
    requires events != [] && events[0] == CallStart(true) && forall i :: 1 <= i < |events| ==> !events[i].CallStart?
    ensures AllAllowed(limits, INITIAL, events)
  {
    hide Next;
    NoMoreStarts(limits, Next(limits, INITIAL, events[0]), events[1..]);
  }

  lemma {:induction false} NoMoreStarts(limits: Limits, s: State, events: seq<Event>)
    requires forall i :: 0 <= i < |events| ==> !events[i].CallStart?
    ensures AllAllowed(limits, s, events)
    decreases events
  {
    hide Next;
    if events != [] { NoMoreStarts(limits, Next(limits, s, events[0]), events[1..]); }
  }

  // ---------- The crash budget ----------

  /** When the segment registers a failure, the time it does so. */
  function RegisteredAt(s: State, e: Event): Option<int> {
    if !s.lifecycle.Going() then None
    else match e
      case ExitSeen(now) =>
        if s.supervision.AwaitingExit? && s.supervision.active in s.exited
           && s.exited[s.supervision.active] != HOST_RESTART_EXIT_CODE then Some(now) else None
      case DelayEnds(elapsed, spawns, now) =>
        if s.supervision.Delaying? && !(elapsed && (spawns || s.current.Some?)) then Some(now) else None
      case CandidateReady(ready, now) =>
        if s.supervision.AwaitingCandidate? && !ready && s.current.None? then Some(now) else None
      case CandidateGone(now) =>
        if s.supervision.Discarding? && s.supervision.failed in s.exited then Some(now) else None
      case _ => None
  }

  lemma RegistrationEffect(limits: Limits, s: State, e: Event)
    ensures var next := Next(limits, s, e);
            match RegisteredAt(s, e)
            case None => next.failures == s.failures
            case Some(now) =>
              && next.failures == Registered(limits, s.failures, now)
              && next.supervision == if |next.failures| > limits.budget then Over else Delaying
  {
  }

  /** Every failure registered so far, and whether it was answered with a restart or with the fatal report. */
  datatype Log = Log(times: seq<int>, restarted: seq<bool>)

  function Logged(limits: Limits, s: State, e: Event, log: Log): Log {
    match RegisteredAt(s, e)
    case None => log
    case Some(now) =>
      Log(log.times + [now], log.restarted + [|Registered(limits, s.failures, now)| <= limits.budget])
  }

  function LogAfter(limits: Limits, s: State, events: seq<Event>, log: Log): Log
    decreases events
  {
    if events == [] then log
    else LogAfter(limits, Next(limits, s, events[0]), events[1..], Logged(limits, s, events[0], log))
  }

  /** The clock does not go back. */
  ghost predicate Monotone(limits: Limits, s: State, events: seq<Event>, clock: int)
    decreases events
  {
    events == []
    || (match RegisteredAt(s, events[0])
        case None => Monotone(limits, Next(limits, s, events[0]), events[1..], clock)
        case Some(now) => clock <= now && Monotone(limits, Next(limits, s, events[0]), events[1..], now))
  }

  function Fatals(restarted: seq<bool>): nat {
    if restarted == [] then 0
    else Fatals(restarted[..|restarted| - 1]) + if restarted[|restarted| - 1] then 0 else 1
  }

  /** The failure list is the end of the log, and what it dropped lies before the window. */
  ghost predicate Keeps(limits: Limits, failures: seq<int>, times: seq<int>, clock: int) {
    && |failures| <= |times| && failures == times[|times| - |failures|..]
    && forall i :: 0 <= i < |times| - |failures| ==> times[i] < clock - limits.window
  }

  ghost predicate InOrder(times: seq<int>, clock: int) {
    forall i, j :: 0 <= i <= j < |times| ==> times[i] <= times[j] <= clock
  }

  /** From any failure to a restart at most one window later, counting both ends, there are at most `budget` failures. */
  ghost predicate WithinBudget(limits: Limits, log: Log)
    requires |log.times| == |log.restarted|
  {
    forall i, j :: 0 <= i <= j < |log.times| && log.restarted[j] && log.times[j] - log.times[i] <= limits.window
      ==> j - i + 1 <= limits.budget
  }

  /** What the failure list keeps of the log, and what that means for every answer given. */
  ghost predicate Tracks(limits: Limits, failures: seq<int>, log: Log, clock: int) {
    && |log.restarted| == |log.times|
    && Keeps(limits, failures, log.times, clock)
    && InOrder(log.times, clock)
    && WithinBudget(limits, log)
    && |failures| <= limits.budget + Fatals(log.restarted)
  }

  lemma {:induction false} ExpiredIsSuffix(failures: seq<int>, earliest: int) returns (dropped: nat)
    ensures dropped <= |failures| && Expired(failures, earliest) == failures[dropped..]
    ensures forall i :: 0 <= i < dropped ==> failures[i] < earliest
    ensures dropped < |failures| ==> failures[dropped] >= earliest
  {
    if failures != [] && failures[0] < earliest {
      var more := ExpiredIsSuffix(failures[1..], earliest);
      dropped := more + 1;
    } else {
      dropped := 0;
    }
  }

  lemma TracksNext(limits: Limits, failures: seq<int>, log: Log, clock: int, now: int)
    requires limits.Valid() && Tracks(limits, failures, log, clock) && clock <= now
    ensures var next := Registered(limits, failures, now);
            Tracks(limits, next, Log(log.times + [now], log.restarted + [|next| <= limits.budget]), now)
  {
    var next := Registered(limits, failures, now);
    var restarted := log.restarted + [|next| <= limits.budget];
    KeepsNext(limits, failures, log.times, clock, now);
    BudgetNext(limits, next, log, now);
    assert restarted[..|restarted| - 1] == log.restarted;
  }

  lemma SuffixPlus(times: seq<int>, gone: nat, dropped: nat, now: int)
    requires gone + dropped <= |times|
    ensures times[gone..][dropped..] + [now] == (times + [now])[gone + dropped..]
  {
  }

  lemma InOrderPlus(times: seq<int>, clock: int, now: int)
    requires InOrder(times, clock) && clock <= now
    ensures InOrder(times + [now], now)
  {
    forall i | 0 <= i < |times| ensures times[i] <= clock {
      assert times[i] <= times[i] <= clock;
    }
  }

  lemma KeepsNext(limits: Limits, failures: seq<int>, times: seq<int>, clock: int, now: int)
    requires Keeps(limits, failures, times, clock) && InOrder(times, clock) && clock <= now
    ensures var next := Registered(limits, failures, now);
            && Keeps(limits, next, times + [now], now) && InOrder(times + [now], now) && |next| <= |failures| + 1
  {
    hide InOrder, Expired;
    InOrderPlus(times, clock, now);
    var dropped := ExpiredIsSuffix(failures, now - limits.window);
    var gone := |times| - |failures|;
    SuffixPlus(times, gone, dropped, now);
    forall i | 0 <= i < gone + dropped ensures (times + [now])[i] < now - limits.window {
      if i >= gone { assert times[i] == failures[i - gone]; }
    }
  }

  lemma BudgetNext(limits: Limits, next: seq<int>, log: Log, now: int)
    requires |log.restarted| == |log.times| && WithinBudget(limits, log)
    requires Keeps(limits, next, log.times + [now], now)
    ensures WithinBudget(limits, Log(log.times + [now], log.restarted + [|next| <= limits.budget]))
  {
    var all := Log(log.times + [now], log.restarted + [|next| <= limits.budget]);
    forall i, j | 0 <= i <= j < |all.times| && all.restarted[j] && all.times[j] - all.times[i] <= limits.window
      ensures j - i + 1 <= limits.budget
    {
      if j == |log.times| {
        assert i >= |all.times| - |next|;
      } else {
        assert all.restarted[j] == log.restarted[j];
      }
    }
  }

  /**
   With a clock that does not go back, any stretch of failures within one window holds at most `budget` restarts, over
   the whole run and across stops and starts; the list of failures outgrows the budget only by fatal reports.
   */
  lemma {:induction false} CrashBudgetHolds(limits: Limits, s: State, events: seq<Event>, log: Log, clock: int) returns (later: int)
    requires limits.Valid() && Tracks(limits, s.failures, log, clock) && Monotone(limits, s, events, clock)
    ensures clock <= later && Tracks(limits, After(limits, s, events).failures, LogAfter(limits, s, events, log), later)
    decreases events
  {
    hide Next, RegisteredAt, Tracks, Registered;
    later := clock;
    if events != [] {
      var e := events[0];
      RegistrationEffect(limits, s, e);
      if RegisteredAt(s, e).Some? {
        later := RegisteredAt(s, e).value;
        TracksNext(limits, s.failures, log, clock, later);
      }
      assert Tracks(limits, Next(limits, s, e).failures, Logged(limits, s, e, log), later);
      later := CrashBudgetHolds(limits, Next(limits, s, e), events[1..], Logged(limits, s, e, log), later);
    }
  }

  /**
   After a failure is registered the list holds exactly the failures of the whole run that lie within the window, so it
   exceeds the budget plus one exactly when more than `budget` earlier ones do.
   */
  lemma ListIsTheWindow(limits: Limits, failures: seq<int>, log: Log, clock: int, now: int)
    requires limits.Valid() && Tracks(limits, failures, log, clock) && clock <= now
    ensures var next := Registered(limits, failures, now);
            && 0 < |next| <= |log.times| + 1
            && forall i :: 0 <= i < |log.times| ==> (log.times[i] >= now - limits.window <==> i > |log.times| - |next|)
  {
    hide WithinBudget, Fatals, Expired;
    var dropped := ExpiredIsSuffix(failures, now - limits.window);
    var gone := |log.times| - |failures|;
    forall i | 0 <= i < |log.times| ensures log.times[i] >= now - limits.window <==> i >= gone + dropped {
      if gone <= i < gone + dropped { assert log.times[i] == failures[i - gone]; }
      if gone + dropped <= i {
        assert log.times[gone + dropped] == failures[dropped];
        assert log.times[gone + dropped] <= log.times[i];
      }
    }
  }

  /** The list within one lifecycle: over the budget only by the failure whose fatal report ended it. */
  ghost predicate WithinOne(limits: Limits, s: State) {
    |s.failures| <= limits.budget || (|s.failures| == limits.budget + 1 && Quiet(s))
  }

  lemma {:induction false} OneLifecycleAddsOneAtMost(limits: Limits, s: State, events: seq<Event>)
    requires Inv(s) && WithinOne(limits, s) && AllAllowed(limits, s, events)
    requires forall e :: e in events ==> !e.CallStart?
    ensures WithinOne(limits, After(limits, s, events)) && |After(limits, s, events).failures| <= limits.budget + 1
    decreases events
  {
    hide Next, Quiet, Inv, Allowed;
    if events != [] {
      var e := events[0];
      assert e in events;
      NextInv(limits, s, e);
      RegistrationEffect(limits, s, e);
      if Quiet(s) {
        QuietStays(limits, s, e);
        QuietRegistersNothing(s, e);
      } else {
        OverIsQuiet(Next(limits, s, e));
        var dropped := ExpiredIsSuffix(s.failures, (if RegisteredAt(s, e).Some? then RegisteredAt(s, e).value else 0) - limits.window);
      }
      OneLifecycleAddsOneAtMost(limits, Next(limits, s, e), events[1..]);
    }
  }

  lemma OverIsQuiet(s: State)
    ensures s.supervision == Over ==> Quiet(s)
  {
  }

  lemma QuietRegistersNothing(s: State, e: Event)
    requires Quiet(s)
    ensures RegisteredAt(s, e).None?
  {
  }

  const TIGHT := Limits([0], 10, 1)

  const ONCE_CRASHED := State(1, map[0 := 1], None, Running, NotStarting, NotStarting, Delaying, None, [0])
  const TWICE_CRASHED := State(2, map[0 := 1, 1 := 1], None, Running, NotStarting, NotStarting, Over, None, [0, 1])

  lemma CrashOnce()
    ensures After(TIGHT, INITIAL, [CallStart(true), StartReady(true)] + [Exits(0, 1), ExitSeen(0)]) == ONCE_CRASHED
  {
    var a, b := [CallStart(true), StartReady(true)], [Exits(0, 1), ExitSeen(0)];
    hide After;
    AfterAll(TIGHT, INITIAL, a, b);
    AfterTwo(TIGHT, INITIAL, CallStart(true), StartReady(true));
    AfterTwo(TIGHT, After(TIGHT, INITIAL, a), Exits(0, 1), ExitSeen(0));
  }

  lemma CrashAgain()
    ensures After(TIGHT, ONCE_CRASHED, [DelayEnds(true, true, 0), CandidateReady(true, 0)] + [Exits(1, 1), ExitSeen(1)]) == TWICE_CRASHED
  {
    var c, d := [DelayEnds(true, true, 0), CandidateReady(true, 0)], [Exits(1, 1), ExitSeen(1)];
    hide After;
    AfterAll(TIGHT, ONCE_CRASHED, c, d);
    AfterTwo(TIGHT, ONCE_CRASHED, DelayEnds(true, true, 0), CandidateReady(true, 0));
    AfterTwo(TIGHT, After(TIGHT, ONCE_CRASHED, c), Exits(1, 1), ExitSeen(1));
  }

  lemma CrashAfterRestart()
    ensures |After(TIGHT, TWICE_CRASHED, [CallStop, StopSettles] + [CallStart(true), StartReady(true)] + [Exits(2, 1), ExitSeen(2)]).failures| == 3
  {
    var a, b, c := [CallStop, StopSettles], [CallStart(true), StartReady(true)], [Exits(2, 1), ExitSeen(2)];
    hide After;
    AfterAll(TIGHT, TWICE_CRASHED, a + b, c);
    AfterAll(TIGHT, TWICE_CRASHED, a, b);
    AfterTwo(TIGHT, TWICE_CRASHED, CallStop, StopSettles);
    var s2 := After(TIGHT, TWICE_CRASHED, a);
    AfterTwo(TIGHT, s2, CallStart(true), StartReady(true));
    AfterTwo(TIGHT, After(TIGHT, s2, b), Exits(2, 1), ExitSeen(2));
  }

  /** Across lifecycles that bound fails: a new start soon after the fatal report can take the list further. */
  lemma FailureListCanOutgrowBudgetPlusOne()
    ensures exists events :: |After(TIGHT, INITIAL, events).failures| == TIGHT.budget + 2
  {
    hide After, Next, INITIAL, ONCE_CRASHED, TWICE_CRASHED;
    CrashOnce();
    CrashAgain();
    CrashAfterRestart();
    var first := [CallStart(true), StartReady(true)] + [Exits(0, 1), ExitSeen(0)];
    var second := [DelayEnds(true, true, 0), CandidateReady(true, 0)] + [Exits(1, 1), ExitSeen(1)];
    var third := [CallStop, StopSettles] + [CallStart(true), StartReady(true)] + [Exits(2, 1), ExitSeen(2)];
    AfterAll(TIGHT, INITIAL, first, second);
    AfterAll(TIGHT, INITIAL, first + second, third);
    assert |After(TIGHT, INITIAL, first + second + third).failures| == 3;
  }

  // ---------- The supervisor ----------

  /** The fields of the source, plus what happened to the children it spawned. Each method is one segment. */
  class Supervisor {
    const limits: Limits
    var failures: seq<int>
    var lifecycle: Lifecycle
    var current: Option<Child>
    var supervision: Supervision
    var starting: Starting
    var older: Starting
    var stopping: Option<Stopping>
    var spawned: nat
    var exited: map<Child, int>

    ghost function Now(): State
      reads this
    {
      State(spawned, exited, current, lifecycle, starting, older, supervision, stopping, failures)
    }

    constructor (limits: Limits)
      requires limits.Valid()
      ensures this.limits == limits && Now() == INITIAL
    {
      this.limits := limits;
      failures, lifecycle, current, supervision := [], NotStarted, None, Absent;
      starting, older, stopping, spawned, exited := NotStarting, NotStarting, None, 0, map[];
    }

    method Launch()
      modifies this`spawned, this`current
      ensures spawned == old(spawned) + 1 && current == Some(old(spawned))
    {
      current := Some(spawned);
      spawned := spawned + 1;
    }

    method ChildExits(child: Child, code: int)
      modifies this`exited
      ensures Now() == Next(limits, old(Now()), Exits(child, code))
    {
      if child < spawned && child !in exited {
        exited := exited[child := code];
      }
    }

    /** `start` up to its first await; `spawns` says whether the process could be created. */
    method Start(spawns: bool) returns (accepted: bool)
      modifies this
      ensures Now() == Next(limits, old(Now()), CallStart(spawns))
      ensures accepted <==> old(lifecycle).Unset() && spawns
      ensures !accepted ==> Now() == old(Now())
      ensures accepted ==>
        && lifecycle == Running && spawned == old(spawned) + 1 && current == Some(old(spawned)) && starting == AwaitingReady(old(spawned))
        && older == if old(starting).NotStarting? then old(older) else old(starting)
    {
      if !lifecycle.Unset() || !spawns {
        return false;
      }
      lifecycle := Running;
      if !starting.NotStarting? { older := starting; }
      Launch();
      starting := AwaitingReady(current.value);
      return true;
    }

    method StartSettles(ready: bool)
      modifies this
      ensures Now() == Next(limits, old(Now()), StartReady(ready))
      // Supervised when ready and not told to end; otherwise whatever is current is ended first.
      ensures old(starting).AwaitingReady? ==>
        if ready && old(lifecycle).Going() then starting.NotStarting? && supervision == AwaitingExit(old(starting).launch) && lifecycle == old(lifecycle)
        else if current.Some? then starting == Unwinding(current.value) && !lifecycle.Going()
        else starting.NotStarting? && lifecycle.NotStarted?
    {
      if !starting.AwaitingReady? { return; }
      if ready && lifecycle.Going() {
        supervision := AwaitingExit(starting.launch);
        starting := NotStarting;
        return;
      }
      if current.Some? {
        lifecycle := lifecycle.Aborting();
        starting := Unwinding(current.value);
      } else {
        lifecycle := NotStarted;
        starting := NotStarting;
      }
    }

    method StartFails()
      modifies this
      ensures Now() == Next(limits, old(Now()), StartUnwound)
    {
      if starting.Unwinding? && starting.failed in exited {
        Drop(starting.failed);
        lifecycle, starting := NotStarted, NotStarting;
      }
    }

    /** The same for a `start` that was pending when this one came: its signal is aborted, the fields are no longer its own. */
    method OlderSettles()
      modifies this`older, this`lifecycle
      ensures Now() == Next(limits, old(Now()), OlderReady)
      ensures old(older).AwaitingReady? ==>
        if current.Some? then older == Unwinding(current.value) && lifecycle == old(lifecycle)
        else older.NotStarting? && lifecycle.Unset()
    {
      if !older.AwaitingReady? { return; }
      if current.Some? {
        older := Unwinding(current.value);
      } else {
        lifecycle, older := lifecycle.Unsetting(), NotStarting;
      }
    }

    method OlderFails()
      modifies this`older, this`lifecycle, this`current
      ensures Now() == Next(limits, old(Now()), OlderUnwound)
      ensures old(older).Unwinding? && old(older).failed in exited ==>
        older.NotStarting? && lifecycle.Unset() && current == if old(current) == Some(old(older).failed) then None else old(current)
    {
      if older.Unwinding? && older.failed in exited {
        Drop(older.failed);
        lifecycle, older := lifecycle.Unsetting(), NotStarting;
      }
    }

    method Drop(child: Child)
      modifies this`current
      ensures current == if old(current) == Some(child) then None else old(current)
    {
      if current == Some(child) { current := None; }
    }

    method Stop()
      modifies this
      ensures Now() == Next(limits, old(Now()), CallStop)
    {
      if stopping.Some? || lifecycle.Unset() { return; }
      lifecycle := Aborted;
      stopping := Some(Stopping(current, current.None?));
    }

    method StopContinues()
      modifies this`stopping
      ensures Now() == Next(limits, old(Now()), StopSeesExit)
    {
      if stopping.Some? && stopping.value.captured.Some? && stopping.value.captured.value in exited {
        stopping := Some(stopping.value.(gone := true));
      }
    }

    method StopEnds() returns (settled: bool)
      modifies this
      ensures Now() == Next(limits, old(Now()), StopSettles)
      ensures settled <==> StopMaySettle(old(Now()))
      ensures settled && Inv(old(Now())) ==> Live(Now()) == {}
    {
      if Inv(Now()) { StoppedMeansNoChild(limits, Now()); }
      settled := stopping.Some? && stopping.value.gone && supervision in {Absent, Over};
      if settled {
        if current == stopping.value.captured { current := None; }
        lifecycle, supervision, stopping := lifecycle.Unsetting(), Absent, None;
      }
    }

    /** The delay before the next restart, or nothing once the budget is spent. */
    method RegisterFailure(now: int) returns (delay: Option<nat>)
      requires limits.Valid()
      modifies this`failures
      ensures failures == Registered(limits, old(failures), now)
      ensures delay.None? <==> |failures| > limits.budget
      ensures delay.Some? ==> delay.value == limits.delays[if |failures| <= |limits.delays| then |failures| - 1 else |limits.delays| - 1]
    {
      var earliest := now - limits.window;
      while failures != [] && failures[0] < earliest
        invariant Expired(failures, earliest) == Expired(old(failures), earliest)
        decreases failures
      {
        failures := failures[1..];
      }
      failures := failures + [now];
      var attempt := |failures|;
      if attempt > limits.budget {
        return None;
      }
      var index := if attempt - 1 < |limits.delays| - 1 then attempt - 1 else |limits.delays| - 1;
      return Some(limits.delays[index]);
    }

    method TryAgain(planned: bool, now: int)
      requires limits.Valid()
      modifies this`failures, this`supervision
      ensures Now() == NextAttempt(limits, old(Now()), planned, now)
    {
      if !lifecycle.Going() {
        supervision := Over;
      } else if planned {
        supervision := Delaying;
      } else {
        var delay := RegisterFailure(now);
        supervision := if delay.None? then Over else Delaying;
      }
    }

    method SeeExit(now: int)
      requires limits.Valid()
      modifies this
      ensures Now() == Next(limits, old(Now()), ExitSeen(now))
    {
      if !supervision.AwaitingExit? || supervision.active !in exited { return; }
      var planned := exited[supervision.active] == HOST_RESTART_EXIT_CODE;
      Drop(supervision.active);
      TryAgain(planned, now);
    }

    method EndDelay(elapsed: bool, spawns: bool, now: int)
      requires limits.Valid()
      modifies this
      ensures Now() == Next(limits, old(Now()), DelayEnds(elapsed, spawns, now))
      // A process that could not be created: whatever is current is ended before that counts as a failure.
      ensures old(supervision).Delaying? && lifecycle.Going() && elapsed && !spawns && current.Some? ==> supervision == Discarding(current.value)
    {
      if !supervision.Delaying? { return; }
      if !lifecycle.Going() {
        supervision := Over;
      } else if !elapsed {
        TryAgain(false, now);
      } else if spawns {
        Launch();
        supervision := AwaitingCandidate(current.value);
      } else {
        Discard(now);
      }
    }

    /** A restart that did not come up: end whatever is current, then count the failure. */
    method Discard(now: int)
      requires limits.Valid()
      modifies this`failures, this`supervision
      ensures Now() == if old(current).Some? then old(Now()).(supervision := Discarding(old(current).value))
                       else NextAttempt(limits, old(Now()), false, now)
    {
      if current.Some? {
        supervision := Discarding(current.value);
      } else {
        TryAgain(false, now);
      }
    }

    method CandidateSettles(ready: bool, now: int)
      requires limits.Valid()
      modifies this
      ensures Now() == Next(limits, old(Now()), CandidateReady(ready, now))
    {
      if !supervision.AwaitingCandidate? { return; }
      if ready && lifecycle.Going() {
        supervision := AwaitingExit(supervision.candidate);
      } else {
        Discard(now);
      }
    }

    method CandidateExits(now: int)
      requires limits.Valid()
      modifies this
      ensures Now() == Next(limits, old(Now()), CandidateGone(now))
    {
      if supervision.Discarding? && supervision.failed in exited {
        Drop(supervision.failed);
        TryAgain(false, now);
      }
    }
  }
}
