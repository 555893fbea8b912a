/**
 The projection that decides when a long turn gets a reminder (apps/server/src/channel-reply-guard.ts:110-195), kept
 event by event and read here as a statement about the whole log.
 */
module ReminderProjection {
  import opened Wrappers
  import opened SessionLog

  const CHANNEL_PROCESSING_REMINDER_THRESHOLD_MS := 60000

  datatype Call = Call(name: string, toCurrent: bool)

  datatype LastAssistant = LastAssistant(step: int, stopped: bool)

  datatype State = State(
    seqNo: int,
    turn: Option<int>,
    startedAt: int,
    hasAdmission: bool,
    sent: bool,
    reminded: bool,
    returnedAt: Option<int>,
    lastAssistant: Option<LastAssistant>,
    calls: map<string, Call>)

  const EMPTY := State(-1, None, 0, false, false, false, None, None, map[])

  /** A delivered message of the send tool to the current channel. */
  predicate IsSend(name: string, toCurrent: bool, delivery: Option<Delivery>) {
    name == SEND_CHANNEL_MESSAGE_TOOL && toCurrent && Delivered(delivery)
  }

  /** What a new event does, whatever its number. */
  function Step(s: State, e: Event): State {
    match e.payload
    case TurnStart(turn) => State(e.seqNo, Some(turn), e.time, false, false, false, None, None, map[])
    case p =>
      var t := s.(seqNo := e.seqNo);
      if s.turn.None? then t
      else
        match p
        case TurnEnd(turn, _) => if Some(turn) == s.turn then t.(turn := None, calls := map[]) else t
        case UserMessage(m) =>
          t.(hasAdmission := s.hasAdmission || AdmissionOf(m).Some?,
             reminded := s.reminded || (m.ProcessingReminder? && Some(m.turn) == s.turn))
        case AssistantMessage(turn, step, callsTool) =>
          if Some(turn) == s.turn then t.(returnedAt := None, lastAssistant := Some(LastAssistant(step, !callsTool))) else t
        case ToolCall(turn, callId, name, toCurrent) =>
          if Some(turn) == s.turn then t.(calls := s.calls[callId := Call(name, toCurrent)]) else t
        case NestedResult(root, name, toCurrent, isError, hasError, delivery) =>
          if root in s.calls && !isError && !hasError then t.(sent := s.sent || IsSend(name, toCurrent, delivery)) else t
        case ToolResult(turn, callId, _, _, delivery) =>
          if Some(turn) != s.turn || callId !in s.calls then t
          else
            var call := s.calls[callId];
            t.(calls := s.calls - {callId}, returnedAt := Some(e.time),
               sent := s.sent || (Succeeded(p) && IsSend(call.name, call.toCurrent, delivery)))
        case _ => t
  }

  function Appended(s: State, e: Event): State {
    if e.seqNo <= s.seqNo then s else Step(s, e)
  }

  function Fold(s: State, events: seq<Event>): State {
    if events == [] then s else Appended(Fold(s, events[..|events| - 1]), events[|events| - 1])
  }

  predicate Reminds(s: State, turn: int) {
    && s.turn == Some(turn) && s.hasAdmission && !s.sent && !s.reminded && s.calls == map[]
    && s.returnedAt.Some? && s.returnedAt.value - s.startedAt >= CHANNEL_PROCESSING_REMINDER_THRESHOLD_MS
  }

  predicate AttemptedToStop(s: State, turn: int, step: int) {
    s.turn == Some(turn) && s.lastAssistant == Some(LastAssistant(step, true))
  }

  // ---------- Replays and duplicates ----------

  lemma StepSetsNumber(s: State, e: Event)
    ensures Step(s, e).seqNo == e.seqNo
  {
  }

  lemma {:induction false} FoldSplits(s: State, a: seq<Event>, b: seq<Event>)
    ensures Fold(s, a + b) == Fold(Fold(s, a), b)
  {
    hide Appended;
    if b == [] {
      assert a + b == a;
    } else {
      assert (a + b)[..|a + b| - 1] == a + b[..|b| - 1];
      FoldSplits(s, a, b[..|b| - 1]);
    }
  }

  lemma {:induction false} StaleEventsChangeNothing(s: State, events: seq<Event>)
    requires forall e :: e in events ==> e.seqNo <= s.seqNo
    ensures Fold(s, events) == s
  {
    if events != [] {
      StaleEventsChangeNothing(s, events[..|events| - 1]);
      assert events[|events| - 1] in events;
    }
  }

  /** The events of a feed that were new when they came. */
  function NewOnes(events: seq<Event>, after: int): seq<Event>
    decreases events
  {
    if events == [] then []
    else if events[0].seqNo <= after then NewOnes(events[1..], after)
    else [events[0]] + NewOnes(events[1..], events[0].seqNo)
  }

  /** Any feed, with any repetitions and late deliveries, comes to the same as its new events alone. */
  lemma {:induction false} OnlyNewEventsCount(s: State, events: seq<Event>)
    ensures Fold(s, events) == Fold(s, NewOnes(events, s.seqNo))
    ensures Increasing(NewOnes(events, s.seqNo)) && forall e :: e in NewOnes(events, s.seqNo) ==> e.seqNo > s.seqNo
    decreases events
  {
    hide Step;
    if events != [] {
      var first, rest := events[0], events[1..];
      var next := Appended(s, first);
      assert events == [first] + rest;
      FoldSplits(s, [first], rest);
      FoldOfOne(s, first);
      if first.seqNo > s.seqNo {
        StepSetsNumber(s, first);
        OnlyNewEventsCount(next, rest);
        FoldSplits(s, [first], NewOnes(rest, first.seqNo));
      } else {
        OnlyNewEventsCount(s, rest);
      }
    }
  }

  lemma FoldOfOne(s: State, e: Event)
    ensures Fold(s, [e]) == Appended(s, e)
  {
    assert [e][..0] == [];
  }

  lemma {:induction false} FoldReaches(s: State, events: seq<Event>)
    requires Increasing(events) && (events != [] ==> events[0].seqNo > s.seqNo)
    ensures Fold(s, events).seqNo == if events == [] then s.seqNo else events[|events| - 1].seqNo
  {
    hide Step;
    if events != [] {
      FoldReaches(s, events[..|events| - 1]);
      StepSetsNumber(Fold(s, events[..|events| - 1]), events[|events| - 1]);
    }
  }

  lemma ReplayedAreStale(log: seq<Event>, replayed: nat, from: nat)
    requires Increasing(log) && (forall e :: e in log ==> e.seqNo > EMPTY.seqNo) && from <= replayed <= |log|
    ensures forall e :: e in log[from..replayed] ==> e.seqNo <= Fold(EMPTY, log[..replayed]).seqNo
  {
    hide Fold, EMPTY;
    if 0 < replayed {
      assert log[..replayed][0] == log[0] && log[..replayed][replayed - 1] == log[replayed - 1];
      FoldReaches(EMPTY, log[..replayed]);
    }
  }

  /**
   A projection made by replaying the log so far, and then told of events from any earlier point on, is where one pass
   over the log would be.
   */
  lemma ReplayThenLive(log: seq<Event>, replayed: nat, from: nat)
    requires Increasing(log) && (forall e :: e in log ==> e.seqNo > EMPTY.seqNo) && from <= replayed <= |log|
    ensures Fold(EMPTY, log[..replayed] + log[from..]) == Fold(EMPTY, log)
  {
    hide Fold, EMPTY, Increasing;
    var s := Fold(EMPTY, log[..replayed]);
    assert log[from..] == log[from..replayed] + log[replayed..];
    ReplayedAreStale(log, replayed, from);
    StaleEventsChangeNothing(s, log[from..replayed]);
    FoldSplits(s, log[from..replayed], log[replayed..]);
    FoldSplits(EMPTY, log[..replayed], log[from..]);
    FoldSplits(EMPTY, log[..replayed], log[replayed..]);
    assert log == log[..replayed] + log[replayed..];
  }

  // ---------- The log read as a whole ----------

  /** The event at `s` opened the turn that is still open after the first `n` events. */
  ghost predicate Opens(log: seq<Event>, n: nat, s: nat)
    requires n <= |log|
  {
    && s < n && log[s].payload.TurnStart?
    && (forall i :: s < i < n ==> !log[i].payload.TurnStart?)
    && (forall i :: s < i < n ==> !(log[i].payload.TurnEnd? && log[i].payload.turn == log[s].payload.turn))
  }

  /** Nothing is open after the first `n` events. */
  ghost predicate NoneOpen(log: seq<Event>, n: nat)
    requires n <= |log|
  {
    forall s :: 0 <= s < n ==> !Opens(log, n, s)
  }

  ghost predicate IsCall(p: Payload, turn: int, callId: string) {
    p.ToolCall? && p.turn == turn && p.callId == callId
  }

  ghost predicate IsResult(p: Payload, turn: int, callId: string) {
    p.ToolResult? && p.turn == turn && p.callId == callId
  }

  /** The call made at `j` is the latest of its id, and has no result yet when event `n` comes. */
  ghost predicate InFlight(log: seq<Event>, s: nat, n: nat, callId: string, j: nat)
    requires s < |log| && log[s].payload.TurnStart? && n <= |log|
  {
    var turn := log[s].payload.turn;
    && s < j < n && IsCall(log[j].payload, turn, callId)
    && forall k :: j < k < n ==> !IsCall(log[k].payload, turn, callId) && !IsResult(log[k].payload, turn, callId)
  }

  ghost predicate Matched(log: seq<Event>, s: nat, i: nat)
    requires s < |log| && log[s].payload.TurnStart? && i < |log|
  {
    var p := log[i].payload;
    && p.ToolResult? && p.turn == log[s].payload.turn
    && exists j: nat :: InFlight(log, s, i, p.callId, j)
  }

  /** The tool sends messages, this one went to the current channel, and it got there at least in part. */
  predicate ReachesChannel(name: string, toCurrent: bool, delivery: Option<Delivery>) {
    toCurrent && Reached(delivery) && name == "send_channel_message"
  }

  lemma SendsReach()
    ensures forall name, toCurrent, delivery :: IsSend(name, toCurrent, delivery) <==> ReachesChannel(name, toCurrent, delivery)
  {
  }

  /** A message is confirmed to have reached the current channel by event `i`, directly or from a running program. */
  ghost predicate Confirms(log: seq<Event>, s: nat, i: nat)
    requires s < |log| && log[s].payload.TurnStart? && i < |log|
  {
    match log[i].payload
    case NestedResult(root, name, toCurrent, isError, hasError, delivery) =>
      (exists j: nat :: InFlight(log, s, i, root, j)) && !isError && !hasError && ReachesChannel(name, toCurrent, delivery)
    case ToolResult(turn, callId, _, _, delivery) =>
      turn == log[s].payload.turn && WentWell(log[i].payload)
      && exists j: nat :: InFlight(log, s, i, callId, j) && ReachesChannel(log[j].payload.name, log[j].payload.toCurrent, delivery)
    case _ => false
  }

  ghost predicate Boundary(log: seq<Event>, s: nat, i: nat)
    requires s < |log| && log[s].payload.TurnStart? && i < |log|
  {
    (log[i].payload.AssistantMessage? && log[i].payload.turn == log[s].payload.turn) || Matched(log, s, i)
  }

  ghost predicate LastBoundary(log: seq<Event>, s: nat, n: nat, b: nat)
    requires s < |log| && log[s].payload.TurnStart? && n <= |log|
  {
    s < b < n && Boundary(log, s, b) && forall i :: b < i < n ==> !Boundary(log, s, i)
  }

  ghost predicate Admits(e: Event) {
    e.payload.UserMessage? && FromChannel(e.payload.message)
  }

  ghost predicate Reminded(e: Event, turn: int) {
    e.payload.UserMessage? && e.payload.message == ProcessingReminder(turn)
  }

  ghost predicate LastSpoke(log: seq<Event>, s: nat, n: nat, b: nat)
    requires s < |log| && log[s].payload.TurnStart? && n <= |log|
  {
    var turn := log[s].payload.turn;
    && s < b < n && log[b].payload.AssistantMessage? && log[b].payload.turn == turn
    && forall i :: b < i < n ==> !(log[i].payload.AssistantMessage? && log[i].payload.turn == turn)
  }

  // Each field against the log, while the turn opened at `s` is open.

  ghost predicate CallsAgree(log: seq<Event>, s: nat, n: nat, calls: map<string, Call>)
    requires s < |log| && log[s].payload.TurnStart? && n <= |log|
  {
    && (forall c :: c in calls ==> exists j: nat :: InFlight(log, s, n, c, j))
    && (forall c, j: nat :: InFlight(log, s, n, c, j) ==>
          c in calls && calls[c] == Call(log[j].payload.name, log[j].payload.toCurrent))
  }

  ghost predicate SentAgrees(log: seq<Event>, s: nat, n: nat, sent: bool)
    requires s < |log| && log[s].payload.TurnStart? && n <= |log|
  {
    sent <==> exists i :: s < i < n && Confirms(log, s, i)
  }

  ghost predicate MarksAgree(log: seq<Event>, s: nat, n: nat, hasAdmission: bool, reminded: bool)
    requires s < |log| && log[s].payload.TurnStart? && n <= |log|
  {
    && (hasAdmission <==> exists i :: s < i < n && Admits(log[i]))
    && (reminded <==> exists i :: s < i < n && Reminded(log[i], log[s].payload.turn))
  }

  ghost predicate ReturnAgrees(log: seq<Event>, s: nat, n: nat, returnedAt: Option<int>)
    requires s < |log| && log[s].payload.TurnStart? && n <= |log|
  {
    && (returnedAt.Some? ==> exists b: nat :: LastBoundary(log, s, n, b) && log[b].payload.ToolResult? && log[b].time == returnedAt.value)
    && (forall b: nat :: LastBoundary(log, s, n, b) && log[b].payload.ToolResult? ==> returnedAt == Some(log[b].time))
  }

  ghost predicate SpokeAgrees(log: seq<Event>, s: nat, n: nat, last: Option<LastAssistant>)
    requires s < |log| && log[s].payload.TurnStart? && n <= |log|
  {
    && (last.Some? ==> exists b: nat :: LastSpoke(log, s, n, b))
    && (forall b: nat :: LastSpoke(log, s, n, b) ==> last == Some(LastAssistant(log[b].payload.step, !log[b].payload.callsTool)))
  }

  ghost predicate Agrees(log: seq<Event>, s: nat, n: nat, t: State)
    requires s < |log| && log[s].payload.TurnStart? && n <= |log|
  {
    && t.turn == Some(log[s].payload.turn) && t.startedAt == log[s].time
    && CallsAgree(log, s, n, t.calls) && SentAgrees(log, s, n, t.sent)
    && MarksAgree(log, s, n, t.hasAdmission, t.reminded)
    && ReturnAgrees(log, s, n, t.returnedAt) && SpokeAgrees(log, s, n, t.lastAssistant)
  }

  lemma OldCallStays(log: seq<Event>, s: nat, n: nat, c: string, j: nat)
    requires s < n < |log| && log[s].payload.TurnStart? && InFlight(log, s, n, c, j)
    requires !IsCall(log[n].payload, log[s].payload.turn, c) && !IsResult(log[n].payload, log[s].payload.turn, c)
    ensures InFlight(log, s, n + 1, c, j)
  {
  }

  lemma NewCallStands(log: seq<Event>, s: nat, n: nat, c: string)
    requires s < n < |log| && log[s].payload.TurnStart? && IsCall(log[n].payload, log[s].payload.turn, c)
    ensures InFlight(log, s, n + 1, c, n)
  {
  }

  lemma CallWas(log: seq<Event>, s: nat, n: nat, c: string, j: nat)
    requires s < n < |log| && log[s].payload.TurnStart? && InFlight(log, s, n + 1, c, j)
    ensures j == n ==> IsCall(log[n].payload, log[s].payload.turn, c)
    ensures j < n ==>
      InFlight(log, s, n, c, j)
      && !IsCall(log[n].payload, log[s].payload.turn, c) && !IsResult(log[n].payload, log[s].payload.turn, c)
    ensures j <= n && log[j].payload.ToolCall?
  {
  }

  lemma CallsStep(log: seq<Event>, s: nat, n: nat, t: State)
    requires s < n < |log| && log[s].payload.TurnStart? && t.turn == Some(log[s].payload.turn)
    requires !log[n].payload.TurnStart? && !(log[n].payload.TurnEnd? && log[n].payload.turn == log[s].payload.turn)
    requires CallsAgree(log, s, n, t.calls)
    ensures CallsAgree(log, s, n + 1, Step(t, log[n]).calls)
  {
    hide AdmissionOf, IsSend, Succeeded, InFlight;
    var turn, calls, after := log[s].payload.turn, Step(t, log[n]).calls, n + 1;
    forall c | c in calls ensures exists j: nat :: InFlight(log, s, after, c, j) {
      if IsCall(log[n].payload, turn, c) {
        NewCallStands(log, s, n, c);
      } else {
        var j: nat :| InFlight(log, s, n, c, j);
        OldCallStays(log, s, n, c, j);
      }
    }
    forall c, j: nat | InFlight(log, s, after, c, j)
      ensures j < after && log[j].payload.ToolCall? && c in calls && calls[c] == Call(log[j].payload.name, log[j].payload.toCurrent)
    {
      CallWas(log, s, n, c, j);
    }
  }

  lemma SentStep(log: seq<Event>, s: nat, n: nat, t: State)
    requires s < n < |log| && log[s].payload.TurnStart? && t.turn == Some(log[s].payload.turn)
    requires !log[n].payload.TurnStart?
    requires CallsAgree(log, s, n, t.calls) && SentAgrees(log, s, n, t.sent)
    ensures SentAgrees(log, s, n + 1, Step(t, log[n]).sent)
    ensures Matched(log, s, n) <==> log[n].payload.ToolResult? && Some(log[n].payload.turn) == t.turn && log[n].payload.callId in t.calls
  {
    hide AdmissionOf, IsSend, Succeeded, InFlight, ReachesChannel, WentWell, FromChannel;
    Words();
    SendsReach();
    assert Step(t, log[n]).sent <==> t.sent || Confirms(log, s, n);
  }

  lemma MarksStep(log: seq<Event>, s: nat, n: nat, t: State)
    requires s < n < |log| && log[s].payload.TurnStart? && t.turn == Some(log[s].payload.turn)
    requires !log[n].payload.TurnStart?
    requires MarksAgree(log, s, n, t.hasAdmission, t.reminded)
    ensures MarksAgree(log, s, n + 1, Step(t, log[n]).hasAdmission, Step(t, log[n]).reminded)
  {
    hide AdmissionOf, IsSend, Succeeded, FromChannel;
    Words();
    assert Step(t, log[n]).hasAdmission <==> t.hasAdmission || Admits(log[n]);
    assert Step(t, log[n]).reminded <==> t.reminded || Reminded(log[n], log[s].payload.turn);
  }

  lemma ReturnStep(log: seq<Event>, s: nat, n: nat, t: State)
    requires s < n < |log| && log[s].payload.TurnStart? && t.turn == Some(log[s].payload.turn)
    requires !log[n].payload.TurnStart?
    requires Matched(log, s, n) <==> log[n].payload.ToolResult? && Some(log[n].payload.turn) == t.turn && log[n].payload.callId in t.calls
    requires ReturnAgrees(log, s, n, t.returnedAt)
    ensures ReturnAgrees(log, s, n + 1, Step(t, log[n]).returnedAt)
  {
    hide AdmissionOf, IsSend, Succeeded, Matched;
    if Boundary(log, s, n) {
      assert LastBoundary(log, s, n + 1, n);
    } else {
      assert Step(t, log[n]).returnedAt == t.returnedAt;
      forall b: nat | b < n ensures LastBoundary(log, s, n, b) <==> LastBoundary(log, s, n + 1, b) {}
    }
  }

  lemma SpokeStep(log: seq<Event>, s: nat, n: nat, t: State)
    requires s < n < |log| && log[s].payload.TurnStart? && t.turn == Some(log[s].payload.turn)
    requires !log[n].payload.TurnStart?
    requires SpokeAgrees(log, s, n, t.lastAssistant)
    ensures SpokeAgrees(log, s, n + 1, Step(t, log[n]).lastAssistant)
  {
    hide AdmissionOf, IsSend, Succeeded;
    if log[n].payload.AssistantMessage? && log[n].payload.turn == log[s].payload.turn {
      assert LastSpoke(log, s, n + 1, n);
    } else {
      forall b: nat | b < n ensures LastSpoke(log, s, n, b) <==> LastSpoke(log, s, n + 1, b) {}
    }
  }

  lemma JustOpenedAgrees(log: seq<Event>, s: nat, t: State)
    requires s < |log| && log[s].payload.TurnStart?
    ensures Agrees(log, s, s + 1, Step(t, log[s]))
  {
  }

  lemma StepAgrees(log: seq<Event>, s: nat, n: nat, t: State)
    requires n < |log| && Opens(log, n + 1, s) && s < n && Agrees(log, s, n, t)
    ensures Agrees(log, s, n + 1, Step(t, log[n]))
  {
    hide CallsAgree, SentAgrees, MarksAgree, ReturnAgrees, SpokeAgrees, AdmissionOf, IsSend, Matched;
    CallsStep(log, s, n, t);
    SentStep(log, s, n, t);
    MarksStep(log, s, n, t);
    ReturnStep(log, s, n, t);
    SpokeStep(log, s, n, t);
  }

  /** After every prefix of the log the state says which turn is open, and its fields agree with that turn's events. */
  lemma {:induction false} StateReadsTheLog(log: seq<Event>, n: nat)
    requires Increasing(log) && (forall e :: e in log ==> e.seqNo > EMPTY.seqNo) && n <= |log|
    ensures var t := Fold(EMPTY, log[..n]);
            && (t.turn.None? <==> NoneOpen(log, n))
            && forall s: nat :: Opens(log, n, s) ==> s < |log| && log[s].payload.TurnStart? && Agrees(log, s, n, t)
  {
    hide Agrees, Step, Opens;
    if n > 0 {
      StateReadsTheLog(log, n - 1);
      var t := Fold(EMPTY, log[..n - 1]);
      assert log[..n][..n - 1] == log[..n - 1];
      NewEventSteps(log, n - 1);
      assert Fold(EMPTY, log[..n]) == Step(t, log[n - 1]);
      forall s: nat | Opens(log, n, s) ensures s < |log| && log[s].payload.TurnStart? && Agrees(log, s, n, Step(t, log[n - 1])) {
        OpensStarts(log, n, s);
        if s == n - 1 {
          JustOpenedAgrees(log, s, t);
        } else {
          OpensBefore(log, n - 1, s);
          StepAgrees(log, s, n - 1, t);
        }
      }
      TurnStep(log, n - 1, t);
    } else {
      NothingOpensBefore(log);
    }
  }

  lemma NothingOpensBefore(log: seq<Event>)
    ensures forall s: nat :: !Opens(log, 0, s)
  {
  }

  lemma NewEventSteps(log: seq<Event>, n: nat)
    requires Increasing(log) && (forall e :: e in log ==> e.seqNo > EMPTY.seqNo) && n < |log|
    ensures Appended(Fold(EMPTY, log[..n]), log[n]) == Step(Fold(EMPTY, log[..n]), log[n])
  {
    hide Step;
    FoldReaches(EMPTY, log[..n]);
    assert log[n] in log;
  }

  lemma OpensStarts(log: seq<Event>, n: nat, s: nat)
    requires n <= |log| && Opens(log, n, s)
    ensures s < n && log[s].payload.TurnStart?
  {
  }

  lemma OpensBefore(log: seq<Event>, n: nat, s: nat)
    requires n < |log| && Opens(log, n + 1, s) && s < n
    ensures Opens(log, n, s)
  {
  }

  lemma TurnStep(log: seq<Event>, n: nat, t: State)
    requires n < |log|
    requires t.turn.None? <==> NoneOpen(log, n)
    requires forall s: nat :: Opens(log, n, s) ==> Agrees(log, s, n, t)
    ensures Step(t, log[n]).turn.None? <==> NoneOpen(log, n + 1)
  {
    hide CallsAgree, SentAgrees, MarksAgree, ReturnAgrees, SpokeAgrees, AdmissionOf, IsSend;
    var after := n + 1;
    if log[n].payload.TurnStart? {
      assert Opens(log, after, n);
    } else if t.turn.Some? {
      var s: nat :| s < n && Opens(log, n, s);
      var ends := log[n].payload.TurnEnd? && log[n].payload.turn == log[s].payload.turn;
      assert Opens(log, n + 1, s) <==> !ends;
      forall r | 0 <= r < after && Opens(log, after, r) ensures r == s {
        assert log[r].payload.TurnStart? && log[s].payload.TurnStart?;
      }
    } else {
      forall r | 0 <= r < after ensures !Opens(log, after, r) {
        if r < n { assert !Opens(log, n, r); }
      }
    }
  }

  /**
   A turn opened at `s` is due a reminder: it is the open one, an admission came in since it started, no message has been
   confirmed to reach the channel and no reminder given, no call is in flight, and the last boundary is a matched tool
   result at least 60 seconds after the start.
   */
  ghost predicate DueSince(log: seq<Event>, s: nat, turn: int) {
    && Opens(log, |log|, s) && log[s].payload.turn == turn
    && (exists i :: s < i < |log| && Admits(log[i]))
    && (forall i :: s < i < |log| ==> !Confirms(log, s, i))
    && (forall i :: s < i < |log| ==> !Reminded(log[i], turn))
    && (forall c, j: nat :: !InFlight(log, s, |log|, c, j))
    && (exists b: nat :: LastBoundary(log, s, |log|, b) && log[b].payload.ToolResult?
                    && log[b].time - log[s].time >= 60000)
  }

  lemma AgreeingStateReminds(log: seq<Event>, s: nat, t: State, turn: int)
    requires Opens(log, |log|, s) && Agrees(log, s, |log|, t)
    ensures Reminds(t, turn) <==> DueSince(log, s, turn)
  {
    hide InFlight, Confirms, LastBoundary, SpokeAgrees;
    if t.calls == map[] {
      assert forall c, j: nat :: !InFlight(log, s, |log|, c, j);
    } else {
      var c :| c in t.calls;
      assert exists j: nat :: InFlight(log, s, |log|, c, j);
    }
  }

  /** The projection reminds in exactly the turns that the log says are due. */
  lemma RemindsExactlyWhenDue(log: seq<Event>, turn: int)
    requires Increasing(log) && forall e :: e in log ==> e.seqNo > EMPTY.seqNo
    ensures Reminds(Fold(EMPTY, log), turn) <==> exists s: nat :: DueSince(log, s, turn)
  {
    hide Fold, Agrees;
    StateReadsTheLog(log, |log|);
    assert log[..|log|] == log;
    var t := Fold(EMPTY, log);
    forall s: nat | Opens(log, |log|, s) ensures Reminds(t, turn) <==> DueSince(log, s, turn) {
      AgreeingStateReminds(log, s, t, turn);
    }
    if Reminds(t, turn) {
      var s: nat :| s < |log| && Opens(log, |log|, s);
      assert DueSince(log, s, turn);
    }
  }

  /** The step before a reply reminder: the last thing the model said in the open turn called no tool. */
  lemma AttemptedToStopReadsTheLog(log: seq<Event>, turn: int, step: int)
    requires Increasing(log) && forall e :: e in log ==> e.seqNo > EMPTY.seqNo
    ensures AttemptedToStop(Fold(EMPTY, log), turn, step) <==>
            exists s: nat, b: nat :: Opens(log, |log|, s) && log[s].payload.turn == turn && LastSpoke(log, s, |log|, b)
                           && log[b].payload.step == step && !log[b].payload.callsTool
  {
    hide Fold, CallsAgree, SentAgrees, MarksAgree, ReturnAgrees, Opens, LastSpoke;
    StateReadsTheLog(log, |log|);
    assert log[..|log|] == log;
    var t := Fold(EMPTY, log);
    if AttemptedToStop(t, turn, step) {
      var s: nat :| s < |log| && Opens(log, |log|, s);
      OpensStarts(log, |log|, s);
      var b: nat :| LastSpoke(log, s, |log|, b);
    }
  }

  // ---------- The projection ----------

  class ChannelProcessingReminderProjection {
    var seqNo: int
    var turn: Option<int>
    var startedAt: int
    var hasAdmission: bool
    var sent: bool
    var reminded: bool
    var returnedAt: Option<int>
    var lastAssistant: Option<LastAssistant>
    var calls: map<string, Call>

    ghost function Now(): State
      reads this
    {
      State(seqNo, turn, startedAt, hasAdmission, sent, reminded, returnedAt, lastAssistant, calls)
    }

    constructor ()
      ensures Now() == EMPTY
    {
      seqNo, turn, startedAt, hasAdmission, sent, reminded := -1, None, 0, false, false, false;
      returnedAt, lastAssistant, calls := None, None, map[];
    }

    method Append(e: Event)
      modifies this
      ensures Now() == Appended(old(Now()), e)
    {
      if e.seqNo <= seqNo { return; }
      seqNo := e.seqNo;
      if e.payload.TurnStart? {
        turn, startedAt := Some(e.payload.turn), e.time;
        hasAdmission, sent, reminded := false, false, false;
        returnedAt, lastAssistant, calls := None, None, map[];
        return;
      }
      if turn.None? { return; }
      match e.payload {
        case TurnEnd(ended, _) =>
          if turn == Some(ended) { turn, calls := None, map[]; }
        case UserMessage(m) =>
          if AdmissionOf(m).Some? { hasAdmission := true; }
          if m.ProcessingReminder? && turn == Some(m.turn) { reminded := true; }
        case AssistantMessage(at, step, callsTool) =>
          if turn == Some(at) { returnedAt, lastAssistant := None, Some(LastAssistant(step, !callsTool)); }
        case ToolCall(at, callId, name, toCurrent) =>
          if turn == Some(at) { calls := calls[callId := Call(name, toCurrent)]; }
        case NestedResult(root, name, toCurrent, isError, hasError, delivery) =>
          if root in calls && !isError && !hasError { RecordSend(name, toCurrent, delivery); }
        case ToolResult(at, callId, _, _, delivery) =>
          if turn == Some(at) && callId in calls {
            var call := calls[callId];
            calls := calls - {callId};
            returnedAt := Some(e.time);
            if Succeeded(e.payload) { RecordSend(call.name, call.toCurrent, delivery); }
          }
        case _ =>
      }
    }

    method RecordSend(name: string, toCurrent: bool, delivery: Option<Delivery>)
      modifies this`sent
      ensures sent == (old(sent) || IsSend(name, toCurrent, delivery))
      ensures sent <==> old(sent) || ReachesChannel(name, toCurrent, delivery)
    {
      if name == SEND_CHANNEL_MESSAGE_TOOL && toCurrent && (delivery == Some(Sent) || delivery == Some(PartiallySent)) {
        sent := true;
      }
    }

    method PreviousStepAttemptedToStop(at: int, step: int) returns (r: bool)
      ensures r == AttemptedToStop(Now(), at, step)
    {
      r := turn == Some(at) && lastAssistant.Some? && lastAssistant.value.step == step && lastAssistant.value.stopped;
    }

    method ShouldRemind(at: int) returns (r: bool)
      ensures r == Reminds(Now(), at)
    {
      r := turn == Some(at) && hasAdmission && !sent && !reminded && calls == map[] && returnedAt.Some?
           && returnedAt.value - startedAt >= CHANNEL_PROCESSING_REMINDER_THRESHOLD_MS;
    }
  }
}
