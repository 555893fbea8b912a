/** Whether a turn still owes the channel a reply, read off its events (apps/server/src/channel-reply-guard.ts:43-308). */
module ReplyObligation {
  import opened Wrappers
  import opened SessionLog

  datatype ResponseState = NotRequired | Pending | Replied | Finished | ProtocolFailed | Interrupted

  datatype Obligation = Obligation(
    latestRequired: Option<string>,
    response: ResponseState,
    corrections: nat,
    producedReply: bool)

  /** Which remembered admissions need a reply, and how often a reply was asked for. */
  datatype Memory = Memory(admissions: map<string, bool>, corrections: map<string, nat>)
  {
    predicate Requires(id: string) {
      id in admissions && admissions[id]
    }

    function Corrections(id: string): nat {
      if id in corrections then corrections[id] else 0
    }
  }

  predicate Required(mem: Memory, m: Message) {
    AdmissionOf(m).Some? && mem.Requires(AdmissionOf(m).value)
  }

  // ---------- The events of one turn ----------

  function FindFrom(log: seq<Event>, from: nat, p: Event -> bool): (r: Option<nat>)
    requires from <= |log|
    ensures r.Some? ==> from <= r.value < |log| && p(log[r.value]) && forall i :: from <= i < r.value ==> !p(log[i])
    ensures r.None? ==> forall i :: from <= i < |log| ==> !p(log[i])
    decreases |log| - from
  {
    if from == |log| then None else if p(log[from]) then Some(from) else FindFrom(log, from + 1, p)
  }

  function StartOf(turn: int): Event -> bool {
    (e: Event) => e.payload.TurnStart? && e.payload.turn == turn
  }

  function EndOf(turn: int): Event -> bool {
    (e: Event) => e.payload.TurnEnd? && e.payload.turn == turn
  }

  function AnyStart(): Event -> bool {
    (e: Event) => e.payload.TurnStart?
  }

  function CurrentTurnEvents(log: seq<Event>, turn: int): seq<Event> {
    var start := FindFrom(log, 0, StartOf(turn));
    if start.None? then []
    else
      var end := FindFrom(log, start.value + 1, EndOf(turn));
      if end.Some? then log[start.value..end.value + 1]
      else
        var next := FindFrom(log, start.value + 1, AnyStart());
        if next.Some? then log[start.value..next.value] else log[start.value..]
  }

  /** Why the turn ended, by its last end event. */
  function CompletedReason(events: seq<Event>, turn: int): Option<Reason> {
    if events == [] then None
    else
      var last := events[|events| - 1].payload;
      if last.TurnEnd? && last.turn == turn then Some(last.reason)
      else CompletedReason(events[..|events| - 1], turn)
  }

  lemma {:induction false} NoReasonWithoutEnd(events: seq<Event>, turn: int)
    ensures CompletedReason(events, turn).None? <==> forall e :: e in events ==> !EndOf(turn)(e)
  {
    if events != [] {
      var before, last := events[..|events| - 1], events[|events| - 1];
      NoReasonWithoutEnd(before, turn);
      assert events == before + [last];
      assert last in events && (EndOf(turn)(last) <==> last.payload.TurnEnd? && last.payload.turn == turn);
      assert forall e :: e in events <==> e in before || e == last;
    }
  }

  predicate Ends(e: Event, turn: int) {
    e.payload.TurnEnd? && e.payload.turn == turn
  }

  /**
   The part of the log from `s` up to `e` is the turn: from its first start on, up to and with its first end if it has
   one, and otherwise up to the next start of any turn.
   */
  ghost predicate IsTurn(log: seq<Event>, turn: int, s: nat, e: nat) {
    && s < e <= |log| && log[s].payload == TurnStart(turn) && (forall i :: 0 <= i < s ==> log[i].payload != TurnStart(turn))
    && if exists k :: s < k < |log| && Ends(log[k], turn)
       then s < e - 1 && Ends(log[e - 1], turn) && forall k :: s < k < e - 1 ==> !Ends(log[k], turn)
       else (forall k :: s < k < e ==> !log[k].payload.TurnStart?) && (e == |log| || log[e].payload.TurnStart?)
  }

  lemma CurrentTurnIsTheTurn(log: seq<Event>, turn: int)
    ensures if forall i :: 0 <= i < |log| ==> log[i].payload != TurnStart(turn) then CurrentTurnEvents(log, turn) == []
            else exists s: nat, e: nat :: IsTurn(log, turn, s, e) && CurrentTurnEvents(log, turn) == log[s..e]
  {
    hide IsTurn, Ends, AnyStart, EndOf;
    var start := FindFrom(log, 0, StartOf(turn));
    if start.Some? {
      var s := start.value;
      var end := FindFrom(log, s + 1, EndOf(turn));
      var next := FindFrom(log, s + 1, AnyStart());
      var e := if end.Some? then end.value + 1 else if next.Some? then next.value else |log|;
      assert log[s..|log|] == log[s..];
      forall i | 0 <= i < s ensures log[i].payload != TurnStart(turn) { assert !StartOf(turn)(log[i]); }
      if end.Some? { EndedTurn(log, turn, s, end.value); } else { OpenTurn(log, turn, s, e); }
      assert IsTurn(log, turn, s, e) && CurrentTurnEvents(log, turn) == log[s..e];
    }
  }

  lemma EndedTurn(log: seq<Event>, turn: int, s: nat, end: nat)
    requires s < end < |log| && log[s].payload == TurnStart(turn) && (forall i :: 0 <= i < s ==> log[i].payload != TurnStart(turn))
    requires EndOf(turn)(log[end]) && forall k :: s < k < end ==> !EndOf(turn)(log[k])
    ensures IsTurn(log, turn, s, end + 1)
  {
    assert Ends(log[end], turn);
  }

  lemma OpenTurn(log: seq<Event>, turn: int, s: nat, e: nat)
    requires s < e <= |log| && log[s].payload == TurnStart(turn) && (forall i :: 0 <= i < s ==> log[i].payload != TurnStart(turn))
    requires forall k :: s < k < |log| ==> !EndOf(turn)(log[k])
    requires (forall k :: s < k < e ==> !AnyStart()(log[k])) && (e == |log| || AnyStart()(log[e]))
    ensures IsTurn(log, turn, s, e)
  {
    forall k | s < k < e ensures !log[k].payload.TurnStart? { assert !AnyStart()(log[k]); }
    forall k | s < k < |log| ensures !Ends(log[k], turn) { assert !EndOf(turn)(log[k]); }
  }

  /** A turn counts as ended exactly when an end of it comes after its first start. */
  lemma EndedExactlyWhenEndLogged(log: seq<Event>, turn: int)
    ensures CompletedReason(CurrentTurnEvents(log, turn), turn).Some? <==>
            exists s, e :: 0 <= s < e < |log| && log[s].payload == TurnStart(turn) && Ends(log[e], turn)
  {
    hide CompletedReason;
    var events := CurrentTurnEvents(log, turn);
    NoReasonWithoutEnd(events, turn);
    var start := FindFrom(log, 0, StartOf(turn));
    if start.Some? {
      var end := FindFrom(log, start.value + 1, EndOf(turn));
      if end.Some? {
        assert events[end.value - start.value] == log[end.value];
        assert events[end.value - start.value] in events;
      } else {
        forall e | e in events ensures !EndOf(turn)(e) {
          var i :| 0 <= i < |events| && events[i] == e;
          assert e == log[start.value + i];
        }
      }
    }
  }

  // ---------- The fold ----------

  /** `names` maps the calls of the turn to their tools. */
  datatype Tally = Tally(names: map<string, string>, latestRequired: Option<string>, response: ResponseState, producedReply: bool)

  const NOTHING := Tally(map[], None, NotRequired, false)

  predicate Counts(delivery: Option<Delivery>) {
    delivery.None? || Delivered(delivery)
  }

  function Settled(t: Tally, name: string, delivery: Option<Delivery>): Tally {
    if name == SEND_CHANNEL_MESSAGE_TOOL then
      if Counts(delivery) then t.(response := Replied, producedReply := true) else t
    else if name == FINISH_CHANNEL_TURN_TOOL then t.(response := Finished)
    else t
  }

  function TallyStep(mem: Memory, t: Tally, e: Event): Tally {
    match e.payload
    case UserMessage(m) => if Required(mem, m) then t.(latestRequired := AdmissionOf(m), response := Pending) else t
    case ToolCall(_, callId, name, _) => t.(names := t.names[callId := name])
    case NestedResult(_, name, _, isError, _, delivery) => if isError then t else Settled(t, name, delivery)
    case ToolResult(_, callId, _, _, delivery) =>
      if Succeeded(e.payload) && callId in t.names then Settled(t, t.names[callId], delivery) else t
    case _ => t
  }

  function TallyOf(mem: Memory, events: seq<Event>, n: nat): Tally
    requires n <= |events|
  {
    if n == 0 then NOTHING else TallyStep(mem, TallyOf(mem, events, n - 1), events[n - 1])
  }

  /** The last of some proposed messages that needs a reply. */
  function LastProposed(mem: Memory, proposed: seq<Message>): (r: Option<string>)
    ensures r.Some? <==> exists m :: m in proposed && Required(mem, m)
    ensures r.Some? ==> mem.Requires(r.value)
  {
    if proposed == [] then None
    else
      var last := proposed[|proposed| - 1];
      assert proposed == proposed[..|proposed| - 1] + [last];
      if Required(mem, last) then AdmissionOf(last) else LastProposed(mem, proposed[..|proposed| - 1])
  }

  function WithProposed(mem: Memory, t: Tally, proposed: seq<Message>): Tally {
    var last := LastProposed(mem, proposed);
    if last.Some? then t.(latestRequired := last, response := Pending) else t
  }

  function Concluded(mem: Memory, t: Tally, reason: Option<Reason>): Obligation {
    var count := if t.response == Pending && t.latestRequired.Some? then mem.Corrections(t.latestRequired.value) else 0;
    var response :=
      if t.response != Pending || reason.None? then t.response
      else if reason.value == Completed then ProtocolFailed else Interrupted;
    Obligation(t.latestRequired, response, count, t.producedReply)
  }

  function ObligationOf(log: seq<Event>, turn: int, proposed: seq<Message>, mem: Memory): Obligation {
    var events := CurrentTurnEvents(log, turn);
    Concluded(mem, WithProposed(mem, TallyOf(mem, events, |events|), proposed), CompletedReason(events, turn))
  }

  // ---------- The turn read as a whole ----------

  predicate CallsTool(e: Event, callId: string) {
    e.payload.ToolCall? && e.payload.callId == callId
  }

  /** The call made at `j` is the latest one of its id before event `n`. */
  ghost predicate Named(events: seq<Event>, n: nat, callId: string, j: nat)
    requires n <= |events|
  {
    j < n && CallsTool(events[j], callId) && forall k :: j < k < n ==> !CallsTool(events[k], callId)
  }

  /** Event `i` settles the named tool without error, called directly or from a running program. */
  ghost predicate Settles(events: seq<Event>, i: nat, name: string)
    requires i < |events|
  {
    match events[i].payload
    case NestedResult(_, n, _, isError, _, _) => !isError && n == name
    case ToolResult(_, callId, _, _, _) =>
      WentWell(events[i].payload) && exists j: nat :: Named(events, i, callId, j) && events[j].payload.name == name
    case _ => false
  }

  function DeliveryOf(p: Payload): Option<Delivery> {
    if p.NestedResult? || p.ToolResult? then p.delivery else None
  }

  ghost predicate SendConfirmed(events: seq<Event>, i: nat)
    requires i < |events|
  {
    Settles(events, i, SEND_CHANNEL_MESSAGE_TOOL) && MayHaveReached(DeliveryOf(events[i].payload))
  }

  ghost predicate TurnFinished(events: seq<Event>, i: nat)
    requires i < |events|
  {
    Settles(events, i, FINISH_CHANNEL_TURN_TOOL)
  }

  /** The channel message is one that is remembered as needing a reply. */
  predicate NeedsReply(mem: Memory, m: Message) {
    FromChannel(m) && m.admissionId in mem.admissions && mem.admissions[m.admissionId]
  }

  predicate Asks(mem: Memory, e: Event) {
    e.payload.UserMessage? && NeedsReply(mem, e.payload.message)
  }

  /** Delivered at least in part; nothing is known of results from before delivery was recorded. */
  predicate MayHaveReached(delivery: Option<Delivery>) {
    delivery in {None, Some(Sent), Some(PartiallySent)}
  }

  lemma MoreWords(mem: Memory)
    ensures forall m :: Required(mem, m) <==> NeedsReply(mem, m)
    ensures forall d :: Counts(d) <==> MayHaveReached(d)
  {
  }

  /** Nothing between the two events asks for, gives or declines a reply. */
  ghost predicate Undecided(mem: Memory, events: seq<Event>, from: int, to: int)
    requires -1 <= from && to <= |events|
  {
    forall i :: from < i < to ==> !Asks(mem, events[i]) && !SendConfirmed(events, i) && !TurnFinished(events, i)
  }

  /** The response the event at `i` leaves. */
  ghost predicate Leaves(mem: Memory, events: seq<Event>, i: nat, r: ResponseState)
    requires i < |events|
  {
    match r
    case Pending => Asks(mem, events[i])
    case Replied => SendConfirmed(events, i)
    case Finished => TurnFinished(events, i)
    case _ => false
  }

  ghost predicate NamesAgree(events: seq<Event>, n: nat, names: map<string, string>)
    requires n <= |events|
  {
    && (forall c :: c in names ==> exists j: nat :: Named(events, n, c, j))
    && (forall c, j: nat :: Named(events, n, c, j) ==> c in names && names[c] == events[j].payload.name)
  }

  /** The response is what the last deciding event left. */
  ghost predicate ResponseAgrees(mem: Memory, events: seq<Event>, n: nat, r: ResponseState)
    requires n <= |events|
  {
    if r == NotRequired then Undecided(mem, events, -1, n)
    else exists i: nat :: i < n && Leaves(mem, events, i, r) && Undecided(mem, events, i, n)
  }

  ghost predicate LatestAgrees(mem: Memory, events: seq<Event>, n: nat, latest: Option<string>)
    requires n <= |events|
  {
    if latest.None? then forall i :: 0 <= i < n ==> !Asks(mem, events[i])
    else exists i: nat ::
      && i < n && Asks(mem, events[i]) && latest == Some(events[i].payload.message.admissionId)
      && forall k :: i < k < n ==> !Asks(mem, events[k])
  }

  ghost predicate Agrees(mem: Memory, events: seq<Event>, n: nat, t: Tally)
    requires n <= |events|
  {
    && NamesAgree(events, n, t.names) && ResponseAgrees(mem, events, n, t.response)
    && LatestAgrees(mem, events, n, t.latestRequired)
    && (t.producedReply <==> exists i: nat :: i < n && SendConfirmed(events, i))
  }

  lemma ToolsDiffer()
    ensures SEND_CHANNEL_MESSAGE_TOOL != FINISH_CHANNEL_TURN_TOOL
  {
    assert SEND_CHANNEL_MESSAGE_TOOL[0] != FINISH_CHANNEL_TURN_TOOL[0];
  }

  lemma NamesStep(mem: Memory, events: seq<Event>, n: nat, t: Tally)
    requires n < |events| && NamesAgree(events, n, t.names)
    ensures NamesAgree(events, n + 1, TallyStep(mem, t, events[n]).names)
  {
    hide Required, Succeeded, SEND_CHANNEL_MESSAGE_TOOL, FINISH_CHANNEL_TURN_TOOL, Counts;
    var names, after := TallyStep(mem, t, events[n]).names, n + 1;
    forall c | c in names ensures exists j: nat :: Named(events, after, c, j) {
      if CallsTool(events[n], c) {
        assert Named(events, after, c, n);
      } else {
        var j: nat :| Named(events, n, c, j);
        assert Named(events, after, c, j);
      }
    }
    forall c, j: nat | Named(events, after, c, j) ensures c in names && names[c] == events[j].payload.name {
      if j < n { assert Named(events, n, c, j); }
    }
  }

  lemma NeedsReplyIsFromChannel(mem: Memory)
    ensures forall m :: NeedsReply(mem, m) ==> FromChannel(m)
  {
  }

  /** What one event does to the tally, in terms of what the event is. */
  lemma DecisionStep(mem: Memory, events: seq<Event>, n: nat, t: Tally)
    requires n < |events| && NamesAgree(events, n, t.names)
    ensures var u := TallyStep(mem, t, events[n]);
            && (Asks(mem, events[n]) ==> u.response == Pending && u.latestRequired == Some(events[n].payload.message.admissionId))
            && (SendConfirmed(events, n) ==> u.response == Replied && u.producedReply)
            && (TurnFinished(events, n) ==> u.response == Finished)
            && (Undecided(mem, events, n - 1, n + 1) ==> u.response == t.response)
            && (!Asks(mem, events[n]) ==> u.latestRequired == t.latestRequired)
            && (!SendConfirmed(events, n) ==> u.producedReply == t.producedReply)
  {
    hide Required, NeedsReply, Succeeded, WentWell, AdmissionOf, FromChannel, SEND_CHANNEL_MESSAGE_TOOL, FINISH_CHANNEL_TURN_TOOL, Counts, Named,
      MayHaveReached;
    ToolsDiffer();
    Words();
    MoreWords(mem);
    NeedsReplyIsFromChannel(mem);
    if events[n].payload.ToolResult? && events[n].payload.callId in t.names {
      var j: nat :| Named(events, n, events[n].payload.callId, j);
    }
  }

  lemma ResponseStep(mem: Memory, events: seq<Event>, n: nat, r: ResponseState, u: ResponseState)
    requires n < |events| && ResponseAgrees(mem, events, n, r)
    requires Asks(mem, events[n]) ==> u == Pending
    requires SendConfirmed(events, n) ==> u == Replied
    requires TurnFinished(events, n) ==> u == Finished
    requires Undecided(mem, events, n - 1, n + 1) ==> u == r
    ensures ResponseAgrees(mem, events, n + 1, u)
  {
    hide Asks, SendConfirmed, TurnFinished;
    if Undecided(mem, events, n - 1, n + 1) {
      if r != NotRequired {
        var i: nat :| i < n && Leaves(mem, events, i, r) && Undecided(mem, events, i, n);
        assert Undecided(mem, events, i, n + 1);
      }
    } else {
      assert Leaves(mem, events, n, u) && Undecided(mem, events, n, n + 1);
    }
  }

  lemma LatestStep(mem: Memory, events: seq<Event>, n: nat, l: Option<string>, m: Option<string>)
    requires n < |events| && LatestAgrees(mem, events, n, l)
    requires m == if Asks(mem, events[n]) then Some(events[n].payload.message.admissionId) else l
    ensures LatestAgrees(mem, events, n + 1, m)
  {
    hide FromChannel;
    if Asks(mem, events[n]) { assert m.Some?; }
  }

  lemma {:induction false} TallyReadsTheTurn(mem: Memory, events: seq<Event>, n: nat)
    requires n <= |events|
    ensures Agrees(mem, events, n, TallyOf(mem, events, n))
  {
    hide NamesAgree, ResponseAgrees, LatestAgrees, TallyStep, SendConfirmed, TurnFinished, Asks, Undecided;
    if n == 0 {
      EmptyAgrees(mem, events);
    } else {
      TallyReadsTheTurn(mem, events, n - 1);
      var t := TallyOf(mem, events, n - 1);
      var u := TallyStep(mem, t, events[n - 1]);
      NamesStep(mem, events, n - 1, t);
      DecisionStep(mem, events, n - 1, t);
      ResponseStep(mem, events, n - 1, t.response, u.response);
      LatestStep(mem, events, n - 1, t.latestRequired, u.latestRequired);
      if SendConfirmed(events, n - 1) { assert u.producedReply; }
    }
  }

  lemma EmptyAgrees(mem: Memory, events: seq<Event>)
    ensures Agrees(mem, events, 0, NOTHING)
  {
  }

  /** A required message that neither a confirmed send nor a finish came after. */
  ghost predicate Unanswered(mem: Memory, events: seq<Event>) {
    exists i: nat :: i < |events| && Asks(mem, events[i])
                     && forall k :: i < k < |events| ==> !SendConfirmed(events, k) && !TurnFinished(events, k)
  }

  /** An event does at most one of asking for a reply, giving it and declining it. */
  lemma DecidesOnce(mem: Memory, events: seq<Event>, i: nat)
    requires i < |events|
    ensures SendConfirmed(events, i) ==> !Asks(mem, events[i]) && !TurnFinished(events, i)
    ensures TurnFinished(events, i) ==> !Asks(mem, events[i])
  {
    hide SEND_CHANNEL_MESSAGE_TOOL, FINISH_CHANNEL_TURN_TOOL, MayHaveReached, WentWell, CallsTool;
    ToolsDiffer();
    if events[i].payload.ToolResult? {
      forall j: nat, k: nat | Named(events, i, events[i].payload.callId, j) && Named(events, i, events[i].payload.callId, k)
        ensures j == k
      {
        assert CallsTool(events[j], events[i].payload.callId) && CallsTool(events[k], events[i].payload.callId);
      }
    }
  }

  lemma PendingWhenUnanswered(mem: Memory, events: seq<Event>, r: ResponseState)
    requires ResponseAgrees(mem, events, |events|, r)
    ensures r == Pending <==> Unanswered(mem, events)
  {
    hide SendConfirmed, TurnFinished, Asks;
    if r != NotRequired {
      var i: nat :| i < |events| && Leaves(mem, events, i, r) && Undecided(mem, events, i, |events|);
      DecidesOnce(mem, events, i);
      if Unanswered(mem, events) {
        var k: nat :| k < |events| && Asks(mem, events[k])
                      && forall l :: k < l < |events| ==> !SendConfirmed(events, l) && !TurnFinished(events, l);
        assert k <= i;
      }
    }
  }

  /**
   A turn owes a reply exactly when a proposed message requires one or its last required message comes after its last
   confirmed send or finish. While the turn is open that reads as pending; once it ended, as failed when it ended
   normally and as interrupted otherwise. A reply was produced exactly when some send was confirmed.
   */
  lemma OwesExactlyWhenUnanswered(log: seq<Event>, turn: int, proposed: seq<Message>, mem: Memory)
    ensures var events := CurrentTurnEvents(log, turn);
            var o, reason := ObligationOf(log, turn, proposed, mem), CompletedReason(CurrentTurnEvents(log, turn), turn);
            var owes := (exists m :: m in proposed && NeedsReply(mem, m)) || Unanswered(mem, events);
            && (o.response == Pending <==> owes && reason.None?)
            && (o.response == ProtocolFailed <==> owes && reason == Some(Completed))
            && (o.response == Interrupted <==> owes && reason == Some(OtherReason))
            && (o.producedReply <==> exists i: nat :: i < |events| && SendConfirmed(events, i))
  {
    hide TallyOf, NamesAgree, ResponseAgrees, LatestAgrees, CompletedReason, CurrentTurnEvents, Required, NeedsReply, SendConfirmed, Unanswered;
    MoreWords(mem);
    var events := CurrentTurnEvents(log, turn);
    TallyReadsTheTurn(mem, events, |events|);
    PendingWhenUnanswered(mem, events, TallyOf(mem, events, |events|).response);
    FoldIsOrdinary(mem, events, |events|);
  }

  lemma {:induction false} FoldIsOrdinary(mem: Memory, events: seq<Event>, n: nat)
    requires n <= |events|
    ensures TallyOf(mem, events, n).response in {NotRequired, Pending, Replied, Finished}
  {
    if n > 0 { FoldIsOrdinary(mem, events, n - 1); }
  }

  /** The last message that needs a reply, by its admission. */
  ghost predicate LastAsk(mem: Memory, events: seq<Event>, i: nat, id: string) {
    && i < |events| && Asks(mem, events[i]) && events[i].payload.message.admissionId == id
    && forall k :: i < k < |events| ==> !Asks(mem, events[k])
  }

  /** The last message of an open turn that needs a reply got none, and nothing was said to decline it. */
  ghost predicate OwesReplyTo(mem: Memory, log: seq<Event>, turn: int, id: string) {
    var events := CurrentTurnEvents(log, turn);
    && (forall k :: 0 <= k < |events| ==> !Ends(events[k], turn))
    && exists i: nat :: LastAsk(mem, events, i, id)
                        && forall k :: i < k < |events| ==> !SendConfirmed(events, k) && !TurnFinished(events, k)
  }

  lemma PendingExactlyWhenOwing(log: seq<Event>, turn: int, mem: Memory, id: string)
    ensures var o := ObligationOf(log, turn, [], mem);
            o.response == Pending && o.latestRequired == Some(id) <==> OwesReplyTo(mem, log, turn, id)
  {
    hide TallyOf, NamesAgree, ResponseAgrees, CompletedReason, CurrentTurnEvents, Asks, SendConfirmed, TurnFinished, Ends;
    var events := CurrentTurnEvents(log, turn);
    var t := TallyOf(mem, events, |events|);
    OwesExactlyWhenUnanswered(log, turn, [], mem);
    TallyReadsTheTurn(mem, events, |events|);
    OpenExactlyWithoutEnd(events, turn);
    if OwesReplyTo(mem, log, turn, id) {
      var i: nat :| LastAsk(mem, events, i, id)
                    && forall k :: i < k < |events| ==> !SendConfirmed(events, k) && !TurnFinished(events, k);
      assert t.latestRequired == Some(id);
    }
    if Unanswered(mem, events) && t.latestRequired == Some(id) {
      var i: nat :| i < |events| && Asks(mem, events[i])
                    && forall k :: i < k < |events| ==> !SendConfirmed(events, k) && !TurnFinished(events, k);
      LatestIsLastAsk(mem, events, id);
      var j: nat :| LastAsk(mem, events, j, id);
      assert i <= j;
    }
  }

  lemma LatestIsLastAsk(mem: Memory, events: seq<Event>, id: string)
    requires LatestAgrees(mem, events, |events|, Some(id))
    ensures exists j: nat :: LastAsk(mem, events, j, id)
  {
    var i: nat :| i < |events| && Asks(mem, events[i]) && Some(id) == Some(events[i].payload.message.admissionId)
                  && forall k :: i < k < |events| ==> !Asks(mem, events[k]);
    assert LastAsk(mem, events, i, id);
  }

  lemma OpenExactlyWithoutEnd(events: seq<Event>, turn: int)
    ensures CompletedReason(events, turn).None? <==> forall k :: 0 <= k < |events| ==> !Ends(events[k], turn)
  {
    hide CompletedReason;
    NoReasonWithoutEnd(events, turn);
    forall k | 0 <= k < |events| ensures Ends(events[k], turn) <==> EndOf(turn)(events[k]) {}
    forall e | e in events ensures exists k :: 0 <= k < |events| && events[k] == e {}
  }

  /** A pending turn names the message it owes a reply to, which requires one, and counts its corrections. */
  lemma PendingNamesItsAdmission(log: seq<Event>, turn: int, proposed: seq<Message>, mem: Memory)
    requires ObligationOf(log, turn, proposed, mem).response == Pending
    ensures var o := ObligationOf(log, turn, proposed, mem);
            o.latestRequired.Some? && mem.Requires(o.latestRequired.value)
            && o.corrections == mem.Corrections(o.latestRequired.value)
  {
    hide CompletedReason, CurrentTurnEvents, TallyOf;
    var events := CurrentTurnEvents(log, turn);
    PendingHasLatest(mem, events, |events|);
  }

  lemma {:induction false} PendingHasLatest(mem: Memory, events: seq<Event>, n: nat)
    requires n <= |events|
    ensures var t := TallyOf(mem, events, n);
            && (t.response == Pending ==> t.latestRequired.Some?)
            && (t.latestRequired.Some? ==> mem.Requires(t.latestRequired.value))
  {
    if n > 0 { PendingHasLatest(mem, events, n - 1); }
  }

  // ---------- The computation ----------

  method FoldMessages(initial: Tally, messages: seq<Message>, mem: Memory) returns (t: Tally)
    ensures t == WithProposed(mem, initial, messages)
  {
    t := initial;
    for i := 0 to |messages|
      invariant t == WithProposed(mem, initial, messages[..i])
    {
      assert messages[..i + 1][..i] == messages[..i];
      if Required(mem, messages[i]) {
        t := t.(latestRequired := AdmissionOf(messages[i]), response := Pending);
      }
    }
    assert messages[..|messages|] == messages;
  }

  method ResponseObligationState(log: seq<Event>, turn: int, proposed: seq<Message>, mem: Memory) returns (o: Obligation)
    ensures o == ObligationOf(log, turn, proposed, mem)
  {
    hide CurrentTurnEvents, LastProposed, Required, Counts, Succeeded;
    var events := CurrentTurnEvents(log, turn);
    var t := NOTHING;
    for i := 0 to |events|
      invariant t == TallyOf(mem, events, i)
    {
      t := TallyStep(mem, t, events[i]);
    }
    t := FoldMessages(t, proposed, mem);
    var count := 0;
    if t.response == Pending && t.latestRequired.Some? {
      count := mem.Corrections(t.latestRequired.value);
    }
    if t.response != Pending { return Obligation(t.latestRequired, t.response, count, t.producedReply); }
    var reason := ReasonOf(events, turn);
    if reason.None? { return Obligation(t.latestRequired, t.response, count, t.producedReply); }
    var response := if reason.value == Completed then ProtocolFailed else Interrupted;
    return Obligation(t.latestRequired, response, count, t.producedReply);
  }

  method ReasonOf(events: seq<Event>, turn: int) returns (reason: Option<Reason>)
    ensures reason == CompletedReason(events, turn)
  {
    var index: nat := |events|;
    assert events[..|events|] == events;
    while index > 0
      invariant index <= |events| && CompletedReason(events[..index], turn) == CompletedReason(events, turn)
    {
      var p := events[index - 1].payload;
      assert events[..index][..index - 1] == events[..index - 1];
      if p.TurnEnd? && p.turn == turn { return Some(p.reason); }
      index := index - 1;
    }
    return None;
  }
}
