/**
 The hooks that remind an agent of an unanswered channel (apps/server/src/channel-reply-guard.ts:328-469), for one agent
 and its session. The session's log only grows; its events reach the projection in order, each after it was logged.
 */
module ReplyGuard {
  import opened Wrappers
  import opened SessionLog
  import opened ReplyObligation
  import Projection = ReminderProjection

  const MAX_RESPONSE_CORRECTIONS := 2

  // ---------- What the hooks do to the memory ----------

  /** The admission a reminder would be for: of a pending turn that was not reminded often enough. */
  function Owed(mem: Memory, log: seq<Event>, turn: int): Option<string> {
    var o := ObligationOf(log, turn, [], mem);
    if o.response == Pending && o.corrections < MAX_RESPONSE_CORRECTIONS then o.latestRequired else None
  }

  /** A reminder is due: a reply is owed to this admission, and fewer than two reminders were given for it. */
  ghost predicate Due(mem: Memory, log: seq<Event>, turn: int, id: string) {
    OwesReplyTo(mem, log, turn, id) && (id in mem.corrections ==> mem.corrections[id] < 2)
  }

  lemma OwedExactlyWhenDue(mem: Memory, log: seq<Event>, turn: int, id: string)
    ensures Owed(mem, log, turn) == Some(id) <==> Due(mem, log, turn, id)
  {
    hide ObligationOf, OwesReplyTo;
    PendingExactlyWhenOwing(log, turn, mem, id);
    if ObligationOf(log, turn, [], mem).response == Pending { PendingNamesItsAdmission(log, turn, [], mem); }
  }

  /** Some message on its way is a reminder already, or needs a reply itself. */
  predicate OnItsWay(mem: Memory, messages: seq<Message>) {
    exists i :: 0 <= i < |messages| && (messages[i].ResponseReminder? || NeedsReply(mem, messages[i]))
  }

  lemma AskedIsOnItsWay(mem: Memory, messages: seq<Message>)
    ensures AlreadyAsked(mem, messages) <==> OnItsWay(mem, messages)
  {
    hide Required, NeedsReply;
    MoreWords(mem);
    if i :| 0 <= i < |messages| && (messages[i].ResponseReminder? || NeedsReply(mem, messages[i])) { assert messages[i] in messages; }
  }

  /** One more reminder counted for the admission, and nothing else changed. */
  predicate CountedOnce(before: Memory, after: Memory, id: string) {
    after.admissions == before.admissions
    && after.corrections == before.corrections[id := if id in before.corrections then before.corrections[id] + 1 else 1]
  }

  /** A reminder is given exactly when one is due and it may be; it is counted for the admission it is for. */
  ghost predicate RemindsIfDue(before: Memory, log: seq<Event>, turn: int, may: bool, reminded: bool, after: Memory) {
    && (reminded <==> may && exists id :: Due(before, log, turn, id))
    && (reminded ==> exists id :: Due(before, log, turn, id) && CountedOnce(before, after, id))
    && (!reminded ==> after == before)
  }

  lemma RemindersAreDue(mem: Memory, op: Op)
    requires !op.Remember?
    ensures var may := op.PreStep? ==> op.attemptedToStop && !OnItsWay(mem, op.messages);
            RemindsIfDue(mem, op.log, op.turn, may, ReminderFor(mem, op).Some?, Next(mem, op))
  {
    hide Owed, Due, AlreadyAsked, OnItsWay;
    if op.PreStep? { AskedIsOnItsWay(mem, op.messages); }
    forall id ensures Owed(mem, op.log, op.turn) == Some(id) <==> Due(mem, op.log, op.turn, id) {
      OwedExactlyWhenDue(mem, op.log, op.turn, id);
    }
    if ReminderFor(mem, op).Some? {
      assert CountedOnce(mem, Next(mem, op), ReminderFor(mem, op).value);
    }
  }

  function Recorded(mem: Memory, id: string): Memory {
    mem.(corrections := mem.corrections[id := mem.Corrections(id) + 1])
  }

  /** A reminder or a message that needs a reply is already on its way. */
  predicate AlreadyAsked(mem: Memory, messages: seq<Message>) {
    exists m :: m in messages && (m.ResponseReminder? || Required(mem, m))
  }

  /** `log` is the session's log at the time. */
  datatype Op =
    | Remember(id: string, replyRequired: bool)
    | PreStep(log: seq<Event>, turn: int, attemptedToStop: bool, messages: seq<Message>)
    | TurnStopping(log: seq<Event>, turn: int)

  /** Which admission an operation gives a reminder for. */
  function ReminderFor(mem: Memory, op: Op): Option<string> {
    match op
    case Remember(_, _) => None
    case PreStep(log, turn, attempted, messages) =>
      if attempted && !AlreadyAsked(mem, messages) then Owed(mem, log, turn) else None
    case TurnStopping(log, turn) => Owed(mem, log, turn)
  }

  function Next(mem: Memory, op: Op): Memory {
    if op.Remember? then Memory(mem.admissions[op.id := op.replyRequired], mem.corrections[op.id := 0])
    else if ReminderFor(mem, op).Some? then Recorded(mem, ReminderFor(mem, op).value)
    else mem
  }

  // ---------- Bounded reminders ----------

  function Reminders(mem: Memory, ops: seq<Op>, id: string): nat
    decreases ops
  {
    if ops == [] then 0
    else (if ReminderFor(mem, ops[0]) == Some(id) then 1 else 0) + Reminders(Next(mem, ops[0]), ops[1..], id)
  }

  function Rememberings(ops: seq<Op>, id: string): nat {
    if ops == [] then 0
    else (if ops[0].Remember? && ops[0].id == id then 1 else 0) + Rememberings(ops[1..], id)
  }

  /** How many reminders an admission can still get without being remembered again. */
  function Allowance(mem: Memory, id: string): nat {
    if id !in mem.admissions || mem.Corrections(id) >= MAX_RESPONSE_CORRECTIONS then 0
    else MAX_RESPONSE_CORRECTIONS - mem.Corrections(id)
  }

  /** A reminder is for a remembered admission that requires a reply and has reminders left. */
  lemma RemindersAreAllowed(mem: Memory, op: Op)
    requires ReminderFor(mem, op).Some?
    ensures mem.Requires(ReminderFor(mem, op).value) && Allowance(mem, ReminderFor(mem, op).value) > 0
  {
    hide ObligationOf;
    PendingNamesItsAdmission(op.log, op.turn, [], mem);
  }

  lemma StepUsesAllowance(mem: Memory, op: Op, id: string)
    ensures (if ReminderFor(mem, op) == Some(id) then 1 else 0) + Allowance(Next(mem, op), id)
            <= Allowance(mem, id) + if op.Remember? && op.id == id then MAX_RESPONSE_CORRECTIONS else 0
  {
    hide Owed, AlreadyAsked;
    if ReminderFor(mem, op).Some? {
      RemindersAreAllowed(mem, op);
    }
  }

  lemma {:induction false} RemindersAreBounded(mem: Memory, ops: seq<Op>, id: string)
    ensures Reminders(mem, ops, id) <= Allowance(mem, id) + MAX_RESPONSE_CORRECTIONS * Rememberings(ops, id)
    decreases ops
  {
    hide ReminderFor, Next, Allowance;
    if ops != [] {
      StepUsesAllowance(mem, ops[0], id);
      RemindersAreBounded(Next(mem, ops[0]), ops[1..], id);
    }
  }

  /**
   Over any run of the hooks, with any logs, an admission gets at most two reminders for each time it is remembered; one
   that never was, or that is not remembered as needing a reply, gets none.
   */
  lemma TwoRemindersAtMost(ops: seq<Op>, id: string)
    ensures Reminders(Memory(map[], map[]), ops, id) <= MAX_RESPONSE_CORRECTIONS * Rememberings(ops, id)
    ensures (forall op :: op in ops ==> !(op.Remember? && op.id == id && op.replyRequired)) ==>
              Reminders(Memory(map[], map[]), ops, id) == 0
  {
    RemindersAreBounded(Memory(map[], map[]), ops, id);
    if forall op :: op in ops ==> !(op.Remember? && op.id == id && op.replyRequired) {
      NeverRequiredNeverReminded(Memory(map[], map[]), ops, id);
    }
  }

  lemma {:induction false} NeverRequiredNeverReminded(mem: Memory, ops: seq<Op>, id: string)
    requires !mem.Requires(id) && forall op :: op in ops ==> !(op.Remember? && op.id == id && op.replyRequired)
    ensures Reminders(mem, ops, id) == 0
    decreases ops
  {
    hide Owed, AlreadyAsked;
    if ops != [] {
      if ReminderFor(mem, ops[0]).Some? {
        RemindersAreAllowed(mem, ops[0]);
      }
      assert ops[0] in ops;
      NeverRequiredNeverReminded(Next(mem, ops[0]), ops[1..], id);
    }
  }

  // ---------- The hooks ----------

  function ProcessingReminderFor(s: Projection.State, turn: int, messages: seq<Message>): seq<Message> {
    if Projection.Reminds(s, turn) && ProcessingReminder(turn) !in messages then [ProcessingReminder(turn)] else []
  }

  /** By what the projection knows of the log, the last thing the model said in this turn was at this step and called no tool. */
  ghost predicate StoppedAt(log: seq<Event>, turn: int, step: int) {
    exists s: nat, b: nat :: Projection.Opens(log, |log|, s) && log[s].payload.turn == turn && Projection.LastSpoke(log, s, |log|, b)
                             && log[b].payload.step == step && !log[b].payload.callsTool
  }

  ghost predicate LongUnanswered(log: seq<Event>, turn: int) {
    exists s: nat :: Projection.DueSince(log, s, turn)
  }

  /**
   Behind the other hooks' messages comes a reply reminder, when the model tried to stop at the step before and one is due,
   and then a processing reminder, when the turn has gone on long enough without a message.
   */
  ghost predicate StepReminders(before: Memory, log: seq<Event>, known: nat, turn: int, step: int, messages: seq<Message>,
                                r: seq<Message>, after: Memory)
    requires known <= |log|
  {
    AddsReminders(before, log, turn, step > 1 && StoppedAt(log[..known], turn, step - 1) && !OnItsWay(before, messages),
                  LongUnanswered(log[..known], turn) && ProcessingReminder(turn) !in messages, messages, r, after)
  }

  ghost predicate AddsReminders(before: Memory, log: seq<Event>, turn: int, may: bool, processing: bool, messages: seq<Message>,
                                r: seq<Message>, after: Memory) {
    exists asks: bool ::
      && RemindsIfDue(before, log, turn, may, asks, after)
      && r == messages + (if asks then [ResponseReminder(turn)] else []) + if processing then [ProcessingReminder(turn)] else []
  }

  /** What the projection answers, read off the log it knows. */
  lemma ProjectionReadsTheLog(log: seq<Event>, known: nat, turn: int, step: int)
    requires Increasing(log) && (forall e :: e in log ==> e.seqNo > Projection.EMPTY.seqNo) && known <= |log|
    ensures var s := Projection.Fold(Projection.EMPTY, log[..known]);
            && (Projection.AttemptedToStop(s, turn, step) <==> StoppedAt(log[..known], turn, step))
            && (Projection.Reminds(s, turn) <==> LongUnanswered(log[..known], turn))
  {
    hide Projection.Fold, Projection.EMPTY, Projection.Reminds, Projection.AttemptedToStop, Projection.DueSince, Projection.Opens, Projection.LastSpoke;
    assert forall e :: e in log[..known] ==> e in log;
    Projection.RemindsExactlyWhenDue(log[..known], turn);
    Projection.AttemptedToStopReadsTheLog(log[..known], turn, step);
  }

  lemma HookReminds(before: Memory, log: seq<Event>, known: nat, turn: int, step: int, messages: seq<Message>, r: seq<Message>)
    requires Increasing(log) && (forall e :: e in log ==> e.seqNo > Projection.EMPTY.seqNo) && known <= |log|
    requires var s := Projection.Fold(Projection.EMPTY, log[..known]);
             var op := PreStep(log, turn, step > 1 && Projection.AttemptedToStop(s, turn, step - 1), messages);
             var asked := messages + if ReminderFor(before, op).Some? then [ResponseReminder(turn)] else [];
             r == asked + ProcessingReminderFor(s, turn, asked)
    ensures var s := Projection.Fold(Projection.EMPTY, log[..known]);
            var op := PreStep(log, turn, step > 1 && Projection.AttemptedToStop(s, turn, step - 1), messages);
            StepReminders(before, log, known, turn, step, messages, r, Next(before, op))
  {
    hide Projection.Fold, Projection.EMPTY, Projection.Reminds, Projection.AttemptedToStop, RemindsIfDue, OnItsWay, StoppedAt, LongUnanswered,
      ReminderFor, Next;
    var s := Projection.Fold(Projection.EMPTY, log[..known]);
    var op := PreStep(log, turn, step > 1 && Projection.AttemptedToStop(s, turn, step - 1), messages);
    RemindersAreDue(before, op);
    ProjectionReadsTheLog(log, known, turn, step - 1);
    var asked := messages + if ReminderFor(before, op).Some? then [ResponseReminder(turn)] else [];
    assert ProcessingReminder(turn) in asked <==> ProcessingReminder(turn) in messages;
    var asks := ReminderFor(before, op).Some?;
    var may := step > 1 && StoppedAt(log[..known], turn, step - 1) && !OnItsWay(before, messages);
    assert RemindsIfDue(before, log, turn, may, asks, Next(before, op));
    var processing := LongUnanswered(log[..known], turn) && ProcessingReminder(turn) !in messages;
    assert ProcessingReminderFor(s, turn, asked) == if processing then [ProcessingReminder(turn)] else [];
  }

  class ReplyGuard {
    var admissions: map<string, bool>
    var corrections: map<string, nat>
    /** The session's log, and how many of its events were announced so far. */
    var log: seq<Event>
    var announced: nat
    /** Made on first use, by replaying the log. */
    var processing: Projection.ChannelProcessingReminderProjection?
    ghost var replayed: nat

    ghost function Mem(): Memory
      reads this
    {
      Memory(admissions, corrections)
    }

    /** The events the projection knows: those it was made from, and those announced since. */
    ghost function Known(): nat
      reads this
    {
      if replayed < announced then announced else replayed
    }

    ghost predicate Valid()
      reads this, processing
    {
      && announced <= |log| && replayed <= |log|
      && Increasing(log) && (forall e :: e in log ==> e.seqNo > Projection.EMPTY.seqNo)
      && (processing != null ==> processing.Now() == Projection.Fold(Projection.EMPTY, log[..Known()]))
    }

    constructor ()
      ensures Valid() && processing == null && Mem() == Memory(map[], map[]) && log == []
    {
      admissions, corrections := map[], map[];
      log, announced, processing, replayed := [], 0, null, 0;
    }

    /** The session commits an event. */
    method Commit(e: Event)
      requires Valid() && e.seqNo > Projection.EMPTY.seqNo && (log != [] ==> e.seqNo > log[|log| - 1].seqNo)
      modifies this`log
      ensures Valid() && log == old(log) + [e] && Known() == old(Known())
    {
      hide Projection.Fold, Projection.EMPTY;
      log := log + [e];
      assert log[..Known()] == old(log)[..Known()];
    }

    /** The session announces the next event of its log. */
    method Announce()
      requires Valid() && announced < |log|
      modifies this`announced, processing
      ensures Valid() && announced == old(announced) + 1 && processing == old(processing)
    {
      hide Projection.Fold, Projection.EMPTY;
      if processing != null {
        AnnouncedOnce(log, announced, Known());
        processing.Append(log[announced]);
      }
      announced := announced + 1;
    }

    method ProcessingFor() returns (p: Projection.ChannelProcessingReminderProjection)
      requires Valid()
      modifies this`processing, this`replayed
      ensures Valid() && processing == p && p.Now() == Projection.Fold(Projection.EMPTY, log[..Known()])
      ensures old(processing) == null ==> fresh(p) && Known() == |log|
      ensures old(processing) != null ==> p == old(processing) && Known() == old(Known())
    {
      hide Projection.Fold, Projection.Appended;
      if processing != null { return processing; }
      p := new Projection.ChannelProcessingReminderProjection();
      assert log[..0] == [];
      FoldOfNone();
      for i := 0 to |log|
        invariant p.Now() == Projection.Fold(Projection.EMPTY, log[..i]) && fresh(p)
      {
        FoldOfOneMore(log, i);
        p.Append(log[i]);
      }
      processing, replayed := p, |log|;
    }

    method RememberAdmission(id: string, replyRequired: bool)
      modifies this`admissions, this`corrections
      ensures Mem() == Next(old(Mem()), Remember(id, replyRequired))
      ensures admissions == old(admissions)[id := replyRequired] && corrections == old(corrections)[id := 0]
    {
      admissions := admissions[id := replyRequired];
      corrections := corrections[id := 0];
    }

    method RecordCorrection(id: string)
      modifies this`corrections
      ensures Mem() == Recorded(old(Mem()), id) && CountedOnce(old(Mem()), Mem(), id)
    {
      corrections := corrections[id := Corrections(id) + 1];
    }

    function Corrections(id: string): nat
      reads this
    {
      if id in corrections then corrections[id] else 0
    }

    /** Adds a reply reminder when the turn owes a reply and nothing on its way asks for it. */
    method WithReminder(turn: int, messages: seq<Message>) returns (r: seq<Message>)
      modifies this`corrections
      ensures var op := PreStep(log, turn, true, messages);
              && Mem() == Next(old(Mem()), op)
              && r == messages + if ReminderFor(old(Mem()), op).Some? then [ResponseReminder(turn)] else []
    {
      hide ObligationOf;
      var mem := Memory(admissions, corrections);
      var before := ResponseObligationState(log, turn, [], mem);
      if before.response != Pending || AlreadyAsked(mem, messages) || before.corrections >= MAX_RESPONSE_CORRECTIONS {
        return messages;
      }
      PendingNamesItsAdmission(log, turn, [], mem);
      if before.latestRequired.Some? { RecordCorrection(before.latestRequired.value); }
      return messages + [ResponseReminder(turn)];
    }

    /** `decision` is what the other hooks decided: the messages for the step, or a rejection. */
    method PreStepHook(turn: int, step: int, decision: Option<seq<Message>>) returns (r: Option<seq<Message>>)
      requires Valid()
      modifies this`corrections, this`processing, this`replayed
      ensures Valid()
      ensures decision.None? ==> r.None? && Mem() == old(Mem())
      ensures decision.Some? ==>
        var s := Projection.Fold(Projection.EMPTY, log[..Known()]);
        var op := PreStep(log, turn, step > 1 && Projection.AttemptedToStop(s, turn, step - 1), decision.value);
        var asked := decision.value + if ReminderFor(old(Mem()), op).Some? then [ResponseReminder(turn)] else [];
        && Mem() == Next(old(Mem()), op)
        && r == Some(asked + ProcessingReminderFor(s, turn, asked))
      // Read off the log: which reminders are added behind the other hooks' messages, and what is counted.
      ensures decision.Some? ==> r.Some? && StepReminders(old(Mem()), log, Known(), turn, step, decision.value, r.value, Mem())
    {
      hide Projection.Fold, Projection.EMPTY, Owed, AlreadyAsked, Projection.Reminds, Projection.AttemptedToStop, RemindsIfDue, OnItsWay,
        StoppedAt, LongUnanswered, StepReminders;
      if decision.None? { return None; }
      var processing := ProcessingFor();
      var messages := decision.value;
      var attempted := processing.PreviousStepAttemptedToStop(turn, step - 1);
      if step > 1 && attempted {
        messages := WithReminder(turn, messages);
      }
      assert decision.value + [] == decision.value && messages + [] == messages;
      var remind := processing.ShouldRemind(turn);
      if remind && ProcessingReminder(turn) !in messages {
        messages := messages + [ProcessingReminder(turn)];
      }
      HookReminds(old(Mem()), log, Known(), turn, step, decision.value, messages);
      return Some(messages);
    }

    /** Steers the agent back to a reply it owes, unless it was aborted. */
    method TurnStoppingHook(turn: int, aborted: bool) returns (steered: Option<Message>)
      modifies this`corrections
      ensures aborted ==> steered.None? && Mem() == old(Mem())
      ensures !aborted ==>
        && Mem() == Next(old(Mem()), TurnStopping(log, turn))
        && steered == if ReminderFor(old(Mem()), TurnStopping(log, turn)).Some? then Some(ResponseReminder(turn)) else None
      ensures !aborted ==>
        && RemindsIfDue(old(Mem()), log, turn, true, steered.Some?, Mem())
        && (steered.Some? ==> steered.value == ResponseReminder(turn))
    {
      hide ObligationOf, RemindsIfDue;
      RemindersAreDue(Memory(admissions, corrections), TurnStopping(log, turn));
      if aborted { return None; }
      var mem := Memory(admissions, corrections);
      var state := ResponseObligationState(log, turn, [], mem);
      if state.response != Pending || state.corrections >= MAX_RESPONSE_CORRECTIONS { return None; }
      PendingNamesItsAdmission(log, turn, [], mem);
      if state.latestRequired.Some? { RecordCorrection(state.latestRequired.value); }
      return Some(ResponseReminder(turn));
    }
  }

  lemma FoldOfNone()
    ensures Projection.Fold(Projection.EMPTY, []) == Projection.EMPTY
  {
  }

  lemma FoldOfOneMore(log: seq<Event>, i: nat)
    requires i < |log|
    ensures Projection.Fold(Projection.EMPTY, log[..i + 1])
            == Projection.Appended(Projection.Fold(Projection.EMPTY, log[..i]), log[i])
  {
    hide Projection.Appended;
    assert log[..i + 1][..i] == log[..i];
  }

  /** An announcement the projection was already made from is ignored; the next one after it is not. */
  lemma AnnouncedOnce(log: seq<Event>, announced: nat, known: nat)
    requires Increasing(log) && (forall e :: e in log ==> e.seqNo > Projection.EMPTY.seqNo)
    requires announced < |log| && announced <= known <= |log|
    ensures Projection.Appended(Projection.Fold(Projection.EMPTY, log[..known]), log[announced])
            == Projection.Fold(Projection.EMPTY, log[..if known == announced then announced + 1 else known])
  {
    hide Projection.Step, Projection.Fold;
    if known == announced {
      FoldOfOneMore(log, known);
    } else {
      Projection.FoldReaches(Projection.EMPTY, log[..known]);
      assert log[..known][known - 1] == log[known - 1] && log[..known][0] == log[0];
      assert announced == known - 1 || log[announced].seqNo < log[known - 1].seqNo;
    }
  }
}
