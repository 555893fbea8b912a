/**
 Turning a session's log into runtime events (apps/server/src/channel-runtime-events.ts:146-371): which turn an input
 belongs to, what triggered a turn, when its first token came, and where nested calls sit.
 */
module RuntimeEvents {
  import opened Wrappers
  import opened ReplyObligation

  /**
   A log entry. `eventId` is the valid id of the last channel event of a channel admission; `firstToken` the time of the
   first token in a stream; `shown` says that a message has text, reasoning or usage.
   */
  datatype Entry =
    | Compaction(begins: bool)
    | RequestSent(turn: int, step: int)
    | MemoryEvent(known: bool)
    | TurnStart(turn: int)
    | TurnEnd(turn: int)
    | UserMessage(id: string, eventId: Option<string>)
    | StepMark(turn: int, step: int, begins: bool)
    | NestedStart(parentCallId: string, callId: string)
    | NestedEnd(parentCallId: string, callId: string)
    | ToolCall(turn: int, step: int, callId: string)
    | ToolResult(turn: int, step: int, callId: string)
    | Attempt(turn: int, step: int, firstToken: Option<int>)
    | AssistantMessage(turn: int, step: int, firstToken: Option<int>, shown: bool)
    | Retry(turn: int, step: int, begins: bool)
    | OtherEntry

  datatype Emitted =
    | CompactionMarked(begins: bool)
    | Sent(turn: int, step: int)
    | MemoryNoted
    | Started(turn: int)
    | Ended(turn: int)
    | Trigger(turn: int, eventId: string)
    | Input(turn: int, id: string)
    | StepMarked(turn: int, step: int, begins: bool)
    | Called(turn: int, step: int, callId: string, parent: Option<string>)
    | Returned(turn: int, step: int, callId: string, parent: Option<string>)
    | FirstToken(turn: int, step: int, at: int)
    | Retried(turn: int, step: int, begins: bool)
    | Said(turn: int, step: int)
    | ChannelResponse(turn: int, response: ResponseState, producedReply: bool)

  /** What the loop keeps besides the events emitted so far. */
  datatype Marks = Marks(
    firstTokens: set<(int, int)>,
    turns: seq<int>,
    openTurn: Option<int>,
    answered: bool,
    heldTrigger: Option<string>,
    heldInputs: seq<string>,
    triggered: set<int>,
    toolSteps: map<string, (int, int)>)

  const NO_MARKS := Marks({}, [], None, false, None, [], {}, map[])

  // ---------- The loop as a function ----------

  function TriggerFor(m: Marks, turn: int, eventId: Option<string>): seq<Emitted> {
    if eventId.Some? && turn !in m.triggered then [Trigger(turn, eventId.value)] else []
  }

  function FirstTokenFor(m: Marks, turn: int, step: int, at: Option<int>): seq<Emitted> {
    if at.Some? && (turn, step) !in m.firstTokens then [FirstToken(turn, step, at.value)] else []
  }

  function InputsFor(turn: int, ids: seq<string>): (r: seq<Emitted>)
    ensures |r| == |ids| && forall i :: 0 <= i < |r| ==> r[i] == Input(turn, ids[i])
  {
    if ids == [] then [] else [Input(turn, ids[0])] + InputsFor(turn, ids[1..])
  }

  function Emits(m: Marks, e: Entry): seq<Emitted> {
    match e
    case Compaction(begins) => [CompactionMarked(begins)]
    case RequestSent(turn, step) => [Sent(turn, step)]
    case MemoryEvent(known) => if known then [MemoryNoted] else []
    case TurnStart(turn) => [Started(turn)] + TriggerFor(m, turn, m.heldTrigger) + InputsFor(turn, m.heldInputs)
    case TurnEnd(turn) => [Ended(turn)]
    case UserMessage(id, eventId) =>
      if m.openTurn.None? then []
      else [Input(m.openTurn.value, id)] + if m.answered then [] else TriggerFor(m, m.openTurn.value, eventId)
    case StepMark(turn, step, begins) => [StepMarked(turn, step, begins)]
    case NestedStart(parent, callId) =>
      if parent in m.toolSteps then [Called(m.toolSteps[parent].0, m.toolSteps[parent].1, callId, Some(parent))] else []
    case NestedEnd(parent, callId) =>
      if parent in m.toolSteps then [Returned(m.toolSteps[parent].0, m.toolSteps[parent].1, callId, Some(parent))] else []
    case ToolCall(turn, step, callId) => [Called(turn, step, callId, None)]
    case ToolResult(turn, step, callId) => if callId == "" then [] else [Returned(turn, step, callId, None)]
    case Attempt(turn, step, at) => FirstTokenFor(m, turn, step, at)
    case AssistantMessage(turn, step, at, shown) => FirstTokenFor(m, turn, step, at) + if shown then [Said(turn, step)] else []
    case Retry(turn, step, begins) => [Retried(turn, step, begins)]
    case OtherEntry => []
  }

  function Marked(m: Marks, e: Entry): Marks {
    match e
    case TurnStart(turn) =>
      m.(turns := if turn in m.turns then m.turns else m.turns + [turn],
         openTurn := Some(turn), answered := false, heldTrigger := None, heldInputs := [],
         triggered := if m.heldTrigger.Some? then m.triggered + {turn} else m.triggered)
    case TurnEnd(turn) => m.(openTurn := if m.openTurn == Some(turn) then None else m.openTurn)
    case UserMessage(id, eventId) =>
      if m.openTurn.None? then
        m.(heldInputs := m.heldInputs + [id], heldTrigger := if eventId.Some? then eventId else m.heldTrigger)
      else if eventId.Some? && !m.answered then m.(triggered := m.triggered + {m.openTurn.value})
      else m
    case ToolCall(turn, step, callId) =>
      m.(answered := m.answered || Some(turn) == m.openTurn, toolSteps := m.toolSteps[callId := (turn, step)])
    case AssistantMessage(turn, step, at, _) =>
      m.(answered := m.answered || Some(turn) == m.openTurn,
         firstTokens := if at.Some? then m.firstTokens + {(turn, step)} else m.firstTokens)
    case Attempt(turn, step, at) => m.(firstTokens := if at.Some? then m.firstTokens + {(turn, step)} else m.firstTokens)
    case _ => m
  }

  function MarksOf(log: seq<Entry>, n: nat): Marks
    requires n <= |log|
  {
    if n == 0 then NO_MARKS else Marked(MarksOf(log, n - 1), log[n - 1])
  }

  /** Everything emitted for the first `n` entries. */
  function Out(log: seq<Entry>, n: nat): seq<Emitted>
    requires n <= |log|
  {
    if n == 0 then [] else Out(log, n - 1) + Emits(MarksOf(log, n - 1), log[n - 1])
  }

  function Responses(turns: seq<int>, of: int -> (ResponseState, bool)): (r: seq<Emitted>)
    ensures |r| == |turns| && forall i :: 0 <= i < |r| ==> r[i] == ChannelResponse(turns[i], of(turns[i]).0, of(turns[i]).1)
  {
    if turns == [] then [] else [ChannelResponse(turns[0], of(turns[0]).0, of(turns[0]).1)] + Responses(turns[1..], of)
  }

  function Normalized(log: seq<Entry>, of: int -> (ResponseState, bool)): seq<Emitted> {
    Out(log, |log|) + Responses(MarksOf(log, |log|).turns, of)
  }

  // ---------- The open turn, read off the log ----------

  /** The last turn start before entry `n`, if any. */
  function LastStart(log: seq<Entry>, n: nat): (s: int)
    requires n <= |log|
    ensures s == -1 || (0 <= s < n && log[s].TurnStart?)
    ensures forall i :: s < i < n ==> !log[i].TurnStart?
  {
    if n == 0 then -1 else if log[n - 1].TurnStart? then n - 1 else LastStart(log, n - 1)
  }

  predicate EndsIn(log: seq<Entry>, s: int, n: nat)
    requires 0 <= s < n <= |log| && log[s].TurnStart?
  {
    exists i :: s < i < n && log[i] == TurnEnd(log[s].turn)
  }

  /** The turn open when entry `n` comes: the one started last, unless it ended since. */
  function OpenAt(log: seq<Entry>, n: nat): Option<int>
    requires n <= |log|
  {
    var s := LastStart(log, n);
    if s < 0 || EndsIn(log, s, n) then None else Some(log[s].turn)
  }

  predicate Outputs(e: Entry, turn: int) {
    (e.AssistantMessage? || e.ToolCall?) && e.turn == turn
  }

  /** The model said or did something in the turn that started last. */
  predicate AnsweredAt(log: seq<Entry>, n: nat)
    requires n <= |log|
  {
    var s := LastStart(log, n);
    0 <= s && exists i :: s < i < n && Outputs(log[i], log[s].turn)
  }

  lemma OpenStep(log: seq<Entry>, n: nat)
    requires n < |log|
    ensures OpenAt(log, n + 1) ==
            if log[n].TurnStart? then Some(log[n].turn)
            else if OpenAt(log, n).Some? && log[n] == TurnEnd(OpenAt(log, n).value) then None
            else OpenAt(log, n)
  {
    var s, after := LastStart(log, n), n + 1;
    if 0 <= s && !log[n].TurnStart? {
      assert EndsIn(log, s, after) <==> EndsIn(log, s, n) || log[n] == TurnEnd(log[s].turn);
    }
  }

  lemma AnsweredStep(log: seq<Entry>, n: nat)
    requires n < |log|
    ensures log[n].TurnStart? ==> !AnsweredAt(log, n + 1)
    ensures !log[n].TurnStart? && OpenAt(log, n).Some? ==>
              (AnsweredAt(log, n + 1) <==> AnsweredAt(log, n) || Outputs(log[n], OpenAt(log, n).value))
  {
  }

  lemma {:induction false} MarksKnowTheOpenTurn(log: seq<Entry>, n: nat)
    requires n <= |log|
    ensures var m := MarksOf(log, n);
            && m.openTurn == OpenAt(log, n)
            && (m.openTurn.Some? ==> (m.answered <==> AnsweredAt(log, n)))
            && (m.openTurn.Some? ==> m.heldInputs == [] && m.heldTrigger.None?)
  {
    hide OpenAt, AnsweredAt;
    if n == 0 {
      NothingOpenFirst(log);
    } else {
      MarksKnowTheOpenTurn(log, n - 1);
      OpenStep(log, n - 1);
      AnsweredStep(log, n - 1);
    }
  }

  lemma NothingOpenFirst(log: seq<Entry>)
    ensures OpenAt(log, 0).None?
  {
  }

  // ---------- Inputs ----------

  /** The first turn start from `i` on, before `n`. */
  function NextStart(log: seq<Entry>, i: nat, n: nat): (r: Option<int>)
    requires i <= n <= |log|
    decreases n - i
  {
    if i == n then None else if log[i].TurnStart? then Some(log[i].turn) else NextStart(log, i + 1, n)
  }

  /** The turn an input at `i` belongs to, as far as entry `n`: the open one, or else the next one started. */
  function OwnerAt(log: seq<Entry>, i: nat, n: nat): Option<int>
    requires i < n <= |log|
  {
    if OpenAt(log, i).Some? then OpenAt(log, i) else NextStart(log, i, n)
  }

  /** Every user message among the first `k` entries with the turn it belongs to, as far as entry `n`. */
  function Owned(log: seq<Entry>, k: nat, n: nat): seq<(Option<int>, string)>
    requires k <= n <= |log|
  {
    if k == 0 then [] else Owned(log, k - 1, n) + OwnedOne(log, k - 1, n)
  }

  function OwnedOne(log: seq<Entry>, i: nat, n: nat): seq<(Option<int>, string)>
    requires i < n <= |log|
  {
    if log[i].UserMessage? then [(OwnerAt(log, i, n), log[i].id)] else []
  }

  /** The inputs emitted, with the turn each was put in. */
  function InputsOf(out: seq<Emitted>): seq<(Option<int>, string)> {
    if out == [] then []
    else (if out[0].Input? then [(Some(out[0].turn), out[0].id)] else []) + InputsOf(out[1..])
  }

  function Waiting(ids: seq<string>): (r: seq<(Option<int>, string)>)
    ensures |r| == |ids| && forall i :: 0 <= i < |r| ==> r[i] == (None, ids[i])
  {
    if ids == [] then [] else [(None, ids[0])] + Waiting(ids[1..])
  }

  /** A turn starting takes in whoever waited. */
  function TakenIn(list: seq<(Option<int>, string)>, turn: int): (r: seq<(Option<int>, string)>)
    ensures |r| == |list|
    ensures forall i :: 0 <= i < |r| ==> r[i] == if list[i].0.Some? then list[i] else (Some(turn), list[i].1)
  {
    if list == [] then [] else [if list[0].0.Some? then list[0] else (Some(turn), list[0].1)] + TakenIn(list[1..], turn)
  }

  lemma {:induction false} InputsSplit(a: seq<Emitted>, b: seq<Emitted>)
    ensures InputsOf(a + b) == InputsOf(a) + InputsOf(b)
  {
    if a == [] {
      assert a + b == b;
    } else {
      hide InputsOf;
      assert (a + b)[1..] == a[1..] + b;
      InputsSplit(a[1..], b);
      InputsOfFirst(a);
      InputsOfFirst(a + b);
    }
  }

  lemma InputsOfFirst(out: seq<Emitted>)
    requires out != []
    ensures InputsOf(out) == (if out[0].Input? then [(Some(out[0].turn), out[0].id)] else []) + InputsOf(out[1..])
  {
  }

  lemma {:induction false} InputsHaveTurns(out: seq<Emitted>)
    ensures forall p :: p in InputsOf(out) ==> p.0.Some?
  {
    if out != [] { InputsHaveTurns(out[1..]); }
  }

  lemma {:induction false} InputsOfTaken(turn: int, ids: seq<string>)
    ensures InputsOf(InputsFor(turn, ids)) == TakenIn(Waiting(ids), turn)
  {
    if ids != [] {
      InputsOfTaken(turn, ids[1..]);
      assert InputsFor(turn, ids)[1..] == InputsFor(turn, ids[1..]);
      assert Waiting(ids)[1..] == Waiting(ids[1..]);
    }
  }

  lemma {:induction false} NextStartStep(log: seq<Entry>, i: nat, n: nat)
    requires i <= n < |log|
    ensures NextStart(log, i, n + 1) ==
            if NextStart(log, i, n).Some? then NextStart(log, i, n) else if log[n].TurnStart? then Some(log[n].turn) else None
    decreases n - i
  {
    if i < n { NextStartStep(log, i + 1, n); }
  }

  lemma OwnedOneStep(log: seq<Entry>, i: nat, n: nat)
    requires i < n < |log|
    ensures OwnedOne(log, i, n + 1) ==
            if log[n].TurnStart? then TakenIn(OwnedOne(log, i, n), log[n].turn) else OwnedOne(log, i, n)
  {
    hide OpenAt, NextStart;
    NextStartStep(log, i, n);
  }

  lemma OwnedLast(log: seq<Entry>, k: nat, n: nat)
    requires 0 < k <= n <= |log|
    ensures Owned(log, k, n) == Owned(log, k - 1, n) + OwnedOne(log, k - 1, n)
  {
    hide OwnedOne;
  }

  lemma NothingOwnedAtFirst(log: seq<Entry>, n: nat, e: Entry)
    requires n < |log|
    ensures Owned(log, 0, n) == Owned(log, 0, n + 1) == []
    ensures e.TurnStart? ==> TakenIn([], e.turn) == []
  {
    hide OwnedOne;
  }

  lemma {:induction false} OwnedStep(log: seq<Entry>, k: nat, n: nat)
    requires k <= n < |log|
    ensures Owned(log, k, n + 1) == if log[n].TurnStart? then TakenIn(Owned(log, k, n), log[n].turn) else Owned(log, k, n)
  {
    hide OwnedOne, TakenIn, Owned;
    if k == 0 {
      NothingOwnedAtFirst(log, n, log[n]);
    } else {
      OwnedStep(log, k - 1, n);
      OwnedLast(log, k, n);
      OwnedLast(log, k, n + 1);
      OwnedOneStep(log, k - 1, n);
      if log[n].TurnStart? {
        TakenInSplits(Owned(log, k - 1, n), OwnedOne(log, k - 1, n), log[n].turn);
      }
    }
  }

  /** When it comes, an input belongs to the open turn if there is one, and to no turn yet otherwise. */
  lemma OwnerOfNewest(log: seq<Entry>, n: nat)
    requires n < |log|
    ensures OwnedOne(log, n, n + 1) == if log[n].UserMessage? then [(OpenAt(log, n), log[n].id)] else []
  {
    hide OpenAt;
    assert NextStart(log, n + 1, n + 1).None?;
  }

  lemma TakenInSplits(a: seq<(Option<int>, string)>, b: seq<(Option<int>, string)>, turn: int)
    ensures TakenIn(a + b, turn) == TakenIn(a, turn) + TakenIn(b, turn)
  {
  }

  lemma {:induction false} NoInputs(out: seq<Emitted>)
    requires forall x :: x in out ==> !x.Input?
    ensures InputsOf(out) == []
  {
    if out != [] {
      assert out[0] in out;
      NoInputs(out[1..]);
    }
  }

  /** What one entry does to the inputs: a user message joins its turn or waits, a turn start takes in whoever waited. */
  lemma InputsStep(m: Marks, e: Entry)
    requires m.openTurn.Some? ==> m.heldInputs == []
    ensures var waiting, emitted := Waiting(m.heldInputs), InputsOf(Emits(m, e));
            var later := Waiting(Marked(m, e).heldInputs);
            if e.TurnStart? then emitted == TakenIn(waiting, e.turn) && later == []
            else if e.UserMessage? then emitted + later == waiting + [(m.openTurn, e.id)]
            else emitted == [] && later == waiting
  {
    hide InputsOf, Waiting, TakenIn, InputsFor;
    match e
    case TurnStart(turn) =>
      var head := [Started(turn)] + TriggerFor(m, turn, m.heldTrigger);
      InputsOfTaken(turn, m.heldInputs);
      InputsSplit(head, InputsFor(turn, m.heldInputs));
      NoInputs(head);
      NoneWaiting();
    case UserMessage(id, eventId) =>
      if m.openTurn.Some? {
        var tail := if m.answered then [] else TriggerFor(m, m.openTurn.value, eventId);
        InputsSplit([Input(m.openTurn.value, id)], tail);
        NoInputs(tail);
        OneInput(m.openTurn.value, id);
        NoneWaiting();
      } else {
        WaitingSplits(m.heldInputs, id);
        NoInputs([]);
      }
    case _ => NoInputs(Emits(m, e));
  }

  lemma NoneWaiting()
    ensures Waiting([]) == []
  {
  }

  lemma OneInput(turn: int, id: string)
    ensures InputsOf([Input(turn, id)]) == [(Some(turn), id)]
  {
  }

  lemma WaitingSplits(ids: seq<string>, id: string)
    ensures Waiting(ids + [id]) == Waiting(ids) + [(None, id)]
  {
  }

  /** With what one entry emits and leaves waiting, the list stays complete. */
  lemma ConservedStep(log: seq<Entry>, n: nat, before: seq<(Option<int>, string)>, m: Marks)
    requires n < |log| && m.openTurn == OpenAt(log, n) && (m.openTurn.Some? ==> m.heldInputs == [])
    requires before + Waiting(m.heldInputs) == Owned(log, n, n) && forall p :: p in before ==> p.0.Some?
    ensures (before + InputsOf(Emits(m, log[n]))) + Waiting(Marked(m, log[n]).heldInputs) == Owned(log, n + 1, n + 1)
  {
    hide Emits, Marked, OpenAt, InputsOf, Waiting, TakenIn, OwnedOne;
    var e, emitted, later := log[n], InputsOf(Emits(m, log[n])), Waiting(Marked(m, log[n]).heldInputs);
    InputsStep(m, e);
    OwnedStep(log, n, n);
    OwnerOfNewest(log, n);
    if e.TurnStart? {
      TakenInSplits(before, Waiting(m.heldInputs), e.turn);
      AllTakenIn(before, e.turn);
    } else {
      Regrouped(before, emitted, later, Waiting(m.heldInputs), OwnedOne(log, n, n + 1));
    }
  }

  /**
   No input is lost, doubled or reordered: the emitted ones followed by the waiting ones are the user messages of the log,
   in its order, each with the turn that was open when it came or the next one started.
   */
  lemma {:induction false} InputsAreConserved(log: seq<Entry>, n: nat)
    requires n <= |log|
    ensures InputsOf(Out(log, n)) + Waiting(MarksOf(log, n).heldInputs) == Owned(log, n, n)
  {
    hide Emits, Marked, OpenAt, InputsOf, Waiting, Owned;
    if n == 0 {
      NoneOwned(log);
    } else {
      InputsAreConserved(log, n - 1);
      MarksKnowTheOpenTurn(log, n - 1);
      InputsSplit(Out(log, n - 1), Emits(MarksOf(log, n - 1), log[n - 1]));
      InputsHaveTurns(Out(log, n - 1));
      ConservedStep(log, n - 1, InputsOf(Out(log, n - 1)), MarksOf(log, n - 1));
    }
  }

  lemma NoneOwned(log: seq<Entry>)
    ensures InputsOf([]) == [] && Waiting([]) == [] && Owned(log, 0, 0) == []
  {
  }

  lemma Regrouped<T>(a: seq<T>, b: seq<T>, c: seq<T>, d: seq<T>, e: seq<T>)
    requires b + c == d + e
    ensures (a + b) + c == (a + d) + e
  {
    assert (a + b) + c == a + (b + c) && (a + d) + e == a + (d + e);
  }

  lemma AllTakenIn(list: seq<(Option<int>, string)>, turn: int)
    requires forall p :: p in list ==> p.0.Some?
    ensures TakenIn(list, turn) == list
  {
    forall i | 0 <= i < |list| ensures list[i].0.Some? {
      assert list[i] in list;
    }
  }

  // ---------- The first of each key ----------

  /** The first candidate with this key has this value. */
  predicate IsFirst<K(==), V(==)>(candidates: seq<Option<(K, V)>>, key: K, value: V) {
    exists i :: 0 <= i < |candidates| && candidates[i] == Some((key, value)) && !HasKey(candidates[..i], key)
  }

  predicate HasKey<K(==), V>(candidates: seq<Option<(K, V)>>, key: K) {
    exists i :: 0 <= i < |candidates| && candidates[i].Some? && candidates[i].value.0 == key
  }

  lemma OneMoreCandidate<K, V>(before: seq<Option<(K, V)>>, next: Option<(K, V)>, key: K, value: V)
    ensures IsFirst(before + [next], key, value) <==> IsFirst(before, key, value) || (next == Some((key, value)) && !HasKey(before, key))
    ensures HasKey(before + [next], key) <==> HasKey(before, key) || (next.Some? && next.value.0 == key)
  {
    var all := before + [next];
    assert all[..|before|] == before;
    if IsFirst(before, key, value) {
      var i :| 0 <= i < |before| && before[i] == Some((key, value)) && !HasKey(before[..i], key);
      assert all[i] == before[i] && all[..i] == before[..i];
    }
    if IsFirst(all, key, value) {
      var i :| 0 <= i < |all| && all[i] == Some((key, value)) && !HasKey(all[..i], key);
      if i < |before| { assert before[i] == all[i] && before[..i] == all[..i]; }
    }
    if HasKey(before, key) {
      var i :| 0 <= i < |before| && before[i].Some? && before[i].value.0 == key;
      assert all[i] == before[i];
    }
    if next.Some? && next.value.0 == key { assert all[|before|] == next; }
  }

  // ---------- Triggers ----------

  /** An admission logged while no turn is open. */
  predicate Waits(log: seq<Entry>, i: nat)
    requires i < |log|
  {
    log[i].UserMessage? && log[i].eventId.Some? && OpenAt(log, i).None?
  }

  /** The last admission waiting for a turn when entry `n` comes, if any did since the last start. */
  function LastWaiting(log: seq<Entry>, n: nat): (j: int)
    requires n <= |log|
    ensures j == -1 || (0 <= j < n && Waits(log, j))
    ensures 0 <= j ==> forall i :: j < i < n ==> !log[i].TurnStart? && !Waits(log, i)
    ensures j == -1 ==> forall i :: LastStart(log, n) < i < n ==> !Waits(log, i)
  {
    if n == 0 || log[n - 1].TurnStart? then -1 else if Waits(log, n - 1) then n - 1 else LastWaiting(log, n - 1)
  }

  /**
   What may trigger a turn: for a turn just starting the last admission waiting for it; for the open turn an admission
   logged before the turn's first model output.
   */
  function CandidateAt(log: seq<Entry>, i: nat): Option<(int, string)>
    requires i < |log|
  {
    match log[i]
    case TurnStart(turn) =>
      var j := LastWaiting(log, i);
      if j < 0 then None else Some((turn, log[j].eventId.value))
    case UserMessage(_, eventId) =>
      if eventId.Some? && OpenAt(log, i).Some? && !AnsweredAt(log, i) then Some((OpenAt(log, i).value, eventId.value)) else None
    case _ => None
  }

  function Candidates(log: seq<Entry>, n: nat): seq<Option<(int, string)>>
    requires n <= |log|
  {
    if n == 0 then [] else Candidates(log, n - 1) + [CandidateAt(log, n - 1)]
  }

  lemma {:induction false} MarksKnowWhoWaits(log: seq<Entry>, n: nat)
    requires n <= |log|
    ensures var j := LastWaiting(log, n); MarksOf(log, n).heldTrigger == if j < 0 then None else log[j].eventId
  {
    hide OpenAt, AnsweredAt;
    if n > 0 {
      MarksKnowWhoWaits(log, n - 1);
      MarksKnowTheOpenTurn(log, n - 1);
    }
  }

  lemma InputsForAreInputs(turn: int, ids: seq<string>)
    ensures forall x :: x in InputsFor(turn, ids) ==> x.Input?
  {
  }

  lemma TriggerStep(log: seq<Entry>, n: nat, turn: int, eventId: string)
    requires n < |log|
    ensures var m := MarksOf(log, n);
            && (Trigger(turn, eventId) in Emits(m, log[n]) <==> CandidateAt(log, n) == Some((turn, eventId)) && turn !in m.triggered)
            && (turn in Marked(m, log[n]).triggered <==>
                  turn in m.triggered || (CandidateAt(log, n).Some? && CandidateAt(log, n).value.0 == turn))
  {
    hide OpenAt, AnsweredAt, LastWaiting, InputsFor, MarksOf;
    MarksKnowTheOpenTurn(log, n);
    MarksKnowWhoWaits(log, n);
    InputsForAreInputs(if log[n].TurnStart? then log[n].turn else 0, MarksOf(log, n).heldInputs);
  }

  /**
   A trigger is emitted for a turn exactly when it is the turn's first candidate: the admission that waited for the turn
   last or, if none did, the first one logged in it before any model output.
   */
  lemma {:induction false} TriggeredByTheFirstCandidate(log: seq<Entry>, n: nat, turn: int, eventId: string)
    requires n <= |log|
    ensures Trigger(turn, eventId) in Out(log, n) <==> IsFirst(Candidates(log, n), turn, eventId)
    ensures turn in MarksOf(log, n).triggered <==> HasKey(Candidates(log, n), turn)
  {
    hide Emits, Marked, CandidateAt, IsFirst, HasKey;
    if n == 0 {
      NoCandidates<int, string>(turn, eventId);
    } else {
      TriggeredByTheFirstCandidate(log, n - 1, turn, eventId);
      TriggerStep(log, n - 1, turn, eventId);
      OneMoreCandidate(Candidates(log, n - 1), CandidateAt(log, n - 1), turn, eventId);
    }
  }

  lemma NoCandidates<K, V>(key: K, value: V)
    ensures !IsFirst<K, V>([], key, value) && !HasKey<K, V>([], key)
  {
  }

  /** At most one event of a kind has this key. */
  ghost predicate AtMostOne(out: seq<Emitted>, of: Emitted -> bool) {
    forall i, j :: 0 <= i < j < |out| ==> !of(out[i]) || !of(out[j])
  }

  lemma OneMoreBatch(out: seq<Emitted>, more: seq<Emitted>, of: Emitted -> bool)
    requires AtMostOne(out, of) && AtMostOne(more, of)
    requires (forall x :: x in out ==> !of(x)) || (forall x :: x in more ==> !of(x))
    ensures AtMostOne(out + more, of)
  {
    var all := out + more;
    forall i, j | 0 <= i < j < |all| && of(all[i]) ensures !of(all[j]) {
      if i < |out| { assert out[i] in out; }
      if |out| <= j { assert more[j - |out|] in more; }
      if j < |out| { assert out[j] == all[j]; }
    }
  }

  function TriggerOf(turn: int): Emitted -> bool {
    (x: Emitted) => x.Trigger? && x.turn == turn
  }

  function FirstTokenOf(turn: int, step: int): Emitted -> bool {
    (x: Emitted) => x.FirstToken? && x.turn == turn && x.step == step
  }

  /** One entry emits at most one trigger, and none for a turn that has one. */
  lemma TriggerOnce(m: Marks, e: Entry, turn: int)
    ensures AtMostOne(Emits(m, e), TriggerOf(turn))
    ensures turn in m.triggered ==> forall x :: x in Emits(m, e) ==> !TriggerOf(turn)(x)
  {
    hide InputsFor;
    if e.TurnStart? { InputsForAreInputs(e.turn, m.heldInputs); }
    if e.TurnStart? {
      var inputs := InputsFor(e.turn, m.heldInputs);
      forall i | 0 <= i < |inputs| ensures inputs[i].Input? { assert inputs[i] in inputs; }
    }
  }

  lemma {:induction false} EachTurnHasOneTrigger(log: seq<Entry>, n: nat, turn: int)
    requires n <= |log|
    ensures AtMostOne(Out(log, n), TriggerOf(turn))
  {
    hide Emits, Marked, AtMostOne;
    if n == 0 {
      NoneTwice(TriggerOf(turn));
    } else {
      var m, e := MarksOf(log, n - 1), log[n - 1];
      EachTurnHasOneTrigger(log, n - 1, turn);
      TriggerOnce(m, e, turn);
      if turn !in m.triggered {
        forall x | x in Out(log, n - 1) ensures !TriggerOf(turn)(x) {
          if x.Trigger? && x.turn == turn {
            TriggeredByTheFirstCandidate(log, n - 1, turn, x.eventId);
            FirstHasKey(Candidates(log, n - 1), turn, x.eventId);
          }
        }
      }
      OneMoreBatch(Out(log, n - 1), Emits(m, e), TriggerOf(turn));
    }
  }

  lemma FirstHasKey<K, V>(candidates: seq<Option<(K, V)>>, key: K, value: V)
    ensures IsFirst(candidates, key, value) ==> HasKey(candidates, key)
  {
  }

  lemma NoneTwice(of: Emitted -> bool)
    ensures AtMostOne([], of)
  {
  }

  // ---------- First tokens ----------

  function TokenAt(log: seq<Entry>, i: nat): Option<((int, int), int)>
    requires i < |log|
  {
    var e := log[i];
    if (e.Attempt? || e.AssistantMessage?) && e.firstToken.Some? then Some(((e.turn, e.step), e.firstToken.value)) else None
  }

  function Tokens(log: seq<Entry>, n: nat): seq<Option<((int, int), int)>>
    requires n <= |log|
  {
    if n == 0 then [] else Tokens(log, n - 1) + [TokenAt(log, n - 1)]
  }

  lemma TokenStep(log: seq<Entry>, n: nat, turn: int, step: int, at: int)
    requires n < |log|
    ensures var m := MarksOf(log, n);
            && (FirstToken(turn, step, at) in Emits(m, log[n]) <==>
                  TokenAt(log, n) == Some(((turn, step), at)) && (turn, step) !in m.firstTokens)
            && ((turn, step) in Marked(m, log[n]).firstTokens <==>
                  (turn, step) in m.firstTokens || (TokenAt(log, n).Some? && TokenAt(log, n).value.0 == (turn, step)))
  {
    hide InputsFor, MarksOf;
    InputsForAreInputs(if log[n].TurnStart? then log[n].turn else 0, MarksOf(log, n).heldInputs);
  }

  /** A step's first-token event carries the first token of its first stream that had one; no step gets two. */
  lemma {:induction false} FirstTokenOfEachStep(log: seq<Entry>, n: nat, turn: int, step: int, at: int)
    requires n <= |log|
    ensures FirstToken(turn, step, at) in Out(log, n) <==> IsFirst(Tokens(log, n), (turn, step), at)
    ensures (turn, step) in MarksOf(log, n).firstTokens <==> HasKey(Tokens(log, n), (turn, step))
    ensures AtMostOne(Out(log, n), FirstTokenOf(turn, step))
  {
    hide Emits, Marked, TokenAt, IsFirst, HasKey, AtMostOne;
    if n == 0 {
      NoCandidates<(int, int), int>((turn, step), at);
      NoneTwice(FirstTokenOf(turn, step));
    } else {
      var m, e := MarksOf(log, n - 1), log[n - 1];
      FirstTokenOfEachStep(log, n - 1, turn, step, at);
      TokenStep(log, n - 1, turn, step, at);
      OneMoreCandidate(Tokens(log, n - 1), TokenAt(log, n - 1), (turn, step), at);
      TokenOnce(m, e, turn, step);
      if (turn, step) !in m.firstTokens {
        forall x | x in Out(log, n - 1) ensures !FirstTokenOf(turn, step)(x) {
          if x.FirstToken? && x.turn == turn && x.step == step {
            FirstTokenOfEachStep(log, n - 1, turn, step, x.at);
            FirstHasKey(Tokens(log, n - 1), (turn, step), x.at);
          }
        }
      }
      OneMoreBatch(Out(log, n - 1), Emits(m, e), FirstTokenOf(turn, step));
    }
  }

  lemma TokenOnce(m: Marks, e: Entry, turn: int, step: int)
    ensures AtMostOne(Emits(m, e), FirstTokenOf(turn, step))
    ensures (turn, step) in m.firstTokens ==> forall x :: x in Emits(m, e) ==> !FirstTokenOf(turn, step)(x)
  {
    hide InputsFor;
    if e.TurnStart? {
      InputsForAreInputs(e.turn, m.heldInputs);
      var inputs := InputsFor(e.turn, m.heldInputs);
      forall i | 0 <= i < |inputs| ensures inputs[i].Input? { assert inputs[i] in inputs; }
    }
  }

  // ---------- Nested calls ----------

  /** The latest direct call with this id before entry `n`, if any. */
  function LatestCall(log: seq<Entry>, n: nat, callId: string): (j: int)
    requires n <= |log|
    ensures j == -1 || (0 <= j < n && log[j].ToolCall? && log[j].callId == callId)
    ensures forall i :: j < i < n ==> !(log[i].ToolCall? && log[i].callId == callId)
  {
    if n == 0 then -1
    else if log[n - 1].ToolCall? && log[n - 1].callId == callId then n - 1
    else LatestCall(log, n - 1, callId)
  }

  lemma {:induction false} MarksKnowTheCalls(log: seq<Entry>, n: nat, callId: string)
    requires n <= |log|
    ensures var m, j := MarksOf(log, n), LatestCall(log, n, callId);
            && (callId in m.toolSteps <==> 0 <= j)
            && (0 <= j ==> m.toolSteps[callId] == (log[j].turn, log[j].step))
  {
    if n > 0 { MarksKnowTheCalls(log, n - 1, callId); }
  }

  /** Entry `i` starts or ends a nested call of a program that sits in this step. */
  predicate NestedIn(log: seq<Entry>, i: nat, turn: int, step: int, callId: string, parent: string, starts: bool)
    requires i < |log|
  {
    var j := LatestCall(log, i, parent);
    && log[i] == (if starts then NestedStart(parent, callId) else NestedEnd(parent, callId))
    && 0 <= j && log[j].turn == turn && log[j].step == step
  }

  lemma NestedStep(log: seq<Entry>, n: nat, turn: int, step: int, callId: string, parent: string)
    requires n < |log|
    ensures var m := MarksOf(log, n);
            && (Called(turn, step, callId, Some(parent)) in Emits(m, log[n]) <==> NestedIn(log, n, turn, step, callId, parent, true))
            && (Returned(turn, step, callId, Some(parent)) in Emits(m, log[n]) <==> NestedIn(log, n, turn, step, callId, parent, false))
  {
    hide InputsFor, MarksOf, LatestCall;
    MarksKnowTheCalls(log, n, parent);
    InputsForAreInputs(if log[n].TurnStart? then log[n].turn else 0, MarksOf(log, n).heldInputs);
  }

  lemma OutLast(log: seq<Entry>, n: nat, x: Emitted)
    requires 0 < n <= |log|
    ensures x in Out(log, n) <==> x in Out(log, n - 1) || x in Emits(MarksOf(log, n - 1), log[n - 1])
  {
    hide Emits, MarksOf;
  }

  /** A nested call appears exactly when its program was called before, and in the turn and step of its latest call. */
  lemma {:induction false} NestedCallsJoinTheirProgram(
      log: seq<Entry>, n: nat, turn: int, step: int, callId: string, parent: string)
    requires n <= |log|
    ensures Called(turn, step, callId, Some(parent)) in Out(log, n) <==>
            exists i: nat :: i < n && NestedIn(log, i, turn, step, callId, parent, true)
    ensures Returned(turn, step, callId, Some(parent)) in Out(log, n) <==>
            exists i: nat :: i < n && NestedIn(log, i, turn, step, callId, parent, false)
  {
    hide NestedIn, Emits, MarksOf;
    if n > 0 {
      NestedCallsJoinTheirProgram(log, n - 1, turn, step, callId, parent);
      NestedStep(log, n - 1, turn, step, callId, parent);
      hide Out;
      OutLast(log, n, Called(turn, step, callId, Some(parent)));
      OutLast(log, n, Returned(turn, step, callId, Some(parent)));
    }
  }

  // ---------- Response states ----------

  /** One response state for every turn started, in the order of their first starts. */
  lemma {:induction false} TurnsAreTheStartedOnes(log: seq<Entry>, n: nat)
    requires n <= |log|
    ensures var turns := MarksOf(log, n).turns;
            && (forall turn :: turn in turns <==> exists i :: 0 <= i < n && log[i] == TurnStart(turn))
            && (forall a, b :: 0 <= a < b < |turns| ==> StartsFirst(log, n, turns[a], turns[b]))
  {
    if n > 0 {
      TurnsAreTheStartedOnes(log, n - 1);
      var before, turns := MarksOf(log, n - 1).turns, MarksOf(log, n).turns;
      assert turns == before || (log[n - 1].TurnStart? && turns == before + [log[n - 1].turn] && log[n - 1].turn !in before);
      forall a, b | 0 <= a < b < |turns| ensures StartsFirst(log, n, turns[a], turns[b]) {
        if b < |before| {
          assert StartsFirst(log, n - 1, before[a], before[b]);
        } else {
          assert before[a] in before;
          var i :| 0 <= i < n - 1 && log[i] == TurnStart(before[a]);
          assert StartsFirst(log, n, turns[a], turns[b]);
        }
      }
    }
  }

  /** A start of the first turn comes before every start of the second. */
  ghost predicate StartsFirst(log: seq<Entry>, n: nat, turn: int, other: int)
    requires n <= |log|
  {
    exists i :: 0 <= i < n && log[i] == TurnStart(turn) && forall k :: 0 <= k <= i ==> log[k] != TurnStart(other)
  }

  // ---------- A turn that starts once ----------

  lemma {:induction false} CandidatesByEntry(log: seq<Entry>, n: nat)
    requires n <= |log|
    ensures |Candidates(log, n)| == n && forall i :: 0 <= i < n ==> Candidates(log, n)[i] == CandidateAt(log, i)
  {
    hide CandidateAt;
    if n > 0 { CandidatesByEntry(log, n - 1); }
  }

  /** Only the open turn, or one just starting, has candidates. */
  lemma CandidatesFollowAStart(log: seq<Entry>, i: nat, turn: int)
    requires i < |log| && CandidateAt(log, i).Some? && CandidateAt(log, i).value.0 == turn
    ensures exists s :: 0 <= s <= i && log[s] == TurnStart(turn)
  {
    hide LastWaiting, AnsweredAt;
    if !log[i].TurnStart? {
      assert log[LastStart(log, i)] == TurnStart(turn);
    }
  }

  /** An admission logged in this turn before the model said or did anything in it. */
  predicate EarlyAdmission(log: seq<Entry>, i: nat, turn: int)
    requires i < |log|
  {
    log[i].UserMessage? && log[i].eventId.Some? && OpenAt(log, i) == Some(turn) && !AnsweredAt(log, i)
  }

  /**
   A turn that starts once is triggered by the last admission that waited for it; if none did, by the first admission
   logged in it before any model output; and by nothing else.
   */
  lemma TriggerOfATurn(log: seq<Entry>, s: nat, turn: int, eventId: string)
    requires s < |log| && log[s] == TurnStart(turn) && forall i :: 0 <= i < |log| && i != s ==> log[i] != TurnStart(turn)
    ensures Trigger(turn, eventId) in Out(log, |log|) <==>
            if LastWaiting(log, s) >= 0 then log[LastWaiting(log, s)].eventId == Some(eventId)
            else exists i: nat :: s < i < |log| && EarlyAdmission(log, i, turn) && log[i].eventId == Some(eventId)
                                  && forall k: nat :: s < k < i ==> !EarlyAdmission(log, k, turn)
  {
    hide LastWaiting, OpenAt, AnsweredAt, Out;
    TriggeredByTheFirstCandidate(log, |log|, turn, eventId);
    CandidatesByEntry(log, |log|);
    var c := Candidates(log, |log|);
    forall i | 0 <= i < s ensures !(c[i].Some? && c[i].value.0 == turn) {
      if c[i].Some? && c[i].value.0 == turn { CandidatesFollowAStart(log, i, turn); }
    }
    forall i: nat | s < i < |log| ensures (c[i].Some? && c[i].value.0 == turn) <==> EarlyAdmission(log, i, turn) {}
    if LastWaiting(log, s) >= 0 {
      FirstIs(c, s, turn, eventId);
    } else {
      FirstAfter(c, s, turn, eventId);
    }
  }

  lemma FirstIs<K, V>(c: seq<Option<(K, V)>>, s: nat, key: K, value: V)
    requires s < |c| && c[s].Some? && c[s].value.0 == key
    requires forall i :: 0 <= i < s ==> !(c[i].Some? && c[i].value.0 == key)
    ensures IsFirst(c, key, value) <==> c[s].value.1 == value
  {
    forall i | s < i <= |c| ensures HasKey(c[..i], key) {
      assert c[..i][s] == c[s];
    }
    if c[s].value.1 == value {
      assert c[s] == Some((key, value)) && !HasKey(c[..s], key);
    }
  }

  lemma FirstAfter<K, V>(c: seq<Option<(K, V)>>, s: nat, key: K, value: V)
    requires s < |c| && forall i :: 0 <= i <= s ==> !(c[i].Some? && c[i].value.0 == key)
    ensures IsFirst(c, key, value) <==>
            exists i :: s < i < |c| && c[i] == Some((key, value)) && forall k :: s < k < i ==> !(c[k].Some? && c[k].value.0 == key)
  {
    if IsFirst(c, key, value) {
      var i :| 0 <= i < |c| && c[i] == Some((key, value)) && !HasKey(c[..i], key);
      forall k | s < k < i ensures !(c[k].Some? && c[k].value.0 == key) {
        assert c[..i][k] == c[k];
      }
    }
    if i :| s < i < |c| && c[i] == Some((key, value)) && forall k :: s < k < i ==> !(c[k].Some? && c[k].value.0 == key) {
      assert !HasKey(c[..i], key);
    }
  }

  // ---------- Every event and its entry ----------

  /** The events that an entry gives rise to by itself, whatever came before it. */
  predicate Reports(e: Entry, x: Emitted) {
    match x
    case CompactionMarked(begins) => e == Compaction(begins)
    case Sent(turn, step) => e == RequestSent(turn, step)
    case MemoryNoted => e == MemoryEvent(true)
    case Started(turn) => e == TurnStart(turn)
    case Ended(turn) => e == TurnEnd(turn)
    case StepMarked(turn, step, begins) => e == StepMark(turn, step, begins)
    case Called(turn, step, callId, parent) => parent.None? && e == ToolCall(turn, step, callId)
    case Returned(turn, step, callId, parent) => parent.None? && callId != "" && e == ToolResult(turn, step, callId)
    case Retried(turn, step, begins) => e == Retry(turn, step, begins)
    case Said(turn, step) => e.AssistantMessage? && e.shown && e.turn == turn && e.step == step
    case _ => false
  }

  /** The kinds of events that depend on what came before. */
  predicate Contextual(x: Emitted) {
    || x.Trigger? || x.Input? || x.FirstToken? || x.ChannelResponse?
    || ((x.Called? || x.Returned?) && x.parent.Some?)
  }

  /** What entry `i` must be for the event to be emitted with it. */
  predicate ComesFrom(log: seq<Entry>, i: nat, x: Emitted)
    requires i < |log|
  {
    match x
    case Trigger(turn, eventId) => CandidateAt(log, i) == Some((turn, eventId))
    case FirstToken(turn, step, at) => TokenAt(log, i) == Some(((turn, step), at))
    case Input(turn, id) => log[i] == TurnStart(turn) || (log[i].UserMessage? && log[i].id == id && OpenAt(log, i) == Some(turn))
    case Called(turn, step, callId, Some(parent)) => NestedIn(log, i, turn, step, callId, parent, true)
    case Returned(turn, step, callId, Some(parent)) => NestedIn(log, i, turn, step, callId, parent, false)
    case _ => Reports(log[i], x)
  }

  /** Which event comes first, of two emitted with one entry. */
  predicate Precedes(e: Entry, x: Emitted, y: Emitted) {
    match e
    case TurnStart(_) => (x.Started? && (y.Trigger? || y.Input?)) || (x.Trigger? && y.Input?) || (x.Input? && y.Input?)
    case UserMessage(_, _) => x.Input? && y.Trigger?
    case AssistantMessage(_, _, _, _) => x.FirstToken? && y.Said?
    case _ => false
  }

  /** The list holds what the first `n` entries give rise to: each event with its entry, and in the order of the entries. */
  ghost predicate Told(log: seq<Entry>, n: nat, out: seq<Emitted>, from: seq<nat>)
    requires n <= |log|
  {
    && |from| == |out|
    && (forall k :: 0 <= k < |out| ==> from[k] < n && ComesFrom(log, from[k], out[k]))
    && (forall k, l :: 0 <= k < l < |out| ==> from[k] < from[l] || (from[k] == from[l] && Precedes(log[from[k]], out[k], out[l])))
    && (forall i, x :: 0 <= i < n && Reports(log[i], x) ==> exists k :: 0 <= k < |out| && from[k] == i && out[k] == x)
  }

  lemma EmittedInOrder(m: Marks, e: Entry)
    ensures forall k, l :: 0 <= k < l < |Emits(m, e)| ==> Precedes(e, Emits(m, e)[k], Emits(m, e)[l])
  {
    hide InputsFor;
    if e.TurnStart? {
      var inputs := InputsFor(e.turn, m.heldInputs);
      forall i | 0 <= i < |inputs| ensures inputs[i].Input? { assert inputs[i] == Input(e.turn, m.heldInputs[i]); }
    }
  }

  lemma PlainlyEmitted(m: Marks, e: Entry, x: Emitted)
    requires !Contextual(x)
    ensures x in Emits(m, e) <==> Reports(e, x)
  {
    hide InputsFor;
    if e.TurnStart? { InputsForAreInputs(e.turn, m.heldInputs); }
  }

  lemma InputComesFrom(m: Marks, e: Entry, turn: int, id: string)
    requires Input(turn, id) in Emits(m, e)
    ensures e == TurnStart(turn) || (e.UserMessage? && e.id == id && m.openTurn == Some(turn))
  {
    hide InputsFor;
    if e.TurnStart? {
      var inputs := InputsFor(e.turn, m.heldInputs);
      forall x | x in inputs ensures x.Input? && x.turn == e.turn { var i :| 0 <= i < |inputs| && inputs[i] == x; }
    }
  }

  lemma EmittedComesFrom(log: seq<Entry>, n: nat, x: Emitted)
    requires n < |log| && x in Emits(MarksOf(log, n), log[n])
    ensures ComesFrom(log, n, x)
  {
    hide MarksOf, Emits, Marked, CandidateAt, TokenAt, NestedIn, OpenAt;
    match x
    case Trigger(turn, eventId) => TriggerStep(log, n, turn, eventId);
    case FirstToken(turn, step, at) => TokenStep(log, n, turn, step, at);
    case Input(turn, id) =>
      InputComesFrom(MarksOf(log, n), log[n], turn, id);
      MarksKnowTheOpenTurn(log, n);
    case Called(turn, step, callId, Some(parent)) => NestedStep(log, n, turn, step, callId, parent);
    case Returned(turn, step, callId, Some(parent)) => NestedStep(log, n, turn, step, callId, parent);
    case ChannelResponse(_, _, _) => NoResponsesYet(MarksOf(log, n), log[n], x);
    case _ => PlainlyEmitted(MarksOf(log, n), log[n], x);
  }

  lemma NoResponsesYet(m: Marks, e: Entry, x: Emitted)
    requires x.ChannelResponse?
    ensures x !in Emits(m, e)
  {
    hide InputsFor;
    if e.TurnStart? { InputsForAreInputs(e.turn, m.heldInputs); }
  }

  lemma ToldOneMore(log: seq<Entry>, n: nat, out: seq<Emitted>, from: seq<nat>, more: seq<Emitted>)
    requires n < |log| && Told(log, n, out, from)
    requires forall x :: x in more ==> ComesFrom(log, n, x)
    requires forall k, l :: 0 <= k < l < |more| ==> Precedes(log[n], more[k], more[l])
    requires forall x :: Reports(log[n], x) ==> x in more
    ensures Told(log, n + 1, out + more, from + seq(|more|, _ => n))
  {
    hide ComesFrom, Precedes, Reports;
    var all, at := out + more, from + seq(|more|, _ => n);
    forall k | 0 <= k < |all| ensures at[k] < n + 1 && ComesFrom(log, at[k], all[k]) {
      if k >= |out| { assert all[k] in more; }
    }
    forall i, x | 0 <= i < n + 1 && Reports(log[i], x) ensures exists k :: 0 <= k < |all| && at[k] == i && all[k] == x {
      if i < n {
        var k :| 0 <= k < |out| && from[k] == i && out[k] == x;
        assert at[k] == i && all[k] == x;
      } else {
        var k :| 0 <= k < |more| && more[k] == x;
        assert at[|out| + k] == i && all[|out| + k] == x;
      }
    }
  }

  /** Every event of the result comes from its entry, in order, and every entry's own event is there exactly once. */
  lemma {:induction false} EventsFollowTheLog(log: seq<Entry>, n: nat) returns (from: seq<nat>)
    requires n <= |log|
    ensures Told(log, n, Out(log, n), from)
  {
    hide Emits, MarksOf, ComesFrom, Precedes, Reports;
    from := [];
    if n > 0 {
      var before := EventsFollowTheLog(log, n - 1);
      var more := Emits(MarksOf(log, n - 1), log[n - 1]);
      forall x | x in more ensures ComesFrom(log, n - 1, x) { EmittedComesFrom(log, n - 1, x); }
      forall x | Reports(log[n - 1], x) ensures x in more {
        OwnEventIsPlain(log[n - 1], x);
        PlainlyEmitted(MarksOf(log, n - 1), log[n - 1], x);
      }
      EmittedInOrder(MarksOf(log, n - 1), log[n - 1]);
      ToldOneMore(log, n - 1, Out(log, n - 1), before, more);
      from := before + seq(|more|, _ => n - 1);
    }
  }

  lemma OwnEventIsPlain(e: Entry, x: Emitted)
    requires Reports(e, x)
    ensures !Contextual(x)
  {
  }

  /** An event that needs no context is emitted exactly when some entry is its own. */
  lemma OwnEventsExactlyForEntries(log: seq<Entry>, n: nat, x: Emitted)
    requires n <= |log| && !Contextual(x)
    ensures x in Out(log, n) <==> exists i :: 0 <= i < n && Reports(log[i], x)
  {
    hide Out, Reports, Precedes;
    var from := EventsFollowTheLog(log, n);
    if x in Out(log, n) {
      var k :| 0 <= k < |Out(log, n)| && Out(log, n)[k] == x;
      assert ComesFrom(log, from[k], x);
    }
  }

  // ---------- The whole result ----------

  lemma {:induction false} ResponsesHoldNoInput(turns: seq<int>, of: int -> (ResponseState, bool))
    ensures InputsOf(Responses(turns, of)) == []
  {
    if turns != [] { ResponsesHoldNoInput(turns[1..], of); }
  }

  /** Nothing else is added at the end, so what holds of the emitted events holds of the result. */
  lemma NormalizedAddsResponses(log: seq<Entry>, of: int -> (ResponseState, bool), x: Emitted)
    requires !x.ChannelResponse?
    ensures x in Normalized(log, of) <==> x in Out(log, |log|)
  {
    hide Out;
    var responses := Responses(MarksOf(log, |log|).turns, of);
    assert x !in responses;
  }

  /** The inputs of the result, followed by those still waiting, are the user messages of the log with their turns. */
  lemma NormalizedConservesInputs(log: seq<Entry>, of: int -> (ResponseState, bool))
    ensures InputsOf(Normalized(log, of)) + Waiting(MarksOf(log, |log|).heldInputs) == Owned(log, |log|, |log|)
  {
    hide Out, InputsOf, Waiting, Owned, Responses, MarksOf;
    var turns := MarksOf(log, |log|).turns;
    InputsSplit(Out(log, |log|), Responses(turns, of));
    ResponsesHoldNoInput(turns, of);
    InputsAreConserved(log, |log|);
    assert InputsOf(Normalized(log, of)) == InputsOf(Out(log, |log|));
  }

  /** First what the entries give rise to, in their order; then one response state for each turn started, in that order. */
  ghost predicate ToldWithResponses(log: seq<Entry>, of: int -> (ResponseState, bool), result: seq<Emitted>,
                                    from: seq<nat>, turns: seq<int>) {
    && |from| + |turns| == |result| && Told(log, |log|, result[..|from|], from)
    && (forall i :: 0 <= i < |turns| ==> result[|from| + i] == ChannelResponse(turns[i], of(turns[i]).0, of(turns[i]).1))
    && (forall turn :: turn in turns <==> exists i :: 0 <= i < |log| && log[i] == TurnStart(turn))
    && (forall a, b :: 0 <= a < b < |turns| ==> StartsFirst(log, |log|, turns[a], turns[b]))
  }

  lemma NormalizedIsTold(log: seq<Entry>, of: int -> (ResponseState, bool)) returns (from: seq<nat>, turns: seq<int>)
    ensures ToldWithResponses(log, of, Normalized(log, of), from, turns)
  {
    hide MarksOf, Out, ComesFrom, Precedes, Reports, StartsFirst;
    from := EventsFollowTheLog(log, |log|);
    turns := MarksOf(log, |log|).turns;
    var result, responses := Normalized(log, of), Responses(turns, of);
    assert result == Out(log, |log|) + responses && result[..|from|] == Out(log, |log|);
    forall i | 0 <= i < |turns| ensures result[|from| + i] == ChannelResponse(turns[i], of(turns[i]).0, of(turns[i]).1) {
      assert result[|from| + i] == responses[i];
    }
    assert Told(log, |log|, result[..|from|], from);
    StartedTurns(log, turns);
  }

  lemma StartedTurns(log: seq<Entry>, turns: seq<int>)
    requires turns == MarksOf(log, |log|).turns
    ensures forall turn :: turn in turns <==> exists i :: 0 <= i < |log| && log[i] == TurnStart(turn)
    ensures forall a, b :: 0 <= a < b < |turns| ==> StartsFirst(log, |log|, turns[a], turns[b])
  {
    hide MarksOf, StartsFirst;
    TurnsAreTheStartedOnes(log, |log|);
  }

  // ---------- The loop ----------

  method NormalizeSessionEvents(log: seq<Entry>, of: int -> (ResponseState, bool)) returns (result: seq<Emitted>)
    ensures result == Normalized(log, of)
    ensures exists from, turns :: ToldWithResponses(log, of, result, from, turns)
  {
    hide Emits, Marked, InputsFor, ToldWithResponses;
    result := [];
    var m := NO_MARKS;
    for n := 0 to |log|
      invariant m == MarksOf(log, n) && result == Out(log, n)
    {
      var emitted;
      m, emitted := Process(m, log[n]);
      result := result + emitted;
    }
    var responses := ResponseStates(m.turns, of);
    result := result + responses;
    ghost var from, turns := NormalizedIsTold(log, of);
  }

  method ResponseStates(turns: seq<int>, of: int -> (ResponseState, bool)) returns (result: seq<Emitted>)
    ensures result == Responses(turns, of)
  {
    result := [];
    for i := 0 to |turns|
      invariant result == Responses(turns, of)[..i]
    {
      var (response, producedReply) := of(turns[i]);
      result := result + [ChannelResponse(turns[i], response, producedReply)];
    }
  }

  method AssignTrigger(triggered: set<int>, turn: int, eventId: string) returns (now: set<int>, emitted: seq<Emitted>)
    ensures now == triggered + {turn}
    ensures emitted == if turn in triggered then [] else [Trigger(turn, eventId)]
  {
    if turn in triggered { return triggered, []; }
    return triggered + {turn}, [Trigger(turn, eventId)];
  }

  /** One round of the loop: the marks it leaves and what it pushes. */
  method Process(m: Marks, e: Entry) returns (next: Marks, emitted: seq<Emitted>)
    ensures next == Marked(m, e) && emitted == Emits(m, e)
  {
    next, emitted := m, [];
    match e {
      case Compaction(begins) => emitted := [CompactionMarked(begins)];
      case RequestSent(turn, step) => emitted := [Sent(turn, step)];
      case MemoryEvent(known) => if known { emitted := [MemoryNoted]; }
      case TurnStart(turn) =>
        next, emitted := StartTurn(m, turn);
      case UserMessage(id, eventId) =>
        next, emitted := TakeMessage(m, id, eventId);
      case TurnEnd(turn) =>
        if m.openTurn == Some(turn) { next := m.(openTurn := None); }
        emitted := [Ended(turn)];
      case StepMark(turn, step, begins) => emitted := [StepMarked(turn, step, begins)];
      case NestedStart(parent, callId) =>
        if parent in m.toolSteps {
          var (turn, step) := m.toolSteps[parent];
          emitted := [Called(turn, step, callId, Some(parent))];
        }
      case NestedEnd(parent, callId) =>
        if parent in m.toolSteps {
          var (turn, step) := m.toolSteps[parent];
          emitted := [Returned(turn, step, callId, Some(parent))];
        }
      case ToolCall(turn, step, callId) =>
        next := m.(answered := m.answered || m.openTurn == Some(turn), toolSteps := m.toolSteps[callId := (turn, step)]);
        emitted := [Called(turn, step, callId, None)];
      case ToolResult(turn, step, callId) =>
        if callId != "" { emitted := [Returned(turn, step, callId, None)]; }
      case Attempt(turn, step, at) =>
        next, emitted := TakeFirstToken(m, turn, step, at);
      case AssistantMessage(turn, step, at, shown) =>
        next, emitted := TakeFirstToken(m.(answered := m.answered || m.openTurn == Some(turn)), turn, step, at);
        if shown { emitted := emitted + [Said(turn, step)]; }
      case Retry(turn, step, begins) => emitted := [Retried(turn, step, begins)];
      case OtherEntry =>
    }
  }

  method StartTurn(m: Marks, turn: int) returns (next: Marks, emitted: seq<Emitted>)
    ensures next == Marked(m, TurnStart(turn)) && emitted == Emits(m, TurnStart(turn))
  {
    next := m.(turns := if turn in m.turns then m.turns else m.turns + [turn], openTurn := Some(turn), answered := false);
    emitted := [Started(turn)];
    if m.heldTrigger.Some? {
      var triggered, trigger := AssignTrigger(m.triggered, turn, m.heldTrigger.value);
      emitted := emitted + trigger;
      next := next.(triggered := triggered, heldTrigger := None);
    }
    var inputs := InputsFor(turn, m.heldInputs);
    ghost var before := emitted;
    for i := 0 to |m.heldInputs|
      invariant emitted == before + inputs[..i]
    {
      assert inputs[..i + 1] == inputs[..i] + [Input(turn, m.heldInputs[i])];
      emitted := emitted + [Input(turn, m.heldInputs[i])];
    }
    assert inputs[..|m.heldInputs|] == inputs;
    next := next.(heldInputs := []);
  }

  method TakeMessage(m: Marks, id: string, eventId: Option<string>) returns (next: Marks, emitted: seq<Emitted>)
    ensures next == Marked(m, UserMessage(id, eventId)) && emitted == Emits(m, UserMessage(id, eventId))
  {
    next, emitted := m, [];
    if m.openTurn.None? {
      next := next.(heldInputs := m.heldInputs + [id]);
    } else {
      emitted := [Input(m.openTurn.value, id)];
    }
    if eventId.Some? {
      if m.openTurn.None? {
        next := next.(heldTrigger := eventId);
      } else if !m.answered {
        var triggered, trigger := AssignTrigger(m.triggered, m.openTurn.value, eventId.value);
        next, emitted := next.(triggered := triggered), emitted + trigger;
      }
    }
  }

  method TakeFirstToken(m: Marks, turn: int, step: int, at: Option<int>) returns (next: Marks, emitted: seq<Emitted>)
    ensures emitted == FirstTokenFor(m, turn, step, at)
    ensures next == if at.Some? then m.(firstTokens := m.firstTokens + {(turn, step)}) else m
  {
    next, emitted := m, [];
    if at.Some? && (turn, step) !in m.firstTokens {
      next := m.(firstTokens := m.firstTokens + {(turn, step)});
      emitted := [FirstToken(turn, step, at.value)];
    } else if at.Some? {
      assert m.firstTokens + {(turn, step)} == m.firstTokens;
    }
  }
}
