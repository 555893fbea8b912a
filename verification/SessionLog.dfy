/** The committed session events the reply guard reads (apps/server/src/channel-reply-guard.ts). */
module SessionLog {
  import opened Wrappers

  const SEND_CHANNEL_MESSAGE_TOOL := "send_channel_message"
  const FINISH_CHANNEL_TURN_TOOL := "finish_channel_turn"
  const CONSOLE_PREFIX := "console:"

  datatype Delivery = Sent | PartiallySent | NotSent | Unknown | Cancelled

  /** A user message by its source. */
  datatype Message =
    | Channel(admissionId: string)
    | ResponseReminder(turn: int)
    | ProcessingReminder(turn: int)
    | OtherSource

  datatype Reason = Completed | OtherReason

  /** `toCurrent` says that the arguments parse to a target of the current channel. */
  datatype Payload =
    | TurnStart(turn: int)
    | TurnEnd(turn: int, reason: Reason)
    | UserMessage(message: Message)
    | AssistantMessage(turn: int, step: int, callsTool: bool)
    | ToolCall(turn: int, callId: string, name: string, toCurrent: bool)
    | NestedResult(rootCallId: string, name: string, toCurrent: bool, isError: bool, hasError: bool, delivery: Option<Delivery>)
    | ToolResult(turn: int, callId: string, isError: bool, hasError: bool, delivery: Option<Delivery>)
    | OtherEvent

  datatype Event = Event(seqNo: int, time: int, payload: Payload)

  /** The admission a message delivers; messages from the console are none. */
  function AdmissionOf(m: Message): Option<string> {
    if m.Channel? && !(CONSOLE_PREFIX <= m.admissionId) then Some(m.admissionId) else None
  }

  predicate Succeeded(p: Payload) {
    p.ToolResult? && !p.isError && !p.hasError
  }

  predicate Delivered(d: Option<Delivery>) {
    d == Some(Sent) || d == Some(PartiallySent)
  }

  // ---------- What the statements about a log mean by these words ----------

  /** The message comes from the channel itself, not from the console. */
  predicate FromChannel(m: Message) {
    m.Channel? && !("console:" <= m.admissionId)
  }

  /** A direct call came back without error. */
  predicate WentWell(p: Payload) {
    match p
    case ToolResult(_, _, isError, hasError, _) => !(isError || hasError)
    case _ => false
  }

  predicate Reached(delivery: Option<Delivery>) {
    delivery in {Some(Sent), Some(PartiallySent)}
  }

  lemma Words()
    ensures forall m :: AdmissionOf(m) == if FromChannel(m) then Some(m.admissionId) else None
    ensures forall p :: Succeeded(p) <==> WentWell(p)
    ensures forall d :: Delivered(d) <==> Reached(d)
  {
  }

  predicate Increasing(events: seq<Event>) {
    forall i, j :: 0 <= i < j < |events| ==> events[i].seqNo < events[j].seqNo
  }
}
