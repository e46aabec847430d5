/**
 * The message protocol between a partner's page and the embedded frame
 * (packages/purse-types/src/protocol.ts), and the events it travels in.
 */
module Protocol {
  import opened Common

  const PROTOCOL_VERSION: int := 1

  datatype Flow = Signin | Identity | Wallet | EntryFlow | Rewards

  datatype ToEmbed =
    | Hello(nonce: nat, flow: Flow, key: nat, token: Option<nat>)
    | ResizeRequest(nonce: nat)
    | StateRequest(nonce: nat)

  datatype ToParent =
    | Ready
    | HelloAck(nonce: nat, flow: Flow, state: nat)
    | Resize(nonce: nat, height: nat)
    | FlowComplete(nonce: nat, flow: Flow)
    | Error(nonce: nat, fatal: bool)
    | State(nonce: nat, state: nat)

  datatype DropReason = BadOrigin | NotAnObject | UnsupportedVersion | UnknownType | InvalidShape | BadNonce
      | Unexpected

  /**
   * What arrives: not a record, or a record with a version, a type, and the message it
   * spells if its schema accepts it.
   */
  datatype Raw<M> = NoRecord | Record(version: int, kind: string, body: Option<M>)

  const TO_EMBED_TYPES: set<string> := {"hello", "resize:request", "state:request"}
  const TO_PARENT_TYPES: set<string> := {"ready", "hello_ack", "resize", "flow:complete", "error", "state"}

  function Classify<M>(data: Raw<M>, known: set<string>): Option<DropReason> {
    if data.NoRecord? then Some(NotAnObject)
    else if data.version != PROTOCOL_VERSION then Some(UnsupportedVersion)
    else if data.kind !in known then Some(UnknownType)
    else None
  }

  function Parse<M>(data: Raw<M>, known: set<string>): Result<M, DropReason> {
    var reason := Classify(data, known);
    if reason.Some? then Err(reason.value)
    else if data.body.None? then Err(InvalidShape)
    else Ok(data.body.value)
  }

  function KindOf(m: ToEmbed): string {
    match m
    case Hello(_, _, _, _) => "hello"
    case ResizeRequest(_) => "resize:request"
    case StateRequest(_) => "state:request"
  }

  function KindOfReply(m: ToParent): string {
    match m
    case Ready => "ready"
    case HelloAck(_, _, _) => "hello_ack"
    case Resize(_, _) => "resize"
    case FlowComplete(_, _) => "flow:complete"
    case Error(_, _) => "error"
    case State(_, _) => "state"
  }

  datatype Window = ParentWindow | FrameWindow(frame: nat) | OtherWindow(id: nat)

  datatype Event<M> = Event(origin: nat, source: Window, data: Raw<M>)

  /** A message as the other side posts it. */
  function Wire(m: ToEmbed): Raw<ToEmbed> {
    Record(PROTOCOL_VERSION, KindOf(m), Some(m))
  }

  function WireReply(m: ToParent): Raw<ToParent> {
    Record(PROTOCOL_VERSION, KindOfReply(m), Some(m))
  }

  lemma {:induction false} WireParses(m: ToEmbed)
    ensures Parse(Wire(m), TO_EMBED_TYPES) == Ok(m)
  {
    match m
    case Hello(_, _, _, _) =>
    case ResizeRequest(_) =>
    case StateRequest(_) =>
  }

  lemma {:induction false} WireReplyParses(m: ToParent)
    ensures Parse(WireReply(m), TO_PARENT_TYPES) == Ok(m)
  {
    match m
    case Ready =>
    case HelloAck(_, _, _) =>
    case Resize(_, _) =>
    case FlowComplete(_, _) =>
    case Error(_, _) =>
    case State(_, _) =>
  }
}
