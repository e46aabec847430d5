/**
 * The two ends of the embed: the parent page's session (packages/purse-sdk/src/purse.ts)
 * and one document in its frame (apps/purse-embed/src/embed/bridge.ts, receiver.ts), as
 * functions from state and event to state. Whatever either side posts is kept in `sent`.
 */
module Embedding {
  import opened Common
  import opened Protocol

  // ---- The parent --------------------------------------------------------------------

  datatype Rejection = TimedOut | Unmounted | FatalError

  datatype Outcome = Resolved(flow: Flow, state: nat) | Rejected(reason: Rejection)

  datatype Session = Session(
    frame: nat,
    flow: Flow,
    token: Option<nat>,
    nonce: Option<nat>,
    handshake: bool,
    stateReads: seq<nat>,
    state: Option<nat>)

  /** A message posted to a frame's window. */
  datatype Mail = Mail(frame: nat, message: ToEmbed)

  /** One SDK instance: its session, its drop counts, the promises it has settled. */
  datatype Parent = Parent(
    origin: nat,
    key: nat,
    session: Option<Session>,
    counts: multiset<DropReason>,
    frames: nat,
    outcomes: map<nat, Outcome>,
    asked: nat,
    answers: map<nat, Option<nat>>,
    sent: seq<Mail>)

  datatype MountRefusal = SlotNotFound | EmbedTokenRequired | ContestIdRequired

  function CheckMount(slot: bool, flow: Flow, token: Option<nat>, contest: Option<nat>): Option<MountRefusal> {
    if !slot then Some(SlotNotFound)
    else if !flow.Signin? && token.None? then Some(EmbedTokenRequired)
    else if flow.EntryFlow? && contest.None? then Some(ContestIdRequired)
    else None
  }

  /** Settle a mount's promise. */
  function Settle(p: Parent, frame: nat, outcome: Outcome): Parent {
    p.(outcomes := p.outcomes[frame := outcome])
  }

  /** Answer every pending read with the same state. */
  function Answer(answers: map<nat, Option<nat>>, asked: seq<nat>, state: Option<nat>): map<nat, Option<nat>> {
    if asked == [] then answers else Answer(answers, asked[..|asked| - 1], state)[asked[|asked| - 1] := state]
  }

  function Unmount(p: Parent): Parent {
    match p.session
    case None => p
    case Some(s) =>
      var settled := if s.handshake then Settle(p, s.frame, Rejected(Unmounted)) else p;
      settled.(session := None, answers := Answer(p.answers, s.stateReads, None))
  }

  /** A mount that passes its checks replaces whatever was mounted with a new frame and session. */
  function Mount(p: Parent, slot: bool, flow: Flow, token: Option<nat>, contest: Option<nat>): Parent {
    if CheckMount(slot, flow, token, contest).Some? then p
    else
      var cleared := Unmount(p);
      cleared.(session := Some(Session(p.frames, flow, token, None, true, [], None)), frames := p.frames + 1)
  }

  function Drop(p: Parent, reason: DropReason): Parent {
    p.(counts := p.counts + multiset{reason})
  }

  function FailHandshake(p: Parent, reason: Rejection): Parent
    requires p.session.Some?
  {
    var s := p.session.value;
    if !s.handshake then p
    else Settle(p, s.frame, Rejected(reason)).(session := Some(s.(handshake := false)))
  }

  /** The timer a mount started; once its session is replaced or settled the timer is cleared. */
  function TimeOut(p: Parent, frame: nat): Parent {
    if p.session.Some? && p.session.value.frame == frame then FailHandshake(p, TimedOut) else p
  }

  /** `ready`: a nonce is minted the first time, and the hello posted while the handshake is open. */
  function OnReady(p: Parent, minted: nat): Parent
    requires p.session.Some?
  {
    var s := p.session.value;
    if !s.handshake then Drop(p, Unexpected)
    else
      var nonce := if s.nonce.Some? then s.nonce.value else minted;
      p.(session := Some(s.(nonce := Some(nonce))),
          sent := p.sent + [Mail(s.frame, Hello(nonce, s.flow, p.key, s.token))])
  }

  function Dispatch(p: Parent, message: ToParent): Parent
    requires p.session.Some?
  {
    var s := p.session.value;
    match message
    case Ready => p
    case HelloAck(_, flow, state) =>
      if !s.handshake || flow != s.flow then Drop(p, Unexpected)
      else Settle(p, s.frame, Resolved(s.flow, state)).(session := Some(s.(handshake := false, state := Some(state))))
    case Resize(_, _) => p
    case FlowComplete(_, flow) => if flow != s.flow then Drop(p, Unexpected) else p
    case Error(_, fatal) => if fatal then FailHandshake(p, FatalError) else p
    case State(_, state) =>
      p.(session := Some(s.(state := Some(state), stateReads := [])),
          answers := Answer(p.answers, s.stateReads, Some(state)))
  }

  /** One `message` event at the parent: origin and source first, then the schema, then the nonce. */
  function Receive(p: Parent, event: Event<ToParent>, minted: nat): Parent {
    match p.session
    case None => p
    case Some(s) =>
      if event.origin != p.origin || event.source != FrameWindow(s.frame) then Drop(p, BadOrigin)
      else
        match Parse(event.data, TO_PARENT_TYPES)
        case Err(reason) => Drop(p, reason)
        case Ok(message) =>
          if message.Ready? then OnReady(p, minted)
          else if s.nonce != Some(message.nonce) then Drop(p, BadNonce)
          else Dispatch(p, message)
  }

  /** A state read through the frame, once it has a nonce; before that the read does not involve the frame. */
  function AskState(p: Parent): Parent {
    if p.session.None? || p.session.value.nonce.None? then p
    else
      var s := p.session.value;
      p.(asked := p.asked + 1, session := Some(s.(stateReads := s.stateReads + [p.asked])),
         sent := p.sent + [Mail(s.frame, StateRequest(s.nonce.value))])
  }

  function AskResize(p: Parent): Parent {
    if p.session.None? || p.session.value.nonce.None? then p
    else p.(sent := p.sent + [Mail(p.session.value.frame, ResizeRequest(p.session.value.nonce.value))])
  }

  // ---- One document in a frame -------------------------------------------------------

  datatype Phase = Starting | Waiting | Prepared | Refused | Failed

  /** `Receiver`: the nonce the first hello established, and its drops. */
  datatype Receiver = Receiver(parentOrigin: nat, nonce: Option<nat>, counts: multiset<DropReason>)

  datatype Document = Document(
    frame: nat,
    flow: Option<Flow>,
    parentOrigin: Option<nat>,
    key: Option<nat>,
    phase: Phase,
    receiver: Option<Receiver>,
    redeeming: Option<ToEmbed>,
    reading: seq<nat>,
    lastHeight: int,
    sent: seq<ToParent>)

  datatype Verdict = Accepted(message: ToEmbed) | Dropped(reason: DropReason)

  function Judge(r: Receiver, event: Event<ToEmbed>): Verdict {
    if event.origin != r.parentOrigin || event.source != ParentWindow then Dropped(BadOrigin)
    else
      match Parse(event.data, TO_EMBED_TYPES)
      case Err(reason) => Dropped(reason)
      case Ok(message) =>
        if message.Hello? then (if r.nonce.Some? then Dropped(Unexpected) else Accepted(message))
        else if r.nonce != Some(message.nonce) then Dropped(BadNonce)
        else Accepted(message)
  }

  /** The receiver after judging an event: a first hello establishes the nonce, a drop is counted. */
  function Validate(r: Receiver, event: Event<ToEmbed>): Receiver {
    match Judge(r, event)
    case Dropped(reason) => r.(counts := r.counts + multiset{reason})
    case Accepted(message) => if message.Hello? then r.(nonce := Some(message.nonce)) else r
  }

  /** `start`: the URL must name a flow, a parent and a key, and the tenant's allowlist the parent. */
  function Start(d: Document, origins: Option<set<nat>>): Document {
    if !d.phase.Starting? then d
    else if d.flow.None? || d.parentOrigin.None? || d.key.None? || origins.None? then d.(phase := Refused)
    else if d.parentOrigin.value !in origins.value then d.(phase := Refused)
    else d.(phase := Waiting, receiver := Some(Receiver(d.parentOrigin.value, None, multiset{})),
      sent := d.sent + [Ready])
  }

  function CurrentNonce(d: Document): Option<nat> {
    if d.receiver.None? then None else d.receiver.value.nonce
  }

  function Clamp(measured: int): nat {
    if measured < 0 then 0 else if measured > 20_000 then 20_000 else measured
  }

  function ReportHeight(d: Document, force: bool, measured: int): Document {
    var nonce := CurrentNonce(d);
    if nonce.None? || (!force && Clamp(measured) == d.lastHeight) then d
    else d.(lastHeight := Clamp(measured), sent := d.sent + [Resize(nonce.value, Clamp(measured))])
  }

  function Fail(d: Document, nonce: nat): Document {
    d.(phase := Failed, redeeming := None, sent := d.sent + [Error(nonce, true)])
  }

  /** `onHello` up to its wait: another key or flow, or a missing token, is fatal at once. */
  function OnHello(d: Document, hello: ToEmbed): Document
    requires hello.Hello?
  {
    if d.key.None? || d.flow.None? || d.parentOrigin.None? then d
    else if hello.key != d.key.value || hello.flow != d.flow.value then Fail(d, hello.nonce)
    else if !hello.flow.Signin? && hello.token.None? then Fail(d, hello.nonce)
    else d.(redeeming := Some(hello))
  }

  /** The token redeemed, or the state read: ready first, then the acknowledgement, then the height. */
  function Redeemed(d: Document, answer: Option<nat>, measured: int): Document {
    match d.redeeming
    case Some(Hello(nonce, flow, _, _)) =>
      if answer.None? then Fail(d, nonce)
      else
        var prepared := d.(phase := Prepared, redeeming := None,
          sent := d.sent + [HelloAck(nonce, flow, answer.value)]);
        ReportHeight(prepared, true, measured)
    case _ => d
  }

  function FrameReceive(d: Document, event: Event<ToEmbed>, measured: int): Document {
    match d.receiver
    case None => d
    case Some(r) =>
      var judged := d.(receiver := Some(Validate(r, event)));
      match Judge(r, event)
      case Dropped(_) => judged
      case Accepted(message) =>
        match message
        case Hello(_, _, _, _) => OnHello(judged, message)
        case ResizeRequest(_) => ReportHeight(judged, true, measured)
        case StateRequest(nonce) => judged.(reading := judged.reading + [nonce])
  }

  /** A state request answered, or reported as a failure that is not fatal. */
  function StateRead(d: Document, i: nat, answer: Option<nat>): Document {
    if i >= |d.reading| then d
    else
      d.(reading := d.reading[..i] + d.reading[i + 1..],
         sent := d.sent + if answer.Some? then [State(d.reading[i], answer.value)]
                          else if CurrentNonce(d).Some? then [Error(CurrentNonce(d).value, false)] else [])
  }

  /** What a flow tells the parent unasked: a non-fatal error, a result, a new state. */
  datatype Report = Problem | Completed(flow: Flow) | NewState(state: nat)

  function Tell(d: Document, report: Report): Document {
    var nonce := CurrentNonce(d);
    if nonce.None? then d
    else
      d.(sent := d.sent + [
        match report
        case Problem => Error(nonce.value, false)
        case Completed(flow) => FlowComplete(nonce.value, flow)
        case NewState(state) => State(nonce.value, state)])
  }
}
