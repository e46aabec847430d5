/**
 * The two ends of the embed as the objects they are: `Purse` in the partner's page,
 * `Bridge` and its `FrameReceiver` in the frame. Every method is proved to do what
 * `Embedding` says of its state.
 */
module EmbedClients {
  import opened Common
  import opened Protocol
  import opened Embedding

  class Purse {
    const origin: nat
    const key: nat
    var session: Option<Session>
    var counts: multiset<DropReason>
    var frames: nat
    var outcomes: map<nat, Outcome>
    var asked: nat
    var answers: map<nat, Option<nat>>
    var sent: seq<Mail>

    constructor (purseOrigin: nat, publishableKey: nat)
      ensures View() == Parent(purseOrigin, publishableKey, None, multiset{}, 0, map[], 0, map[], [])
    {
      origin, key, session, counts := purseOrigin, publishableKey, None, multiset{};
      frames, outcomes, asked, answers, sent := 0, map[], 0, map[], [];
    }

    function View(): Parent
      reads this
    {
      Parent(origin, key, session, counts, frames, outcomes, asked, answers, sent)
    }

    method Mount(slot: bool, flow: Flow, token: Option<nat>, contest: Option<nat>)
        returns (refused: Option<MountRefusal>)
      modifies this
      ensures refused == CheckMount(slot, flow, token, contest)
      ensures View() == Embedding.Mount(old(View()), slot, flow, token, contest)
    {
      if !slot {
        return Some(SlotNotFound);
      }
      if !flow.Signin? && token.None? {
        return Some(EmbedTokenRequired);
      }
      if flow.EntryFlow? && contest.None? {
        return Some(ContestIdRequired);
      }
      Unmount();
      session := Some(Session(frames, flow, token, None, true, [], None));
      frames := frames + 1;
      return None;
    }

    /** The session is dropped first; a pending mount rejects, and pending reads are answered as signed out. */
    method Unmount()
      modifies this
      ensures View() == Embedding.Unmount(old(View()))
    {
      if session.None? {
        return;
      }
      var s := session.value;
      session := None;
      if s.handshake {
        outcomes := outcomes[s.frame := Rejected(Unmounted)];
      }
      AnswerReads(s.stateReads, None);
    }

    method AnswerReads(reading: seq<nat>, state: Option<nat>)
      modifies this`answers
      ensures answers == Answer(old(answers), reading, state)
    {
      for i := 0 to |reading|
        invariant answers == Answer(old(answers), reading[..i], state)
      {
        assert reading[..i + 1][..i] == reading[..i];
        answers := answers[reading[i] := state];
      }
      assert reading[..|reading|] == reading;
    }

    method Drop(reason: DropReason)
      modifies this`counts
      ensures View() == Embedding.Drop(old(View()), reason)
    {
      counts := counts + multiset{reason};
    }

    method FailHandshake(reason: Rejection)
      requires session.Some?
      modifies this`session, this`outcomes
      ensures View() == Embedding.FailHandshake(old(View()), reason)
    {
      var s := session.value;
      if !s.handshake {
        return;
      }
      session := Some(s.(handshake := false));
      outcomes := outcomes[s.frame := Rejected(reason)];
    }

    method TimerFires(frame: nat)
      modifies this`session, this`outcomes
      ensures View() == TimeOut(old(View()), frame)
    {
      if session.Some? && session.value.frame == frame {
        FailHandshake(TimedOut);
      }
    }

    method Receive(event: Event<ToParent>, minted: nat)
      modifies this
      ensures View() == Embedding.Receive(old(View()), event, minted)
      ensures old(session).Some? ==>
        (event.origin != origin || event.source != FrameWindow(old(session).value.frame)) ==>
        View() == old(View()).(counts := old(counts) + multiset{BadOrigin})
      ensures old(session).Some? ==>
        event.origin == origin && event.source == FrameWindow(old(session).value.frame) ==>
        match event.data
        case NoRecord => View() == old(View()).(counts := old(counts) + multiset{NotAnObject})
        case Record(version, kind, body) =>
          if version != 1 then View() == old(View()).(counts := old(counts) + multiset{UnsupportedVersion})
          else if kind !in {"ready", "hello_ack", "resize", "flow:complete", "error", "state"} then
            View() == old(View()).(counts := old(counts) + multiset{UnknownType})
          else body == None ==> View() == old(View()).(counts := old(counts) + multiset{InvalidShape})
    {
      if session.None? {
        return;
      }
      if event.origin != origin || event.source != FrameWindow(session.value.frame) {
        Drop(BadOrigin);
        return;
      }
      var parsed := Parse(event.data, TO_PARENT_TYPES);
      if parsed.Err? {
        Drop(parsed.error);
        return;
      }
      var message := parsed.value;
      if message.Ready? {
        OnReady(minted);
        return;
      }
      if session.value.nonce.None? || session.value.nonce.value != message.nonce {
        Drop(BadNonce);
        return;
      }
      Dispatch(message);
    }

    method OnReady(minted: nat)
      requires session.Some?
      modifies this`session, this`counts, this`sent
      ensures View() == Embedding.OnReady(old(View()), minted)
    {
      var s := session.value;
      if !s.handshake {
        Drop(Unexpected);
        return;
      }
      if s.nonce.None? {
        s := s.(nonce := Some(minted));
      }
      session := Some(s);
      sent := sent + [Mail(s.frame, Hello(s.nonce.value, s.flow, key, s.token))];
    }

    method Dispatch(message: ToParent)
      requires session.Some? && !message.Ready?
      modifies this
      ensures View() == Embedding.Dispatch(old(View()), message)
    {
      var s := session.value;
      match message
      case HelloAck(_, flow, state) =>
        if !s.handshake || flow != s.flow {
          Drop(Unexpected);
          return;
        }
        session := Some(s.(handshake := false, state := Some(state)));
        outcomes := outcomes[s.frame := Resolved(s.flow, state)];
      case Resize(_, _) =>
      case FlowComplete(_, flow) =>
        if flow != s.flow {
          Drop(Unexpected);
        }
      case Error(_, fatal) =>
        if s.handshake && fatal {
          FailHandshake(FatalError);
        }
      case State(_, state) =>
        var pending := s.stateReads;
        session := Some(s.(state := Some(state), stateReads := []));
        AnswerReads(pending, Some(state));
    }

    method GetUserState()
      modifies this`session, this`asked, this`sent
      ensures View() == AskState(old(View()))
    {
      if session.Some? && session.value.nonce.Some? {
        var s := session.value;
        session := Some(s.(stateReads := s.stateReads + [asked]));
        asked := asked + 1;
        sent := sent + [Mail(s.frame, StateRequest(s.nonce.value))];
      }
    }

    method RequestResize()
      modifies this`sent
      ensures View() == AskResize(old(View()))
    {
      if session.Some? && session.value.nonce.Some? {
        sent := sent + [Mail(session.value.frame, ResizeRequest(session.value.nonce.value))];
      }
    }
  }

  class FrameReceiver {
    const parentOrigin: nat
    var nonce: Option<nat>
    var counts: multiset<DropReason>

    constructor (origin: nat)
      ensures View() == Receiver(origin, None, multiset{})
    {
      parentOrigin, nonce, counts := origin, None, multiset{};
    }

    function View(): Receiver
      reads this
    {
      Receiver(parentOrigin, nonce, counts)
    }

    method Drop(reason: DropReason) returns (verdict: Verdict)
      modifies this`counts
      ensures verdict == Dropped(reason) && counts == old(counts) + multiset{reason}
    {
      counts := counts + multiset{reason};
      return Dropped(reason);
    }

    /** A hello before the handshake establishes the nonce; a second one is unexpected. */
    method Validate(event: Event<ToEmbed>) returns (verdict: Verdict)
      modifies this
      ensures verdict == Judge(old(View()), event)
      ensures View() == Embedding.Validate(old(View()), event)
      ensures event.origin != parentOrigin || event.source != ParentWindow ==> verdict == Dropped(BadOrigin)
      ensures event.origin == parentOrigin && event.source == ParentWindow ==>
        match event.data
        case NoRecord => verdict == Dropped(NotAnObject)
        case Record(version, kind, body) =>
          if version != 1 then verdict == Dropped(UnsupportedVersion)
          else if kind !in {"hello", "resize:request", "state:request"} then verdict == Dropped(UnknownType)
          else if body == None then verdict == Dropped(InvalidShape)
          else if body.value.Hello? then
            verdict == if old(nonce).Some? then Dropped(Unexpected) else Accepted(body.value)
          else verdict == if old(nonce) == Some(body.value.nonce) then Accepted(body.value) else Dropped(BadNonce)
    {
      if event.origin != parentOrigin || event.source != ParentWindow {
        verdict := Drop(BadOrigin);
        return;
      }
      var parsed := Parse(event.data, TO_EMBED_TYPES);
      if parsed.Err? {
        verdict := Drop(parsed.error);
        return;
      }
      var message := parsed.value;
      if message.Hello? {
        if nonce.Some? {
          verdict := Drop(Unexpected);
          return;
        }
        nonce := Some(message.nonce);
        return Accepted(message);
      }
      if nonce != Some(message.nonce) {
        verdict := Drop(BadNonce);
        return;
      }
      return Accepted(message);
    }
  }

  class Bridge {
    const frame: nat
    const flow: Option<Flow>
    const parentOrigin: Option<nat>
    const key: Option<nat>
    var phase: Phase
    var receiver: FrameReceiver?
    var redeeming: Option<ToEmbed>
    var reading: seq<nat>
    var lastHeight: int
    var sent: seq<ToParent>

    constructor (window: nat, urlFlow: Option<Flow>, urlParent: Option<nat>, urlKey: Option<nat>)
      ensures View() == Document(window, urlFlow, urlParent, urlKey, Phase.Starting, None, None, [], -1, [])
    {
      frame, flow, parentOrigin, key := window, urlFlow, urlParent, urlKey;
      phase, receiver, redeeming, reading, lastHeight, sent := Phase.Starting, null, None, [], -1, [];
    }

    function View(): Document
      reads this, receiver
    {
      Document(frame, flow, parentOrigin, key, phase, if receiver == null then None else Some(receiver.View()),
               redeeming, reading, lastHeight, sent)
    }

    /** The parent is checked against the allowlist before the frame says a word. */
    method Start(origins: Option<set<nat>>)
      requires phase.Starting?
      modifies this
      ensures View() == Embedding.Start(old(View()), origins)
      ensures receiver != old(receiver) ==> fresh(receiver)
    {
      if flow.None? || parentOrigin.None? || key.None? || origins.None? || parentOrigin.value !in origins.value {
        phase := Phase.Refused;
        return;
      }
      receiver := new FrameReceiver(parentOrigin.value);
      phase := Phase.Waiting;
      sent := sent + [Ready];
    }

    method Receive(event: Event<ToEmbed>, measured: int)
      modifies this, receiver
      ensures View() == FrameReceive(old(View()), event, measured)
      ensures receiver == old(receiver)
    {
      if receiver == null {
        return;
      }
      var verdict := receiver.Validate(event);
      if verdict.Dropped? {
        return;
      }
      match verdict.message
      case Hello(_, _, _, _) => OnHello(verdict.message);
      case ResizeRequest(_) => ReportHeight(true, measured);
      case StateRequest(nonce) => reading := reading + [nonce];
    }

    method OnHello(hello: ToEmbed)
      requires hello.Hello?
      modifies this`phase, this`redeeming, this`sent
      ensures View() == Embedding.OnHello(old(View()), hello)
    {
      if key.None? || flow.None? || parentOrigin.None? {
        return;
      }
      if hello.key != key.value || hello.flow != flow.value {
        Fail(hello.nonce);
        return;
      }
      if !flow.value.Signin? && hello.token.None? {
        Fail(hello.nonce);
        return;
      }
      redeeming := Some(hello);
    }

    method Fail(nonce: nat)
      modifies this`phase, this`redeeming, this`sent
      ensures View() == Embedding.Fail(old(View()), nonce)
    {
      phase := Phase.Failed;
      redeeming := None;
      sent := sent + [Error(nonce, true)];
    }

    /** The rest of `onHello`, once the session is open or refused. */
    method SessionOpened(answer: Option<nat>, measured: int)
      requires redeeming.Some? ==> redeeming.value.Hello?
      modifies this`phase, this`redeeming, this`sent, this`lastHeight
      ensures View() == Redeemed(old(View()), answer, measured)
    {
      if redeeming.None? {
        return;
      }
      var hello := redeeming.value;
      if answer.None? {
        Fail(hello.nonce);
        return;
      }
      phase := Phase.Prepared;
      redeeming := None;
      sent := sent + [HelloAck(hello.nonce, hello.flow, answer.value)];
      ReportHeight(true, measured);
    }

    /** On request always, otherwise only when the height changed. */
    method ReportHeight(force: bool, measured: int)
      modifies this`lastHeight, this`sent
      ensures View() == Embedding.ReportHeight(old(View()), force, measured)
    {
      if receiver == null || receiver.nonce.None? {
        return;
      }
      var height := Clamp(measured);
      if !force && height == lastHeight {
        return;
      }
      lastHeight := height;
      sent := sent + [Resize(receiver.nonce.value, height)];
    }

    method UpdateState(state: nat)
      modifies this`sent
      ensures View() == Tell(old(View()), NewState(state))
    {
      if receiver != null && receiver.nonce.Some? {
        sent := sent + [State(receiver.nonce.value, state)];
      }
    }
  }
}
