/**
 * What each end of the embed does with each thing that happens to it, written out: what the
 * frame posts, what the page posts and settles, and which messages either ignores and why.
 */
module HandshakeEnds {
  import opened Common
  import opened Protocol
  import opened Embedding
  import opened Handshake
  import opened HandshakeSteps
  import opened HandshakeTheorems

  // ---- The frame ---------------------------------------------------------------------

  /** A measured height as it is told: never below zero nor above twenty thousand pixels. */
  predicate TellsHeight(measured: int, height: nat) {
    height == if measured <= 0 then 0 else if measured >= 20_000 then 20_000 else measured
  }

  /** A document that may speak to its page: it has been given its flow, parent and key, and the parent is allowed. */
  predicate Admits(d: Document, origins: Option<set<nat>>) {
    d.flow.Some? && d.key.Some? && d.parentOrigin.Some? && origins.Some? && d.parentOrigin.value in origins.value
  }

  /** It starts waiting, with no nonce and `ready` posted, or is refused and says nothing. */
  ghost predicate Begins(d: Document, origins: Option<set<nat>>, after: Document) {
    if Admits(d, origins) then after.phase == Waiting && after.sent == d.sent + [Ready] && CurrentNonce(after) == None
    else after.phase == Refused && after.sent == d.sent
  }

  /** The session is opened for its hello, which is acknowledged with its flow and the state, or refused. */
  ghost predicate Answers(d: Document, hello: ToEmbed, answer: Option<nat>, height: nat, after: Document)
    requires hello.Hello?
  {
    && after.redeeming == None
    && match answer
       case Some(state) =>
         && after.phase == Prepared
         && after.sent == d.sent + [HelloAck(hello.nonce, hello.flow, state), Resize(hello.nonce, height)]
       case None => after.phase == Failed && after.sent == d.sent + [Error(hello.nonce, true)]
  }

  /** A state request is answered under the nonce it was asked under, or reported as a problem that is not fatal. */
  ghost predicate Replies(d: Document, i: nat, answer: Option<nat>, after: Document)
    requires i < |d.reading|
  {
    && after.reading == d.reading[..i] + d.reading[i + 1..] && after.phase == d.phase
    && after.sent == match answer
       case Some(state) => d.sent + [State(d.reading[i], state)]
       case None => if CurrentNonce(d).Some? then d.sent + [Error(CurrentNonce(d).value, false)] else d.sent
  }

  /** Nothing is reported before the handshake, and everything after it under its nonce. */
  ghost predicate Reports(d: Document, report: Report, after: Document) {
    match CurrentNonce(d)
    case None => after == d
    case Some(n) => after == d.(sent := d.sent + [
      match report
      case Problem => Error(n, false)
      case Completed(flow) => FlowComplete(n, flow)
      case NewState(state) => State(n, state)])
  }

  /** A new height is told after the handshake, and only when it is new. */
  ghost predicate Resizes(d: Document, height: nat, after: Document) {
    match CurrentNonce(d)
    case None => after == d
    case Some(n) =>
      after == if height == d.lastHeight then d else d.(lastHeight := height, sent := d.sent + [Resize(n, height)])
  }

  /** What each thing that happens to a document makes of it. */
  ghost predicate FrameDoes(d: Document, h: Happening, height: nat, after: Document) {
    match h
    case Starts(_, origins) => d.phase == Starting ==> Begins(d, origins, after)
    case Redeems(_, answer, measured) =>
      TellsHeight(measured, height) && d.redeeming.Some? && d.redeeming.value.Hello? ==>
        Answers(d, d.redeeming.value, answer, height, after)
    case ReadsState(_, i, answer) => i < |d.reading| ==> Replies(d, i, answer, after)
    case Tells(_, report) => Reports(d, report, after)
    case Measures(_, measured) => TellsHeight(measured, height) ==> Resizes(d, height, after)
    case _ => true
  }

  lemma {:induction false} EveryFrameStep(w: World, h: Happening, height: nat)
    requires WorldInv(w) && (h.Starts? || h.Redeems? || h.ReadsState? || h.Tells? || h.Measures?) && Alive(w, h.doc)
    ensures FrameDoes(w.docs[h.doc], h, height, Step(w, h).docs[h.doc])
    ensures h.Redeems? && w.docs[h.doc].redeeming.Some? ==> w.docs[h.doc].redeeming.value.Hello?
  {
    assert DocInv(w.minted, w.parent.key, w.docs[h.doc]);
  }

  /** A hello that names another key or flow, or brings no token where one is needed. */
  predicate Mismatched(d: Document, hello: ToEmbed)
    requires hello.Hello?
  {
    d.key != Some(hello.key) || d.flow != Some(hello.flow) || (hello.flow != Signin && hello.token == None)
  }

  /** A message of the page's that reaches a waiting document: what it does, and what it is ignored for. */
  lemma {:induction false} PageHeard(w: World, doc: nat, mail: nat, measured: int, height: nat)
    requires Alive(w, doc) && mail < |w.parent.sent| && w.parent.sent[mail].frame == w.docs[doc].frame
    requires w.docs[doc].receiver.Some? && Admits(w.docs[doc], Some({w.page})) && TellsHeight(measured, height)
    requires w.docs[doc].receiver.value.parentOrigin == w.page
    ensures var d, after := w.docs[doc], Step(w, ToFrame(doc, mail, measured)).docs[doc];
      var r := d.receiver.value;
      match w.parent.sent[mail].message
      case Hello(n, flow, key, token) =>
        if r.nonce.Some? then after == d.(receiver := Some(r.(counts := r.counts + multiset{Unexpected})))
        else
          var heard := d.(receiver := Some(r.(nonce := Some(n))));
          after == if Mismatched(d, Hello(n, flow, key, token))
            then heard.(phase := Failed, redeeming := None, sent := d.sent + [Error(n, true)])
            else heard.(redeeming := Some(Hello(n, flow, key, token)))
      case ResizeRequest(n) =>
        after == if r.nonce == Some(n) then d.(lastHeight := height, sent := d.sent + [Resize(n, height)])
          else d.(receiver := Some(r.(counts := r.counts + multiset{BadNonce})))
      case StateRequest(n) =>
        after == if r.nonce == Some(n) then d.(reading := d.reading + [n])
          else d.(receiver := Some(r.(counts := r.counts + multiset{BadNonce})))
  {
    var m := w.parent.sent[mail].message;
    WireParses(m);
  }

  // ---- The page ----------------------------------------------------------------------

  /** A page with nothing mounted, its pending mount rejected and its pending reads answered as signed out. */
  ghost predicate Cleared(p: Parent, after: Parent) {
    && after.session == None
    && after == p.(session := None, outcomes := after.outcomes, answers := after.answers)
    && match p.session
       case None => after == p
       case Some(s) =>
         && after.outcomes == (if s.handshake then p.outcomes[s.frame := Rejected(Unmounted)] else p.outcomes)
         && (forall read | read in s.stateReads :: read in after.answers && after.answers[read] == None)
         && (forall read | read !in s.stateReads ::
               (read in after.answers <==> read in p.answers)
               && (read in p.answers ==> after.answers[read] == p.answers[read]))
  }

  /**
   * A mount needs a slot, a token for any flow but signing in, and a contest to enter one;
   * it replaces whatever was mounted by a new frame with an open handshake.
   */
  ghost predicate Replaces(p: Parent, slot: bool, flow: Flow, token: Option<nat>, contest: Option<nat>,
      after: Parent) {
    if !slot || (flow != Signin && token == None) || (flow == EntryFlow && contest == None) then after == p
    else
      && after.session == Some(Session(p.frames, flow, token, None, true, [], None))
      && after.frames == p.frames + 1
      && Cleared(p, after.(session := None, frames := p.frames))
  }

  /** The timer of the mounted frame rejects a mount whose handshake is open, and any other does nothing. */
  ghost predicate Expires(p: Parent, frame: nat, after: Parent) {
    after ==
      if p.session.Some? && p.session.value.frame == frame && p.session.value.handshake then
        p.(session := Some(p.session.value.(handshake := false)),
           outcomes := p.outcomes[frame := Rejected(TimedOut)])
      else p
  }

  /** What each thing that happens to the page alone makes of it. */
  ghost predicate PageDoes(p: Parent, h: Happening, after: Parent) {
    var agreed := p.session.Some? && p.session.value.nonce.Some?;
    match h
    case Mounts(slot, flow, token, contest) => Replaces(p, slot, flow, token, contest, after)
    case Unmounts => Cleared(p, after)
    case TimesOut(frame) => Expires(p, frame, after)
    case AsksState =>
      after == if !agreed then p
        else p.(asked := p.asked + 1,
                session := Some(p.session.value.(stateReads := p.session.value.stateReads + [p.asked])),
                sent := p.sent + [Mail(p.session.value.frame, StateRequest(p.session.value.nonce.value))])
    case AsksResize =>
      after == if !agreed then p
        else p.(sent := p.sent + [Mail(p.session.value.frame, ResizeRequest(p.session.value.nonce.value))])
    case _ => true
  }

  lemma {:induction false} EveryPageStep(w: World, h: Happening)
    ensures PageDoes(w.parent, h, Step(w, h).parent)
  {
    if w.parent.session.Some? {
      Answered(w.parent.answers, w.parent.session.value.stateReads, None);
    }
  }

  /** The page after ignoring a message for this reason. */
  function Ignoring(p: Parent, reason: DropReason): Parent {
    p.(counts := p.counts + multiset{reason})
  }

  /**
   * A message a document posted, reaching the page: `ready` is answered with the hello of
   * the open session under its one nonce, an acknowledgement of that flow under that nonce
   * resolves the mount, a fatal error rejects it, and everything else is ignored or counted
   * as what it is.
   */
  lemma {:induction false} FrameHeard(w: World, doc: nat, i: nat, nonce: nat)
    requires doc < |w.docs| && i < |w.docs[doc].sent| && nonce !in w.minted && w.parent.session.Some?
    requires !w.docs[doc].sent[i].State?
    ensures var p, after := w.parent, Step(w, ToPage(doc, i, nonce)).parent;
      var s, m := p.session.value, w.docs[doc].sent[i];
      after ==
        if w.docs[doc].frame != s.frame then Ignoring(p, BadOrigin)
        else if m == Ready then
          if !s.handshake then Ignoring(p, Unexpected)
          else
            var n := if s.nonce.Some? then s.nonce.value else nonce;
            p.(session := Some(s.(nonce := Some(n))),
               sent := p.sent + [Mail(s.frame, Hello(n, s.flow, p.key, s.token))])
        else if s.nonce != Some(m.nonce) then Ignoring(p, BadNonce)
        else
          match m
          case HelloAck(_, flow, state) =>
            if !s.handshake || flow != s.flow then Ignoring(p, Unexpected)
            else p.(session := Some(s.(handshake := false, state := Some(state))),
                    outcomes := p.outcomes[s.frame := Resolved(flow, state)])
          case FlowComplete(_, flow) => if flow != s.flow then Ignoring(p, Unexpected) else p
          case Error(_, fatal) =>
            if fatal && s.handshake then
              p.(session := Some(s.(handshake := false)), outcomes := p.outcomes[s.frame := Rejected(FatalError)])
            else p
          case _ => p
  {
    if w.docs[doc].frame == w.parent.session.value.frame {
      MountedFrame(w.parent, w.docs[doc].sent[i], nonce);
    }
  }
}
