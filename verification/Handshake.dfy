/**
 * The embed handshake over every interleaving: one page, any number of mounts and
 * remounts, frames that load, reload and navigate, messages delivered in any order, late,
 * repeatedly or never, timeouts, and strangers posting whatever they like.
 */
module Handshake {
  import opened Common
  import opened Protocol
  import opened Embedding

  /** What a nonce was minted for. */
  datatype Minted = Minted(frame: nat, flow: Flow, token: Option<nat>)

  /** The page, every document that ever loaded in one of its frames, and which ones are still there. */
  datatype World = World(page: nat, parent: Parent, docs: seq<Document>, live: map<nat, nat>, minted: map<nat, Minted>)

  datatype Happening =
    | Mounts(slot: bool, flow: Flow, token: Option<nat>, contest: Option<nat>)
    | Unmounts
    | TimesOut(frame: nat)
    | AsksState
    | AsksResize
    | Loads(frame: nat, url: Url)
    | Starts(doc: nat, origins: Option<set<nat>>)
    | ToFrame(doc: nat, mail: nat, measured: int)
    | StrangerToFrame(doc: nat, toFrame: Event<ToEmbed>, measured: int)
    | Redeems(doc: nat, answer: Option<nat>, measured: int)
    | ReadsState(doc: nat, reading: nat, answer: Option<nat>)
    | Tells(doc: nat, report: Report)
    | Measures(doc: nat, measured: int)
    | ToPage(doc: nat, message: nat, nonce: nat)
    | StrangerToPage(toPage: Event<ToParent>, nonce: nat)

  /** What a frame's document reads from its address: nothing the parent page controls afterwards. */
  datatype Url = Url(flow: Option<Flow>, parentOrigin: Option<nat>, key: Option<nat>)

  function Begin(page: nat, origin: nat, key: nat): World {
    World(page, Parent(origin, key, None, multiset{}, 0, map[], 0, map[], []), [], map[], map[])
  }

  function Loaded(frame: nat, url: Url): Document {
    Document(frame, url.flow, url.parentOrigin, url.key, Starting, None, None, [], -1, [])
  }

  predicate Alive(w: World, doc: nat) {
    doc < |w.docs| && w.docs[doc].frame in w.live && w.live[w.docs[doc].frame] == doc
  }

  function WithDoc(w: World, doc: nat, d: Document): World
    requires doc < |w.docs|
  {
    w.(docs := w.docs[doc := d])
  }

  /** The parent after an event; a nonce is remembered if one was minted. */
  function PageReceives(w: World, event: Event<ToParent>, nonce: nat): World {
    if nonce in w.minted then w
    else
      var after := Receive(w.parent, event, nonce);
      var mints := w.parent.session.Some? && w.parent.session.value.nonce.None?
        && after.session.Some? && after.session.value.nonce == Some(nonce);
      w.(parent := after,
         minted := if mints then w.minted[nonce :=
             Minted(after.session.value.frame, after.session.value.flow, after.session.value.token)] else w.minted)
  }

  /** A window other than the parent's cannot pass for it. */
  predicate StrangeToFrame(event: Event<ToEmbed>) {
    event.source != ParentWindow
  }

  /** Nor can a window that is not one of our frames, or a document in one of them from elsewhere. */
  predicate StrangeToPage(w: World, event: Event<ToParent>) {
    !event.source.FrameWindow? || event.origin != w.parent.origin
  }

  function Step(w: World, h: Happening): World {
    match h
    case Mounts(slot, flow, token, contest) => w.(parent := Mount(w.parent, slot, flow, token, contest))
    case Unmounts => w.(parent := Unmount(w.parent))
    case TimesOut(frame) => w.(parent := TimeOut(w.parent, frame))
    case AsksState => w.(parent := AskState(w.parent))
    case AsksResize => w.(parent := AskResize(w.parent))
    case Loads(frame, url) =>
      if frame < w.parent.frames then w.(docs := w.docs + [Loaded(frame, url)], live := w.live[frame := |w.docs|])
        else w
    case Starts(doc, origins) => if Alive(w, doc) then WithDoc(w, doc, Start(w.docs[doc], origins)) else w
    case ToFrame(doc, mail, measured) =>
      if Alive(w, doc) && mail < |w.parent.sent| && w.parent.sent[mail].frame == w.docs[doc].frame then
        WithDoc(w, doc, FrameReceive(w.docs[doc], Event(w.page, ParentWindow, Wire(w.parent.sent[mail].message)),
            measured))
      else w
    case StrangerToFrame(doc, event, measured) =>
      if Alive(w, doc) && StrangeToFrame(event) then WithDoc(w, doc, FrameReceive(w.docs[doc], event, measured)) else w
    case Redeems(doc, answer, measured) =>
      if Alive(w, doc) then WithDoc(w, doc, Redeemed(w.docs[doc], answer, measured)) else w
    case ReadsState(doc, reading, answer) =>
      if Alive(w, doc) then WithDoc(w, doc, StateRead(w.docs[doc], reading, answer)) else w
    case Tells(doc, report) => if Alive(w, doc) then WithDoc(w, doc, Tell(w.docs[doc], report)) else w
    case Measures(doc, measured) => if Alive(w, doc) then WithDoc(w, doc, ReportHeight(w.docs[doc], false, measured))
      else w
    case ToPage(doc, message, nonce) =>
      if doc < |w.docs| && message < |w.docs[doc].sent| then
        PageReceives(w, Event(w.parent.origin, FrameWindow(w.docs[doc].frame), WireReply(w.docs[doc].sent[message])),
            nonce)
      else w
    case StrangerToPage(event, nonce) => if StrangeToPage(w, event) then PageReceives(w, event, nonce) else w
  }

  function After(w: World, run: seq<Happening>): World {
    if run == [] then w else Step(After(w, run[..|run| - 1]), run[|run| - 1])
  }

  // ---- The invariant -----------------------------------------------------------------

  predicate MintedFor(minted: map<nat, Minted>, nonce: nat, frame: nat) {
    nonce in minted && minted[nonce].frame == frame
  }

  /** A hello posted is the one its nonce was minted for. */
  predicate MailInv(minted: map<nat, Minted>, key: nat, mail: Mail) {
    && MintedFor(minted, mail.message.nonce, mail.frame)
    && (mail.message.Hello? ==>
          mail.message.flow == minted[mail.message.nonce].flow && mail.message.key == key
          && mail.message.token == minted[mail.message.nonce].token)
  }

  predicate SessionInv(p: Parent, minted: map<nat, Minted>) {
    p.session.Some? ==>
      var s := p.session.value;
      && s.frame < p.frames
      && (s.handshake ==> s.frame !in p.outcomes)
      && (match s.nonce
          case Some(n) => n in minted && minted[n] == Minted(s.frame, s.flow, s.token)
          case None => s.frame !in (set n | n in minted :: minted[n].frame))
      && (forall i | 0 <= i < |s.stateReads| :: s.stateReads[i] < p.asked && s.stateReads[i] !in p.answers)
      && (forall i, j | 0 <= i < j < |s.stateReads| :: s.stateReads[i] != s.stateReads[j])
  }

  ghost predicate ParentInv(p: Parent, minted: map<nat, Minted>) {
    && SessionInv(p, minted)
    && (forall i | 0 <= i < |p.sent| :: MailInv(minted, p.key, p.sent[i]))
    && (forall n | n in minted :: minted[n].frame < p.frames)
    && (forall n, m | n in minted && m in minted && minted[n].frame == minted[m].frame :: n == m)
    && (forall f | f in p.outcomes :: f < p.frames)
    && (forall a | a in p.answers :: a < p.asked)
  }

  /** What a document's posts say of it. */
  predicate PostInv(minted: map<nat, Minted>, d: Document, m: ToParent) {
    m.Ready? || (
      && MintedFor(minted, m.nonce, d.frame)
      && (m.HelloAck? ==> d.phase.Prepared? && CurrentNonce(d) == Some(m.nonce) && d.flow == Some(m.flow)))
  }

  ghost predicate DocInv(minted: map<nat, Minted>, key: nat, d: Document) {
    && (CurrentNonce(d).Some? ==> MintedFor(minted, CurrentNonce(d).value, d.frame))
    && (d.redeeming.Some? ==>
          var h := d.redeeming.value;
          h.Hello? && CurrentNonce(d) == Some(h.nonce) && d.flow == Some(h.flow) && d.key == Some(h.key)
          && h.key == key && MintedFor(minted, h.nonce, d.frame) && minted[h.nonce].flow == h.flow
            && !d.phase.Prepared?)
    && (d.phase.Prepared? ==>
          CurrentNonce(d).Some? && d.key == Some(key) && d.flow == Some(minted[CurrentNonce(d).value].flow))
    && (forall i | 0 <= i < |d.reading| :: MintedFor(minted, d.reading[i], d.frame))
    && (forall i | 0 <= i < |d.sent| :: PostInv(minted, d, d.sent[i]))
    && (d.phase.Starting? ==> d.receiver.None?)
  }

  /**
   * This document accepted the hello minted for frame `f`, with the mount's flow and the
   * page's key, and became ready.
   */
  ghost predicate Agreed(w: World, doc: nat, f: nat, flow: Flow, state: nat) {
    && doc < |w.docs|
    && var d := w.docs[doc]; var n := CurrentNonce(d);
    && d.frame == f && d.phase.Prepared? && n.Some?
    && n.value in w.minted && w.minted[n.value].frame == f && w.minted[n.value].flow == flow
    && d.flow == Some(flow) && d.key == Some(w.parent.key)
    && HelloAck(n.value, flow, state) in d.sent
  }

  ghost predicate OutcomesAgreed(w: World) {
    forall f | f in w.parent.outcomes && w.parent.outcomes[f].Resolved? ::
      exists doc :: Agreed(w, doc, f, w.parent.outcomes[f].flow, w.parent.outcomes[f].state)
  }

  ghost predicate WorldInv(w: World) {
    && ParentInv(w.parent, w.minted)
    && (forall i | 0 <= i < |w.docs| :: DocInv(w.minted, w.parent.key, w.docs[i]))
    && OutcomesAgreed(w)
  }
}
