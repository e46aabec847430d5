/**
 * Strays do not matter: what windows other than the two partners post, and what documents
 * of earlier frames posted, could be taken out of any run without changing anything but
 * the counts of dropped messages.
 */
module HandshakeStrays {
  import opened Common
  import opened Protocol
  import opened Embedding
  import opened Handshake

  // ---- All but the counts ------------------------------------------------------------

  function HushPage(p: Parent): Parent {
    p.(counts := multiset{})
  }

  function HushDoc(d: Document): Document {
    if d.receiver.None? then d else d.(receiver := Some(d.receiver.value.(counts := multiset{})))
  }

  function HushDocs(docs: seq<Document>): (hushed: seq<Document>)
    ensures |hushed| == |docs|
  {
    seq(|docs|, i requires 0 <= i < |docs| => HushDoc(docs[i]))
  }

  /** The world with every count of drops forgotten. */
  function Hush(w: World): World {
    w.(parent := HushPage(w.parent), docs := HushDocs(w.docs))
  }

  lemma {:induction false} HushUpdate(docs: seq<Document>, i: nat, d: Document)
    requires i < |docs|
    ensures HushDocs(docs[i := d]) == HushDocs(docs)[i := HushDoc(d)]
  {
  }

  lemma {:induction false} HushPush(docs: seq<Document>, d: Document)
    ensures HushDocs(docs + [d]) == HushDocs(docs) + [HushDoc(d)]
  {
  }

  // ---- The counts decide nothing -----------------------------------------------------

  /** The same page but for its counts. */
  predicate SamePage(p: Parent, q: Parent) {
    HushPage(p) == HushPage(q)
  }

  predicate SameDoc(d: Document, e: Document) {
    HushDoc(d) == HushDoc(e)
  }

  lemma {:induction false} PageActsSame(p: Parent, q: Parent, frame: nat)
    requires SamePage(p, q)
    ensures SamePage(Unmount(p), Unmount(q)) && SamePage(TimeOut(p, frame), TimeOut(q, frame))
    ensures SamePage(AskState(p), AskState(q)) && SamePage(AskResize(p), AskResize(q))
  {
  }

  lemma {:induction false} MountSame(p: Parent, q: Parent, slot: bool, flow: Flow, token: Option<nat>,
      contest: Option<nat>)
    requires SamePage(p, q)
    ensures SamePage(Mount(p, slot, flow, token, contest), Mount(q, slot, flow, token, contest))
  {
    PageActsSame(p, q, 0);
  }

  lemma {:induction false} DispatchSame(p: Parent, q: Parent, message: ToParent)
    requires SamePage(p, q) && p.session.Some?
    ensures SamePage(Dispatch(p, message), Dispatch(q, message))
  {
  }

  lemma {:induction false} ReceiveSame(p: Parent, q: Parent, event: Event<ToParent>, nonce: nat)
    requires SamePage(p, q)
    ensures SamePage(Receive(p, event, nonce), Receive(q, event, nonce))
  {
    if p.session.Some? {
      var parsed := Parse(event.data, TO_PARENT_TYPES);
      if parsed.Ok? && !parsed.value.Ready? {
        DispatchSame(p, q, parsed.value);
      }
    }
  }

  lemma {:induction false} HelloSame(d: Document, e: Document, hello: ToEmbed)
    requires SameDoc(d, e) && hello.Hello?
    ensures SameDoc(OnHello(d, hello), OnHello(e, hello))
  {
  }

  lemma {:induction false} HeightSame(d: Document, e: Document, force: bool, measured: int)
    requires SameDoc(d, e)
    ensures SameDoc(ReportHeight(d, force, measured), ReportHeight(e, force, measured))
  {
  }

  lemma {:induction false} FrameReceiveSame(d: Document, e: Document, event: Event<ToEmbed>, measured: int)
    requires SameDoc(d, e)
    ensures SameDoc(FrameReceive(d, event, measured), FrameReceive(e, event, measured))
  {
    if d.receiver.Some? {
      var r, q := d.receiver.value, e.receiver.value;
      var judged, also := d.(receiver := Some(Validate(r, event))), e.(receiver := Some(Validate(q, event)));
      assert Judge(r, event) == Judge(q, event);
      assert SameDoc(judged, also);
      if Judge(r, event).Accepted? {
        var message := Judge(r, event).message;
        if message.Hello? {
          HelloSame(judged, also, message);
        } else {
          HeightSame(judged, also, true, measured);
        }
      }
    }
  }

  lemma {:induction false} RedeemedSame(d: Document, e: Document, answer: Option<nat>, measured: int)
    requires SameDoc(d, e)
    ensures SameDoc(Redeemed(d, answer, measured), Redeemed(e, answer, measured))
  {
  }

  lemma {:induction false} DocActsSame(d: Document, e: Document, origins: Option<set<nat>>, i: nat,
      answer: Option<nat>, report: Report)
    requires SameDoc(d, e)
    ensures SameDoc(Start(d, origins), Start(e, origins))
    ensures SameDoc(StateRead(d, i, answer), StateRead(e, i, answer))
    ensures SameDoc(Tell(d, report), Tell(e, report))
  {
  }

  // ---- Nor do they decide any step ---------------------------------------------------

  predicate SameWorld(w: World, v: World) {
    Hush(w) == Hush(v)
  }

  lemma {:induction false} SameParts(w: World, v: World)
    requires SameWorld(w, v)
    ensures w.page == v.page && w.live == v.live && w.minted == v.minted && SamePage(w.parent, v.parent)
    ensures |w.docs| == |v.docs| && forall i | 0 <= i < |w.docs| :: SameDoc(w.docs[i], v.docs[i])
  {
    assert HushDocs(w.docs) == HushDocs(v.docs);
    forall i | 0 <= i < |w.docs| ensures SameDoc(w.docs[i], v.docs[i]) {
      assert HushDocs(w.docs)[i] == HushDocs(v.docs)[i];
    }
  }

  lemma {:induction false} SamePageSteps(w: World, v: World, p: Parent, q: Parent)
    requires SameWorld(w, v) && SamePage(p, q)
    ensures SameWorld(w.(parent := p), v.(parent := q))
  {
  }

  lemma {:induction false} SameDocSteps(w: World, v: World, doc: nat, d: Document, e: Document)
    requires SameWorld(w, v) && doc < |w.docs| == |v.docs| && SameDoc(d, e)
    ensures SameWorld(WithDoc(w, doc, d), WithDoc(v, doc, e))
  {
    HushUpdate(w.docs, doc, d);
    HushUpdate(v.docs, doc, e);
  }

  lemma {:induction false} SameReceives(w: World, v: World, event: Event<ToParent>, nonce: nat)
    requires SameWorld(w, v)
    ensures SameWorld(PageReceives(w, event, nonce), PageReceives(v, event, nonce))
  {
    SameParts(w, v);
    ReceiveSame(w.parent, v.parent, event, nonce);
  }

  /** What happens to a page. */
  predicate AtPage(h: Happening) {
    h.Mounts? || h.Unmounts? || h.TimesOut? || h.AsksState? || h.AsksResize? || h.ToPage? || h.StrangerToPage?
  }

  lemma {:induction false} SamePageStep(w: World, v: World, h: Happening)
    requires SameWorld(w, v) && AtPage(h)
    ensures SameWorld(Step(w, h), Step(v, h))
  {
    SameParts(w, v);
    match h
    case Mounts(slot, flow, token, contest) =>
      MountSame(w.parent, v.parent, slot, flow, token, contest);
      SamePageSteps(w, v, Mount(w.parent, slot, flow, token, contest), Mount(v.parent, slot, flow, token, contest));
    case Unmounts =>
      PageActsSame(w.parent, v.parent, 0);
      SamePageSteps(w, v, Unmount(w.parent), Unmount(v.parent));
    case TimesOut(frame) =>
      PageActsSame(w.parent, v.parent, frame);
      SamePageSteps(w, v, TimeOut(w.parent, frame), TimeOut(v.parent, frame));
    case AsksState =>
      PageActsSame(w.parent, v.parent, 0);
      SamePageSteps(w, v, AskState(w.parent), AskState(v.parent));
    case AsksResize =>
      PageActsSame(w.parent, v.parent, 0);
      SamePageSteps(w, v, AskResize(w.parent), AskResize(v.parent));
    case ToPage(doc, message, nonce) =>
      if doc < |w.docs| && message < |w.docs[doc].sent| {
        SameReceives(w, v, Event(w.parent.origin, FrameWindow(w.docs[doc].frame),
            WireReply(w.docs[doc].sent[message])), nonce);
      }
    case StrangerToPage(event, nonce) => SameReceives(w, v, event, nonce);
  }

  lemma {:induction false} SameDocStep(w: World, v: World, h: Happening)
    requires SameWorld(w, v) && !AtPage(h) && !h.Loads?
    ensures SameWorld(Step(w, h), Step(v, h))
  {
    SameParts(w, v);
    var doc := h.doc;
    if Alive(w, doc) {
      var d, e := w.docs[doc], v.docs[doc];
      match h
      case Starts(_, origins) =>
        DocActsSame(d, e, origins, 0, None, Problem);
        SameDocSteps(w, v, doc, Start(d, origins), Start(e, origins));
      case ToFrame(_, mail, measured) =>
        if mail < |w.parent.sent| && w.parent.sent[mail].frame == d.frame {
          SameFrameStep(w, v, doc, Event(w.page, ParentWindow, Wire(w.parent.sent[mail].message)), measured);
        }
      case StrangerToFrame(_, event, measured) => SameFrameStep(w, v, doc, event, measured);
      case Redeems(_, answer, measured) =>
        RedeemedSame(d, e, answer, measured);
        SameDocSteps(w, v, doc, Redeemed(d, answer, measured), Redeemed(e, answer, measured));
      case ReadsState(_, reading, answer) =>
        DocActsSame(d, e, None, reading, answer, Problem);
        SameDocSteps(w, v, doc, StateRead(d, reading, answer), StateRead(e, reading, answer));
      case Tells(_, report) =>
        DocActsSame(d, e, None, 0, None, report);
        SameDocSteps(w, v, doc, Tell(d, report), Tell(e, report));
      case Measures(_, measured) =>
        HeightSame(d, e, false, measured);
        SameDocSteps(w, v, doc, ReportHeight(d, false, measured), ReportHeight(e, false, measured));
    }
  }

  lemma {:induction false} SameFrameStep(w: World, v: World, doc: nat, event: Event<ToEmbed>, measured: int)
    requires SameWorld(w, v) && doc < |w.docs| == |v.docs| && SameDoc(w.docs[doc], v.docs[doc])
    ensures SameWorld(WithDoc(w, doc, FrameReceive(w.docs[doc], event, measured)),
      WithDoc(v, doc, FrameReceive(v.docs[doc], event, measured)))
  {
    FrameReceiveSame(w.docs[doc], v.docs[doc], event, measured);
    SameDocSteps(w, v, doc, FrameReceive(w.docs[doc], event, measured), FrameReceive(v.docs[doc], event, measured));
  }

  /** Worlds that differ only in their counts go on differing only in their counts. */
  lemma {:induction false} SameStep(w: World, v: World, h: Happening)
    requires SameWorld(w, v)
    ensures SameWorld(Step(w, h), Step(v, h))
  {
    if AtPage(h) {
      SamePageStep(w, v, h);
    } else if h.Loads? {
      HushPush(w.docs, Loaded(h.frame, h.url));
      HushPush(v.docs, Loaded(h.frame, h.url));
      SameParts(w, v);
    } else {
      SameDocStep(w, v, h);
    }
  }

  // ---- Strays ------------------------------------------------------------------------

  /**
   * A message nobody should act on: from a window that is neither partner's, or from a
   * document whose frame is not the mounted session's.
   */
  predicate Stray(w: World, h: Happening) {
    || h.StrangerToFrame? || h.StrangerToPage?
    || (h.ToPage? && h.doc < |w.docs| && (w.parent.session.None?
      || w.docs[h.doc].frame != w.parent.session.value.frame))
  }

  lemma {:induction false} StrayAtPage(w: World, event: Event<ToParent>, nonce: nat)
    requires StrangeToPage(w, event) || w.parent.session.None?
      || event.source != FrameWindow(w.parent.session.value.frame)
    ensures SameWorld(PageReceives(w, event, nonce), w)
  {
  }

  lemma {:induction false} StrayAtFrame(d: Document, event: Event<ToEmbed>, measured: int)
    requires StrangeToFrame(event)
    ensures SameDoc(FrameReceive(d, event, measured), d)
  {
  }

  lemma {:induction false} StrayOnlyCounts(w: World, h: Happening)
    requires Stray(w, h)
    ensures SameWorld(Step(w, h), w)
  {
    match h
    case StrangerToFrame(doc, event, measured) =>
      if Alive(w, doc) && StrangeToFrame(event) {
        StrayAtFrame(w.docs[doc], event, measured);
        SameDocSteps(w, w, doc, FrameReceive(w.docs[doc], event, measured), w.docs[doc]);
        assert w.docs[doc := w.docs[doc]] == w.docs;
      }
    case StrangerToPage(event, nonce) =>
      if StrangeToPage(w, event) {
        StrayAtPage(w, event, nonce);
      }
    case ToPage(doc, message, nonce) =>
      if message < |w.docs[doc].sent| {
        StrayAtPage(w, Event(w.parent.origin, FrameWindow(w.docs[doc].frame), WireReply(w.docs[doc].sent[message])),
            nonce);
      }
  }

  /** The run with every stray, judged where it happens, taken out. */
  function WithoutStrays(w: World, run: seq<Happening>): seq<Happening> {
    if run == [] then []
    else
      var front, last := run[..|run| - 1], run[|run| - 1];
      WithoutStrays(w, front) + if Stray(After(w, front), last) then [] else [last]
  }

  /**
   * Non-interference: whatever strangers and earlier frames post, the page's session, its
   * outcomes and answers, every document and everything either side posts are exactly what
   * they would have been without it. Only the counts of drops tell the difference.
   */
  lemma {:induction false} StraysChangeNothing(w: World, run: seq<Happening>)
    ensures Hush(After(w, WithoutStrays(w, run))) == Hush(After(w, run))
  {
    if run != [] {
      var front, last := run[..|run| - 1], run[|run| - 1];
      var kept := WithoutStrays(w, front);
      StraysChangeNothing(w, front);
      if Stray(After(w, front), last) {
        StrayOnlyCounts(After(w, front), last);
        assert kept + [] == kept;
      } else {
        SameStep(After(w, kept), After(w, front), last);
        assert (kept + [last])[..|kept|] == kept;
      }
    }
  }
}
