/** What the handshake guarantees over every interleaving. */
module HandshakeTheorems {
  import opened Common
  import opened Protocol
  import opened Embedding
  import opened Handshake
  import opened HandshakeSteps

  // ---- The invariant over every run --------------------------------------------------

  lemma {:induction false} BeginInv(page: nat, origin: nat, key: nat)
    ensures WorldInv(Begin(page, origin, key))
  {
  }

  /** What a step never takes back. */
  ghost predicate WorldGrows(w: World, after: World) {
    && after.page == w.page && ParentGrows(w.parent, after.parent)
    && (forall n | n in w.minted :: n in after.minted && after.minted[n] == w.minted[n])
    && |w.docs| <= |after.docs|
    && forall i | 0 <= i < |w.docs| :: DocGrows(w.docs[i], after.docs[i])
  }

  lemma {:induction false} DocSame(d: Document)
    ensures DocGrows(d, d)
  {
  }

  lemma {:induction false} ParentSame(p: Parent)
    ensures ParentGrows(p, p)
  {
  }

  /** More nonces minted leave a document's history true. */
  lemma {:induction false} MoreMinted(minted: map<nat, Minted>, more: map<nat, Minted>, key: nat, d: Document)
    requires DocInv(minted, key, d) && forall n | n in minted :: n in more && more[n] == minted[n]
    ensures DocInv(more, key, d)
  {
    forall i | 0 <= i < |d.sent| ensures PostInv(more, d, d.sent[i]) {
      assert PostInv(minted, d, d.sent[i]);
    }
    forall i | 0 <= i < |d.reading| ensures MintedFor(more, d.reading[i], d.frame) {
      assert MintedFor(minted, d.reading[i], d.frame);
    }
  }

  lemma {:induction false} AgreedStays(w: World, after: World, doc: nat, f: nat, flow: Flow, state: nat)
    requires WorldGrows(w, after) && Agreed(w, doc, f, flow, state)
    ensures Agreed(after, doc, f, flow, state)
  {
    assert DocGrows(w.docs[doc], after.docs[doc]);
    var n := CurrentNonce(w.docs[doc]).value;
    var i :| 0 <= i < |w.docs[doc].sent| && w.docs[doc].sent[i] == HelloAck(n, flow, state);
    assert after.docs[doc].sent[i] == HelloAck(n, flow, state);
  }

  /** Every resolved promise of `after` was resolved before, or some document has just agreed. */
  lemma {:induction false} OutcomesStayAgreed(w: World, after: World)
    requires OutcomesAgreed(w) && WorldGrows(w, after)
    requires forall f | f in after.parent.outcomes && after.parent.outcomes[f].Resolved? && f !in w.parent.outcomes ::
      exists doc :: Agreed(after, doc, f, after.parent.outcomes[f].flow, after.parent.outcomes[f].state)
    ensures OutcomesAgreed(after)
  {
    forall f | f in after.parent.outcomes && after.parent.outcomes[f].Resolved?
      ensures exists doc :: Agreed(after, doc, f, after.parent.outcomes[f].flow, after.parent.outcomes[f].state)
    {
      if f in w.parent.outcomes {
        var o := w.parent.outcomes[f];
        var doc :| Agreed(w, doc, f, o.flow, o.state);
        AgreedStays(w, after, doc, f, o.flow, o.state);
      }
    }
  }

  /** One document changed. */
  lemma {:induction false} DocStepKeeps(w: World, doc: nat, d: Document)
    requires WorldInv(w) && doc < |w.docs|
    requires DocInv(w.minted, w.parent.key, d) && DocGrows(w.docs[doc], d)
    ensures WorldInv(WithDoc(w, doc, d)) && WorldGrows(w, WithDoc(w, doc, d))
  {
    var after := WithDoc(w, doc, d);
    ParentSame(w.parent);
    forall i | 0 <= i < |w.docs| ensures DocGrows(w.docs[i], after.docs[i]) {
      DocSame(w.docs[i]);
    }
    OutcomesStayAgreed(w, after);
  }

  /** The parent changed, and settled nothing by resolving it. */
  lemma {:induction false} ParentStepKeeps(w: World, p: Parent)
    requires WorldInv(w) && ParentInv(p, w.minted) && ParentGrows(w.parent, p)
    requires forall f | f in p.outcomes && f !in w.parent.outcomes :: p.outcomes[f].Rejected?
    ensures WorldInv(w.(parent := p)) && WorldGrows(w, w.(parent := p))
  {
    var after := w.(parent := p);
    forall i | 0 <= i < |w.docs| ensures DocGrows(w.docs[i], after.docs[i]) {
      DocSame(w.docs[i]);
    }
    OutcomesStayAgreed(w, after);
  }

  lemma {:induction false} LoadKeeps(w: World, frame: nat, url: Url)
    requires WorldInv(w)
    ensures var after := w.(docs := w.docs + [Loaded(frame, url)], live := w.live[frame := |w.docs|]);
      WorldInv(after) && WorldGrows(w, after)
  {
    var after := w.(docs := w.docs + [Loaded(frame, url)], live := w.live[frame := |w.docs|]);
    ParentSame(w.parent);
    forall i | 0 <= i < |w.docs| ensures DocGrows(w.docs[i], after.docs[i]) {
      DocSame(w.docs[i]);
    }
    OutcomesStayAgreed(w, after);
  }

  // ---- A message at the page ---------------------------------------------------------

  lemma {:induction false} StrangerDropped(w: World, event: Event<ToParent>, nonce: nat)
    requires StrangeToPage(w, event)
    ensures PageReceives(w, event, nonce) == w
      || PageReceives(w, event, nonce) == w.(parent := Drop(w.parent, BadOrigin))
  {
  }

  lemma {:induction false} StrangerKeeps(w: World, event: Event<ToParent>, nonce: nat)
    requires WorldInv(w) && StrangeToPage(w, event)
    ensures WorldInv(PageReceives(w, event, nonce)) && WorldGrows(w, PageReceives(w, event, nonce))
  {
    StrangerDropped(w, event, nonce);
    SameWorld(w);
    DropKeeps(w.parent, w.minted, BadOrigin);
    ParentStepKeeps(w, Drop(w.parent, BadOrigin));
  }

  lemma {:induction false} SameWorld(w: World)
    ensures WorldGrows(w, w)
  {
    ParentSame(w.parent);
    forall i | 0 <= i < |w.docs| ensures DocGrows(w.docs[i], w.docs[i]) {
      DocSame(w.docs[i]);
    }
  }

  /** A message from a document of a frame that is not mounted is dropped, whatever it says. */
  lemma {:induction false} OtherFramesDropped(w: World, frame: nat, message: ToParent, nonce: nat)
    requires w.parent.session.None? || w.parent.session.value.frame != frame
    ensures var after := PageReceives(w, Event(w.parent.origin, FrameWindow(frame), WireReply(message)), nonce);
      after == w || after == w.(parent := Drop(w.parent, BadOrigin))
  {
  }

  lemma {:induction false} MountedFrame(p: Parent, message: ToParent, nonce: nat)
    requires p.session.Some?
    ensures Receive(p, Event(p.origin, FrameWindow(p.session.value.frame), WireReply(message)), nonce) ==
      if message.Ready? then OnReady(p, nonce)
      else if p.session.value.nonce != Some(message.nonce) then Drop(p, BadNonce)
      else Dispatch(p, message)
  {
    WireReplyParses(message);
  }

  lemma {:induction false} ReadyStepKeeps(w: World, frame: nat, nonce: nat)
    requires WorldInv(w) && nonce !in w.minted && w.parent.session.Some? && w.parent.session.value.frame == frame
    ensures var after := PageReceives(w, Event(w.parent.origin, FrameWindow(frame), WireReply(Ready)), nonce);
      WorldInv(after) && WorldGrows(w, after)
  {
    var p, after := w.parent, PageReceives(w, Event(w.parent.origin, FrameWindow(frame), WireReply(Ready)), nonce);
    MountedFrame(p, Ready, nonce);
    ReadyKeeps(p, w.minted, nonce);
    assert after == w.(parent := OnReady(p, nonce), minted := Remember(p, w.minted, nonce));
    forall i | 0 <= i < |w.docs| ensures DocInv(after.minted, p.key, w.docs[i]) {
      MoreMinted(w.minted, after.minted, p.key, w.docs[i]);
    }
    forall i | 0 <= i < |w.docs| ensures DocGrows(w.docs[i], after.docs[i]) {
      DocSame(w.docs[i]);
    }
    OutcomesStayAgreed(w, after);
  }

  /** An acknowledgement can only have come from a document that agreed. */
  lemma {:induction false} AckAgreed(w: World, doc: nat, i: nat)
    requires WorldInv(w) && doc < |w.docs| && i < |w.docs[doc].sent| && w.docs[doc].sent[i].HelloAck?
    requires w.parent.session.Some? && w.parent.session.value.frame == w.docs[doc].frame
    requires var m := w.docs[doc].sent[i];
      w.parent.session.value.nonce == Some(m.nonce) && w.parent.session.value.flow == m.flow
    ensures var m := w.docs[doc].sent[i]; Agreed(w, doc, w.docs[doc].frame, m.flow, m.state)
  {
    assert DocInv(w.minted, w.parent.key, w.docs[doc]) && PostInv(w.minted, w.docs[doc], w.docs[doc].sent[i]);
  }

  lemma {:induction false} DispatchStepKeeps(w: World, doc: nat, i: nat)
    requires WorldInv(w) && doc < |w.docs| && i < |w.docs[doc].sent| && !w.docs[doc].sent[i].Ready?
    requires w.parent.session.Some? && w.parent.session.value.frame == w.docs[doc].frame
    requires w.parent.session.value.nonce == Some(w.docs[doc].sent[i].nonce)
    ensures var after := w.(parent := Dispatch(w.parent, w.docs[doc].sent[i]));
      WorldInv(after) && WorldGrows(w, after)
  {
    var m := w.docs[doc].sent[i];
    var after := w.(parent := Dispatch(w.parent, m));
    DispatchKeeps(w.parent, w.minted, m);
    forall j | 0 <= j < |w.docs| ensures DocGrows(w.docs[j], after.docs[j]) {
      DocSame(w.docs[j]);
    }
    var s := w.parent.session.value;
    if m.HelloAck? && s.handshake && m.flow == s.flow {
      AckAgreed(w, doc, i);
      assert Agreed(after, doc, s.frame, m.flow, m.state);
    }
    OutcomesStayAgreed(w, after);
  }

  lemma {:induction false} ToPageKeeps(w: World, doc: nat, i: nat, nonce: nat)
    requires WorldInv(w) && doc < |w.docs| && i < |w.docs[doc].sent|
    ensures var after := PageReceives(w, Event(w.parent.origin, FrameWindow(w.docs[doc].frame),
      WireReply(w.docs[doc].sent[i])), nonce);
      WorldInv(after) && WorldGrows(w, after)
  {
    var m, frame := w.docs[doc].sent[i], w.docs[doc].frame;
    SameWorld(w);
    if nonce !in w.minted {
      if w.parent.session.None? || w.parent.session.value.frame != frame {
        OtherFramesDropped(w, frame, m, nonce);
        DropKeeps(w.parent, w.minted, BadOrigin);
        ParentStepKeeps(w, Drop(w.parent, BadOrigin));
      } else if m.Ready? {
        ReadyStepKeeps(w, frame, nonce);
      } else {
        NoMint(w, m, nonce);
        if w.parent.session.value.nonce == Some(m.nonce) {
          DispatchStepKeeps(w, doc, i);
        } else {
          DropKeeps(w.parent, w.minted, BadNonce);
          ParentStepKeeps(w, Drop(w.parent, BadNonce));
        }
      }
    }
  }

  /** Only `ready` mints a nonce. */
  lemma {:induction false} NoMint(w: World, m: ToParent, nonce: nat)
    requires w.parent.session.Some? && !m.Ready? && nonce !in w.minted
    ensures PageReceives(w, Event(w.parent.origin, FrameWindow(w.parent.session.value.frame), WireReply(m)), nonce)
      == w.(parent := if w.parent.session.value.nonce == Some(m.nonce) then Dispatch(w.parent, m)
          else Drop(w.parent, BadNonce))
  {
    MountedFrame(w.parent, m, nonce);
  }

  // ---- Every step --------------------------------------------------------------------

  /** What a document does, as a document. */
  function DocAfter(w: World, h: Happening): Option<(nat, Document)> {
    match h
    case Starts(doc, origins) => if Alive(w, doc) then Some((doc, Start(w.docs[doc], origins))) else None
    case ToFrame(doc, mail, measured) =>
      if Alive(w, doc) && mail < |w.parent.sent| && w.parent.sent[mail].frame == w.docs[doc].frame then
        Some((doc, FrameReceive(w.docs[doc], Event(w.page, ParentWindow, Wire(w.parent.sent[mail].message)), measured)))
      else None
    case StrangerToFrame(doc, event, measured) =>
      if Alive(w, doc) && StrangeToFrame(event) then Some((doc, FrameReceive(w.docs[doc], event, measured))) else None
    case Redeems(doc, answer, measured) => if Alive(w, doc) then Some((doc, Redeemed(w.docs[doc], answer, measured)))
      else None
    case ReadsState(doc, reading, answer) => if Alive(w, doc)
      then Some((doc, StateRead(w.docs[doc], reading, answer))) else None
    case Tells(doc, report) => if Alive(w, doc) then Some((doc, Tell(w.docs[doc], report))) else None
    case Measures(doc, measured) => if Alive(w, doc) then Some((doc, ReportHeight(w.docs[doc], false, measured)))
      else None
    case _ => None
  }

  lemma {:induction false} DocAfterKeeps(w: World, h: Happening)
    requires WorldInv(w) && DocAfter(w, h).Some?
    ensures var (doc, d) := DocAfter(w, h).value;
      doc < |w.docs| && DocInv(w.minted, w.parent.key, d) && DocGrows(w.docs[doc], d)
  {
    var minted, key := w.minted, w.parent.key;
    match h
    case Starts(doc, origins) => StartKeeps(minted, key, w.docs[doc], origins);
    case ToFrame(doc, mail, measured) =>
      assert MailInv(minted, key, w.parent.sent[mail]);
      FromParentKeeps(minted, key, w.docs[doc], w.page, w.parent.sent[mail], measured);
    case StrangerToFrame(doc, event, measured) => FromStrangerKeeps(minted, key, w.docs[doc], event, measured);
    case Redeems(doc, answer, measured) => RedeemedKeeps(minted, key, w.docs[doc], answer, measured);
    case ReadsState(doc, reading, answer) => StateReadKeeps(minted, key, w.docs[doc], reading, answer);
    case Tells(doc, report) => TellKeeps(minted, key, w.docs[doc], report);
    case Measures(doc, measured) => HeightKeeps(minted, key, w.docs[doc], false, measured);
  }

  lemma {:induction false} PageActsKeep(w: World, h: Happening)
    requires WorldInv(w) && (h.Mounts? || h.Unmounts? || h.TimesOut? || h.AsksState? || h.AsksResize?)
    ensures WorldInv(Step(w, h)) && WorldGrows(w, Step(w, h))
  {
    var p, minted := w.parent, w.minted;
    match h
    case Mounts(slot, flow, token, contest) =>
      MountKeeps(p, minted, slot, flow, token, contest);
      ParentStepKeeps(w, Mount(p, slot, flow, token, contest));
    case Unmounts =>
      UnmountKeeps(p, minted);
      ParentStepKeeps(w, Unmount(p));
    case TimesOut(frame) =>
      ParentSame(p);
      if p.session.Some? {
        FailHandshakeKeeps(p, minted, TimedOut);
      }
      ParentStepKeeps(w, TimeOut(p, frame));
    case AsksState =>
      AskKeeps(p, minted);
      ParentStepKeeps(w, AskState(p));
    case AsksResize =>
      AskKeeps(p, minted);
      ParentStepKeeps(w, AskResize(p));
  }

  lemma {:induction false} StepKeeps(w: World, h: Happening)
    requires WorldInv(w)
    ensures WorldInv(Step(w, h)) && WorldGrows(w, Step(w, h))
  {
    SameWorld(w);
    match h
    case Loads(frame, url) => LoadKeeps(w, frame, url);
    case ToPage(doc, message, nonce) =>
      if doc < |w.docs| && message < |w.docs[doc].sent| {
        ToPageKeeps(w, doc, message, nonce);
      }
    case StrangerToPage(event, nonce) =>
      if StrangeToPage(w, event) {
        StrangerKeeps(w, event, nonce);
      }
    case Mounts(_, _, _, _) => PageActsKeep(w, h);
    case Unmounts => PageActsKeep(w, h);
    case TimesOut(_) => PageActsKeep(w, h);
    case AsksState => PageActsKeep(w, h);
    case AsksResize => PageActsKeep(w, h);
    case _ => DocActs(w, h);
  }

  lemma {:induction false} DocActs(w: World, h: Happening)
    requires WorldInv(w)
    requires h.Starts? || h.ToFrame? || h.StrangerToFrame? || h.Redeems? || h.ReadsState? || h.Tells? || h.Measures?
    ensures WorldInv(Step(w, h)) && WorldGrows(w, Step(w, h))
  {
    SameWorld(w);
    DocActsIs(w, h);
    if DocAfter(w, h).Some? {
      DocAfterKeeps(w, h);
      DocStepKeeps(w, DocAfter(w, h).value.0, DocAfter(w, h).value.1);
    }
  }

  lemma {:induction false} DocActsIs(w: World, h: Happening)
    requires h.Starts? || h.ToFrame? || h.StrangerToFrame? || h.Redeems? || h.ReadsState? || h.Tells? || h.Measures?
    ensures DocAfter(w, h).Some? ==> DocAfter(w, h).value.0 < |w.docs|
    ensures Step(w, h) == if DocAfter(w, h).Some? then WithDoc(w, DocAfter(w, h).value.0, DocAfter(w, h).value.1) else w
  {
  }

  lemma {:induction false} AfterInv(w: World, run: seq<Happening>)
    requires WorldInv(w)
    ensures WorldInv(After(w, run))
  {
    if run != [] {
      AfterInv(w, run[..|run| - 1]);
      StepKeeps(After(w, run[..|run| - 1]), run[|run| - 1]);
    }
  }

  // ---- The guarantees ----------------------------------------------------------------

  /**
   * Agreement: if a mount resolved, some document of that very frame accepted the hello of
   * that session, under the nonce minted for it, with the flow that was mounted and the
   * page's key, became ready, and acknowledged with the state the promise resolved to.
   */
  lemma {:induction false} ResolvedMeansAgreed(page: nat, origin: nat, key: nat, run: seq<Happening>, frame: nat)
      returns (doc: nat)
    requires var w := After(Begin(page, origin, key), run);
      frame in w.parent.outcomes && w.parent.outcomes[frame].Resolved?
    ensures var w := After(Begin(page, origin, key), run);
      Agreed(w, doc, frame, w.parent.outcomes[frame].flow, w.parent.outcomes[frame].state)
  {
    BeginInv(page, origin, key);
    AfterInv(Begin(page, origin, key), run);
    var w := After(Begin(page, origin, key), run);
    doc :| Agreed(w, doc, frame, w.parent.outcomes[frame].flow, w.parent.outcomes[frame].state);
  }

  lemma {:induction false} OutcomesStay(w: World, run: seq<Happening>, frame: nat)
    requires WorldInv(w) && frame in w.parent.outcomes
    ensures frame in After(w, run).parent.outcomes && After(w, run).parent.outcomes[frame] == w.parent.outcomes[frame]
  {
    if run != [] {
      OutcomesStay(w, run[..|run| - 1], frame);
      AfterInv(w, run[..|run| - 1]);
      StepKeeps(After(w, run[..|run| - 1]), run[|run| - 1]);
    }
  }

  /** Each mount's promise settles at most once: whatever comes later, its outcome stands. */
  lemma {:induction false} SettlesOnce(page: nat, origin: nat, key: nat, run: seq<Happening>, later: seq<Happening>,
      frame: nat)
    requires frame in After(Begin(page, origin, key), run).parent.outcomes
    ensures var w := After(Begin(page, origin, key), run);
      frame in After(w, later).parent.outcomes && After(w, later).parent.outcomes[frame] == w.parent.outcomes[frame]
  {
    BeginInv(page, origin, key);
    AfterInv(Begin(page, origin, key), run);
    OutcomesStay(After(Begin(page, origin, key), run), later, frame);
  }

  /** Sessions never share a nonce, so nothing said under one nonce is heard under another. */
  lemma {:induction false} NoncesAreOwn(page: nat, origin: nat, key: nat, run: seq<Happening>, n: nat, m: nat)
    requires var w := After(Begin(page, origin, key), run); n in w.minted && m in w.minted
    ensures var w := After(Begin(page, origin, key), run); w.minted[n].frame == w.minted[m].frame ==> n == m
  {
    BeginInv(page, origin, key);
    AfterInv(Begin(page, origin, key), run);
  }

  // ---- It can be completed -----------------------------------------------------------

  function FreshSession(flow: Flow, token: Option<nat>, nonce: Option<nat>): Session {
    Session(0, flow, token, nonce, true, [], None)
  }

  function Listening(page: nat, flow: Flow, key: nat): Document {
    Document(0, Some(flow), Some(page), Some(key), Waiting, Some(Receiver(page, None, multiset{})), None, [], -1,
        [Ready])
  }

  /** A mount, and its frame loaded and started. */
  lemma {:induction false} FrameListens(page: nat, origin: nat, key: nat, flow: Flow, token: Option<nat>,
      contest: Option<nat>)
    requires CheckMount(true, flow, token, contest) == None
    ensures var url := Url(Some(flow), Some(page), Some(key));
      Step(Step(Step(Begin(page, origin, key), Mounts(true, flow, token, contest)), Loads(0, url)),
          Starts(0, Some({page})))
      == World(page, Parent(origin, key, Some(FreshSession(flow, token, None)), multiset{}, 1, map[], 0, map[], []),
               [Listening(page, flow, key)], map[0 := 0], map[])
  {
    var url := Url(Some(flow), Some(page), Some(key));
    var mounted := Step(Begin(page, origin, key), Mounts(true, flow, token, contest));
    var loaded := Step(mounted, Loads(0, url));
    assert loaded.docs == [Loaded(0, url)];
    assert Start(Loaded(0, url), Some({page})) == Listening(page, flow, key);
  }

  /** `ready` is answered with the hello. */
  lemma {:induction false} HelloPosts(page: nat, origin: nat, key: nat, flow: Flow, token: Option<nat>, nonce: nat)
    ensures var w := World(page, Parent(origin, key, Some(FreshSession(flow, token, None)), multiset{}, 1, map[], 0,
      map[], []),
                           [Listening(page, flow, key)], map[0 := 0], map[]);
      Step(w, ToPage(0, 0, nonce))
      == World(page, Parent(origin, key, Some(FreshSession(flow, token, Some(nonce))), multiset{}, 1, map[], 0, map[],
                            [Mail(0, Hello(nonce, flow, key, token))]),
               [Listening(page, flow, key)], map[0 := 0], map[nonce := Minted(0, flow, token)])
  {
    WireReplyParses(Ready);
  }

  /** The hello is accepted, the token redeemed, and the acknowledgement posted. */
  lemma {:induction false} FrameAcknowledges(w: World, flow: Flow, token: Option<nat>, nonce: nat, state: nat)
    requires w.parent.sent == [Mail(0, Hello(nonce, flow, w.parent.key, token))] && w.live == map[0 := 0]
    requires w.docs == [Listening(w.page, flow, w.parent.key)] && (flow.Signin? || token.Some?)
    ensures var after := Step(Step(w, ToFrame(0, 0, 480)), Redeems(0, Some(state), 480));
      && after.parent == w.parent && after.minted == w.minted && |after.docs| == 1
      && after.docs[0].frame == 0 && after.docs[0].sent == [Ready, HelloAck(nonce, flow, state), Resize(nonce, 480)]
  {
    WireParses(Hello(nonce, flow, w.parent.key, token));
    var heard := Step(w, ToFrame(0, 0, 480));
    assert heard.docs[0].redeeming == Some(Hello(nonce, flow, w.parent.key, token));
    var d := Redeemed(heard.docs[0], Some(state), 480);
    assert d.sent == [Ready] + [HelloAck(nonce, flow, state)] + [Resize(nonce, 480)];
  }

  lemma {:induction false} AckResolves(w: World, flow: Flow, token: Option<nat>, nonce: nat, state: nat, next: nat)
    requires w.parent.session == Some(FreshSession(flow, token, Some(nonce))) && |w.docs| == 1 && next !in w.minted
    requires w.docs[0].frame == 0 && |w.docs[0].sent| > 1 && w.docs[0].sent[1] == HelloAck(nonce, flow, state)
    ensures var outcomes := Step(w, ToPage(0, 1, next)).parent.outcomes;
      0 in outcomes && outcomes[0] == Resolved(flow, state)
  {
    WireReplyParses(HelloAck(nonce, flow, state));
  }

  /** The handshake can be completed, for every flow that passes the mount's checks. */
  lemma {:induction false} CanComplete(page: nat, origin: nat, key: nat, flow: Flow, token: Option<nat>,
      contest: Option<nat>, nonce: nat, state: nat)
      returns (run: seq<Happening>)
    requires CheckMount(true, flow, token, contest) == None
    ensures var outcomes := After(Begin(page, origin, key), run).parent.outcomes;
      0 in outcomes && outcomes[0] == Resolved(flow, state)
  {
    var url := Url(Some(flow), Some(page), Some(key));
    var w0 := Begin(page, origin, key);
    var first, second := Mounts(true, flow, token, contest), Loads(0, url);
    var opening := [] + [first] + [second] + [Starts(0, Some({page}))];
    AfterPush(w0, [], first);
    AfterPush(w0, [] + [first], second);
    AfterPush(w0, [] + [first] + [second], Starts(0, Some({page})));
    FrameListens(page, origin, key, flow, token, contest);
    HelloPosts(page, origin, key, flow, token, nonce);
    AfterPush(w0, opening, ToPage(0, 0, nonce));
    var w := After(w0, opening + [ToPage(0, 0, nonce)]);
    FrameAcknowledges(w, flow, token, nonce, state);
    AfterPush(w0, opening + [ToPage(0, 0, nonce)], ToFrame(0, 0, 480));
    AfterPush(w0, opening + [ToPage(0, 0, nonce)] + [ToFrame(0, 0, 480)], Redeems(0, Some(state), 480));
    run := opening + [ToPage(0, 0, nonce)] + [ToFrame(0, 0, 480)] + [Redeems(0, Some(state), 480)];
    AckResolves(After(w0, run), flow, token, nonce, state, nonce + 1);
    AfterPush(w0, run, ToPage(0, 1, nonce + 1));
    run := run + [ToPage(0, 1, nonce + 1)];
  }

  lemma {:induction false} AfterPush(w: World, run: seq<Happening>, h: Happening)
    ensures After(w, run + [h]) == Step(After(w, run), h)
  {
    assert (run + [h])[..|run|] == run;
  }
}
