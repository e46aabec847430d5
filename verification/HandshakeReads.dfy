/**
 * State reads through the frame: every read is answered with a state some document of the
 * frame it was asked of told the page, or as signed out once that frame is gone.
 */
module HandshakeReads {
  import opened Common
  import opened Protocol
  import opened Embedding
  import opened Handshake
  import opened HandshakeSteps
  import opened HandshakeTheorems

  /** Which frame each read was asked of, as the run goes on. */
  function Noted(w: World, h: Happening, asks: map<nat, nat>): map<nat, nat> {
    if h.AsksState? && w.parent.session.Some? && w.parent.session.value.nonce.Some? then
      asks[w.parent.asked := w.parent.session.value.frame]
    else asks
  }

  function Asks(w: World, run: seq<Happening>): map<nat, nat> {
    if run == [] then map[]
    else Noted(After(w, run[..|run| - 1]), run[|run| - 1], Asks(w, run[..|run| - 1]))
  }

  /** A document of this frame told the page this state. */
  ghost predicate Told(docs: seq<Document>, frame: nat, state: nat) {
    exists doc, i ::
      0 <= doc < |docs| && docs[doc].frame == frame
        && 0 <= i < |docs[doc].sent| && docs[doc].sent[i].State? && docs[doc].sent[i].state == state
  }

  /** The frame is the one mounted now. */
  predicate Mounted(p: Parent, frame: nat) {
    p.session.Some? && p.session.value.frame == frame
  }

  predicate Pending(p: Parent, read: nat) {
    p.session.Some? && read in p.session.value.stateReads
  }

  /** A read was answered as it should be: with a state its frame told, or as signed out because that frame is gone. */
  ghost predicate WellAnswered(w: World, frame: nat, answer: Option<nat>) {
    match answer
    case Some(state) => Told(w.docs, frame, state)
    case None => !Mounted(w.parent, frame)
  }

  ghost predicate ReadsInv(w: World, asks: map<nat, nat>) {
    var p := w.parent;
    && (forall read: nat :: read in asks <==> read < p.asked)
    && (forall read | read in asks :: asks[read] < p.frames)
    && (forall read | read in asks && read !in p.answers :: Pending(p, read) && Mounted(p, asks[read]))
    && (forall read | Pending(p, read) :: read in asks && Mounted(p, asks[read]) && read !in p.answers)
    && (forall read | read in p.answers :: read in asks && WellAnswered(w, asks[read], p.answers[read]))
  }

  /** Documents say more and the page's reads stay as they are. */
  ghost predicate ReadsQuiet(w: World, after: World) {
    && |w.docs| <= |after.docs| && (forall i | 0 <= i < |w.docs| :: DocGrows(w.docs[i], after.docs[i]))
    && after.parent.asked == w.parent.asked && after.parent.answers == w.parent.answers
    && after.parent.frames == w.parent.frames
    && (after.parent.session.Some? <==> w.parent.session.Some?)
    && (w.parent.session.Some? ==>
          && after.parent.session.value.frame == w.parent.session.value.frame
          && after.parent.session.value.stateReads == w.parent.session.value.stateReads)
  }

  lemma {:induction false} ToldStays(docs: seq<Document>, more: seq<Document>, frame: nat, state: nat)
    requires |docs| <= |more| && forall i | 0 <= i < |docs| :: DocGrows(docs[i], more[i])
    requires Told(docs, frame, state)
    ensures Told(more, frame, state)
  {
    var doc, i :| 0 <= doc < |docs| && docs[doc].frame == frame
      && 0 <= i < |docs[doc].sent| && docs[doc].sent[i].State? && docs[doc].sent[i].state == state;
    assert DocGrows(docs[doc], more[doc]) && more[doc].sent[i] == docs[doc].sent[i];
  }

  lemma {:induction false} QuietKeeps(w: World, after: World, asks: map<nat, nat>)
    requires ReadsInv(w, asks) && ReadsQuiet(w, after)
    ensures ReadsInv(after, asks)
  {
    forall read | read in after.parent.answers
      ensures read in asks && WellAnswered(after, asks[read], after.parent.answers[read])
    {
      assert WellAnswered(w, asks[read], w.parent.answers[read]);
      if w.parent.answers[read].Some? {
        ToldStays(w.docs, after.docs, asks[read], w.parent.answers[read].value);
      }
    }
    forall read | Pending(after.parent, read)
      ensures read in asks && Mounted(after.parent, asks[read]) && read !in after.parent.answers
    {
      assert Pending(w.parent, read);
    }
    forall read | read in asks && read !in after.parent.answers
      ensures Pending(after.parent, read) && Mounted(after.parent, asks[read])
    {
      assert Pending(w.parent, read);
    }
  }

  // ---- The steps that touch reads ----------------------------------------------------

  lemma {:induction false} AskKept(w: World, asks: map<nat, nat>)
    requires ReadsInv(w, asks) && WorldInv(w)
    ensures ReadsInv(Step(w, AsksState), Noted(w, AsksState, asks))
  {
    var p := w.parent;
    if p.session.Some? && p.session.value.nonce.Some? {
      var after, noted := Step(w, AsksState), asks[p.asked := p.session.value.frame];
      assert p.asked !in p.answers by {
        assert p.asked in p.answers ==> p.asked in asks;
      }
      forall read | Pending(after.parent, read)
        ensures read in noted && Mounted(after.parent, noted[read]) && read !in after.parent.answers
      {
        assert read == p.asked || Pending(p, read);
      }
      forall read | read in noted && read !in after.parent.answers
        ensures Pending(after.parent, read) && Mounted(after.parent, noted[read])
      {
        if read != p.asked {
          assert Pending(p, read);
        } else {
          assert p.asked in p.session.value.stateReads + [p.asked];
        }
      }
      forall read | read in after.parent.answers
        ensures read in noted && WellAnswered(after, noted[read], after.parent.answers[read])
      {
        assert WellAnswered(w, asks[read], p.answers[read]);
      }
    } else {
      QuietKeeps(w, w, asks);
    }
  }

  /** Unmounting answers what is pending as signed out, and its frame is gone. */
  lemma {:induction false} UnmountKept(w: World, asks: map<nat, nat>)
    requires ReadsInv(w, asks)
    ensures ReadsInv(w.(parent := Unmount(w.parent)), asks)
  {
    var p, after := w.parent, w.(parent := Unmount(w.parent));
    if p.session.Some? {
      Answered(p.answers, p.session.value.stateReads, None);
      forall read | read in asks && read !in after.parent.answers
        ensures Pending(after.parent, read) && Mounted(after.parent, asks[read])
      {
        assert Pending(p, read);
      }
      forall read | read in after.parent.answers
        ensures read in asks && WellAnswered(after, asks[read], after.parent.answers[read])
      {
        if Pending(p, read) {
          assert after.parent.answers[read] == None;
        } else {
          assert WellAnswered(w, asks[read], p.answers[read]);
        }
      }
    }
  }

  /** A new mount is a frame nothing was ever asked of. */
  lemma {:induction false} MountKept(w: World, asks: map<nat, nat>, slot: bool, flow: Flow, token: Option<nat>,
      contest: Option<nat>)
    requires ReadsInv(w, asks)
    ensures ReadsInv(w.(parent := Mount(w.parent, slot, flow, token, contest)), asks)
  {
    if CheckMount(slot, flow, token, contest).None? {
      UnmountKept(w, asks);
      var cleared, after := w.(parent := Unmount(w.parent)),
        w.(parent := Mount(w.parent, slot, flow, token, contest));
      forall read | read in asks ensures read in after.parent.answers {
        assert read !in cleared.parent.answers ==> Pending(cleared.parent, read);
      }
      forall read | read in after.parent.answers
        ensures read in asks && WellAnswered(after, asks[read], after.parent.answers[read])
      {
        assert WellAnswered(cleared, asks[read], cleared.parent.answers[read]);
      }
    }
  }

  /** A state told by a document of the mounted frame answers everything pending. */
  lemma {:induction false} StateKept(w: World, asks: map<nat, nat>, doc: nat, i: nat)
    requires ReadsInv(w, asks) && doc < |w.docs| && i < |w.docs[doc].sent| && w.docs[doc].sent[i].State?
    requires Mounted(w.parent, w.docs[doc].frame)
    ensures ReadsInv(w.(parent := Dispatch(w.parent, w.docs[doc].sent[i])), asks)
  {
    var p, state := w.parent, w.docs[doc].sent[i].state;
    var after := w.(parent := Dispatch(p, w.docs[doc].sent[i]));
    Answered(p.answers, p.session.value.stateReads, Some(state));
    forall read | read in asks ensures read in after.parent.answers {
      assert read !in p.answers ==> Pending(p, read);
    }
    forall read | read in after.parent.answers
      ensures read in asks && WellAnswered(after, asks[read], after.parent.answers[read])
    {
      if Pending(p, read) {
        assert after.parent.answers[read] == Some(state) && asks[read] == w.docs[doc].frame;
        assert Told(after.docs, asks[read], state);
      } else {
        assert WellAnswered(w, asks[read], p.answers[read]);
      }
    }
  }

  // ---- Every step --------------------------------------------------------------------

  /** A message that is not a state leaves the page's reads alone. */
  lemma {:induction false} OtherMessageQuiet(w: World, m: ToParent, nonce: nat)
    requires w.parent.session.Some? && nonce !in w.minted
    requires m.State? ==> w.parent.session.value.nonce != Some(m.nonce)
    ensures ReadsQuiet(w, PageReceives(w, Event(w.parent.origin, FrameWindow(w.parent.session.value.frame),
      WireReply(m)), nonce))
  {
    MountedFrame(w.parent, m, nonce);
    forall i | 0 <= i < |w.docs| ensures DocGrows(w.docs[i], w.docs[i]) {
      DocSame(w.docs[i]);
    }
  }

  lemma {:induction false} SameReads(w: World, after: World)
    requires after.docs == w.docs && after.parent == w.parent.(counts := after.parent.counts)
    ensures ReadsQuiet(w, after)
  {
    forall i | 0 <= i < |w.docs| ensures DocGrows(w.docs[i], w.docs[i]) {
      DocSame(w.docs[i]);
    }
  }

  lemma {:induction false} DeliveryKept(w: World, asks: map<nat, nat>, doc: nat, i: nat, nonce: nat)
    requires ReadsInv(w, asks)
    ensures ReadsInv(Step(w, ToPage(doc, i, nonce)), asks)
  {
    var after := Step(w, ToPage(doc, i, nonce));
    if doc < |w.docs| && i < |w.docs[doc].sent| && nonce !in w.minted {
      var m, frame := w.docs[doc].sent[i], w.docs[doc].frame;
      if !Mounted(w.parent, frame) {
        OtherFramesDropped(w, frame, m, nonce);
        SameReads(w, after);
        QuietKeeps(w, after, asks);
      } else if m.State? && w.parent.session.value.nonce == Some(m.nonce) {
        NoMint(w, m, nonce);
        StateKept(w, asks, doc, i);
      } else {
        OtherMessageQuiet(w, m, nonce);
        QuietKeeps(w, after, asks);
      }
    } else {
      SameReads(w, after);
      QuietKeeps(w, after, asks);
    }
  }

  /** Whatever else happens, the page's reads stay as they are. */
  lemma {:induction false} QuietHappening(w: World, h: Happening)
    requires !h.Mounts? && !h.Unmounts? && !h.AsksState? && !h.ToPage?
    ensures var p, q := w.parent, Step(w, h).parent;
      && q.asked == p.asked && q.answers == p.answers && q.frames == p.frames
      && (q.session.Some? <==> p.session.Some?)
      && (p.session.Some? ==>
            q.session.value.frame == p.session.value.frame && q.session.value.stateReads == p.session.value.stateReads)
  {
    if h.StrangerToPage? && StrangeToPage(w, h.toPage) {
      StrangerDropped(w, h.toPage, h.nonce);
    }
  }

  lemma {:induction false} QuietStep(w: World, h: Happening, asks: map<nat, nat>)
    requires ReadsInv(w, asks) && WorldInv(w)
    requires !h.Mounts? && !h.Unmounts? && !h.AsksState? && !h.ToPage?
    ensures ReadsInv(Step(w, h), asks)
  {
    StepKeeps(w, h);
    QuietHappening(w, h);
    QuietKeeps(w, Step(w, h), asks);
  }

  lemma {:induction false} ReadsStep(w: World, h: Happening, asks: map<nat, nat>)
    requires ReadsInv(w, asks) && WorldInv(w)
    ensures ReadsInv(Step(w, h), Noted(w, h, asks))
  {
    match h
    case AsksState => AskKept(w, asks);
    case Mounts(slot, flow, token, contest) => MountKept(w, asks, slot, flow, token, contest);
    case Unmounts => UnmountKept(w, asks);
    case ToPage(doc, i, nonce) => DeliveryKept(w, asks, doc, i, nonce);
    case _ => QuietStep(w, h, asks);
  }

  lemma {:induction false} AfterReads(page: nat, origin: nat, key: nat, run: seq<Happening>)
    ensures ReadsInv(After(Begin(page, origin, key), run), Asks(Begin(page, origin, key), run))
  {
    var w := Begin(page, origin, key);
    if run != [] {
      var front := run[..|run| - 1];
      AfterReads(page, origin, key, front);
      BeginInv(page, origin, key);
      AfterInv(w, front);
      ReadsStep(After(w, front), run[|run| - 1], Asks(w, front));
    }
  }

  // ---- What a read is answered -------------------------------------------------------

  /**
   * In every run each read is waiting in the session it was asked in, or was answered: with
   * a state that a document of that session's frame told, or as signed out once that
   * session was unmounted or replaced.
   */
  lemma {:induction false} ReadsAnswered(page: nat, origin: nat, key: nat, run: seq<Happening>, read: nat)
    requires read < After(Begin(page, origin, key), run).parent.asked
    ensures read in Asks(Begin(page, origin, key), run)
    ensures var w := After(Begin(page, origin, key), run); var p := w.parent;
      var frame := Asks(Begin(page, origin, key), run)[read];
      if read in p.answers then
        match p.answers[read]
        case Some(state) => exists doc, i ::
            0 <= doc < |w.docs| && w.docs[doc].frame == frame
              && 0 <= i < |w.docs[doc].sent| && w.docs[doc].sent[i].State? && w.docs[doc].sent[i].state == state
        case None => p.session.None? || p.session.value.frame != frame
      else p.session.Some? && p.session.value.frame == frame && read in p.session.value.stateReads
  {
    AfterReads(page, origin, key, run);
    var w, asks := After(Begin(page, origin, key), run), Asks(Begin(page, origin, key), run);
    if read in w.parent.answers {
      assert WellAnswered(w, asks[read], w.parent.answers[read]);
    }
  }

  /**
   * A state delivered under the session's nonce answers every pending read with it, leaves
   * the session holding it and nothing pending, and changes nothing else.
   */
  lemma {:induction false} StateAnswers(w: World, doc: nat, i: nat, nonce: nat, state: nat)
    requires w.parent.session.Some? && w.parent.session.value.nonce.Some? && nonce !in w.minted
    requires doc < |w.docs| && w.docs[doc].frame == w.parent.session.value.frame && i < |w.docs[doc].sent|
    requires w.docs[doc].sent[i] == State(w.parent.session.value.nonce.value, state)
    ensures var s := w.parent.session.value; var after := Step(w, ToPage(doc, i, nonce));
      && after == w.(parent := w.parent.(session := Some(s.(state := Some(state), stateReads := [])),
                                         answers := after.parent.answers))
      && (forall read | read in s.stateReads ::
            read in after.parent.answers && after.parent.answers[read] == Some(state))
      && (forall read | read !in s.stateReads ::
            (read in after.parent.answers <==> read in w.parent.answers)
            && (read in w.parent.answers ==> after.parent.answers[read] == w.parent.answers[read]))
  {
    NoMint(w, w.docs[doc].sent[i], nonce);
    Answered(w.parent.answers, w.parent.session.value.stateReads, Some(state));
  }

  // ---- Where a state comes from ------------------------------------------------------

  /** The document was handed this state: by the answer to a read, or by its flow. */
  ghost predicate Handed(h: Happening, doc: nat, state: nat) {
    || h == Tells(doc, NewState(state))
    || (h.ReadsState? && h.doc == doc && h.answer == Some(state))
  }

  /** A document is told to say a state, or answers a request with one; nothing else it does says any. */
  lemma {:induction false} OnlyThenStates(w: World, h: Happening, i: nat)
    requires DocAfter(w, h).Some?
    requires var (doc, d) := DocAfter(w, h).value;
      doc < |w.docs| && |w.docs[doc].sent| <= i < |d.sent| && d.sent[i].State?
    ensures Handed(h, DocAfter(w, h).value.0, DocAfter(w, h).value.1.sent[i].state)
  {
  }

  lemma {:induction false} NewStateHanded(w: World, h: Happening, doc: nat, i: nat)
    requires WorldInv(w) && doc < |Step(w, h).docs| && i < |Step(w, h).docs[doc].sent|
    requires Step(w, h).docs[doc].sent[i].State? && (doc >= |w.docs| || i >= |w.docs[doc].sent|)
    ensures Handed(h, doc, Step(w, h).docs[doc].sent[i].state)
  {
    if h.Starts? || h.ToFrame? || h.StrangerToFrame? || h.Redeems? || h.ReadsState? || h.Tells? || h.Measures? {
      DocActsIs(w, h);
      OnlyThenStates(w, h, i);
    } else if h.Loads? || h.ToPage? || h.StrangerToPage? {
      DocsKept(w, h);
    }
  }

  lemma {:induction false} DocsKept(w: World, h: Happening)
    requires h.Loads? || h.ToPage? || h.StrangerToPage?
    ensures w.docs <= Step(w, h).docs
    ensures forall doc | |w.docs| <= doc < |Step(w, h).docs| :: Step(w, h).docs[doc].sent == []
  {
  }

  /** Every state a document tells its page was handed to it first. */
  lemma {:induction false} StatesWereHanded(page: nat, origin: nat, key: nat, run: seq<Happening>, doc: nat, i: nat)
    requires var w := After(Begin(page, origin, key), run);
      doc < |w.docs| && i < |w.docs[doc].sent| && w.docs[doc].sent[i].State?
    ensures var state := After(Begin(page, origin, key), run).docs[doc].sent[i].state;
      exists k :: 0 <= k < |run| && Handed(run[k], doc, state)
  {
    var w, front := Begin(page, origin, key), run[..|run| - 1];
    var before := After(w, front);
    BeginInv(page, origin, key);
    AfterInv(w, front);
    StepKeeps(before, run[|run| - 1]);
    if doc < |before.docs| && i < |before.docs[doc].sent| {
      assert DocGrows(before.docs[doc], After(w, run).docs[doc]);
      StatesWereHanded(page, origin, key, front, doc, i);
      var k :| 0 <= k < |front| && Handed(front[k], doc, before.docs[doc].sent[i].state);
      assert Handed(run[k], doc, before.docs[doc].sent[i].state);
    } else {
      NewStateHanded(before, run[|run| - 1], doc, i);
    }
  }

  /** So a read's answer was handed to a document of the frame it was asked of. */
  lemma {:induction false} AnswerWasHanded(page: nat, origin: nat, key: nat, run: seq<Happening>, read: nat)
    requires var answers := After(Begin(page, origin, key), run).parent.answers;
      read in answers && answers[read].Some?
    ensures read in Asks(Begin(page, origin, key), run)
    ensures var w := After(Begin(page, origin, key), run);
      exists doc, k ::
        0 <= doc < |w.docs| && w.docs[doc].frame == Asks(Begin(page, origin, key), run)[read]
          && 0 <= k < |run| && Handed(run[k], doc, w.parent.answers[read].value)
  {
    AfterReads(page, origin, key, run);
    var w := After(Begin(page, origin, key), run);
    ReadsAnswered(page, origin, key, run, read);
    var doc, i :| 0 <= doc < |w.docs| && w.docs[doc].frame == Asks(Begin(page, origin, key), run)[read]
      && 0 <= i < |w.docs[doc].sent| && w.docs[doc].sent[i].State?
      && w.docs[doc].sent[i].state == w.parent.answers[read].value;
    StatesWereHanded(page, origin, key, run, doc, i);
  }
}
