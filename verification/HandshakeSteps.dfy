/** Every happening keeps the handshake's invariant. */
module HandshakeSteps {
  import opened Common
  import opened Protocol
  import opened Embedding
  import opened Handshake

  // ---- Documents ---------------------------------------------------------------------

  /** What a document never takes back. */
  ghost predicate DocGrows(d: Document, after: Document) {
    && after.frame == d.frame && after.flow == d.flow && after.key == d.key
    && (CurrentNonce(d).Some? ==> CurrentNonce(after) == CurrentNonce(d))
    && (d.phase.Prepared? ==> after.phase.Prepared?)
    && d.sent <= after.sent
  }

  lemma {:induction false} HeightKeeps(minted: map<nat, Minted>, key: nat, d: Document, force: bool, measured: int)
    requires DocInv(minted, key, d)
    ensures DocInv(minted, key, ReportHeight(d, force, measured)) && DocGrows(d, ReportHeight(d, force, measured))
  {
    PushKeeps(minted, key, d, ReportHeight(d, force, measured));
  }

  /** Posting under the current nonce, with nothing else changed that the invariant speaks of. */
  lemma {:induction false} PushKeeps(minted: map<nat, Minted>, key: nat, d: Document, after: Document)
    requires DocInv(minted, key, d)
    requires after == d.(lastHeight := after.lastHeight, reading := after.reading, sent := after.sent)
    requires forall i | 0 <= i < |after.reading| :: MintedFor(minted, after.reading[i], d.frame)
    requires d.sent <= after.sent
    requires forall i | |d.sent| <= i < |after.sent| ::
      !after.sent[i].Ready? && !after.sent[i].HelloAck? && MintedFor(minted, after.sent[i].nonce, d.frame)
    ensures DocInv(minted, key, after) && DocGrows(d, after)
  {
    forall i | 0 <= i < |after.sent| ensures PostInv(minted, after, after.sent[i]) {
      if i < |d.sent| {
        assert after.sent[i] == d.sent[i];
        assert PostInv(minted, d, d.sent[i]);
      }
    }
  }

  lemma {:induction false} StartKeeps(minted: map<nat, Minted>, key: nat, d: Document, origins: Option<set<nat>>)
    requires DocInv(minted, key, d)
    ensures DocInv(minted, key, Start(d, origins)) && DocGrows(d, Start(d, origins))
  {
    var after := Start(d, origins);
    forall i | 0 <= i < |after.sent| ensures PostInv(minted, after, after.sent[i]) {
      if i < |d.sent| {
        assert after.sent[i] == d.sent[i];
        assert PostInv(minted, d, d.sent[i]);
      }
    }
  }

  /** A document that has acknowledged nothing yet may fail. */
  lemma {:induction false} FailKeeps(minted: map<nat, Minted>, key: nat, d: Document, nonce: nat)
    requires DocInv(minted, key, d) && !d.phase.Prepared? && !d.phase.Starting? && MintedFor(minted, nonce, d.frame)
    ensures DocInv(minted, key, Fail(d, nonce)) && DocGrows(d, Fail(d, nonce))
  {
    var after := Fail(d, nonce);
    forall i | 0 <= i < |after.sent| ensures PostInv(minted, after, after.sent[i]) {
      if i < |d.sent| {
        assert after.sent[i] == d.sent[i];
        assert PostInv(minted, d, d.sent[i]);
      }
    }
  }

  lemma {:induction false} RedeemedKeeps(minted: map<nat, Minted>, key: nat, d: Document, answer: Option<nat>,
      measured: int)
    requires DocInv(minted, key, d)
    ensures DocInv(minted, key, Redeemed(d, answer, measured)) && DocGrows(d, Redeemed(d, answer, measured))
  {
    if d.redeeming.Some? {
      var h := d.redeeming.value;
      assert !d.phase.Starting?;
      if answer.None? {
        FailKeeps(minted, key, d, h.nonce);
      } else {
        PreparedKeeps(minted, key, d, h, answer.value);
        HeightKeeps(minted, key, Prepare(d, h, answer.value), true, measured);
      }
    }
  }

  function Prepare(d: Document, h: ToEmbed, state: nat): Document
    requires h.Hello?
  {
    d.(phase := Prepared, redeeming := None, sent := d.sent + [HelloAck(h.nonce, h.flow, state)])
  }

  lemma {:induction false} PreparedKeeps(minted: map<nat, Minted>, key: nat, d: Document, h: ToEmbed, state: nat)
    requires DocInv(minted, key, d) && d.redeeming == Some(h)
    ensures DocInv(minted, key, Prepare(d, h, state)) && DocGrows(d, Prepare(d, h, state))
  {
    var after := Prepare(d, h, state);
    forall i | 0 <= i < |after.sent| ensures PostInv(minted, after, after.sent[i]) {
      if i < |d.sent| {
        assert after.sent[i] == d.sent[i];
        assert PostInv(minted, d, d.sent[i]);
      }
    }
  }

  /** An event the receiver drops changes its counts and nothing else. */
  lemma {:induction false} DroppedKeeps(minted: map<nat, Minted>, key: nat, d: Document, r: Receiver)
    requires DocInv(minted, key, d) && d.receiver.Some? && r.nonce == d.receiver.value.nonce
    ensures DocInv(minted, key, d.(receiver := Some(r))) && DocGrows(d, d.(receiver := Some(r)))
  {
    var after := d.(receiver := Some(r));
    forall i | 0 <= i < |after.sent| ensures PostInv(minted, after, after.sent[i]) {
      assert PostInv(minted, d, d.sent[i]);
    }
  }

  /** The first hello accepted. */
  lemma {:induction false} HelloKeeps(minted: map<nat, Minted>, key: nat, d: Document, mail: Mail)
    requires DocInv(minted, key, d) && d.receiver.Some? && d.receiver.value.nonce.None?
    requires MailInv(minted, key, mail) && mail.frame == d.frame && mail.message.Hello?
    ensures var judged := d.(receiver := Some(d.receiver.value.(nonce := Some(mail.message.nonce))));
      DocInv(minted, key, OnHello(judged, mail.message)) && DocGrows(d, OnHello(judged, mail.message))
  {
    var judged := d.(receiver := Some(d.receiver.value.(nonce := Some(mail.message.nonce))));
    assert DocInv(minted, key, judged) by {
      forall i | 0 <= i < |judged.sent| ensures PostInv(minted, judged, judged.sent[i]) {
        assert PostInv(minted, d, d.sent[i]);
      }
    }
    if judged.key.Some? && judged.flow.Some? && judged.parentOrigin.Some? {
      if mail.message.key != judged.key.value || mail.message.flow != judged.flow.value
        || (!mail.message.flow.Signin? && mail.message.token.None?) {
        FailKeeps(minted, key, judged, mail.message.nonce);
      } else {
        RedeemingKeeps(minted, key, judged, mail.message);
      }
    }
  }

  lemma {:induction false} RedeemingKeeps(minted: map<nat, Minted>, key: nat, d: Document, h: ToEmbed)
    requires DocInv(minted, key, d) && h.Hello? && CurrentNonce(d) == Some(h.nonce) && !d.phase.Prepared?
    requires d.flow == Some(h.flow) && d.key == Some(h.key) && h.key == key
    requires MintedFor(minted, h.nonce, d.frame) && minted[h.nonce].flow == h.flow
    ensures DocInv(minted, key, d.(redeeming := Some(h)))
  {
    forall i | 0 <= i < |d.sent| ensures PostInv(minted, d.(redeeming := Some(h)), d.sent[i]) {
      assert PostInv(minted, d, d.sent[i]);
    }
  }

  lemma {:induction false} FromParentKeeps(minted: map<nat, Minted>, key: nat, d: Document, page: nat, mail: Mail,
      measured: int)
    requires DocInv(minted, key, d) && MailInv(minted, key, mail) && mail.frame == d.frame
    ensures var after := FrameReceive(d, Event(page, ParentWindow, Wire(mail.message)), measured);
      DocInv(minted, key, after) && DocGrows(d, after)
  {
    if d.receiver.Some? {
      var r := d.receiver.value;
      WireParses(mail.message);
      var event := Event(page, ParentWindow, Wire(mail.message));
      var judged := d.(receiver := Some(Validate(r, event)));
      if mail.message.Hello? && Judge(r, event).Accepted? {
        HelloKeeps(minted, key, d, mail);
      } else {
        DroppedKeeps(minted, key, d, Validate(r, event));
        if Judge(r, event).Accepted? {
          match mail.message
          case ResizeRequest(_) => HeightKeeps(minted, key, judged, true, measured);
          case StateRequest(n) => ReadingKeeps(minted, key, judged, n);
        }
      }
    }
  }

  lemma {:induction false} ReadingKeeps(minted: map<nat, Minted>, key: nat, d: Document, nonce: nat)
    requires DocInv(minted, key, d) && MintedFor(minted, nonce, d.frame)
    ensures DocInv(minted, key, d.(reading := d.reading + [nonce])) && DocGrows(d, d.(reading := d.reading + [nonce]))
  {
    var after := d.(reading := d.reading + [nonce]);
    forall i | 0 <= i < |after.sent| ensures PostInv(minted, after, after.sent[i]) {
      assert PostInv(minted, d, d.sent[i]);
    }
  }

  lemma {:induction false} FromStrangerKeeps(minted: map<nat, Minted>, key: nat, d: Document, event: Event<ToEmbed>,
      measured: int)
    requires DocInv(minted, key, d) && StrangeToFrame(event)
    ensures DocInv(minted, key, FrameReceive(d, event, measured)) && DocGrows(d, FrameReceive(d, event, measured))
  {
    if d.receiver.Some? {
      DroppedKeeps(minted, key, d, Validate(d.receiver.value, event));
    }
  }

  lemma {:induction false} StateReadKeeps(minted: map<nat, Minted>, key: nat, d: Document, i: nat, answer: Option<nat>)
    requires DocInv(minted, key, d)
    ensures DocInv(minted, key, StateRead(d, i, answer)) && DocGrows(d, StateRead(d, i, answer))
  {
    if i < |d.reading| {
      PushKeeps(minted, key, d, StateRead(d, i, answer));
    }
  }

  lemma {:induction false} TellKeeps(minted: map<nat, Minted>, key: nat, d: Document, report: Report)
    requires DocInv(minted, key, d)
    ensures DocInv(minted, key, Tell(d, report)) && DocGrows(d, Tell(d, report))
  {
    PushKeeps(minted, key, d, Tell(d, report));
  }

  // ---- The parent --------------------------------------------------------------------

  /** What the page never takes back: its settled promises, its answered reads, its posts. */
  ghost predicate ParentGrows(p: Parent, after: Parent) {
    && after.origin == p.origin && after.key == p.key && p.frames <= after.frames
    && (forall f | f in p.outcomes :: f in after.outcomes && after.outcomes[f] == p.outcomes[f])
    && (forall a | a in p.answers :: a in after.answers && after.answers[a] == p.answers[a])
    && p.sent <= after.sent
  }

  lemma {:induction false} Answered(answers: map<nat, Option<nat>>, reading: seq<nat>, state: Option<nat>)
    ensures var after := Answer(answers, reading, state);
      && (forall a | a in after :: a in answers || a in reading)
      && (forall a | a in answers && a !in reading :: a in after && after[a] == answers[a])
      && (forall a | a in reading :: a in after && after[a] == state)
  {
    if reading != [] {
      Answered(answers, reading[..|reading| - 1], state);
    }
  }

  lemma {:induction false} UnmountKeeps(p: Parent, minted: map<nat, Minted>)
    requires ParentInv(p, minted)
    ensures ParentInv(Unmount(p), minted) && ParentGrows(p, Unmount(p))
    ensures Unmount(p).session.None? && Unmount(p).frames == p.frames
  {
    if p.session.Some? {
      Answered(p.answers, p.session.value.stateReads, None);
    }
  }

  lemma {:induction false} MountKeeps(p: Parent, minted: map<nat, Minted>, slot: bool, flow: Flow, token: Option<nat>,
      contest: Option<nat>)
    requires ParentInv(p, minted)
    ensures ParentInv(Mount(p, slot, flow, token, contest), minted)
      && ParentGrows(p, Mount(p, slot, flow, token, contest))
  {
    UnmountKeeps(p, minted);
  }

  lemma {:induction false} FailHandshakeKeeps(p: Parent, minted: map<nat, Minted>, reason: Rejection)
    requires ParentInv(p, minted) && p.session.Some?
    ensures ParentInv(FailHandshake(p, reason), minted) && ParentGrows(p, FailHandshake(p, reason))
  {
  }

  lemma {:induction false} AskKeeps(p: Parent, minted: map<nat, Minted>)
    requires ParentInv(p, minted)
    ensures ParentInv(AskState(p), minted) && ParentGrows(p, AskState(p))
    ensures ParentInv(AskResize(p), minted) && ParentGrows(p, AskResize(p))
  {
  }

  lemma {:induction false} DropKeeps(p: Parent, minted: map<nat, Minted>, reason: DropReason)
    requires ParentInv(p, minted)
    ensures ParentInv(Drop(p, reason), minted) && ParentGrows(p, Drop(p, reason))
  {
  }

  function Remember(p: Parent, minted: map<nat, Minted>, nonce: nat): map<nat, Minted>
    requires p.session.Some?
  {
    var s := p.session.value;
    if s.nonce.Some? || !s.handshake then minted else minted[nonce := Minted(s.frame, s.flow, s.token)]
  }

  lemma {:induction false} ReadyKeeps(p: Parent, minted: map<nat, Minted>, nonce: nat)
    requires ParentInv(p, minted) && p.session.Some? && nonce !in minted
    ensures ParentInv(OnReady(p, nonce), Remember(p, minted, nonce)) && ParentGrows(p, OnReady(p, nonce))
  {
    var s := p.session.value;
    if s.handshake && s.nonce.None? {
      MintKeeps(p, minted, nonce);
    } else if s.handshake {
      HelloPosted(p, minted, s.nonce.value);
    }
  }

  lemma {:induction false} HelloPosted(p: Parent, minted: map<nat, Minted>, nonce: nat)
    requires ParentInv(p, minted) && p.session.Some? && p.session.value.nonce == Some(nonce)
    ensures var s := p.session.value;
      ParentInv(p.(sent := p.sent + [Mail(s.frame, Hello(nonce, s.flow, p.key, s.token))]), minted)
  {
  }

  /** Minting a nonce for a session that has none. */
  lemma {:induction false} MintKeeps(p: Parent, minted: map<nat, Minted>, nonce: nat)
    requires ParentInv(p, minted) && p.session.Some? && nonce !in minted
    requires p.session.value.handshake && p.session.value.nonce.None?
    ensures ParentInv(OnReady(p, nonce), Remember(p, minted, nonce)) && ParentGrows(p, OnReady(p, nonce))
  {
    var s := p.session.value;
    var more := Remember(p, minted, nonce);
    var with := p.(session := Some(s.(nonce := Some(nonce))));
    forall n | n in minted ensures minted[n].frame != s.frame {
      assert minted[n].frame in (set m | m in minted :: minted[m].frame);
    }
    forall i | 0 <= i < |p.sent| ensures MailInv(more, p.key, p.sent[i]) {
      assert MailInv(minted, p.key, p.sent[i]);
    }
    assert ParentInv(with, more);
    HelloPosted(with, more, nonce);
  }

  lemma {:induction false} DispatchKeeps(p: Parent, minted: map<nat, Minted>, message: ToParent)
    requires ParentInv(p, minted) && p.session.Some?
    ensures ParentInv(Dispatch(p, message), minted) && ParentGrows(p, Dispatch(p, message))
  {
    match message
    case Error(_, fatal) =>
      if fatal {
        FailHandshakeKeeps(p, minted, FatalError);
      }
    case State(_, state) => Answered(p.answers, p.session.value.stateReads, Some(state));
    case HelloAck(_, flow, _) =>
      if !p.session.value.handshake || flow != p.session.value.flow {
        DropKeeps(p, minted, Unexpected);
      }
    case FlowComplete(_, flow) => DropKeeps(p, minted, Unexpected);
    case _ =>
  }
}
