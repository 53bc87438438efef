/**
The invariant of the transaction manager over every run, and when a top-level call reaches the abort.
*/
module TransactionSafety {
  import opened Common
  import opened TransactionTables
  import opened TransactionSpec
  import opened TransactionFlat
  import opened TransactionEffect

  ghost predicate TxOk(tx: Tx) {
    && tx.state != INIT
    && (tx.state != TERMINATED ==> FsmRow(tx.ttype, tx.state).Some?)
    && (tx.ttype == ServerInvite && (tx.state == PROCEEDING || tx.state == COMPLETED) ==> tx.responses != [])
  }

  /** Between top-level calls: a transaction is listed exactly until it is terminated. */
  ghost predicate Settled(w: World, k: nat)
    requires k < |w.txs|
  {
    (k in w.list <==> w.txs[k].state != TERMINATED) && TxOk(w.txs[k])
  }

  /** No transaction is destroyed twice, and the destroyed ones are those off the list. */
  ghost predicate Accounted(w: World) {
    && (forall a, b | 0 <= a < b < |w.destroyed| :: w.destroyed[a] != w.destroyed[b])
    && (forall k: nat :: k in w.destroyed <==> k < |w.txs| && k !in w.list)
  }

  /** The invariant while the transactions in `busy` are being handled. */
  ghost predicate Inv(w: World, busy: set<nat>) {
    && Listed(w)
    && Accounted(w)
    && (forall k: nat | k < |w.txs| ::
          && (w.txs[k].state != TERMINATED ==> k in w.list)
          && w.txs[k].retransmits <= 4
          && (k !in busy ==> Settled(w, k)))
  }

  // ---------- The flat steps keep the invariant ----------

  lemma SetKeeps(w: World, busy: set<nat>, i: nat, tx: Tx)
    requires Inv(w, busy) && i in busy && i < |w.txs|
    requires tx.retransmits <= 4 && (tx.state != TERMINATED ==> i in w.list)
    ensures Inv(SetTx(w, i, tx), busy)
  {
  }

  lemma RemoveKeeps(w: World, busy: set<nat>, i: nat)
    requires Inv(w, busy) && i < |w.txs| && w.txs[i].state == TERMINATED
    ensures Inv(RemoveTransaction(w, i), busy)
    ensures i !in RemoveTransaction(w, i).list
  {
    RemoveKeepsListed(w, i);
    var w1 := RemoveTransaction(w, i);
    if i in w.list {
      assert forall k :: k in w1.destroyed <==> k in w.destroyed || k == i;
      forall a, b | 0 <= a < b < |w1.destroyed| ensures w1.destroyed[a] != w1.destroyed[b] {
        assert w1.destroyed[a] in w.destroyed;
      }
    }
  }

  lemma TransmitKeeps(env: Env, w: World, busy: set<nat>, i: nat, m: Message)
    requires Inv(w, busy) && i in busy && i < |w.txs|
    ensures Inv(Transmit(env, w, i, m).0, busy)
  {
    var w1 := w.(wire := w.wire + [m]);
    assert Inv(w1, busy);
    SetKeeps(w1, busy, i, w1.txs[i].(curEvent := TRANSPORT_ERROR, state := TERMINATED));
    RemoveKeeps(Enter(w1, i, TRANSPORT_ERROR, TERMINATED), busy, i);
  }

  lemma Answer100Keeps(env: Env, w: World, busy: set<nat>, i: nat)
    requires Inv(w, busy) && i in busy && i < |w.txs|
    ensures Inv(Answer100(env, w, i), busy)
    ensures Answer100(env, w, i).txs[i].responses != []
  {
    var trying := BuildResponse(w.txs[i].request, 100, env.tag(|w.wire|));
    var w0 := AddResponse(w, i, trying);
    SetKeeps(w, busy, i, w0.txs[i]);
    TransmitKeeps(env, w0, busy, i, trying);
    var w1 := Transmit(env, w0, i, trying).0;
    SetKeeps(w1, busy, i, w1.txs[i].(curEvent := SEND_TRYING));
  }

  /** A busy transaction whose state is legal settles when it is removed if terminated. */
  lemma Settle(w: World, busy: set<nat>, i: nat)
    requires Inv(w, busy) && i < |w.txs| && TxOk(w.txs[i])
    ensures Inv(RemoveTerminated(w, i), busy - {i})
  {
    RemoveKeepsListed(w, i);
    if w.txs[i].state == TERMINATED {
      RemoveKeeps(w, busy, i);
    }
  }

  lemma AppendKeeps(w: World, busy: set<nat>, request: Message, dialog: Option<nat>, tt: TransactionType)
    requires Inv(w, busy)
    ensures Inv(Append(w, request, dialog, tt), busy + {|w.txs|})
  {
    var w0 := Append(w, request, dialog, tt);
    assert forall k :: k in w0.list <==> k in w.list || k == |w.txs|;
    assert |w.txs| !in w.destroyed;
  }

  lemma AddKeeps(env: Env, w: World, busy: set<nat>, request: Message, dialog: Option<nat>, tt: TransactionType)
    requires Inv(w, busy) && (forall k | k in busy :: k < |w.txs|)
    ensures Inv(FlatAdd(env, w, request, dialog, tt), busy)
    decreases 1, 8, 0
  {
    if !Refused(request, tt) {
      var n := |w.txs|;
      var e := InitEntry(tt);
      AppendKeeps(w, busy, request, dialog, tt);
      FlatAddIsRun(env, w, request, dialog, tt);
      InitIsLocated(tt);
      RunKeeps(env, Append(w, request, dialog, tt), busy, n, EVENT_INIT, e);
    }
  }

  lemma WeakerInv(w: World, busy: set<nat>, i: nat)
    requires Inv(w, busy)
    ensures Inv(w, busy + {i})
  {
  }

  lemma {:induction false} LocalsState(tx: Tx, acts: seq<Action>)
    ensures var r := Locals(tx, acts);
      && r.ttype == tx.ttype && r.request == tx.request && r.user == tx.user && r.state == tx.state
      && r.curEvent == tx.curEvent && r.responses == tx.responses && (tx.retransmits <= 4 ==> r.retransmits <= 4)
    decreases |acts|
  {
    if acts != [] {
      RetransmitsBounded(tx.retransmits);
      LocalsState(LocalAction(acts[0], tx), acts[1..]);
    }
  }

  /** The end of an answer that was sent. */
  lemma LocalRunKeeps(w: World, busy: set<nat>, i: nat, event: Event, e: Entry)
    requires Inv(w, busy) && i < |w.txs| && i !in busy && w.txs[i].responses != []
    requires FsmRow(w.txs[i].ttype, w.txs[i].state).Some?
    requires e in FsmRow(w.txs[i].ttype, w.txs[i].state).value.entries && Matches(e, event)
    ensures Inv(LocalRun(w, i, event, e), busy)
    ensures LocalRun(w, i, event, e).txs[i].state == e.next && LocalRun(w, i, event, e).txs[i].responses == w.txs[i].responses
  {
    TableEntry(w.txs[i].ttype, w.txs[i].state, e);
    assert w.txs[i].state != TERMINATED && Settled(w, i);
    var tx := w.txs[i].(curEvent := event, state := e.next);
    LocalsState(tx, e.actions);
    WeakerInv(w, busy, i);
    SetKeeps(w, busy + {i}, i, Locals(tx, e.actions));
    Settle(SetTx(w, i, Locals(tx, e.actions)), busy + {i}, i);
    assert busy + {i} - {i} == busy;
  }

  /** An answer keeps the invariant. */
  lemma ReplyKeeps(env: Env, w: World, busy: set<nat>, i: nat, m: Message, event: Event)
    requires Inv(w, busy) && i < |w.txs| && i !in busy
    ensures Inv(FlatReply(env, w, i, m, event), busy)
  {
    if ReplyOk(env, w, i, event) {
      RecordKeeps(w, busy, i, m);
      if env.net(|w.wire|) {
        SentReplyKeeps(AddResponse(w, i, m), busy, i, m, event);
      } else {
        FailedSendKeeps(env, AddResponse(w, i, m), busy, i, m);
      }
    }
  }

  lemma RecordKeeps(w: World, busy: set<nat>, i: nat, m: Message)
    requires Inv(w, busy) && i < |w.txs|
    ensures Inv(AddResponse(w, i, m), busy)
  {
  }

  lemma SentReplyKeeps(w: World, busy: set<nat>, i: nat, m: Message, event: Event)
    requires Inv(w, busy) && i < |w.txs| && i !in busy && w.txs[i].responses != []
    requires Handles(w.txs[i].ttype, w.txs[i].state, event)
    ensures var e := Locate(w.txs[i].ttype, w.txs[i].state, event).entry;
      Inv(LocalRun(w.(wire := w.wire + [m]), i, event, e), busy)
  {
    WireKeeps(w, busy, m);
    LocalRunKeeps(w.(wire := w.wire + [m]), busy, i, event, Locate(w.txs[i].ttype, w.txs[i].state, event).entry);
  }

  lemma WireKeeps(w: World, busy: set<nat>, m: Message)
    requires Inv(w, busy)
    ensures Inv(w.(wire := w.wire + [m]), busy)
  {
  }

  lemma FailedSendKeeps(env: Env, w: World, busy: set<nat>, i: nat, m: Message)
    requires Inv(w, busy) && i < |w.txs| && i !in busy && !env.net(|w.wire|)
    ensures Inv(Transmit(env, w, i, m).0, busy)
  {
    WeakerInv(w, busy, i);
    TransmitKeeps(env, w, busy + {i}, i, m);
    assert busy + {i} - {i} == busy;
    Settle(Transmit(env, w, i, m).0, busy + {i}, i);
    RemovedOnce(env, w, i, m);
  }

  lemma RemovedOnce(env: Env, w: World, i: nat, m: Message)
    requires Listed(w) && i < |w.txs| && !env.net(|w.wire|)
    ensures RemoveTerminated(Transmit(env, w, i, m).0, i) == Transmit(env, w, i, m).0
  {
    TransmitKeepsListed(env, w, i, m);
  }

  lemma {:induction false} RepliesKeep(env: Env, w: World, busy: set<nat>, i: nat, replies: seq<Reply>)
    requires Inv(w, busy) && i < |w.txs| && i !in busy
    ensures Inv(FlatReplies(env, w, i, replies), busy)
    decreases |replies|
  {
    if replies != [] {
      ReplyKeeps(env, w, busy, i, replies[0].message, replies[0].event);
      RepliesKeep(env, FlatReply(env, w, i, replies[0].message, replies[0].event), busy, i, replies[1..]);
    }
  }

  lemma {:induction false} TuKeeps(env: Env, w: World, busy: set<nat>, acts: seq<TuAct>)
    requires Inv(w, busy) && (forall k | k in busy :: k < |w.txs|)
    ensures Inv(FlatTu(env, w, acts), busy)
    decreases 1, 9, |acts|
  {
    if acts != [] {
      match acts[0]
      case StartTransaction(request, dialog, tt) =>
        AddKeeps(env, w, busy, request, dialog, tt);
        TuKeeps(env, FlatAdd(env, w, request, dialog, tt), busy, acts[1..]);
      case Serve(request, dialog, invite, replies) =>
        AddKeeps(env, w, busy, request, dialog, Served(invite));
        if !Refused(request, Served(invite)) {
          RepliesKeep(env, FlatAdd(env, w, request, dialog, Served(invite)), busy, |w.txs|, replies);
        }
        TuKeeps(env, FlatServe(env, w, request, dialog, Served(invite), replies), busy, acts[1..]);
      case SendDirectly(m) =>
        TuKeeps(env, w.(wire := w.wire + [m]), busy, acts[1..]);
    }
  }

  lemma ActKeeps(env: Env, w: World, busy: set<nat>, i: nat, a: Action)
    requires Inv(w, busy) && (forall k | k in busy :: k < |w.txs|) && i in busy
    ensures Inv(FlatAct(env, w, i, a).0, busy)
    decreases ActionLevel(a), 5, 0
  {
    var tx := w.txs[i];
    match a
    case SendRequestMessage => TransmitKeeps(env, w, busy, i, tx.request);
    case ResendLatestResponse =>
      if tx.responses != [] {
        TransmitKeeps(env, w, busy, i, LatestResponse(tx).value);
      }
    case SendAckRequest =>
      var ack := AckFor(tx, env.tag(|w.wire|));
      SetKeeps(w, busy, i, tx.(responses := tx.responses + [ack]));
      TransmitKeeps(env, AddResponse(w, i, ack), busy, i, ack);
    case ResponseWith100Trying => Answer100Keeps(env, w, busy, i);
    case InformTU =>
      if tx.user.Some? {
        var call := TuCall(Some(i), tx.user, tx.curEvent, LatestResponse(tx));
        TuKeeps(env, w.(tuCalls := w.tuCalls + [call]), busy, env.tu(|w.tuCalls|));
      }
    case IncRetransmit =>
      RetransmitsBounded(tx.retransmits);
      SetKeeps(w, busy, i, LocalAction(a, tx));
    case _ => SetKeeps(w, busy, i, LocalAction(a, tx));
  }

  /** The shift count of T1 << retransmits never passes 4. */
  lemma RetransmitsBounded(r: nat)
    ensures r <= 4 ==> NextRetransmits(r) <= 4
  {
    assert Pow2(4) == 16;
  }

  lemma {:induction false} ActsKeep(env: Env, w: World, busy: set<nat>, i: nat, acts: seq<Action>)
    requires Inv(w, busy) && (forall k | k in busy :: k < |w.txs|) && i in busy
    ensures Inv(FlatActs(env, w, i, acts), busy)
    decreases Level(acts), 6, |acts|
  {
    if acts != [] {
      assert acts[0] in acts;
      ActKeeps(env, w, busy, i, acts[0]);
      var (w1, status) := FlatAct(env, w, i, acts[0]);
      if status >= 0 {
        ActsKeep(env, w1, busy, i, acts[1..]);
      }
    }
  }

  lemma {:induction false} TxActsState(env: Env, n: nat, tx: Tx, acts: seq<Action>)
    ensures var r := TxActs(env, n, tx, acts);
      && r.ttype == tx.ttype && r.request == tx.request && r.user == tx.user
      && (r.state == tx.state || r.state == TERMINATED)
      && |tx.responses| <= |r.responses|
      && (acts == [ResponseWith100Trying] ==> r.responses != [])
    decreases |acts|
  {
    if acts != [] {
      var (tx1, stop) := TxAct(env, n, tx, acts[0]);
      if !stop {
        TxActsState(env, if Sends(acts[0]) then n + 1 else n, tx1, acts[1..]);
      }
    }
  }

  /** The actions of an entry leave their transaction in order. */
  lemma EntryEndsOk(env: Env, w: World, i: nat, event: Event, e: Entry)
    requires Listed(w) && i < |w.txs|
    requires FsmRow(w.txs[i].ttype, w.txs[i].state).Some?
    requires e in FsmRow(w.txs[i].ttype, w.txs[i].state).value.entries && Matches(e, event)
    requires w.txs[i].state == INIT || TxOk(w.txs[i])
    ensures TxOk(FlatActs(env, Enter(w, i, event, e.next), i, e.actions).txs[i])
  {
    var tx, w1 := w.txs[i], Enter(w, i, event, e.next);
    TableEntry(tx.ttype, tx.state, e);
    EntryActs(env, w1, i, e.actions);
    TxActsState(env, |w.wire|, w1.txs[i], e.actions);
  }

  /** The actions of an entry keep the invariant but for their transaction. */
  lemma EntryKeeps(env: Env, w: World, busy: set<nat>, i: nat, event: Event, e: Entry)
    requires Inv(w, busy) && (forall k | k in busy :: k < |w.txs|) && i < |w.txs| && i in busy
    requires FsmRow(w.txs[i].ttype, w.txs[i].state).Some?
    requires e in FsmRow(w.txs[i].ttype, w.txs[i].state).value.entries && Matches(e, event)
    requires w.txs[i].state == INIT || TxOk(w.txs[i])
    ensures Inv(FlatActs(env, Enter(w, i, event, e.next), i, e.actions), busy)
    decreases Rank(event), 6, |e.actions| + 1
  {
    var w1 := Enter(w, i, event, e.next);
    TableEntry(w.txs[i].ttype, w.txs[i].state, e);
    SetKeeps(w, busy, i, w1.txs[i]);
    ActsKeep(env, w1, busy, i, e.actions);
  }

  /** Handling one event settles its transaction and keeps the invariant. */
  lemma RunKeeps(env: Env, w: World, busy: set<nat>, i: nat, event: Event, e: Entry)
    requires Inv(w, busy + {i}) && (forall k | k in busy :: k < |w.txs|) && i < |w.txs| && i !in busy
    requires FsmRow(w.txs[i].ttype, w.txs[i].state).Some?
    requires e in FsmRow(w.txs[i].ttype, w.txs[i].state).value.entries && Matches(e, event)
    requires w.txs[i].state == INIT || TxOk(w.txs[i])
    ensures Inv(FlatRun(env, w, i, event, e), busy)
    decreases Rank(event), 7, 0
  {
    EntryKeeps(env, w, busy + {i}, i, event, e);
    EntryEndsOk(env, w, i, event, e);
    assert busy + {i} - {i} == busy;
    Settle(FlatActs(env, Enter(w, i, event, e.next), i, e.actions), busy + {i}, i);
  }
}
