/**
The re-entrant interpreter has a flat equivalent: no event raised inside an action needs a nested run of the tables,
none reaches the abort, and a transaction that a nested event destroyed is not destroyed again by the outer one. What
can abort inside a callback is the user's own answer to a transaction that it has just started, and when is said exactly.
*/
module TransactionFlat {
  import opened Common
  import opened TransactionTables
  import opened TransactionSpec

  /** The list of the manager names existing transactions, oldest first. */
  ghost predicate Listed(w: World) {
    && (forall a, b | 0 <= a < b < |w.list| :: w.list[a] < w.list[b])
    && (forall a | 0 <= a < |w.list| :: w.list[a] < |w.txs|)
  }

  // ---------- Flat forms ----------

  function SetTx(w: World, i: nat, tx: Tx): World
    requires i < |w.txs|
  {
    w.(txs := w.txs[i := tx])
  }

  function Enter(w: World, i: nat, event: Event, next: State): World
    requires i < |w.txs|
  {
    SetTx(w, i, w.txs[i].(curEvent := event, state := next))
  }

  /** A transport error: the transaction is terminated and leaves the list. */
  function Kill(w: World, i: nat): World
    requires i < |w.txs|
  {
    RemoveTransaction(Enter(w, i, TRANSPORT_ERROR, TERMINATED), i)
  }

  function Transmit(env: Env, w: World, i: nat, m: Message): (World, int)
    requires i < |w.txs|
  {
    var w1 := w.(wire := w.wire + [m]);
    if env.net(|w.wire|) then (w1, 0) else (Kill(w1, i), -1)
  }

  function Answer100(env: Env, w: World, i: nat): World
    requires i < |w.txs|
  {
    var trying := BuildResponse(w.txs[i].request, 100, env.tag(|w.wire|));
    var (w1, status) := Transmit(env, AddResponse(w, i, trying), i, trying);
    if status < 0 then w1 else Enter(w1, i, SEND_TRYING, w1.txs[i].state)
  }

  /** The world after AddTransaction. */
  function FlatAdd(env: Env, w: World, request: Message, dialog: Option<nat>, tt: TransactionType): (r: World)
    ensures |r.txs| == |w.txs| + (if Refused(request, tt) then 0 else 1)
  {
    var n := |w.txs|;
    var w0 := Append(w, request, dialog, tt);
    if Refused(request, tt) then w
    else match tt
      case ServerNonInvite => Enter(w0, n, EVENT_INIT, TRYING)
      case ServerInvite => Answer100(env, Enter(w0, n, EVENT_INIT, PROCEEDING), n)
      case _ =>
        var (w1, status) := Transmit(env, Enter(w0, n, EVENT_INIT, if tt == ClientInvite then CALLING else TRYING), n, request);
        if status < 0 then w1 else SetTx(w1, n, Arm(Arm(w1.txs[n], Retransmit, T1), Timeout, 64 * T1))
  }

  /** A list of actions that neither send nor inform, on their transaction. */
  function Locals(tx: Tx, acts: seq<Action>): Tx
    decreases |acts|
  {
    if acts == [] then tx else Locals(LocalAction(acts[0], tx), acts[1..])
  }

  /** RunFsm for an entry with such actions only. */
  function LocalRun(w: World, i: nat, event: Event, e: Entry): World
    requires i < |w.txs|
  {
    RemoveTerminated(SetTx(w, i, Locals(w.txs[i].(curEvent := event, state := e.next), e.actions)), i)
  }

  /** An answer completes if its event is handled, or, when its send fails, if a transport error is. */
  predicate ReplyOk(env: Env, w: World, i: nat, event: Event)
    requires i < |w.txs|
  {
    Handles(w.txs[i].ttype, w.txs[i].state, if env.net(|w.wire|) then event else TRANSPORT_ERROR)
  }

  /** The world after an answer that completes; one that does not is left out. */
  function FlatReply(env: Env, w: World, i: nat, m: Message, event: Event): (r: World)
    requires i < |w.txs|
    ensures |r.txs| == |w.txs|
  {
    if !ReplyOk(env, w, i, event) then w
    else
      var (w1, status) := Transmit(env, AddResponse(w, i, m), i, m);
      if status < 0 then w1 else LocalRun(w1, i, event, Locate(w.txs[i].ttype, w.txs[i].state, event).entry)
  }

  function FlatReplies(env: Env, w: World, i: nat, replies: seq<Reply>): (r: World)
    requires i < |w.txs|
    ensures |r.txs| == |w.txs|
    decreases |replies|
  {
    if replies == [] then w
    else FlatReplies(env, FlatReply(env, w, i, replies[0].message, replies[0].event), i, replies[1..])
  }

  predicate RepliesOk(env: Env, w: World, i: nat, replies: seq<Reply>)
    requires i < |w.txs|
    decreases |replies|
  {
    replies == []
    || (ReplyOk(env, w, i, replies[0].event)
        && RepliesOk(env, FlatReply(env, w, i, replies[0].message, replies[0].event), i, replies[1..]))
  }

  function FlatServe(env: Env, w: World, request: Message, dialog: Option<nat>, tt: TransactionType, replies: seq<Reply>): (r: World)
    ensures |w.txs| <= |r.txs|
  {
    if Refused(request, tt) then w else FlatReplies(env, FlatAdd(env, w, request, dialog, tt), |w.txs|, replies)
  }

  predicate ServeOk(env: Env, w: World, request: Message, dialog: Option<nat>, tt: TransactionType, replies: seq<Reply>) {
    if Refused(request, tt) then replies == [] else RepliesOk(env, FlatAdd(env, w, request, dialog, tt), |w.txs|, replies)
  }

  /** What a user does completes: every answer in it does. */
  predicate TuOk(env: Env, w: World, acts: seq<TuAct>)
    decreases |acts|
  {
    acts == []
    || match acts[0]
       case StartTransaction(request, dialog, tt) => TuOk(env, FlatAdd(env, w, request, dialog, tt), acts[1..])
       case Serve(request, dialog, invite, replies) =>
         && ServeOk(env, w, request, dialog, Served(invite), replies)
         && TuOk(env, FlatServe(env, w, request, dialog, Served(invite), replies), acts[1..])
       case SendDirectly(m) => TuOk(env, w.(wire := w.wire + [m]), acts[1..])
  }

  predicate CallOk(env: Env, w: World, call: TuCall) {
    TuOk(env, w.(tuCalls := w.tuCalls + [call]), env.tu(|w.tuCalls|))
  }

  function FlatTu(env: Env, w: World, acts: seq<TuAct>): (r: World)
    ensures |w.txs| <= |r.txs|
    decreases |acts|
  {
    if acts == [] then w
    else match acts[0]
      case StartTransaction(request, dialog, tt) => FlatTu(env, FlatAdd(env, w, request, dialog, tt), acts[1..])
      case Serve(request, dialog, invite, replies) =>
        FlatTu(env, FlatServe(env, w, request, dialog, Served(invite), replies), acts[1..])
      case SendDirectly(m) => FlatTu(env, w.(wire := w.wire + [m]), acts[1..])
  }

  function FlatCall(env: Env, w: World, call: TuCall): (r: World)
    ensures |w.txs| <= |r.txs|
  {
    FlatTu(env, w.(tuCalls := w.tuCalls + [call]), env.tu(|w.tuCalls|))
  }

  function FlatAct(env: Env, w: World, i: nat, a: Action): (r: (World, int))
    requires i < |w.txs|
    ensures |w.txs| <= |r.0.txs|
  {
    var tx := w.txs[i];
    match a
    case SendRequestMessage => Transmit(env, w, i, tx.request)
    case ResendLatestResponse =>
      (match LatestResponse(tx) case Some(m) => Transmit(env, w, i, m) case None => (w, 0))
    case SendAckRequest =>
      var ack := AckFor(tx, env.tag(|w.wire|));
      Transmit(env, AddResponse(w, i, ack), i, ack)
    case ResponseWith100Trying => (Answer100(env, w, i), 0)
    case InformTU =>
      if tx.user.None? then (w, 0)
      else (FlatCall(env, w, TuCall(Some(i), tx.user, tx.curEvent, LatestResponse(tx))), 0)
    case _ => (SetTx(w, i, LocalAction(a, tx)), 0)
  }

  /** An action completes unless it calls a user that does not. */
  predicate ActOk(env: Env, w: World, i: nat, a: Action)
    requires i < |w.txs|
  {
    a == InformTU && w.txs[i].user.Some? ==>
      CallOk(env, w, TuCall(Some(i), w.txs[i].user, w.txs[i].curEvent, LatestResponse(w.txs[i])))
  }

  predicate ActsOk(env: Env, w: World, i: nat, acts: seq<Action>)
    requires i < |w.txs|
    decreases |acts|
  {
    acts == []
    || (ActOk(env, w, i, acts[0])
        && var (w1, status) := FlatAct(env, w, i, acts[0]);
           (status < 0 || ActsOk(env, w1, i, acts[1..])))
  }

  function FlatActs(env: Env, w: World, i: nat, acts: seq<Action>): (r: World)
    requires i < |w.txs|
    ensures |w.txs| <= |r.txs|
    decreases |acts|
  {
    if acts == [] then w
    else
      var (w1, status) := FlatAct(env, w, i, acts[0]);
      if status < 0 then w1 else FlatActs(env, w1, i, acts[1..])
  }

  /** The entry's actions complete. */
  predicate RunOk(env: Env, w: World, i: nat, event: Event, e: Entry)
    requires i < |w.txs|
  {
    ActsOk(env, Enter(w, i, event, e.next), i, e.actions)
  }

  function FlatRun(env: Env, w: World, i: nat, event: Event, e: Entry): (r: World)
    requires i < |w.txs|
    ensures |w.txs| <= |r.txs|
  {
    RemoveTerminated(FlatActs(env, Enter(w, i, event, e.next), i, e.actions), i)
  }

  // ---------- The list ----------

  lemma {:induction false} RemoveFirstMembers(list: seq<nat>, i: nat)
    ensures forall k | k in RemoveFirst(list, i) :: k in list
    ensures forall k | k in list && k != i :: k in RemoveFirst(list, i)
  {
    if list != [] && list[0] != i {
      RemoveFirstMembers(list[1..], i);
    }
  }

  lemma {:induction false} RemoveFirstIn(list: seq<nat>, i: nat)
    requires forall a, b | 0 <= a < b < |list| :: list[a] < list[b]
    ensures var r := RemoveFirst(list, i);
      && (forall a, b | 0 <= a < b < |r| :: r[a] < r[b])
      && i !in r
  {
    if list != [] && list[0] != i {
      var r := RemoveFirst(list[1..], i);
      RemoveFirstIn(list[1..], i);
      RemoveFirstMembers(list[1..], i);
      forall b | 0 <= b < |r| ensures list[0] < r[b] {
        assert r[b] in list[1..];
      }
    }
  }

  lemma RemoveKeepsListed(w: World, i: nat)
    requires Listed(w)
    ensures Listed(RemoveTransaction(w, i))
    ensures forall k :: k in RemoveTransaction(w, i).list <==> k in w.list && k != i
  {
    RemoveFirstIn(w.list, i);
    RemoveFirstMembers(w.list, i);
    var r := RemoveFirst(w.list, i);
    forall a | 0 <= a < |r| ensures r[a] < |w.txs| {
      assert r[a] in w.list;
    }
  }

  lemma TransmitKeepsListed(env: Env, w: World, i: nat, m: Message)
    requires Listed(w) && i < |w.txs|
    ensures var (w1, status) := Transmit(env, w, i, m);
      Listed(w1) && (status < 0 ==> i !in w1.list && w1.txs[i].state == TERMINATED)
  {
    var w1 := w.(wire := w.wire + [m]);
    RemoveKeepsListed(Enter(w1, i, TRANSPORT_ERROR, TERMINATED), i);
  }

  lemma Answer100KeepsListed(env: Env, w: World, i: nat)
    requires Listed(w) && i < |w.txs|
    ensures Listed(Answer100(env, w, i))
  {
    var trying := BuildResponse(w.txs[i].request, 100, env.tag(|w.wire|));
    TransmitKeepsListed(env, AddResponse(w, i, trying), i, trying);
  }

  lemma FlatAddKeepsListed(env: Env, w: World, request: Message, dialog: Option<nat>, tt: TransactionType)
    requires Listed(w)
    ensures Listed(FlatAdd(env, w, request, dialog, tt))
  {
    var n := |w.txs|;
    var w0 := Append(w, request, dialog, tt);
    assert Listed(w0);
    match tt
    case ServerNonInvite =>
    case ServerInvite =>
      Answer100KeepsListed(env, Enter(w0, n, EVENT_INIT, PROCEEDING), n);
    case _ =>
      TransmitKeepsListed(env, Enter(w0, n, EVENT_INIT, if tt == ClientInvite then CALLING else TRYING), n, request);
  }

  lemma FlatAddKeepsOthers(env: Env, w: World, request: Message, dialog: Option<nat>, tt: TransactionType, k: nat)
    requires k < |w.txs|
    ensures FlatAdd(env, w, request, dialog, tt).txs[k] == w.txs[k]
  {
  }

  lemma RemoveTerminatedKeepsListed(w: World, i: nat)
    requires Listed(w) && i < |w.txs|
    ensures Listed(RemoveTerminated(w, i))
  {
    RemoveKeepsListed(w, i);
  }

  /** An answer keeps the list and every other transaction. */
  lemma ReplyKeepsListed(env: Env, w: World, i: nat, m: Message, event: Event)
    requires Listed(w) && i < |w.txs|
    ensures var r := FlatReply(env, w, i, m, event);
      Listed(r) && forall k: nat | k < |w.txs| && k != i :: r.txs[k] == w.txs[k]
  {
    if ReplyOk(env, w, i, event) {
      TransmitKeepsListed(env, AddResponse(w, i, m), i, m);
      var (w1, status) := Transmit(env, AddResponse(w, i, m), i, m);
      if status >= 0 {
        var e := Locate(w.txs[i].ttype, w.txs[i].state, event).entry;
        RemoveTerminatedKeepsListed(SetTx(w1, i, Locals(w1.txs[i].(curEvent := event, state := e.next), e.actions)), i);
      }
    }
  }

  lemma {:induction false} RepliesKeepListed(env: Env, w: World, i: nat, replies: seq<Reply>)
    requires Listed(w) && i < |w.txs|
    ensures var r := FlatReplies(env, w, i, replies);
      Listed(r) && forall k: nat | k < |w.txs| && k != i :: r.txs[k] == w.txs[k]
    decreases |replies|
  {
    if replies != [] {
      var w1 := FlatReply(env, w, i, replies[0].message, replies[0].event);
      ReplyKeepsListed(env, w, i, replies[0].message, replies[0].event);
      RepliesKeepListed(env, w1, i, replies[1..]);
    }
  }

  lemma ServeKeepsListed(env: Env, w: World, request: Message, dialog: Option<nat>, tt: TransactionType, replies: seq<Reply>)
    requires Listed(w)
    ensures var r := FlatServe(env, w, request, dialog, tt, replies);
      Listed(r) && forall k: nat | k < |w.txs| :: r.txs[k] == w.txs[k]
  {
    if !Refused(request, tt) {
      FlatAddKeepsListed(env, w, request, dialog, tt);
      RepliesKeepListed(env, FlatAdd(env, w, request, dialog, tt), |w.txs|, replies);
      forall k: nat | k < |w.txs| {
        FlatAddKeepsOthers(env, w, request, dialog, tt, k);
      }
    }
  }

  // ---------- The nested runs ----------

  lemma TransportErrorIsFlat(env: Env, w: World, i: nat)
    requires Listed(w) && i < |w.txs|
    requires Handles(w.txs[i].ttype, w.txs[i].state, TRANSPORT_ERROR)
    ensures RunFsm(env, w, i, TRANSPORT_ERROR) == Ok(Kill(w, i))
  {
    var tx := w.txs[i];
    TableEntry(tx.ttype, tx.state, Locate(tx.ttype, tx.state, TRANSPORT_ERROR).entry);
  }

  lemma SendTryingIsFlat(env: Env, w: World, i: nat)
    requires i < |w.txs|
    requires Handles(w.txs[i].ttype, w.txs[i].state, SEND_TRYING)
    ensures RunFsm(env, w, i, SEND_TRYING) == Ok(Enter(w, i, SEND_TRYING, w.txs[i].state))
  {
    var tx := w.txs[i];
    var e := Locate(tx.ttype, tx.state, SEND_TRYING).entry;
    TableEntry(tx.ttype, tx.state, e);
    assert tx.state != TERMINATED;
  }

  lemma SendIsFlat(env: Env, w: World, i: nat, m: Message)
    requires Listed(w) && i < |w.txs|
    requires Handles(w.txs[i].ttype, w.txs[i].state, TRANSPORT_ERROR)
    ensures SendTransactionMessage(env, w, i, m) == Ok(Transmit(env, w, i, m))
  {
    TransportErrorIsFlat(env, w.(wire := w.wire + [m]), i);
  }

  lemma Answer100IsFlat(env: Env, w: World, i: nat)
    requires Listed(w) && i < |w.txs|
    requires Handles(w.txs[i].ttype, w.txs[i].state, TRANSPORT_ERROR)
    requires Handles(w.txs[i].ttype, w.txs[i].state, SEND_TRYING)
    ensures Act(env, w, i, ResponseWith100Trying) == Ok((Answer100(env, w, i), 0))
  {
    var trying := BuildResponse(w.txs[i].request, 100, env.tag(|w.wire|));
    var w0 := AddResponse(w, i, trying);
    SendIsFlat(env, w0, i, trying);
    var (w1, status) := Transmit(env, w0, i, trying);
    if status >= 0 {
      SendTryingIsFlat(env, w1, i);
    }
  }

  lemma {:induction false} LocalActsAreFlat(env: Env, w: World, i: nat, acts: seq<Action>)
    requires i < |w.txs| && forall a | a in acts :: ActionLevel(a) == 0
    ensures InvokeActions(env, w, i, acts) == Ok(SetTx(w, i, Locals(w.txs[i], acts)))
    decreases |acts|
  {
    if acts == [] {
      assert SetTx(w, i, w.txs[i]) == w;
    } else {
      assert acts[0] in acts;
      var tx1 := LocalAction(acts[0], w.txs[i]);
      LocalActsAreFlat(env, SetTx(w, i, tx1), i, acts[1..]);
      assert SetTx(SetTx(w, i, tx1), i, Locals(tx1, acts[1..])) == SetTx(w, i, Locals(w.txs[i], acts));
    }
  }

  /** An answer's event is handled without further events. */
  lemma AnswerIsFlat(env: Env, w: World, i: nat, event: Event)
    requires i < |w.txs| && IsAnswer(event) && Handles(w.txs[i].ttype, w.txs[i].state, event)
    ensures RunFsm(env, w, i, event) == Ok(LocalRun(w, i, event, Locate(w.txs[i].ttype, w.txs[i].state, event).entry))
  {
    var e := Locate(w.txs[i].ttype, w.txs[i].state, event).entry;
    TableEntry(w.txs[i].ttype, w.txs[i].state, e);
    LocalActsAreFlat(env, Enter(w, i, event, e.next), i, e.actions);
    var tx1 := w.txs[i].(curEvent := event, state := e.next);
    assert SetTx(Enter(w, i, event, e.next), i, Locals(tx1, e.actions)) == SetTx(w, i, Locals(tx1, e.actions));
  }

  /** ResponseWith completes exactly if the answer does, and then leaves the world of the flat answer. */
  lemma ReplyIsFlat(env: Env, w: World, i: nat, m: Message, event: Event)
    requires Listed(w) && i < |w.txs| && IsAnswer(event)
    ensures var r := ResponseWith(env, w, i, m, event);
      (r.Ok? <==> ReplyOk(env, w, i, event)) && (r.Ok? ==> r.value.0 == FlatReply(env, w, i, m, event))
  {
    var w0 := AddResponse(w, i, m);
    var w1 := w0.(wire := w0.wire + [m]);
    if env.net(|w.wire|) {
      if ReplyOk(env, w, i, event) {
        AnswerIsFlat(env, w1, i, event);
      }
    } else if ReplyOk(env, w, i, event) {
      TransportErrorIsFlat(env, w1, i);
    }
  }

  lemma {:induction false} RepliesAreFlat(env: Env, w: World, i: nat, replies: seq<Reply>)
    requires Listed(w) && i < |w.txs|
    ensures AnswerAll(env, w, i, replies).Ok? <==> RepliesOk(env, w, i, replies)
    ensures RepliesOk(env, w, i, replies) ==> AnswerAll(env, w, i, replies) == Ok(FlatReplies(env, w, i, replies))
    decreases |replies|
  {
    if replies != [] {
      var r := replies[0];
      ReplyIsFlat(env, w, i, r.message, r.event);
      ReplyKeepsListed(env, w, i, r.message, r.event);
      RepliesAreFlat(env, FlatReply(env, w, i, r.message, r.event), i, replies[1..]);
    }
  }

  // ---------- The whole interpreter ----------

  /** What the state after an entry must provide for its actions. */
  predicate Ready(tx: Tx, acts: seq<Action>) {
    && (forall a | a in acts && Sends(a) :: Handles(tx.ttype, tx.state, TRANSPORT_ERROR))
    && (ResponseWith100Trying in acts ==>
          acts == [ResponseWith100Trying] && Handles(tx.ttype, tx.state, SEND_TRYING))
    && (ResendLatestResponse in acts ==> tx.responses != [])
  }

  lemma FlatActKeeps(env: Env, w: World, i: nat, a: Action)
    requires Listed(w) && i < |w.txs|
    ensures var (w1, status) := FlatAct(env, w, i, a);
      && Listed(w1)
      && (status < 0 ==> i !in w1.list && w1.txs[i].state == TERMINATED)
      && (status >= 0 && a != ResponseWith100Trying ==>
            && w1.txs[i].ttype == w.txs[i].ttype && w1.txs[i].state == w.txs[i].state
            && |w.txs[i].responses| <= |w1.txs[i].responses|)
  {
    var tx := w.txs[i];
    match a
    case SendRequestMessage => TransmitKeepsListed(env, w, i, tx.request);
    case ResendLatestResponse =>
      if tx.responses != [] {
        TransmitKeepsListed(env, w, i, LatestResponse(tx).value);
      }
    case SendAckRequest =>
      var ack := AckFor(tx, env.tag(|w.wire|));
      TransmitKeepsListed(env, AddResponse(w, i, ack), i, ack);
    case ResponseWith100Trying =>
      var trying := BuildResponse(tx.request, 100, env.tag(|w.wire|));
      TransmitKeepsListed(env, AddResponse(w, i, trying), i, trying);
    case InformTU =>
      if tx.user.Some? {
        var call := TuCall(Some(i), tx.user, tx.curEvent, LatestResponse(tx));
        FlatTuKeeps(env, w.(tuCalls := w.tuCalls + [call]), env.tu(|w.tuCalls|));
      }
    case _ =>
  }

  /** A callback appends transactions and touches none that existed before. */
  lemma {:induction false} FlatTuKeeps(env: Env, w: World, acts: seq<TuAct>)
    requires Listed(w)
    ensures var w1 := FlatTu(env, w, acts);
      Listed(w1) && forall k: nat | k < |w.txs| :: w1.txs[k] == w.txs[k]
    decreases |acts|
  {
    if acts != [] {
      match acts[0]
      case StartTransaction(request, dialog, tt) =>
        FlatAddKeepsListed(env, w, request, dialog, tt);
        forall k: nat | k < |w.txs| {
          FlatAddKeepsOthers(env, w, request, dialog, tt, k);
        }
        FlatTuKeeps(env, FlatAdd(env, w, request, dialog, tt), acts[1..]);
      case Serve(request, dialog, invite, replies) =>
        ServeKeepsListed(env, w, request, dialog, Served(invite), replies);
        FlatTuKeeps(env, FlatServe(env, w, request, dialog, Served(invite), replies), acts[1..]);
      case SendDirectly(m) =>
        FlatTuKeeps(env, w.(wire := w.wire + [m]), acts[1..]);
    }
  }

  /**
  Theorem: a list of actions completes exactly if the user that it calls does, and then as the flat form says; no event
  that an action raises reaches the abort.
  */
  lemma {:induction false} ActsAreFlat(env: Env, w: World, i: nat, acts: seq<Action>)
    requires Listed(w) && i < |w.txs| && Ready(w.txs[i], acts)
    ensures InvokeActions(env, w, i, acts).Ok? <==> ActsOk(env, w, i, acts)
    ensures ActsOk(env, w, i, acts) ==> InvokeActions(env, w, i, acts) == Ok(FlatActs(env, w, i, acts))
    ensures Listed(FlatActs(env, w, i, acts))
    decreases Level(acts), 1, |acts|
  {
    if acts != [] {
      var a := acts[0];
      assert a in acts;
      if a == ResponseWith100Trying {
        assert Sends(a);
        Answer100IsFlat(env, w, i);
      } else {
        ActIsFlat(env, w, i, a);
      }
      FlatActKeeps(env, w, i, a);
      var (w1, status) := FlatAct(env, w, i, a);
      if status >= 0 {
        ActsAreFlat(env, w1, i, acts[1..]);
      }
    }
  }

  lemma ActIsFlat(env: Env, w: World, i: nat, a: Action)
    requires Listed(w) && i < |w.txs| && a != ResponseWith100Trying && Ready(w.txs[i], [a])
    ensures Act(env, w, i, a).Ok? <==> ActOk(env, w, i, a)
    ensures ActOk(env, w, i, a) ==> Act(env, w, i, a) == Ok(FlatAct(env, w, i, a))
    decreases ActionLevel(a), 0, 1
  {
    var tx := w.txs[i];
    assert a in [a];
    match a
    case SendRequestMessage => SendIsFlat(env, w, i, tx.request);
    case ResendLatestResponse => SendIsFlat(env, w, i, LatestResponse(tx).value);
    case SendAckRequest =>
      var ack := AckFor(tx, env.tag(|w.wire|));
      SendIsFlat(env, AddResponse(w, i, ack), i, ack);
    case InformTU =>
      if tx.user.Some? {
        var call := TuCall(Some(i), tx.user, tx.curEvent, LatestResponse(tx));
        CallIsFlat(env, w, call);
      }
    case _ =>
  }

  lemma CallIsFlat(env: Env, w: World, call: TuCall)
    requires Listed(w)
    ensures OnTransactionEvent(env, w, call).Ok? <==> CallOk(env, w, call)
    ensures CallOk(env, w, call) ==> OnTransactionEvent(env, w, call) == Ok(FlatCall(env, w, call))
    decreases 2, 0, 0
  {
    TuIsFlat(env, w.(tuCalls := w.tuCalls + [call]), env.tu(|w.tuCalls|));
  }

  lemma {:induction false} TuIsFlat(env: Env, w: World, acts: seq<TuAct>)
    requires Listed(w)
    ensures TuActs(env, w, acts).Ok? <==> TuOk(env, w, acts)
    ensures TuOk(env, w, acts) ==> TuActs(env, w, acts) == Ok(FlatTu(env, w, acts))
    decreases 1, 4, |acts|
  {
    if acts != [] {
      match acts[0]
      case StartTransaction(request, dialog, tt) =>
        AddIsFlat(env, w, request, dialog, tt);
        FlatAddKeepsListed(env, w, request, dialog, tt);
        TuIsFlat(env, FlatAdd(env, w, request, dialog, tt), acts[1..]);
      case Serve(request, dialog, invite, replies) =>
        ServeIsFlat(env, w, request, dialog, Served(invite), replies);
        ServeKeepsListed(env, w, request, dialog, Served(invite), replies);
        TuIsFlat(env, FlatServe(env, w, request, dialog, Served(invite), replies), acts[1..]);
      case SendDirectly(m) =>
        TuIsFlat(env, w.(wire := w.wire + [m]), acts[1..]);
    }
  }

  lemma ServeIsFlat(env: Env, w: World, request: Message, dialog: Option<nat>, tt: TransactionType, replies: seq<Reply>)
    requires Listed(w)
    ensures var r := ServeRequest(env, w, request, dialog, tt, replies);
      && (r.Ok? <==> ServeOk(env, w, request, dialog, tt, replies))
      && (r.Ok? ==> r == Ok(FlatServe(env, w, request, dialog, tt, replies)))
    decreases 1, 3, 1
  {
    AddIsFlat(env, w, request, dialog, tt);
    if !Refused(request, tt) {
      FlatAddKeepsListed(env, w, request, dialog, tt);
      RepliesAreFlat(env, FlatAdd(env, w, request, dialog, tt), |w.txs|, replies);
    }
  }

  /** The entry that creates a transaction. */
  function InitEntry(tt: TransactionType): Entry {
    match tt
    case ClientInvite => Entry(EVENT_INIT, CALLING, [SendRequestMessage, ClientNonInviteAddRetransmitTimer, AddTimeoutTimer])
    case ClientNonInvite => Entry(EVENT_INIT, TRYING, [SendRequestMessage, ClientNonInviteAddRetransmitTimer, AddTimeoutTimer])
    case ServerInvite => Entry(EVENT_INIT, PROCEEDING, [ResponseWith100Trying])
    case ServerNonInvite => Entry(EVENT_INIT, TRYING, [])
  }

  lemma InitIsLocated(tt: TransactionType)
    ensures Locate(tt, INIT, EVENT_INIT) == Found(InitEntry(tt))
    ensures InitEntry(tt) in FsmRow(tt, INIT).value.entries
  {
    FsmRowIs(tt, INIT);
  }

  lemma AddIsFlat(env: Env, w: World, request: Message, dialog: Option<nat>, tt: TransactionType)
    requires Listed(w)
    ensures AddTransaction(env, w, request, dialog, tt) == Ok(FlatAdd(env, w, request, dialog, tt))
    decreases 1, 3, 0
  {
    if !Refused(request, tt) {
      InitIsLocated(tt);
      var w0 := Append(w, request, dialog, tt);
      NobodyCalled(env, Enter(w0, |w.txs|, EVENT_INIT, InitEntry(tt).next), |w.txs|, InitEntry(tt).actions);
      RunIsFlat(env, w0, |w.txs|, EVENT_INIT);
      FlatAddIsRun(env, w, request, dialog, tt);
    }
  }

  /** Actions that call nobody complete. */
  lemma {:induction false} NobodyCalled(env: Env, w: World, i: nat, acts: seq<Action>)
    requires i < |w.txs| && InformTU !in acts
    ensures ActsOk(env, w, i, acts)
    decreases |acts|
  {
    if acts != [] {
      assert acts[0] in acts;
      NobodyCalled(env, FlatAct(env, w, i, acts[0]).0, i, acts[1..]);
    }
  }

  lemma RunUnfolds(env: Env, w: World, i: nat, event: Event, e: Entry)
    requires i < |w.txs| && Locate(w.txs[i].ttype, w.txs[i].state, event) == Found(e)
    requires InvokeActions(env, Enter(w, i, event, e.next), i, e.actions).Ok? <==> RunOk(env, w, i, event, e)
    requires RunOk(env, w, i, event, e) ==>
      InvokeActions(env, Enter(w, i, event, e.next), i, e.actions) == Ok(FlatActs(env, Enter(w, i, event, e.next), i, e.actions))
    ensures RunFsm(env, w, i, event).Ok? <==> RunOk(env, w, i, event, e)
    ensures RunOk(env, w, i, event, e) ==> RunFsm(env, w, i, event) == Ok(FlatRun(env, w, i, event, e))
  {
  }

  lemma FlatAddIsRun(env: Env, w: World, request: Message, dialog: Option<nat>, tt: TransactionType)
    requires Listed(w) && !Refused(request, tt)
    ensures FlatAdd(env, w, request, dialog, tt)
         == FlatRun(env, Append(w, request, dialog, tt), |w.txs|, EVENT_INIT, InitEntry(tt))
  {
    var n := |w.txs|;
    var w1 := Enter(Append(w, request, dialog, tt), n, EVENT_INIT, InitEntry(tt).next);
    InitActs(env, w1, n, tt);
    match tt
    case ServerNonInvite =>
    case ServerInvite => Answer100Removed(env, w1, n);
    case _ => RequestRemoved(env, w1, n, request);
  }

  /** A transaction that a failed send has removed is not removed again. */
  lemma Answer100Removed(env: Env, w: World, i: nat)
    requires Listed(w) && i < |w.txs| && w.txs[i].state != TERMINATED
    ensures RemoveTerminated(Answer100(env, w, i), i) == Answer100(env, w, i)
  {
    var trying := BuildResponse(w.txs[i].request, 100, env.tag(|w.wire|));
    TransmitKeepsListed(env, AddResponse(w, i, trying), i, trying);
  }

  lemma RequestRemoved(env: Env, w: World, i: nat, m: Message)
    requires Listed(w) && i < |w.txs| && w.txs[i].state != TERMINATED
    ensures var (w1, status) := Transmit(env, w, i, m);
      if status < 0 then RemoveTerminated(w1, i) == w1
      else RemoveTerminated(SetTx(w1, i, Arm(Arm(w1.txs[i], Retransmit, T1), Timeout, 64 * T1)), i)
           == SetTx(w1, i, Arm(Arm(w1.txs[i], Retransmit, T1), Timeout, 64 * T1))
  {
    TransmitKeepsListed(env, w, i, m);
  }

  /** The actions of the first entry, spelled out. */
  lemma InitActs(env: Env, w: World, n: nat, tt: TransactionType)
    requires n < |w.txs| && w.txs[n].state == InitEntry(tt).next && w.txs[n].retransmits == 0
    ensures FlatActs(env, w, n, InitEntry(tt).actions) == match tt
      case ServerNonInvite => w
      case ServerInvite => Answer100(env, w, n)
      case _ =>
        var (w1, status) := Transmit(env, w, n, w.txs[n].request);
        if status < 0 then w1 else SetTx(w1, n, Arm(Arm(w1.txs[n], Retransmit, T1), Timeout, 64 * T1))
  {
  }

  /**
  Theorem: an event with an entry is handled to the end, whatever the network and the callbacks do inside it, exactly if
  the user that it calls completes its own answers.
  */
  lemma RunIsFlat(env: Env, w: World, i: nat, event: Event)
    requires Listed(w) && i < |w.txs| && Handles(w.txs[i].ttype, w.txs[i].state, event)
    requires var e := Locate(w.txs[i].ttype, w.txs[i].state, event).entry;
      ResendLatestResponse in e.actions ==> w.txs[i].responses != []
    ensures var e := Locate(w.txs[i].ttype, w.txs[i].state, event).entry;
      && (RunFsm(env, w, i, event).Ok? <==> RunOk(env, w, i, event, e))
      && (RunOk(env, w, i, event, e) ==> RunFsm(env, w, i, event) == Ok(FlatRun(env, w, i, event, e)))
      && Listed(FlatRun(env, w, i, event, e))
    decreases Rank(event), 2, 0
  {
    var tx := w.txs[i];
    var e := Locate(tx.ttype, tx.state, event).entry;
    TableEntry(tx.ttype, tx.state, e);
    TableNestedHandled(tx.ttype, tx.state, e);
    var w1 := Enter(w, i, event, e.next);
    ActsAreFlat(env, w1, i, e.actions);
    RunUnfolds(env, w, i, event, e);
    RemoveKeepsListed(FlatActs(env, w1, i, e.actions), i);
  }
}
