/**
What handling one event does to the transaction itself, to the other transactions and to the callbacks: the whole
interpreter projected on one transaction is a fold of its actions over that transaction alone.
*/
module TransactionEffect {
  import opened Common
  import opened TransactionTables
  import opened TransactionSpec
  import opened TransactionFlat

  /** The message that a sending action adds to the responses before it sends. */
  function Recorded(env: Env, n: nat, tx: Tx, a: Action): seq<Message> {
    match a
    case SendAckRequest => [AckFor(tx, env.tag(n))]
    case ResponseWith100Trying => [BuildResponse(tx.request, 100, env.tag(n))]
    case _ => []
  }

  /** One action on its own transaction, `n` messages having been sent before; and whether the actions stop here. */
  function TxAct(env: Env, n: nat, tx: Tx, a: Action): (Tx, bool) {
    if !Sends(a) then (LocalAction(a, tx), false)
    else if a == ResendLatestResponse && tx.responses == [] then (tx, false)
    else
      var tx1 := tx.(responses := tx.responses + Recorded(env, n, tx, a));
      if !env.net(n) then (tx1.(curEvent := TRANSPORT_ERROR, state := TERMINATED), a != ResponseWith100Trying)
      else (if a == ResponseWith100Trying then tx1.(curEvent := SEND_TRYING) else tx1, false)
  }

  function TxActs(env: Env, n: nat, tx: Tx, acts: seq<Action>): Tx
    decreases |acts|
  {
    if acts == [] then tx
    else
      var (tx1, stop) := TxAct(env, n, tx, acts[0]);
      if stop then tx1 else TxActs(env, if Sends(acts[0]) then n + 1 else n, tx1, acts[1..])
  }

  /** The transaction after an event that selects entry `e`. */
  function TxRun(env: Env, n: nat, tx: Tx, event: Event, e: Entry): Tx {
    TxActs(env, n, tx.(curEvent := event, state := e.next), e.actions)
  }

  /** The calls that a list of actions makes when run by transaction `tx`. */
  function CallsOf(tx: Tx, i: nat, acts: seq<Action>): seq<TuCall> {
    if InformTU in acts && tx.user.Some? then [TuCall(Some(i), tx.user, tx.curEvent, LatestResponse(tx))] else []
  }

  predicate InformsLast(acts: seq<Action>) {
    InformTU in acts ==> acts == [InformTU] || acts == [AddWaitForResponseTimer, InformTU]
  }

  /** Answers call nobody, and only add to the wire. */
  lemma {:induction false} RepliesEffect(env: Env, w: World, i: nat, replies: seq<Reply>)
    requires i < |w.txs|
    ensures FlatReplies(env, w, i, replies).tuCalls == w.tuCalls
    ensures w.wire <= FlatReplies(env, w, i, replies).wire
    decreases |replies|
  {
    if replies != [] {
      var r := replies[0];
      ReplyEffect(env, w, i, r.message, r.event);
      RepliesEffect(env, FlatReply(env, w, i, r.message, r.event), i, replies[1..]);
    }
  }

  lemma ReplyEffect(env: Env, w: World, i: nat, m: Message, event: Event)
    requires i < |w.txs|
    ensures FlatReply(env, w, i, m, event).tuCalls == w.tuCalls
    ensures w.wire <= FlatReply(env, w, i, m, event).wire
  {
  }

  lemma {:induction false} TuEffect(env: Env, w: World, acts: seq<TuAct>)
    ensures FlatTu(env, w, acts).tuCalls == w.tuCalls
    ensures w.wire <= FlatTu(env, w, acts).wire
    decreases |acts|
  {
    if acts != [] {
      match acts[0]
      case StartTransaction(request, dialog, tt) =>
        TuEffect(env, FlatAdd(env, w, request, dialog, tt), acts[1..]);
      case Serve(request, dialog, invite, replies) =>
        if !Refused(request, Served(invite)) {
          RepliesEffect(env, FlatAdd(env, w, request, dialog, Served(invite)), |w.txs|, replies);
        }
        TuEffect(env, FlatServe(env, w, request, dialog, Served(invite), replies), acts[1..]);
      case SendDirectly(m) =>
        TuEffect(env, w.(wire := w.wire + [m]), acts[1..]);
    }
  }

  lemma ActEffect(env: Env, w: World, i: nat, a: Action)
    requires Listed(w) && i < |w.txs|
    ensures var (w1, status) := FlatAct(env, w, i, a);
      && (w1.txs[i], status < 0) == TxAct(env, |w.wire|, w.txs[i], a)
      && (forall k: nat | k < |w.txs| && k != i :: w1.txs[k] == w.txs[k])
      && (a != InformTU ==> w1.tuCalls == w.tuCalls)
      && (Sends(a) && !(a == ResendLatestResponse && w.txs[i].responses == []) ==> |w1.wire| == |w.wire| + 1)
      && (!Sends(a) && a != InformTU ==> w1.wire == w.wire)
  {
    var tx := w.txs[i];
    match a
    case InformTU =>
      if tx.user.Some? {
        var call := TuCall(Some(i), tx.user, tx.curEvent, LatestResponse(tx));
        FlatTuKeeps(env, w.(tuCalls := w.tuCalls + [call]), env.tu(|w.tuCalls|));
      }
    case SendRequestMessage =>
      assert tx.responses + [] == tx.responses;
    case ResendLatestResponse =>
      assert tx.responses + [] == tx.responses;
    case _ =>
  }

  lemma {:induction false} ActsEffect(env: Env, w: World, i: nat, acts: seq<Action>)
    requires Listed(w) && i < |w.txs|
    requires InformTU !in acts
    requires ResendLatestResponse in acts ==> w.txs[i].responses != []
    ensures FlatActs(env, w, i, acts).txs[i] == TxActs(env, |w.wire|, w.txs[i], acts)
    ensures forall k: nat | k < |w.txs| && k != i :: FlatActs(env, w, i, acts).txs[k] == w.txs[k]
    ensures FlatActs(env, w, i, acts).tuCalls == w.tuCalls
    decreases |acts|
  {
    if acts != [] {
      ActEffect(env, w, i, acts[0]);
      FlatActKeeps(env, w, i, acts[0]);
      var (w1, status) := FlatAct(env, w, i, acts[0]);
      if status >= 0 {
        ActsEffect(env, w1, i, acts[1..]);
      }
    }
  }

  lemma InformEffect(env: Env, w: World, i: nat)
    requires Listed(w) && i < |w.txs|
    ensures var w1 := FlatActs(env, w, i, [InformTU]);
      && w1.txs[i] == w.txs[i]
      && (forall k: nat | k < |w.txs| && k != i :: w1.txs[k] == w.txs[k])
      && w1.tuCalls == w.tuCalls + CallsOf(w.txs[i], i, [InformTU])
  {
    ActEffect(env, w, i, InformTU);
    var (w1, status) := FlatAct(env, w, i, InformTU);
    assert FlatActs(env, w, i, [InformTU]) == w1;
    if w.txs[i].user.Some? {
      var call := TuCall(Some(i), w.txs[i].user, w.txs[i].curEvent, LatestResponse(w.txs[i]));
      TuEffect(env, w.(tuCalls := w.tuCalls + [call]), env.tu(|w.tuCalls|));
    }
  }

  lemma WaitThenInform(env: Env, w: World, i: nat)
    requires Listed(w) && i < |w.txs|
    ensures var acts := [AddWaitForResponseTimer, InformTU];
      var tx := LocalAction(AddWaitForResponseTimer, w.txs[i]);
      && FlatActs(env, w, i, acts) == FlatActs(env, SetTx(w, i, tx), i, [InformTU])
      && TxActs(env, |w.wire|, w.txs[i], acts) == tx
  {
    var acts := [AddWaitForResponseTimer, InformTU];
    assert acts[1..] == [InformTU];
    var tx := LocalAction(AddWaitForResponseTimer, w.txs[i]);
    assert TxActs(env, |w.wire|, w.txs[i], acts) == TxActs(env, |w.wire|, tx, [InformTU]);
  }

  predicate ActsDo(env: Env, w: World, i: nat, acts: seq<Action>)
    requires i < |w.txs|
  {
    var w1 := FlatActs(env, w, i, acts);
    && w1.txs[i] == TxActs(env, |w.wire|, w.txs[i], acts)
    && (forall k: nat | k < |w.txs| && k != i :: w1.txs[k] == w.txs[k])
    && w1.tuCalls == w.tuCalls + CallsOf(w.txs[i], i, acts)
  }

  lemma WaitInformDo(env: Env, w: World, i: nat)
    requires Listed(w) && i < |w.txs|
    ensures ActsDo(env, w, i, [AddWaitForResponseTimer, InformTU])
  {
    WaitThenInform(env, w, i);
    InformEffect(env, SetTx(w, i, LocalAction(AddWaitForResponseTimer, w.txs[i])), i);
  }

  lemma EntryActs(env: Env, w: World, i: nat, acts: seq<Action>)
    requires Listed(w) && i < |w.txs| && InformsLast(acts)
    requires ResendLatestResponse in acts ==> w.txs[i].responses != []
    ensures ActsDo(env, w, i, acts)
  {
    if InformTU !in acts {
      ActsEffect(env, w, i, acts);
    } else if acts == [InformTU] {
      InformEffect(env, w, i);
    } else {
      WaitInformDo(env, w, i);
    }
  }

  /** Theorem: one event changes its own transaction as TxRun says, no other that existed, and calls back as CallsOf says. */
  lemma RunEffect(env: Env, w: World, i: nat, event: Event, e: Entry)
    requires Listed(w) && i < |w.txs|
    requires FsmRow(w.txs[i].ttype, w.txs[i].state).Some?
    requires e in FsmRow(w.txs[i].ttype, w.txs[i].state).value.entries
    requires ResendLatestResponse in e.actions ==> w.txs[i].responses != []
    ensures var w1 := FlatRun(env, w, i, event, e);
      && w1.txs[i] == TxRun(env, |w.wire|, w.txs[i], event, e)
      && (forall k: nat | k < |w.txs| && k != i :: w1.txs[k] == w.txs[k])
      && w1.tuCalls == w.tuCalls + CallsOf(w.txs[i].(curEvent := event), i, e.actions)
  {
    TableEntry(w.txs[i].ttype, w.txs[i].state, e);
    EntryActs(env, Enter(w, i, event, e.next), i, e.actions);
  }
}
