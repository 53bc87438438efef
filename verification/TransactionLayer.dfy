/**
The transaction layer in the form of the program: transactions whose fields are updated in place, a manager that owns
a list of them, and methods with the loops of the source, each proved to do what its function in TransactionSpec says.
*/
module TransactionLayer {
  import opened Common
  import opened TransactionTables
  import opened TransactionSpec
  import Flat = TransactionFlat
  import Safety = TransactionSafety
  import Steps = TransactionSteps

  class Transaction {
    ghost const id: nat
    const ttype: TransactionType
    const request: Message
    const user: Option<nat>
    var state: State
    var curEvent: Event
    var retransmits: nat
    var responses: seq<Message>
    ghost var armed: seq<Timer>
    ghost var pending: multiset<TimerKind>

    /** CreateTransaction. */
    constructor (ghost id: nat, request: Message, user: Option<nat>, ttype: TransactionType)
      ensures this.id == id && Snapshot() == NewTx(request, user, ttype)
    {
      this.id := id;
      this.request, this.user, this.ttype := request, user, ttype;
      state, curEvent, retransmits, responses := INIT, 0, 0, [];
      armed, pending := [], multiset{};
    }

    ghost function Snapshot(): Tx
      reads this
    {
      Tx(ttype, request, user, state, curEvent, retransmits, responses, armed, pending)
    }

    method GetLatestResponse() returns (m: Option<Message>)
      ensures m == LatestResponse(Snapshot())
    {
      m := if |responses| == 0 then None else Some(responses[|responses| - 1]);
    }

    method CalculateRetransmitInterval() returns (interval: nat)
      ensures interval == RetransmitInterval(retransmits)
    {
      interval := T1 * Pow2(retransmits);
      if interval > T2 { interval := T2; }
    }
  }

  ghost function Snapshots(ts: seq<Transaction>): (r: seq<Tx>)
    reads ts
    ensures |r| == |ts| && forall k | 0 <= k < |ts| :: r[k] == ts[k].Snapshot()
  {
    seq(|ts|, k requires 0 <= k < |ts| reads ts => ts[k].Snapshot())
  }

  ghost function Ids(ts: seq<Transaction>): (r: seq<nat>)
    ensures |r| == |ts| && forall k | 0 <= k < |ts| :: r[k] == ts[k].id
  {
    seq(|ts|, k requires 0 <= k < |ts| => ts[k].id)
  }

  lemma SnapshotsAppend(ts: seq<Transaction>, t: Transaction)
    ensures Snapshots(ts + [t]) == Snapshots(ts) + [t.Snapshot()]
  {
  }

  lemma IdsAppend(ts: seq<Transaction>, t: Transaction)
    ensures Ids(ts + [t]) == Ids(ts) + [t.id]
  {
  }

  class TransactionManager {
    const env: Env
    var transactions: seq<Transaction>
    /** Every transaction ever created, in order; the outer RunFsm still reads destroyed ones. */
    ghost var all: seq<Transaction>
    ghost var destroyed: seq<nat>
    ghost var wire: seq<Message>
    ghost var tuCalls: seq<TuCall>
    /** How many messages were sent and callbacks made. */
    var sends: nat
    var calls: nat

    ghost predicate Valid()
      reads this
    {
      && (forall k | 0 <= k < |all| :: all[k].id == k)
      && (forall k | 0 <= k < |transactions| :: Owns(transactions[k]))
      && sends == |wire| && calls == |tuCalls|
    }

    ghost function Now(): World
      reads this, all
    {
      World(Snapshots(all), Ids(transactions), destroyed, wire, tuCalls)
    }

    ghost predicate Owns(t: Transaction)
      reads this
    {
      t.id < |all| && all[t.id] == t
    }

    constructor (env: Env)
      ensures Valid() && Now() == EmptyWorld && this.env == env
    {
      this.env := env;
      transactions, all, destroyed, wire, tuCalls := [], [], [], [], [];
      sends, calls := 0, 0;
    }

    // ---------- In-place updates of one transaction ----------

    /** Writing the fields of one owned transaction changes one entry of the world. */
    twostate lemma Wrote(t: Transaction)
      requires old(Valid()) && Valid() && old(Owns(t)) && all == old(all) && Ids(transactions) == old(Ids(transactions))
      requires destroyed == old(destroyed) && wire == old(wire) && tuCalls == old(tuCalls)
      requires forall o | o in all && o != t :: unchanged(o)
      ensures Now() == Flat.SetTx(old(Now()), t.id, t.Snapshot())
    {
      var before, after := old(Snapshots(all)), Snapshots(all);
      forall k | 0 <= k < |all| ensures after[k] == before[t.id := t.Snapshot()][k] {
        assert all[k].id == k;
        if k != t.id {
          assert all[k] in all && unchanged(all[k]);
        }
      }
    }

    method EnterState(t: Transaction, event: Event, next: State)
      requires Valid() && Owns(t)
      modifies t
      ensures Valid() && Now() == Flat.Enter(old(Now()), t.id, event, next)
    {
      t.curEvent := event;
      t.state := next;
      Wrote(t);
    }

    method RecordResponse(t: Transaction, m: Message)
      requires Valid() && Owns(t)
      modifies t
      ensures Valid() && Now() == AddResponse(old(Now()), t.id, m)
    {
      t.responses := t.responses + [m];
      Wrote(t);
    }

    method AddTimer(t: Transaction, kind: TimerKind, ms: nat)
      requires Valid() && Owns(t)
      modifies t
      ensures Valid() && Now() == Flat.SetTx(old(Now()), t.id, Arm(old(Now()).txs[t.id], kind, ms))
    {
      t.armed := t.armed + [Timer(kind, ms)];
      t.pending := t.pending + multiset{kind};
      Wrote(t);
    }

    method IncRetransmits(t: Transaction)
      requires Valid() && Owns(t)
      modifies t
      ensures Valid() && Now() == Flat.SetTx(old(Now()), t.id, LocalAction(IncRetransmit, old(Now()).txs[t.id]))
    {
      if T1 * Pow2(t.retransmits) <= T2 {
        t.retransmits := t.retransmits + 1;
      }
      Wrote(t);
    }

    method ClearRetransmits(t: Transaction)
      requires Valid() && Owns(t)
      modifies t
      ensures Valid() && Now() == Flat.SetTx(old(Now()), t.id, LocalAction(ResetRetransmits, old(Now()).txs[t.id]))
    {
      t.retransmits := 0;
      Wrote(t);
    }

    method AddNonInviteRetransmitTimer(t: Transaction)
      requires Valid() && Owns(t)
      modifies t
      ensures Valid()
      ensures Now() == Flat.SetTx(old(Now()), t.id, LocalAction(ClientNonInviteAddRetransmitTimer, old(Now()).txs[t.id]))
    {
      var interval := T1;
      if t.state == TRYING {
        interval := t.CalculateRetransmitInterval();
      } else if t.state == PROCEEDING {
        interval := T2;
      }
      AddTimer(t, Retransmit, interval);
    }

    // ---------- The list ----------

    lemma SameObject(s: Transaction, t: Transaction)
      requires Valid() && Owns(t) && Owns(s)
      ensures s == t <==> s.id == t.id
    {
    }

    lemma {:induction false} RemoveFirstAt(list: seq<nat>, i: nat, x: nat)
      requires i < |list| && list[i] == x && forall k | 0 <= k < i :: list[k] != x
      ensures TransactionSpec.RemoveFirst(list, x) == list[..i] + list[i + 1..]
    {
      if i > 0 {
        RemoveFirstAt(list[1..], i - 1, x);
        assert list[..i] == [list[0]] + list[1..][..i - 1];
        assert list[1..][i..] == list[i + 1..];
      }
    }

    /** RemoveTransactionByPosition and DestroyTransaction. */
    method DestroyAt(position: nat)
      requires Valid() && position < |transactions|
      modifies this
      ensures Valid() && all == old(all)
      ensures var ids := old(Ids(transactions));
        Now() == old(Now()).(list := ids[..position] + ids[position + 1..], destroyed := old(destroyed) + [ids[position]])
    {
      ghost var ids := Ids(transactions);
      destroyed := destroyed + [transactions[position].id];
      transactions := transactions[..position] + transactions[position + 1..];
      assert Ids(transactions) == ids[..position] + ids[position + 1..];
    }

    /** _RemoveTransaction by address. */
    method RemoveTransaction(t: Transaction)
      requires Valid() && Owns(t)
      modifies this
      ensures Valid() && all == old(all) && Now() == TransactionSpec.RemoveTransaction(old(Now()), t.id)
    {
      ghost var ids := Ids(transactions);
      var i := 0;
      while i < |transactions|
        invariant 0 <= i <= |transactions|
        invariant Valid() && all == old(all) && transactions == old(transactions) && Now() == old(Now())
        invariant forall k | 0 <= k < i :: ids[k] != t.id
      {
        SameObject(transactions[i], t);
        if transactions[i] == t {
          RemoveFirstAt(ids, i, t.id);
          assert ids[i] in ids;
          DestroyAt(i);
          return;
        }
        i := i + 1;
      }
      assert t.id !in ids;
    }

    method RemoveTerminatedTransaction(t: Transaction)
      requires Valid() && Owns(t)
      modifies this
      ensures Valid() && all == old(all) && Now() == RemoveTerminated(old(Now()), t.id)
    {
      if t.state == TERMINATED {
        RemoveTransaction(t);
      }
    }

    lemma SearchStep(w: World, ids: seq<nat>, i: nat, branch: string, cseqMethod: Method)
      requires i < |ids| && ids[i] < |w.txs|
      ensures GetTransaction(w, ids[i..], branch, cseqMethod) ==
        if TransactionMatched(w.txs[ids[i]], branch, cseqMethod) then Some(ids[i])
        else GetTransaction(w, ids[i + 1..], branch, cseqMethod)
    {
      assert ids[i..][0] == ids[i] && ids[i..][1..] == ids[i + 1..];
    }

    /** GetTransaction: an index loop over the list. */
    method FindTransaction(branch: string, cseqMethod: Method) returns (t: Transaction?)
      requires Valid()
      ensures t == null <==> GetTransaction(Now(), Now().list, branch, cseqMethod) == None
      ensures t != null ==> Owns(t) && GetTransaction(Now(), Now().list, branch, cseqMethod) == Some(t.id)
    {
      ghost var ids, now := Ids(transactions), Now();
      var i := 0;
      while i < |transactions|
        invariant 0 <= i <= |transactions|
        invariant GetTransaction(now, ids[i..], branch, cseqMethod) == GetTransaction(now, ids, branch, cseqMethod)
      {
        assert Owns(transactions[i]) && now.txs[ids[i]].request == transactions[i].request;
        SearchStep(now, ids, i, branch, cseqMethod);
        if transactions[i].request.branch == branch && transactions[i].request.cseqMethod == cseqMethod {
          return transactions[i];
        }
        i := i + 1;
      }
      return null;
    }

    // ---------- The tables ----------

    method LocateState(tt: TransactionType, s: State) returns (row: Option<Row>)
      ensures row == FsmRow(tt, s)
    {
      var states := Fsm(tt);
      var i := 0;
      row := None;
      while i < |states|
        invariant 0 <= i <= |states|
        invariant row == LocateFsmState(tt, states[..i], s)
      {
        if states[i] == s {
          row := RowOf(tt, s);
        }
        LocateFsmStateIs(tt, states[..i], s);
        LocateFsmStateIs(tt, states[..i + 1], s);
        assert states[..i + 1] == states[..i] + [states[i]];
        i := i + 1;
      }
      assert states[..|states|] == states;
    }

    /** The scan of a row: it must find an entry, reach a terminator, or not be called. */
    method LocateEventEntry(t: Transaction, event: Event) returns (e: Option<Entry>)
      requires Locate(t.ttype, t.state, event) != Overrun
      ensures Locate(t.ttype, t.state, event) == (match e case Some(x) => Found(x) case None => NotFound)
    {
      var state := LocateState(t.ttype, t.state);
      if state.None? {
        return None;
      }
      var row := state.value;
      var i := 0;
      while i < |row.entries|
        invariant 0 <= i <= |row.entries|
        invariant Scan(row.entries, row.terminated, event) == Scan(row.entries[i..], row.terminated, event)
      {
        if row.entries[i].events & event != 0 {
          return Some(row.entries[i]);
        }
        assert row.entries[i..][1..] == row.entries[i + 1..];
        i := i + 1;
      }
      return None;
    }

    // ---------- The interpreter ----------

    /** SendMessage: the network decides. */
    method SendMessage(m: Message) returns (ok: bool)
      requires Valid()
      modifies this
      ensures Valid() && all == old(all) && ok == env.net(|old(wire)|)
      ensures Now() == old(Now()).(wire := old(wire) + [m])
    {
      ok := env.net(sends);
      wire := wire + [m];
      sends := sends + 1;
    }

    /** The transactions of old states are still there; the others are new objects. */
    twostate predicate OnlyNew()
      reads this
    {
      old(all) <= all && forall k | |old(all)| <= k < |all| :: fresh(all[k])
    }

    method RunFsm(t: Transaction, event: Event)
      requires Valid() && Owns(t) && TransactionSpec.RunFsm(env, Now(), t.id, event).Ok?
      modifies this, all
      ensures Valid() && OnlyNew() && Ok(Now()) == TransactionSpec.RunFsm(env, old(Now()), t.id, event)
      decreases Rank(event), 3, 0
    {
      TableEntry(t.ttype, t.state, Locate(t.ttype, t.state, event).entry);
      var entry := LocateEventEntry(t, event);
      HandleEvent(t, event, entry.value);
      RemoveTerminatedTransaction(t);
    }

    method HandleEvent(t: Transaction, event: Event, entry: Entry)
      requires Valid() && Owns(t) && Level(entry.actions) <= Rank(event)
      requires TransactionSpec.InvokeActions(env, Flat.Enter(Now(), t.id, event, entry.next), t.id, entry.actions).Ok?
      modifies this, all
      ensures Valid() && OnlyNew()
      ensures Ok(Now()) == TransactionSpec.InvokeActions(env, Flat.Enter(old(Now()), t.id, event, entry.next), t.id, entry.actions)
      decreases Rank(event), 2, 1
    {
      EnterState(t, event, entry.next);
      InvokeActions(t, entry.actions);
    }

    method InvokeActions(t: Transaction, acts: seq<Action>)
      requires Valid() && Owns(t) && TransactionSpec.InvokeActions(env, Now(), t.id, acts).Ok?
      modifies this, all
      ensures Valid() && OnlyNew() && Ok(Now()) == TransactionSpec.InvokeActions(env, old(Now()), t.id, acts)
      decreases Level(acts), 2, 0
    {
      var j := 0;
      while j < |acts|
        invariant 0 <= j <= |acts|
        invariant Valid() && OnlyNew() && Owns(t)
        invariant TransactionSpec.InvokeActions(env, Now(), t.id, acts[j..])
               == TransactionSpec.InvokeActions(env, old(Now()), t.id, acts)
      {
        assert acts[j..][0] == acts[j] && acts[j..][1..] == acts[j + 1..] && acts[j] in acts;
        var status := Act(t, acts[j]);
        if status < 0 {
          return;
        }
        j := j + 1;
      }
    }

    method SendAckRequest(t: Transaction) returns (status: int)
      requires Valid() && Owns(t) && TransactionSpec.Act(env, Now(), t.id, Action.SendAckRequest).Ok?
      modifies this, all
      ensures Valid() && OnlyNew() && Ok((Now(), status)) == TransactionSpec.Act(env, old(Now()), t.id, Action.SendAckRequest)
      decreases 1, 1, 0
    {
      var latest := t.GetLatestResponse();
      var ack := BuildAck(t.request, (match latest case Some(r) => Some(r.toTag) case None => None), env.tag(sends));
      RecordResponse(t, ack);
      status := SendTransactionMessage(t, ack);
    }

    method ResponseWith100Trying(t: Transaction)
      requires Valid() && Owns(t) && TransactionSpec.Act(env, Now(), t.id, Action.ResponseWith100Trying).Ok?
      modifies this, all
      ensures Valid() && OnlyNew()
      ensures Ok((Now(), 0)) == TransactionSpec.Act(env, old(Now()), t.id, Action.ResponseWith100Trying)
      decreases 1, 1, 0
    {
      var trying := BuildResponse(t.request, 100, env.tag(sends));
      var _ := ResponseWith(t, trying, SEND_TRYING);
    }

    method InformTU(t: Transaction)
      requires Valid() && Owns(t) && TransactionSpec.Act(env, Now(), t.id, Action.InformTU).Ok?
      modifies this, all
      ensures Valid() && OnlyNew() && Ok((Now(), 0)) == TransactionSpec.Act(env, old(Now()), t.id, Action.InformTU)
      decreases 2, 1, 0
    {
      if t.user.Some? {
        var latest := t.GetLatestResponse();
        OnTransactionEvent(TuCall(Some(t.id), t.user, t.curEvent, latest), t.user, t.curEvent, latest);
      }
    }

    method LocalAct(t: Transaction, a: Action)
      requires Valid() && Owns(t) && ActionLevel(a) == 0
      modifies t
      ensures Valid() && Now() == Flat.SetTx(old(Now()), t.id, LocalAction(a, old(Now()).txs[t.id]))
    {
      match a
      case IncRetransmit => IncRetransmits(t);
      case ResetRetransmits => ClearRetransmits(t);
      case ClientInviteAddRetransmitTimer =>
        var interval := t.CalculateRetransmitInterval();
        AddTimer(t, Retransmit, interval);
      case ClientNonInviteAddRetransmitTimer => AddNonInviteRetransmitTimer(t);
      case AddTimeoutTimer => AddTimer(t, Timeout, 64 * T1);
      case AddWaitForResponseTimer => AddTimer(t, WaitForResponse, T4);
      case AddServerNonInviteWaitRequestRetransmitTimer => AddTimer(t, WaitRequestRetransmits, 64 * T1);
    }

    /** The function pointers of a table entry. */
    method Act(t: Transaction, a: Action) returns (status: int)
      requires Valid() && Owns(t) && TransactionSpec.Act(env, Now(), t.id, a).Ok?
      modifies this, all
      ensures Valid() && OnlyNew() && Ok((Now(), status)) == TransactionSpec.Act(env, old(Now()), t.id, a)
      decreases ActionLevel(a), 1, 1
    {
      status := 0;
      match a
      case SendRequestMessage => status := SendTransactionMessage(t, t.request);
      case ResendLatestResponse =>
        var latest := t.GetLatestResponse();
        status := SendTransactionMessage(t, latest.value);
      case SendAckRequest => status := SendAckRequest(t);
      case ResponseWith100Trying => ResponseWith100Trying(t);
      case InformTU => InformTU(t);
      case _ => LocalAct(t, a);
    }

    method SendTransactionMessage(t: Transaction, m: Message) returns (status: int)
      requires Valid() && Owns(t) && TransactionSpec.SendTransactionMessage(env, Now(), t.id, m).Ok?
      modifies this, all
      ensures Valid() && OnlyNew() && Ok((Now(), status)) == TransactionSpec.SendTransactionMessage(env, old(Now()), t.id, m)
      decreases 1, 0, 0
    {
      var ok := SendMessage(m);
      if !ok {
        RunFsm(t, TRANSPORT_ERROR);
        return -1;
      }
      return 0;
    }

    method ResponseWith(t: Transaction, m: Message, event: Event) returns (status: int)
      requires Valid() && Owns(t) && TransactionSpec.ResponseWith(env, Now(), t.id, m, event).Ok?
      modifies this, all
      ensures Valid() && OnlyNew() && Ok((Now(), status)) == TransactionSpec.ResponseWith(env, old(Now()), t.id, m, event)
      decreases 1 + Rank(event), 0, 1
    {
      RecordResponse(t, m);
      status := SendTransactionMessage(t, m);
      if status < 0 {
        return -1;
      }
      RunFsm(t, event);
      return 0;
    }

    /** The callback: the transaction user does what the environment says it does. */
    method OnTransactionEvent(ghost call: TuCall, dialog: Option<nat>, event: Event, m: Option<Message>)
      requires call.dialog == dialog && call.event == event && call.message == m
      requires Valid() && TransactionSpec.OnTransactionEvent(env, Now(), call).Ok?
      modifies this, all
      ensures Valid() && OnlyNew() && Ok(Now()) == TransactionSpec.OnTransactionEvent(env, old(Now()), call)
      decreases 2, 0, 2
    {
      var acts := env.tu(calls);
      tuCalls := tuCalls + [call];
      calls := calls + 1;
      TuDoes(acts);
    }

    method TuDoes(acts: seq<TuAct>)
      requires Valid() && TuActs(env, Now(), acts).Ok?
      modifies this, all
      ensures Valid() && OnlyNew() && Ok(Now()) == TuActs(env, old(Now()), acts)
      decreases 2, 0, 1
    {
      var j := 0;
      while j < |acts|
        invariant 0 <= j <= |acts|
        invariant Valid() && OnlyNew()
        invariant TuActs(env, Now(), acts[j..]) == TuActs(env, old(Now()), acts)
      {
        assert acts[j..] == [acts[j]] + acts[j + 1..];
        TuDoesOne(acts[j], acts[j + 1..]);
        j := j + 1;
      }
    }

    /** One thing the user does, `rest` being what it does after it. */
    method TuDoesOne(act: TuAct, ghost rest: seq<TuAct>)
      requires Valid() && TuActs(env, Now(), [act] + rest).Ok?
      modifies this, all
      ensures Valid() && OnlyNew() && TuActs(env, Now(), rest) == TuActs(env, old(Now()), [act] + rest)
      decreases 2, 0, 0
    {
      assert ([act] + rest)[1..] == rest;
      match act
      case StartTransaction(request, user, tt) =>
        var _ := AddTransaction(request, user, tt);
      case Serve(request, user, invite, replies) =>
        ServeNow(request, user, Served(invite), replies);
      case SendDirectly(message) =>
        var _ := SendMessage(message);
    }

    /** DialogNewTransaction with the answers that follow it. */
    method ServeNow(request: Message, user: Option<nat>, tt: TransactionType, replies: seq<Reply>)
      requires Valid() && ServeRequest(env, Now(), request, user, tt, replies).Ok?
      modifies this, all
      ensures Valid() && OnlyNew() && Ok(Now()) == ServeRequest(env, old(Now()), request, user, tt, replies)
      decreases 1, 6, 0
    {
      var t := AddTransaction(request, user, tt);
      if t != null {
        AnswerNow(t, replies);
      }
    }

    method AnswerNow(t: Transaction, replies: seq<Reply>)
      requires Valid() && Owns(t) && AnswerAll(env, Now(), t.id, replies).Ok?
      modifies this, all
      ensures Valid() && OnlyNew() && Ok(Now()) == AnswerAll(env, old(Now()), t.id, replies)
      decreases 1, 5, 0
    {
      var j := 0;
      while j < |replies|
        invariant 0 <= j <= |replies| && Valid() && OnlyNew() && Owns(t)
        invariant AnswerAll(env, Now(), t.id, replies[j..]) == AnswerAll(env, old(Now()), t.id, replies)
      {
        assert replies[j..][0] == replies[j] && replies[j..][1..] == replies[j + 1..];
        var _ := ResponseWith(t, replies[j].message, replies[j].event);
        j := j + 1;
      }
    }

    /** CreateTransaction and _AddTransaction. */
    method AppendNew(request: Message, user: Option<nat>, tt: TransactionType) returns (t: Transaction)
      requires Valid()
      modifies this
      ensures Valid() && OnlyNew() && Owns(t) && t.id == |old(all)| && fresh(t)
      ensures Now() == Append(old(Now()), request, user, tt)
    {
      t := new Transaction(|all|, request, user, tt);
      Enlist(t);
    }

    /** _AddTransaction. */
    method Enlist(t: Transaction)
      requires Valid() && t.id == |all|
      modifies this
      ensures Valid() && all == old(all) + [t]
      ensures Now() == old(Now()).(txs := old(Now()).txs + [t.Snapshot()], list := old(Now()).list + [t.id])
    {
      ghost var txs, ids := Snapshots(all), Ids(transactions);
      transactions := transactions + [t];
      all := all + [t];
      assert Snapshots(all) == txs + [t.Snapshot()] by { SnapshotsAppend(old(all), t); }
      assert Ids(transactions) == ids + [t.id] by { IdsAppend(old(transactions), t); }
    }

    /** AddTransactionImpl. */
    method AddTransaction(request: Message, user: Option<nat>, tt: TransactionType) returns (t: Transaction?)
      requires Valid() && TransactionSpec.AddTransaction(env, Now(), request, user, tt).Ok?
      modifies this, all
      ensures Valid() && OnlyNew() && Ok(Now()) == TransactionSpec.AddTransaction(env, old(Now()), request, user, tt)
      ensures (t == null <==> Refused(request, tt)) && (t != null ==> Owns(t) && t.id == |old(all)|)
      decreases 1, 4, 0
    {
      if tt == ServerNonInvite && request.Request? && (request.verb == INVITE || request.verb == ACK) {
        return null;
      }
      t := AppendNew(request, user, tt);
      RunFsm(t, EVENT_INIT);
    }

    // ---------- Top-level calls ----------

    /** TmHandleReponseMessage. */
    method HandleResponseMessage(m: Message) returns (matched: bool)
      requires m.Response? && Valid() && ReceiveResponse(env, Now(), m).Ok?
      modifies this, all
      ensures Valid() && OnlyNew() && Ok(Now()) == ReceiveResponse(env, old(Now()), m)
      ensures matched <==> MatchResponse(old(Now()), m).Some?
    {
      var t := FindTransaction(m.branch, m.cseqMethod);
      if t != null {
        RecordResponse(t, m);
        RunFsm(t, MapStatusCodeToEvent(m.code));
        return true;
      }
      return false;
    }

    /** TmHandleRequestMessage, with TmNewTransaction and TmRequestInTransaction. */
    method HandleRequestMessage(m: Message) returns (handled: bool)
      requires m.Request? && Valid() && ReceiveRequest(env, Now(), m).Ok?
      modifies this, all
      ensures Valid() && OnlyNew() && Ok(Now()) == ReceiveRequest(env, old(Now()), m)
      ensures handled <==> MatchRequest(old(Now()), m).Some? || m.verb != REGISTER
    {
      var t := FindTransaction(m.branch, if m.verb == CANCEL then INVITE else m.verb);
      if t == null {
        if m.verb != REGISTER {
          OnTransactionEvent(TuCall(None, None, EVENT_NEW, Some(m)), None, EVENT_NEW, Some(m));
          return true;
        }
        return false;
      }
      if m.verb == INVITE {
        RunFsm(t, EVENT_INVITE);
      } else if m.verb == CANCEL {
        HandleCancel(t, m);
      }
      return true;
    }

    /** The three parts of handling a CANCEL. */
    static lemma CancelParts(env: Env, w: World, m: Message, i: nat)
      requires i < |w.txs| && ReceiveCancel(env, w, i, m).Ok?
      ensures var told := TransactionSpec.OnTransactionEvent(env, w, Steps.CancelCall(w, i, m));
        && told.Ok? && i < |told.value.txs|
        && var answered := TransactionSpec.ResponseWith(env, told.value, i, BuildResponse(m, 487, env.tag(|w.wire|)), SEND_REQUEST_TERMINATED);
        && answered.Ok?
        && ReceiveCancel(env, w, i, m) == TransactionSpec.OnTransactionEvent(env, answered.value.0, Steps.NewCall(m))
    {
    }

    method HandleCancel(t: Transaction, m: Message)
      requires Valid() && Owns(t) && ReceiveCancel(env, Now(), t.id, m).Ok?
      modifies this, all
      ensures Valid() && OnlyNew() && Ok(Now()) == ReceiveCancel(env, old(Now()), t.id, m)
    {
      CancelParts(env, Now(), m, t.id);
      var terminated := BuildResponse(m, 487, env.tag(sends));
      OnTransactionEvent(TuCall(None, t.user, EVENT_CANCEL, Some(m)), t.user, EVENT_CANCEL, Some(m));
      var _ := ResponseWith(t, terminated, SEND_REQUEST_TERMINATED);
      OnTransactionEvent(Steps.NewCall(m), None, EVENT_NEW, Some(m));
    }

    /** SipMessageInput: from a world that satisfies the invariant, an accepted message is handled and keeps it. */
    method SipMessageInput(m: Message) returns (handled: bool)
      requires Valid() && Safety.Inv(Now(), {}) && Steps.Accepts(env, Now(), Receive(m))
      modifies this, all
      ensures Valid() && OnlyNew() && Safety.Inv(Now(), {})
      ensures Ok(Now()) == DoStep(env, old(Now()), Receive(m))
      ensures handled <==>
        if m.Response? then MatchResponse(old(Now()), m).Some? else MatchRequest(old(Now()), m).Some? || m.verb != REGISTER
    {
      Steps.StepTheorem(env, Now(), Receive(m));
      if m.Response? {
        handled := HandleResponseMessage(m);
      } else {
        handled := HandleRequestMessage(m);
      }
    }

    /** The timer callbacks. */
    method TimerFired(t: Transaction, kind: TimerKind)
      requires Valid() && Owns(t) && Safety.Inv(Now(), {})
      requires Enabled(Now(), Fire(t.id, kind)) && Steps.Accepts(env, Now(), Fire(t.id, kind))
      modifies this, all
      ensures Valid() && OnlyNew() && Safety.Inv(Now(), {})
      ensures Ok(Now()) == DoStep(env, old(Now()), Fire(t.id, kind))
    {
      Steps.StepTheorem(env, Now(), Fire(t.id, kind));
      Expired(t, kind);
      RunFsm(t, TimerEvent(kind));
    }

    ghost method Expired(t: Transaction, kind: TimerKind)
      requires Valid() && Owns(t)
      modifies t
      ensures Valid() && Now() == Expire(old(Now()), t.id, kind)
    {
      t.pending := t.pending - multiset{kind};
      Wrote(t);
    }
  }
}
