/**
What every response does to the transaction that it reaches, in states, status codes and milliseconds, and which responses
its user hears of.
*/
module TransactionResponses {
  import opened Common
  import opened TransactionTables
  import opened TransactionSpec
  import opened TransactionFlat
  import opened TransactionEffect
  import opened TransactionSafety
  import opened TransactionSteps
  import opened TransactionRuns
  import opened TransactionDelivery
  import Invite = TransactionInvite

  // ---------- Looking up entries ----------

  lemma EntryAt(tt: TransactionType, s: State, event: Event, a: nat)
    requires RowOf(tt, s).Some? && a < |RowOf(tt, s).value.entries|
    requires var es := RowOf(tt, s).value.entries;
      Matches(es[a], event) && forall b | 0 <= b < a :: !Matches(es[b], event)
    ensures Locate(tt, s, event) == Found(RowOf(tt, s).value.entries[a])
  {
    FsmRowIs(tt, s);
    ScanAt(RowOf(tt, s).value.entries, RowOf(tt, s).value.terminated, event, a);
  }

  lemma EntryNone(tt: TransactionType, s: State, event: Event)
    requires RowOf(tt, s).Some? ==> forall e | e in RowOf(tt, s).value.entries :: !Matches(e, event)
    ensures !Handles(tt, s, event)
  {
    FsmRowIs(tt, s);
    HandlesMeansEntry(tt, s, event);
  }

  // ---------- Running one entry ----------

  /** The entry found has this next state and these actions. */
  predicate LeadsTo(l: Lookup, next: State, acts: seq<Action>) {
    l.Found? && l.entry.next == next && l.entry.actions == acts
  }

  /** An entry without sends and callbacks: the whole world after its event. */
  lemma LocalStep(env: Env, w: World, i: nat, event: Event, e: Entry)
    requires i < |w.txs| && Locate(w.txs[i].ttype, w.txs[i].state, event) == Found(e)
    requires forall a | a in e.actions :: ActionLevel(a) == 0
    ensures RunFsm(env, w, i, event) == Ok(LocalRun(w, i, event, e))
  {
    LocalActsAreFlat(env, Enter(w, i, event, e.next), i, e.actions);
    var tx1 := w.txs[i].(curEvent := event, state := e.next);
    assert SetTx(Enter(w, i, event, e.next), i, Locals(tx1, e.actions)) == SetTx(w, i, Locals(tx1, e.actions));
  }

  lemma WaitAction(tx: Tx)
    ensures LocalAction(AddWaitForResponseTimer, tx) == Arm(tx, WaitForResponse, 5000) == Arm(tx, WaitForResponse, T4)
  {
  }

  lemma FewLocals(tx: Tx, a: Action, b: Action)
    ensures Locals(tx, []) == tx && Locals(tx, [a]) == LocalAction(a, tx)
    ensures Locals(tx, [a, b]) == LocalAction(b, LocalAction(a, tx))
  {
    assert [a][1..] == [] && [a, b][1..] == [b] && [b][1..] == [];
    assert Locals(LocalAction(a, tx), [b]) == LocalAction(b, LocalAction(a, tx));
  }

  /** The world in which transaction `i` has become `tx`, off the list and destroyed. */
  function Gone(w: World, i: nat, tx: Tx): World
    requires i < |w.txs|
  {
    w.(txs := w.txs[i := tx], list := RemoveFirst(w.list, i), destroyed := w.destroyed + [i])
  }

  /** An event whose entry only changes the state. */
  lemma BareStep(env: Env, w: World, i: nat, event: Event, next: State)
    requires i < |w.txs| && i in w.list
    requires LeadsTo(Locate(w.txs[i].ttype, w.txs[i].state, event), next, [])
    ensures RunFsm(env, w, i, event) ==
      var tx := w.txs[i].(curEvent := event, state := next);
      Ok(if next == TERMINATED then Gone(w, i, tx) else SetTx(w, i, tx))
  {
    var e := Locate(w.txs[i].ttype, w.txs[i].state, event).entry;
    LocalStep(env, w, i, event, e);
    FewLocals(w.txs[i].(curEvent := event, state := next), IncRetransmit, IncRetransmit);
  }

  /** An event whose entry makes one local change. */
  lemma OneStep(env: Env, w: World, i: nat, event: Event, next: State, a: Action)
    requires i < |w.txs| && next != TERMINATED && ActionLevel(a) == 0
    requires LeadsTo(Locate(w.txs[i].ttype, w.txs[i].state, event), next, [a])
    ensures RunFsm(env, w, i, event) == Ok(SetTx(w, i, LocalAction(a, w.txs[i].(curEvent := event, state := next))))
  {
    var e := Locate(w.txs[i].ttype, w.txs[i].state, event).entry;
    LocalStep(env, w, i, event, e);
    FewLocals(w.txs[i].(curEvent := event, state := next), a, a);
  }

  // ---------- Status codes ----------

  /** The event of a status code from 100 to 699, by its hundreds. */
  function CodeEvent(code: int): Event
    requires 100 <= code < 700
  {
    match code / 100
    case 1 => 0x800
    case 2 => 0x1000
    case 3 => 0x2000
    case 4 => 0x4000
    case 5 => 0x8000
    case _ => 0x1_0000
  }

  /**
  Theorem: the event of a status code from 100 to 699 is the bit of its hundreds, so that two codes share their event
  exactly if their hundreds agree.
  */
  lemma CodeEvents(code: int, other: int)
    requires 100 <= code < 700 && 100 <= other < 700
    ensures MapStatusCodeToEvent(code) == CodeEvent(code) == 0x800 << ((code / 100 - 1) as bv3)
    ensures MapStatusCodeToEvent(code) == MapStatusCodeToEvent(other) <==> code / 100 == other / 100
  {
  }

  lemma CodeEventIs(code: int)
    requires 100 <= code < 700
    ensures MapStatusCodeToEvent(code) == CodeEvent(code)
    ensures 300 <= code ==> IsFailure(CodeEvent(code)) && (CodeEvent(code) == EVENT_4XX <==> 400 <= code < 500)
  {
  }

  // ---------- Responses ----------

  /** The call that tells the user of transaction `i`, if it has one. */
  function Heard(tx: Tx, i: nat, event: Event, m: Message): seq<TuCall> {
    if tx.user.Some? then [TuCall(Some(i), tx.user, event, Some(m))] else []
  }

  ghost predicate Meets(w: World, m: Message, i: nat) {
    m.Response? && MatchResponse(w, m) == Some(i) && i < |w.txs|
  }

  /** The transaction with the response recorded. */
  function Met(tx: Tx, m: Message, event: Event, s: State): Tx {
    tx.(responses := tx.responses + [m], curEvent := event, state := s)
  }

  /** An entry that tells the user: what the transaction and the calls are, if the user completes its own answers. */
  lemma InformStep(env: Env, w: World, i: nat, event: Event, e: Entry)
    requires Inv(w, {}) && i < |w.txs| && Locate(w.txs[i].ttype, w.txs[i].state, event) == Found(e)
    requires e.actions == [InformTU] || e.actions == [AddWaitForResponseTimer, InformTU]
    ensures var r, tx := RunFsm(env, w, i, event), w.txs[i].(curEvent := event, state := e.next);
      var calls := if tx.user.Some? then [TuCall(Some(i), tx.user, event, LatestResponse(tx))] else [];
      && (r.Ok? <==> Runs(env, w, i, event))
      && (r.Ok? ==> Inv(r.value, {}) && i < |r.value.txs| && r.value.tuCalls == w.tuCalls + calls
                    && r.value.txs[i] == (if e.actions == [InformTU] then tx else Arm(tx, WaitForResponse, T4)))
  {
    HandledRun(env, w, i, event);
    var tx := w.txs[i].(curEvent := event, state := e.next);
    if e.actions == [InformTU] {
      assert TxActs(env, |w.wire|, tx, [InformTU]) == tx;
    } else {
      WaitThenInformTx(env, |w.wire|, tx);
    }
  }

  lemma WaitThenInformTx(env: Env, n: nat, tx: Tx)
    ensures TxActs(env, n, tx, [AddWaitForResponseTimer, InformTU]) == Arm(tx, WaitForResponse, T4)
  {
    var acts := [AddWaitForResponseTimer, InformTU];
    assert acts[1..] == [InformTU] && [InformTU][1..] == [];
    assert TxActs(env, n, tx, acts) == TxActs(env, n, Arm(tx, WaitForResponse, T4), [InformTU]);
  }

  /** A response is one event of the transaction that has recorded it. */
  lemma ResponseRuns(env: Env, w: World, m: Message, i: nat, event: Event)
    requires Inv(w, {}) && Meets(w, m, i) && event == MapStatusCodeToEvent(m.code)
    ensures DoStep(env, w, Receive(m)) == RunFsm(env, AddResponse(w, i, m), i, event)
    ensures Inv(AddResponse(w, i, m), {}) && i in w.list && w.txs[i].state != INIT
    ensures LatestResponse(AddResponse(w, i, m).txs[i]) == Some(m)
  {
    RecordKeeps(w, {}, i, m);
    assert Settled(w, i);
  }

  /** A response that only changes its transaction, by at most one local action. */
  lemma QuietResponse(env: Env, w: World, m: Message, i: nat, event: Event, next: State, acts: seq<Action>, a: Action, tx: Tx)
    requires Inv(w, {}) && Meets(w, m, i) && event == MapStatusCodeToEvent(m.code)
    requires next != TERMINATED && ActionLevel(a) == 0 && (acts == [] || acts == [a])
    requires LeadsTo(Locate(w.txs[i].ttype, w.txs[i].state, event), next, acts)
    requires var met := Met(w.txs[i], m, event, next);
      tx == if acts == [] then met else LocalAction(a, met)
    ensures DoStep(env, w, Receive(m)) == Ok(SetTx(w, i, tx))
  {
    var w1, met := AddResponse(w, i, m), Met(w.txs[i], m, event, next);
    ResponseRuns(env, w, m, i, event);
    assert w1.txs[i].(curEvent := event, state := next) == met;
    SetAfterRecord(w, i, m, tx);
    if acts == [] { BareStep(env, w1, i, event, next); } else { OneStep(env, w1, i, event, next, a); }
  }

  /** A response after which its transaction waits for others. */
  lemma WaitingResponse(env: Env, w: World, m: Message, i: nat, event: Event)
    requires Inv(w, {}) && Meets(w, m, i) && event == MapStatusCodeToEvent(m.code)
    requires LeadsTo(Locate(w.txs[i].ttype, w.txs[i].state, event), COMPLETED, [AddWaitForResponseTimer])
    ensures DoStep(env, w, Receive(m)) == Ok(SetTx(w, i, Arm(Met(w.txs[i], m, event, COMPLETED), WaitForResponse, 5000)))
  {
    WaitAction(Met(w.txs[i], m, event, COMPLETED));
    QuietResponse(env, w, m, i, event, COMPLETED, [AddWaitForResponseTimer], AddWaitForResponseTimer,
                  Arm(Met(w.txs[i], m, event, COMPLETED), WaitForResponse, 5000));
  }

  lemma SetAfterRecord(w: World, i: nat, m: Message, tx: Tx)
    requires i < |w.txs|
    ensures SetTx(AddResponse(w, i, m), i, tx) == SetTx(w, i, tx)
  {
  }

  /** A response that its transaction tells its user. */
  lemma ToldResponse(env: Env, w: World, m: Message, i: nat, event: Event, next: State, acts: seq<Action>)
    requires Inv(w, {}) && Meets(w, m, i) && event == MapStatusCodeToEvent(m.code)
    requires acts == [InformTU] || acts == [AddWaitForResponseTimer, InformTU]
    requires LeadsTo(Locate(w.txs[i].ttype, w.txs[i].state, event), next, acts)
    ensures var r, met := DoStep(env, w, Receive(m)), Met(w.txs[i], m, event, next);
      r.Ok? ==> ToldIn(w, r.value, i, if acts == [InformTU] then met else Arm(met, WaitForResponse, T4), event, m)
  {
    var w1 := AddResponse(w, i, m);
    ResponseRuns(env, w, m, i, event);
    InformStep(env, w1, i, event, Locate(w.txs[i].ttype, w.txs[i].state, event).entry);
    var r := DoStep(env, w, Receive(m));
    if r.Ok? {
      assert Settled(r.value, i);
    }
  }

  /** Transaction `i` has become `tx`, off the list and destroyed if that is terminated, and its user has been told of `m`. */
  ghost predicate ToldIn(w: World, w': World, i: nat, tx: Tx, event: Event, m: Message)
    requires i < |w.txs|
  {
    && i < |w'.txs| && w'.txs[i] == tx
    && (i in w'.list <==> tx.state != TERMINATED) && (i in w'.destroyed <==> tx.state == TERMINATED)
    && w'.tuCalls == w.tuCalls + Heard(w.txs[i], i, event, m)
  }

  lemma ProvisionalEntries(tt: TransactionType, s: State)
    requires s != INIT
    ensures Locate(tt, s, EVENT_1XX) == match (tt, s)
      case (ClientInvite, CALLING) => Found(Entry(EVENT_1XX, PROCEEDING, [ResetRetransmits]))
      case (ClientNonInvite, TRYING) => Found(Entry(EVENT_1XX, PROCEEDING, [ResetRetransmits]))
      case (ClientNonInvite, PROCEEDING) => Found(Entry(EVENT_1XX, PROCEEDING, []))
      case (ClientInvite, PROCEEDING) => Found(Entry(EVENT_1XX, PROCEEDING, [InformTU]))
      case _ => Locate(tt, s, EVENT_1XX)
    ensures Handles(tt, s, EVENT_1XX) <==>
      (tt == ClientInvite && (s == CALLING || s == PROCEEDING)) || (tt == ClientNonInvite && (s == TRYING || s == PROCEEDING))
  {
    match (tt, s)
    case (ClientInvite, CALLING) => EntryAt(tt, s, EVENT_1XX, 1);
    case (ClientNonInvite, TRYING) => EntryAt(tt, s, EVENT_1XX, 1);
    case (ClientNonInvite, PROCEEDING) => EntryAt(tt, s, EVENT_1XX, 1);
    case (ClientInvite, PROCEEDING) => EntryAt(tt, s, EVENT_1XX, 2);
    case _ => EntryNone(tt, s, EVENT_1XX);
  }

  lemma SuccessEntries(tt: TransactionType, s: State)
    requires s != INIT
    ensures Locate(tt, s, EVENT_2XX) == match (tt, s)
      case (ClientInvite, CALLING) => Found(Entry(EVENT_2XX, TERMINATED, [InformTU]))
      case (ClientInvite, PROCEEDING) => Found(Entry(EVENT_2XX, TERMINATED, [InformTU]))
      case (ClientNonInvite, TRYING) => Found(Entry(EVENT_2XX, COMPLETED, [AddWaitForResponseTimer, InformTU]))
      case (ClientNonInvite, PROCEEDING) => Found(Entry(EVENT_2XX, COMPLETED, [AddWaitForResponseTimer]))
      case _ => Locate(tt, s, EVENT_2XX)
    ensures Handles(tt, s, EVENT_2XX) <==>
      (tt == ClientInvite && (s == CALLING || s == PROCEEDING)) || (tt == ClientNonInvite && (s == TRYING || s == PROCEEDING))
  {
    match (tt, s)
    case (ClientInvite, CALLING) => EntryAt(tt, s, EVENT_2XX, 0);
    case (ClientInvite, PROCEEDING) => EntryAt(tt, s, EVENT_2XX, 1);
    case (ClientNonInvite, TRYING) => EntryAt(tt, s, EVENT_2XX, 0);
    case (ClientNonInvite, PROCEEDING) => EntryAt(tt, s, EVENT_2XX, 0);
    case _ => EntryNone(tt, s, EVENT_2XX);
  }

  /** What a 1xx does to its transaction, by type and state; the rest of the world is as it was where nobody is called. */
  ghost predicate TakesProvisional(w: World, r: Outcome<World>, i: nat, m: Message)
    requires i < |w.txs|
  {
    var tx, met := w.txs[i], Met(w.txs[i], m, 0x800, PROCEEDING);
    match (tx.ttype, tx.state)
    case (ClientInvite, CALLING) => r == Ok(SetTx(w, i, met.(retransmits := 0)))
    case (ClientNonInvite, TRYING) => r == Ok(SetTx(w, i, met.(retransmits := 0)))
    case (ClientNonInvite, PROCEEDING) => r == Ok(SetTx(w, i, met))
    case (ClientInvite, PROCEEDING) => r.Ok? ==> ToldIn(w, r.value, i, met, 0x800, m)
    case _ => !r.Ok?
  }

  /** What a 2xx does. */
  ghost predicate TakesSuccess(w: World, r: Outcome<World>, i: nat, m: Message)
    requires i < |w.txs|
  {
    var tx, done := w.txs[i], Arm(Met(w.txs[i], m, 0x1000, COMPLETED), WaitForResponse, 5000);
    match (tx.ttype, tx.state)
    case (ClientInvite, CALLING) => r.Ok? ==> ToldIn(w, r.value, i, Met(tx, m, 0x1000, TERMINATED), 0x1000, m)
    case (ClientInvite, PROCEEDING) => r.Ok? ==> ToldIn(w, r.value, i, Met(tx, m, 0x1000, TERMINATED), 0x1000, m)
    case (ClientNonInvite, TRYING) => r.Ok? ==> ToldIn(w, r.value, i, done, 0x1000, m)
    case (ClientNonInvite, PROCEEDING) => r == Ok(SetTx(w, i, done))
    case _ => !r.Ok?
  }

  /**
  Theorem: a 1xx response takes a waiting client transaction to PROCEEDING, with its retransmissions counted from 0 again,
  and is told only in PROCEEDING by an INVITE transaction. Every other transaction aborts on it.
  */
  lemma Provisional(env: Env, w: World, m: Message, i: nat)
    requires Inv(w, {}) && Meets(w, m, i) && 100 <= m.code < 200
    ensures TakesProvisional(w, DoStep(env, w, Receive(m)), i, m)
  {
    var tx, met := w.txs[i], Met(w.txs[i], m, EVENT_1XX, PROCEEDING);
    ResponseRuns(env, w, m, i, EVENT_1XX);
    ProvisionalEntries(tx.ttype, tx.state);
    match (tx.ttype, tx.state)
    case (ClientInvite, CALLING) => QuietResponse(env, w, m, i, EVENT_1XX, PROCEEDING, [ResetRetransmits], ResetRetransmits, met.(retransmits := 0));
    case (ClientNonInvite, TRYING) => QuietResponse(env, w, m, i, EVENT_1XX, PROCEEDING, [ResetRetransmits], ResetRetransmits, met.(retransmits := 0));
    case (ClientNonInvite, PROCEEDING) => QuietResponse(env, w, m, i, EVENT_1XX, PROCEEDING, [], ResetRetransmits, met);
    case (ClientInvite, PROCEEDING) => ToldResponse(env, w, m, i, EVENT_1XX, PROCEEDING, [InformTU]);
    case _ =>
  }

  /**
  Theorem: a 2xx response ends a client INVITE transaction that waits for it, and its user is told. A client non-INVITE
  transaction completes, and its user is told only in TRYING: after a 1xx it is not. Every other transaction aborts on it.
  */
  lemma Success(env: Env, w: World, m: Message, i: nat)
    requires Inv(w, {}) && Meets(w, m, i) && 200 <= m.code < 300
    ensures TakesSuccess(w, DoStep(env, w, Receive(m)), i, m)
  {
    var tx := w.txs[i];
    ResponseRuns(env, w, m, i, EVENT_2XX);
    SuccessEntries(tx.ttype, tx.state);
    match (tx.ttype, tx.state)
    case (ClientInvite, CALLING) => ToldResponse(env, w, m, i, EVENT_2XX, TERMINATED, [InformTU]);
    case (ClientInvite, PROCEEDING) => ToldResponse(env, w, m, i, EVENT_2XX, TERMINATED, [InformTU]);
    case (ClientNonInvite, TRYING) => ToldResponse(env, w, m, i, EVENT_2XX, COMPLETED, [AddWaitForResponseTimer, InformTU]);
    case (ClientNonInvite, PROCEEDING) =>
      WaitingResponse(env, w, m, i, EVENT_2XX);
    case _ =>
  }

  /** A final failure of the hundreds 3 to 6. */
  predicate IsFailure(event: Event) {
    event == EVENT_3XX || event == EVENT_4XX || event == EVENT_5XX || event == EVENT_6XX
  }

  lemma InviteFailureEntries(s: State, event: Event)
    requires s != INIT && IsFailure(event)
    ensures var l := Locate(ClientInvite, s, event);
      match s
      case CALLING => if event == EVENT_4XX then !l.Found? else LeadsTo(l, COMPLETED, [AddWaitForResponseTimer])
      case PROCEEDING => LeadsTo(l, COMPLETED, [AddWaitForResponseTimer, SendAckRequest])
      case COMPLETED => LeadsTo(l, COMPLETED, [SendAckRequest, AddWaitForResponseTimer])
      case _ => !l.Found?
  {
    match s
    case CALLING => if event == EVENT_4XX { EntryNone(ClientInvite, s, event); } else { EntryAt(ClientInvite, s, event, 5); }
    case PROCEEDING => EntryAt(ClientInvite, s, event, 0);
    case COMPLETED => EntryAt(ClientInvite, s, event, 0);
    case _ => EntryNone(ClientInvite, s, event);
  }

  lemma OtherFailureEntries(tt: TransactionType, s: State, event: Event)
    requires tt != ClientInvite && s != INIT && IsFailure(event)
    ensures var l := Locate(tt, s, event);
      if tt == ClientNonInvite && s == TRYING && event == EVENT_4XX then LeadsTo(l, COMPLETED, [AddWaitForResponseTimer, InformTU])
      else !l.Found?
  {
    if tt == ClientNonInvite && s == TRYING && event == EVENT_4XX {
      EntryAt(tt, s, event, 2);
    } else {
      NoFailureEntry(tt, s, event);
    }
  }

  lemma NoFailureEntry(tt: TransactionType, s: State, event: Event)
    requires tt != ClientInvite && IsFailure(event) && !(tt == ClientNonInvite && s == TRYING && event == EVENT_4XX)
    ensures !Handles(tt, s, event)
  {
    EntryNone(tt, s, event);
  }

  /** The ACK of a failure: of the INVITE's branch, with the To tag of the response. */
  function AckOfFailure(invite: Message, response: Message): Message {
    Request(ACK, invite.branch, invite.sentBy, ACK, response.toTag, invite.dest)
  }

  /** Recording, sending and waiting, in either order, when the ACK is sent. */
  lemma AckIsSent(env: Env, w: World, i: nat, m: Message, acts: seq<Action>)
    requires i < |w.txs| && env.net(|w.wire|) && LatestResponse(w.txs[i]) == Some(m)
    requires acts == [AddWaitForResponseTimer, SendAckRequest] || acts == [SendAckRequest, AddWaitForResponseTimer]
    ensures var tx, ack := w.txs[i], AckOfFailure(w.txs[i].request, m);
      FlatActs(env, w, i, acts)
      == SetTx(w, i, Arm(tx.(responses := tx.responses + [ack]), WaitForResponse, T4)).(wire := w.wire + [ack])
  {
    var tx, ack := w.txs[i], AckOfFailure(w.txs[i].request, m);
    assert AckFor(tx, env.tag(|w.wire|)) == ack;
    if acts[0] == SendAckRequest {
      assert acts[1..] == [AddWaitForResponseTimer] && acts[1..][1..] == [];
      assert FlatActs(env, w, i, acts) == FlatActs(env, AddResponse(w, i, ack).(wire := w.wire + [ack]), i, [AddWaitForResponseTimer]);
    } else {
      var tx1 := Arm(tx, WaitForResponse, T4);
      assert acts[1..] == [SendAckRequest] && acts[1..][1..] == [];
      assert AckFor(tx1, env.tag(|w.wire|)) == ack;
      assert FlatActs(env, w, i, acts) == FlatActs(env, SetTx(w, i, tx1), i, [SendAckRequest]);
    }
  }

  /** A response that is acknowledged. */
  lemma AckedResponse(env: Env, w: World, m: Message, i: nat, event: Event, acts: seq<Action>)
    requires Inv(w, {}) && Meets(w, m, i) && event == MapStatusCodeToEvent(m.code)
    requires acts == [AddWaitForResponseTimer, SendAckRequest] || acts == [SendAckRequest, AddWaitForResponseTimer]
    requires LeadsTo(Locate(w.txs[i].ttype, w.txs[i].state, event), COMPLETED, acts)
    ensures var ack := AckOfFailure(w.txs[i].request, m);
      var acked := Met(w.txs[i], m, event, COMPLETED).(responses := w.txs[i].responses + [m, ack]);
      var w1 := w.(wire := w.wire + [ack]);
      DoStep(env, w, Receive(m)) == Ok(
        if env.net(|w.wire|) then SetTx(w1, i, Arm(acked, WaitForResponse, T4))
        else Gone(w1, i, (if acts[0] == SendAckRequest then acked else Arm(acked, WaitForResponse, T4))
                           .(curEvent := TRANSPORT_ERROR, state := TERMINATED)))
  {
    var w1, e := AddResponse(w, i, m), Locate(w.txs[i].ttype, w.txs[i].state, event).entry;
    ResponseRuns(env, w, m, i, event);
    NobodyCalled(env, Enter(w1, i, event, COMPLETED), i, acts);
    RunIsFlat(env, w1, i, event);
    if env.net(|w.wire|) {
      SentAck(env, w, m, i, event, e);
    } else {
      UnsentAck(env, w, m, i, event, e);
    }
  }

  lemma SentAck(env: Env, w: World, m: Message, i: nat, event: Event, e: Entry)
    requires i < |w.txs| && env.net(|w.wire|) && e.next == COMPLETED
    requires e.actions == [AddWaitForResponseTimer, SendAckRequest] || e.actions == [SendAckRequest, AddWaitForResponseTimer]
    ensures var ack := AckOfFailure(w.txs[i].request, m);
      var acked := Met(w.txs[i], m, event, COMPLETED).(responses := w.txs[i].responses + [m, ack]);
      FlatRun(env, AddResponse(w, i, m), i, event, e) == SetTx(w.(wire := w.wire + [ack]), i, Arm(acked, WaitForResponse, T4))
  {
    var tx, ack := w.txs[i], AckOfFailure(w.txs[i].request, m);
    var w1 := Enter(AddResponse(w, i, m), i, event, COMPLETED);
    assert w1.txs[i] == Met(tx, m, event, COMPLETED);
    AckIsSent(env, w1, i, m, e.actions);
    assert tx.responses + [m] + [ack] == tx.responses + [m, ack];
  }

  lemma UnsentAck(env: Env, w: World, m: Message, i: nat, event: Event, e: Entry)
    requires i < |w.txs| && Listed(AddResponse(w, i, m)) && i in w.list && !env.net(|w.wire|) && e.next == COMPLETED
    requires e.actions == [AddWaitForResponseTimer, SendAckRequest] || e.actions == [SendAckRequest, AddWaitForResponseTimer]
    ensures var ack := AckOfFailure(w.txs[i].request, m);
      var acked := Met(w.txs[i], m, event, COMPLETED).(responses := w.txs[i].responses + [m, ack]);
      FlatRun(env, AddResponse(w, i, m), i, event, e) == Gone(w.(wire := w.wire + [ack]), i,
        (if e.actions[0] == SendAckRequest then acked else Arm(acked, WaitForResponse, T4))
          .(curEvent := TRANSPORT_ERROR, state := TERMINATED))
  {
    var tx, ack := w.txs[i], AckOfFailure(w.txs[i].request, m);
    var w1, p := AddResponse(w, i, m), if e.actions[0] == SendAckRequest then 0 else 1;
    FailedRun(env, w1, i, event, e, p);
    FewLocals(Met(tx, m, event, COMPLETED), AddWaitForResponseTimer, AddWaitForResponseTimer);
    assert e.actions[..p] == if p == 0 then [] else [AddWaitForResponseTimer];
    assert tx.responses + [m] + [ack] == tx.responses + [m, ack];
  }

  /** A client INVITE transaction acknowledges the failure `m` and waits; when the ACK cannot be sent, it is gone. */
  predicate Acknowledges(env: Env, w: World, r: Outcome<World>, i: nat, m: Message)
    requires i < |w.txs| && m.Response? && 100 <= m.code < 700
  {
    var tx, ack := w.txs[i], Request(ACK, w.txs[i].request.branch, w.txs[i].request.sentBy, ACK, m.toTag, w.txs[i].request.dest);
    var acked := tx.(responses := tx.responses + [m, ack], curEvent := CodeEvent(m.code), state := COMPLETED);
    var waiting := Arm(acked, WaitForResponse, 5000);
    var w1 := w.(wire := w.wire + [ack]);
    r == Ok(if env.net(|w.wire|) then SetTx(w1, i, waiting)
            else Gone(w1, i, (if tx.state == PROCEEDING then waiting else acked).(curEvent := 0x20_0000, state := TERMINATED)))
  }

  /** What a final failure does. */
  ghost predicate TakesFailure(env: Env, w: World, r: Outcome<World>, i: nat, m: Message)
    requires i < |w.txs| && m.Response? && 300 <= m.code < 700
  {
    var tx, done := w.txs[i], Arm(Met(w.txs[i], m, CodeEvent(m.code), COMPLETED), WaitForResponse, 5000);
    match (tx.ttype, tx.state)
    case (ClientInvite, CALLING) => if 400 <= m.code < 500 then !r.Ok? else r == Ok(SetTx(w, i, done))
    case (ClientInvite, PROCEEDING) => Acknowledges(env, w, r, i, m)
    case (ClientInvite, COMPLETED) => Acknowledges(env, w, r, i, m)
    case (ClientNonInvite, TRYING) =>
      if 400 <= m.code < 500 then (r.Ok? ==> ToldIn(w, r.value, i, done, 0x4000, m)) else !r.Ok?
    case _ => !r.Ok?
  }

  /**
  Theorem: a client INVITE transaction acknowledges every response from 300 to 699 in PROCEEDING and COMPLETED. In CALLING
  it completes without an ACK, and a 4xx aborts. A client non-INVITE transaction takes a 4xx in TRYING, and nothing else.
  */
  lemma Failure(env: Env, w: World, m: Message, i: nat)
    requires Inv(w, {}) && Meets(w, m, i) && 300 <= m.code < 700
    ensures TakesFailure(env, w, DoStep(env, w, Receive(m)), i, m)
  {
    var tx, event := w.txs[i], MapStatusCodeToEvent(m.code);
    CodeEventIs(m.code);
    ResponseRuns(env, w, m, i, event);
    if tx.ttype == ClientInvite { InviteFailure(env, w, m, i, event); } else { OtherFailure(env, w, m, i, event); }
  }

  lemma InviteFailure(env: Env, w: World, m: Message, i: nat, event: Event)
    requires Inv(w, {}) && Meets(w, m, i) && 300 <= m.code < 700 && event == MapStatusCodeToEvent(m.code) == CodeEvent(m.code)
    requires w.txs[i].ttype == ClientInvite && w.txs[i].state != INIT
    ensures TakesFailure(env, w, DoStep(env, w, Receive(m)), i, m)
  {
    ResponseRuns(env, w, m, i, event);
    InviteFailureEntries(w.txs[i].state, event);
    match w.txs[i].state
    case CALLING => if event != EVENT_4XX { WaitingResponse(env, w, m, i, event); }
    case PROCEEDING => AckedResponse(env, w, m, i, event, [AddWaitForResponseTimer, SendAckRequest]);
    case COMPLETED => AckedResponse(env, w, m, i, event, [SendAckRequest, AddWaitForResponseTimer]);
    case _ =>
  }

  lemma OtherFailure(env: Env, w: World, m: Message, i: nat, event: Event)
    requires Inv(w, {}) && Meets(w, m, i) && 300 <= m.code < 700 && event == MapStatusCodeToEvent(m.code) == CodeEvent(m.code)
    requires w.txs[i].ttype != ClientInvite && w.txs[i].state != INIT
    ensures TakesFailure(env, w, DoStep(env, w, Receive(m)), i, m)
  {
    ResponseRuns(env, w, m, i, event);
    OtherFailureEntries(w.txs[i].ttype, w.txs[i].state, event);
    if Handles(w.txs[i].ttype, w.txs[i].state, event) {
      ToldResponse(env, w, m, i, event, COMPLETED, [AddWaitForResponseTimer, InformTU]);
    }
  }

  /** The responses that a transaction tells its user. */
  predicate Hears(tt: TransactionType, s: State, code: int) {
    match tt
    case ClientInvite => (200 <= code < 300 && (s == CALLING || s == PROCEEDING)) || (100 <= code < 200 && s == PROCEEDING)
    case ClientNonInvite => (200 <= code < 300 || 400 <= code < 500) && s == TRYING
    case _ => false
  }

  /** The calls of a step are those that a response makes when it is told, if it is. */
  predicate CallsAsHeard(w: World, w': World, i: nat, m: Message)
    requires i < |w.txs| && m.Response? && 100 <= m.code < 700
  {
    var tx := w.txs[i];
    w'.tuCalls == w.tuCalls +
      if tx.user.Some? && Hears(tx.ttype, tx.state, m.code) then [TuCall(Some(i), tx.user, CodeEvent(m.code), Some(m))] else []
  }

  lemma ProvisionalCalls(w: World, r: Outcome<World>, i: nat, m: Message)
    requires i < |w.txs| && m.Response? && 100 <= m.code < 200 && TakesProvisional(w, r, i, m) && r.Ok?
    ensures CallsAsHeard(w, r.value, i, m)
  {
    assert w.tuCalls + [] == w.tuCalls;
  }

  lemma SuccessCalls(w: World, r: Outcome<World>, i: nat, m: Message)
    requires i < |w.txs| && m.Response? && 200 <= m.code < 300 && TakesSuccess(w, r, i, m) && r.Ok?
    ensures CallsAsHeard(w, r.value, i, m)
  {
    assert w.tuCalls + [] == w.tuCalls;
  }

  lemma FailureCalls(env: Env, w: World, r: Outcome<World>, i: nat, m: Message)
    requires i < |w.txs| && m.Response? && 300 <= m.code < 700 && TakesFailure(env, w, r, i, m) && r.Ok?
    ensures CallsAsHeard(w, r.value, i, m)
  {
    assert w.tuCalls + [] == w.tuCalls;
  }

  /**
  Theorem: a response that reaches a transaction is told to its user, with its event, exactly in the cases of `Hears`, and
  nobody is called otherwise.
  */
  lemma HeardExactly(env: Env, w: World, m: Message, i: nat)
    requires Inv(w, {}) && Meets(w, m, i) && 100 <= m.code < 700 && DoStep(env, w, Receive(m)).Ok?
    ensures CallsAsHeard(w, DoStep(env, w, Receive(m)).value, i, m)
  {
    var r := DoStep(env, w, Receive(m));
    if m.code < 200 {
      Provisional(env, w, m, i);
      ProvisionalCalls(w, r, i, m);
    } else if m.code < 300 {
      Success(env, w, m, i);
      SuccessCalls(w, r, i, m);
    } else {
      Failure(env, w, m, i);
      FailureCalls(env, w, r, i, m);
    }
  }

  // ---------- The user hears of a success exactly once ----------

  /** The status codes whose event is that of a 2xx: outside 100..699 the code itself is the event. */
  predicate SuccessCode(code: int) {
    200 <= code < 300 || (!(100 <= code < 700) && CodeBits(code) == 0x1000)
  }

  lemma SuccessEvent(code: int)
    ensures MapStatusCodeToEvent(code) == EVENT_2XX <==> SuccessCode(code)
  {
  }

  /** How many of the receipts are 2xx responses. */
  function Successes(receipts: seq<Invite.Receipt>): nat {
    if receipts == [] then 0
    else
      var r := receipts[0];
      (if r.Incoming? && r.message.Response? && SuccessCode(r.message.code) then 1 else 0) + Successes(receipts[1..])
  }

  lemma {:induction false} SuccessesConcat(a: seq<Invite.Receipt>, b: seq<Invite.Receipt>)
    ensures Successes(a + b) == Successes(a) + Successes(b)
  {
    if a == [] {
      assert a + b == b;
    } else {
      SuccessesConcat(a[1..], b);
      assert (a + b)[0] == a[0] && (a + b)[1..] == a[1..] + b;
    }
  }

  /** An event tells of a success only if it is that of a 2xx. */
  lemma OtherEventsTell(tx: Tx, i: nat, event: Event, k: nat)
    ensures event != EVENT_2XX || i != k ==> Told(CallsFor(tx, i, event), k) == 0
  {
  }

  lemma SuccessIsTold(w: World, tx: Tx, m: Message, k: nat)
    requires tx.ttype == ClientInvite && tx.user.Some? && tx.state != INIT && m.Response?
    requires HandledBy(tx, MapStatusCodeToEvent(m.code))
    ensures Told(CallsFor(tx, k, MapStatusCodeToEvent(m.code)), k) == if SuccessCode(m.code) then 1 else 0
  {
    var event := MapStatusCodeToEvent(m.code);
    SuccessEvent(m.code);
    SuccessEntries(ClientInvite, tx.state);
    OtherEventsTell(tx, k, event, k);
    if event == EVENT_2XX {
      var calls := CallsFor(tx, k, event);
      assert |calls| == 1 && Tells(calls[0], k) && calls[1..] == [];
    }
  }

  lemma CancelTellsNothing(env: Env, w: World, m: Message, i: nat, k: nat)
    requires m.Request? && m.verb == CANCEL && MatchRequest(w, m) == Some(i)
    ensures Told(StepCalls(env, w, Receive(m)), k) == 0
  {
    var n := |FlatCall(env, w, CancelCall(w, i, m)).wire|;
    var answer := BuildResponse(m, 487, env.tag(|w.wire|));
    var calls := AnswerCalls(env, n, w.txs[i], i, answer, SEND_REQUEST_TERMINATED);
    OtherEventsTell(Respond(w.txs[i], answer), i, SEND_REQUEST_TERMINATED, k);
    ToldConcat([CancelCall(w, i, m)] + calls, [NewCall(m)], k);
    ToldConcat([CancelCall(w, i, m)], calls, k);
  }

  /** A step tells of a success exactly if it brings one. */
  lemma StepHeard(env: Env, w: World, s: Step, k: nat)
    requires Enabled(w, s) && Accepts(env, w, s) && Invite.Orderly(s)
    requires k < |w.txs| && w.txs[k].state != INIT && w.txs[k].ttype == ClientInvite && w.txs[k].user.Some?
    ensures Told(StepCalls(env, w, s), k) == Successes(Invite.StepReceipts(env, w, s, k))
  {
    match s
    case Add(_, _, _) =>
    case Receive(m) =>
      if m.Response? { ResponseHeard(env, w, m, k); } else { RequestHeard(env, w, m, k); }
    case Fire(i, kind) => TimerTells(w, i, kind, k);
    case Answer(i, m, event) => AnswerTells(env, w, i, m, event, k);
    case AckReceived(i) => OtherEventsTell(w.txs[i], i, EVENT_ACK, k);
  }

  lemma TimerTells(w: World, i: nat, kind: TimerKind, k: nat)
    requires i < |w.txs|
    ensures Told(CallsFor(w.txs[i].(pending := w.txs[i].pending - multiset{kind}), i, TimerEvent(kind)), k) == 0
  {
    OtherEventsTell(w.txs[i].(pending := w.txs[i].pending - multiset{kind}), i, TimerEvent(kind), k);
  }

  lemma AnswerTells(env: Env, w: World, i: nat, m: Message, event: Event, k: nat)
    requires i < |w.txs| && IsAnswer(event)
    ensures Told(AnswerCalls(env, |w.wire|, w.txs[i], i, m, event), k) == 0
  {
    OtherEventsTell(Respond(w.txs[i], m), i, event, k);
  }

  lemma RequestHeard(env: Env, w: World, m: Message, k: nat)
    requires m.Request? && k < |w.txs|
    ensures Told(StepCalls(env, w, Receive(m)), k) == Successes(Invite.StepReceipts(env, w, Receive(m), k)) == 0
  {
    if MatchRequest(w, m).Some? {
      var i := MatchRequest(w, m).value;
      OtherEventsTell(w.txs[i], i, EVENT_INVITE, k);
      if m.verb == CANCEL { CancelTellsNothing(env, w, m, i, k); }
    }
  }

  lemma ResponseHeard(env: Env, w: World, m: Message, k: nat)
    requires m.Response? && Accepts(env, w, Receive(m))
    requires k < |w.txs| && w.txs[k].state != INIT && w.txs[k].ttype == ClientInvite && w.txs[k].user.Some?
    ensures Told(StepCalls(env, w, Receive(m)), k) == Successes(Invite.StepReceipts(env, w, Receive(m), k))
  {
    if MatchResponse(w, m).Some? {
      var i := MatchResponse(w, m).value;
      OtherEventsTell(Respond(w.txs[i], m), i, MapStatusCodeToEvent(m.code), k);
      if i == k {
        SuccessIsTold(w, Respond(w.txs[k], m), m, k);
      }
    }
  }

  /** Theorem: over every run a client INVITE transaction with a user tells it of a 2xx once for each that it meets. */
  lemma {:induction false} HeardOfSuccesses(env: Env, w: World, steps: seq<Step>, w': World, k: nat)
    requires Inv(w, {}) && k < |w.txs| && w.txs[k].ttype == ClientInvite && w.txs[k].user.Some?
    requires Reaches(env, w, steps, w') && forall s | s in steps :: Invite.Orderly(s)
    ensures Told(w'.tuCalls, k) == Told(w.tuCalls, k) + Successes(Invite.Receipts(env, w, steps, k))
    decreases |steps|
  {
    if steps != [] {
      var w1 := DoStep(env, w, steps[0]).value;
      StepTheorem(env, w, steps[0]);
      StepTxLater(env, w, steps[0], k);
      assert Settled(w, k);
      StepHeard(env, w, steps[0], k);
      ToldConcat(w.tuCalls, StepCalls(env, w, steps[0]), k);
      HeardOfSuccesses(env, w1, steps[1..], w', k);
      SuccessesConcat(Invite.StepReceipts(env, w, steps[0], k), Invite.Receipts(env, w1, steps[1..], k));
    }
  }

  lemma {:induction false} SuccessMeans(receipts: seq<Invite.Receipt>)
    ensures Successes(receipts) > 0 <==>
      exists r | r in receipts :: r.Incoming? && r.message.Response? && SuccessCode(r.message.code)
  {
    if receipts != [] {
      SuccessMeans(receipts[1..]);
      assert forall r :: r in receipts <==> r == receipts[0] || r in receipts[1..];
    }
  }

  /**
  Theorem: over every run a client INVITE transaction with a user that has not yet told it of a 2xx does so exactly once if
  it meets one, and never otherwise.
  */
  lemma HeardOnce(env: Env, w: World, steps: seq<Step>, w': World, k: nat)
    requires Inv(w, {}) && ToldOnce(w) && k < |w.txs| && w.txs[k].ttype == ClientInvite && w.txs[k].user.Some?
    requires Told(w.tuCalls, k) == 0 && Reaches(env, w, steps, w') && forall s | s in steps :: Invite.Orderly(s)
    ensures Told(w'.tuCalls, k) ==
      if exists r | r in Invite.Receipts(env, w, steps, k) :: r.Incoming? && r.message.Response? && SuccessCode(r.message.code)
      then 1 else 0
  {
    HeardOfSuccesses(env, w, steps, w', k);
    RunToldOnce(env, w, steps, w');
    SuccessMeans(Invite.Receipts(env, w, steps, k));
  }
}
