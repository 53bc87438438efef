/**
What requests, answers, acknowledgements, timers and starts do, in states, messages and milliseconds.
*/
module TransactionRequests {
  import opened Common
  import opened TransactionTables
  import opened TransactionSpec
  import opened TransactionFlat
  import opened TransactionEffect
  import opened TransactionSafety
  import opened TransactionSteps
  import opened TransactionDelivery
  import opened TransactionSchedule
  import opened TransactionResponses

  // ---------- Matching ----------

  /** The method by which a message is matched. */
  function MatchMethod(m: Message): Method {
    if m.Response? then m.cseqMethod else if m.verb == CANCEL then INVITE else m.verb
  }

  /** Theorem: a message changes only a listed transaction whose request has its branch and method. */
  lemma OnlyOwnTransaction(env: Env, w: World, m: Message, k: nat)
    requires Inv(w, {}) && DoStep(env, w, Receive(m)).Ok? && k < |w.txs|
    ensures var w' := DoStep(env, w, Receive(m)).value;
      k < |w'.txs| && (w'.txs[k] != w.txs[k] ==>
        k in w.list && w.txs[k].request.branch == m.branch && w.txs[k].request.cseqMethod == MatchMethod(m))
  {
    StepTheorem(env, w, Receive(m));
    MatchIsFirst(w, m);
  }

  /** No listed transaction has the branch and the method of the message. */
  ghost predicate Unmatched(w: World, m: Message) {
    forall k: nat | k in w.list && k < |w.txs| ::
      w.txs[k].request.branch != m.branch || w.txs[k].request.cseqMethod != MatchMethod(m)
  }

  lemma UnmatchedIsNone(w: World, m: Message)
    requires Unmatched(w, m)
    ensures m.Response? ==> MatchResponse(w, m) == None
    ensures m.Request? ==> MatchRequest(w, m) == None
  {
    MatchIsFirst(w, m);
  }

  /**
  Theorem: a message without a transaction is told to nobody in particular, as NEW, if it is a request but not a REGISTER;
  otherwise nothing happens at all. An ACK of a failure has its INVITE's branch but not its method.
  */
  lemma MessageWithoutTransaction(env: Env, w: World, m: Message)
    requires Inv(w, {}) && Unmatched(w, m)
    ensures var r := DoStep(env, w, Receive(m));
      if m.Response? || m.verb == REGISTER then r == Ok(w)
      else r.Ok? ==> |w.txs| <= |r.value.txs| && r.value.txs[..|w.txs|] == w.txs
                     && r.value.tuCalls == w.tuCalls + [TuCall(None, None, 0x20, Some(m))]
  {
    UnmatchedIsNone(w, m);
    if m.Request? && m.verb != REGISTER {
      CallGrows(env, w, NewCall(m));
    }
  }

  // ---------- Requests of a transaction ----------

  /** The world after a message on the wire that could not be sent: its transaction is gone. */
  function LostWith(w: World, i: nat, tx: Tx, m: Message): World
    requires i < |w.txs|
  {
    Gone(w.(wire := w.wire + [m]), i, tx.(curEvent := 0x20_0000, state := TERMINATED))
  }

  /** The world after a message on the wire. */
  function SentWith(w: World, i: nat, tx: Tx, m: Message): World
    requires i < |w.txs|
  {
    SetTx(w.(wire := w.wire + [m]), i, tx)
  }

  /** Resending the latest response, as the only action of an entry that stays in its state. */
  lemma Resends(env: Env, w: World, i: nat, event: Event)
    requires Listed(w) && i < |w.txs| && i in w.list && w.txs[i].responses != [] && w.txs[i].state != TERMINATED
    requires LeadsTo(Locate(w.txs[i].ttype, w.txs[i].state, event), w.txs[i].state, [ResendLatestResponse])
    ensures var tx, last := w.txs[i].(curEvent := event), w.txs[i].responses[|w.txs[i].responses| - 1];
      RunFsm(env, w, i, event) == Ok(if env.net(|w.wire|) then SentWith(w, i, tx, last) else LostWith(w, i, tx, last))
  {
    var tx, e := w.txs[i].(curEvent := event), Locate(w.txs[i].ttype, w.txs[i].state, event).entry;
    NobodyCalled(env, Enter(w, i, event, e.next), i, e.actions);
    RunIsFlat(env, w, i, event);
    if env.net(|w.wire|) {
      assert [ResendLatestResponse][1..] == [];
    } else {
      FailedRun(env, w, i, event, e, 0);
      assert e.actions[..0] == [];
      assert tx.responses + [] == tx.responses;
    }
  }

  lemma InviteEntries(tt: TransactionType, s: State)
    requires s != INIT
    ensures var l := Locate(tt, s, EVENT_INVITE);
      if tt == ServerInvite && (s == PROCEEDING || s == COMPLETED) then LeadsTo(l, s, [ResendLatestResponse]) else !l.Found?
  {
    if tt == ServerInvite && (s == PROCEEDING || s == COMPLETED) {
      EntryAt(tt, s, EVENT_INVITE, if s == PROCEEDING then 2 else 0);
    } else {
      EntryNone(tt, s, EVENT_INVITE);
    }
  }

  /**
  Theorem: an INVITE that reaches a server INVITE transaction in PROCEEDING or COMPLETED makes it resend its last response;
  every other transaction aborts on it. Any other request but CANCEL changes nothing.
  */
  lemma DuplicateRequest(env: Env, w: World, m: Message, i: nat)
    requires Inv(w, {}) && m.Request? && MatchRequest(w, m) == Some(i) && m.verb != CANCEL
    ensures var r, tx := DoStep(env, w, Receive(m)), w.txs[i];
      if m.verb != INVITE then r == Ok(w)
      else if tx.ttype == ServerInvite && (tx.state == PROCEEDING || tx.state == COMPLETED) then
        && tx.responses != []
        && var last := tx.responses[|tx.responses| - 1];
           r == Ok(if env.net(|w.wire|) then SentWith(w, i, tx.(curEvent := 0x100), last) else LostWith(w, i, tx, last))
      else !r.Ok?
  {
    var tx := w.txs[i];
    assert Settled(w, i);
    if m.verb == INVITE {
      InviteEntries(tx.ttype, tx.state);
      if Handles(tx.ttype, tx.state, EVENT_INVITE) {
        Resends(env, w, i, EVENT_INVITE);
      }
    }
  }

  // ---------- Events that no entry takes ----------

  /** The two states whose rows have no terminator. */
  predicate Unterminated(tt: TransactionType, s: State) {
    (tt == ServerInvite && s == CONFIRMED) || (tt == ServerNonInvite && s == COMPLETED)
  }

  lemma RowsEnd(tt: TransactionType, s: State)
    requires RowOf(tt, s).Some?
    ensures RowOf(tt, s).value.terminated <==> !Unterminated(tt, s)
  {
  }

  /** Theorem: an event that its state does not handle reads past the row in these two states, and aborts in all others. */
  lemma UnhandledEvent(env: Env, w: World, i: nat, event: Event)
    requires i < |w.txs| && !Handles(w.txs[i].ttype, w.txs[i].state, event)
    ensures RunFsm(env, w, i, event) == if Unterminated(w.txs[i].ttype, w.txs[i].state) then ReadOverrun else AssertFailed
  {
    var tt, s := w.txs[i].ttype, w.txs[i].state;
    FsmRowIs(tt, s);
    if RowOf(tt, s).Some? {
      RowsEnd(tt, s);
      NoneFound(RowOf(tt, s).value.entries, RowOf(tt, s).value.terminated, event);
    } else {
      assert !Unterminated(tt, s);
    }
  }

  lemma NoneFound(entries: seq<Entry>, terminated: bool, event: Event)
    requires !Scan(entries, terminated, event).Found?
    ensures Scan(entries, terminated, event) == if terminated then NotFound else Overrun
  {
    ScanFinds(entries, terminated, event);
    ScanNone(entries, terminated, event);
  }

  // ---------- Answers ----------

  lemma InviteAnswerEntries(s: State, event: Event)
    requires s != INIT && IsAnswer(event)
    ensures var l := Locate(ServerInvite, s, event);
      if s != PROCEEDING then !l.Found?
      else if event == SEND_TRYING || event == SEND_RINGING then LeadsTo(l, PROCEEDING, [])
      else if event == SEND_MOVED then LeadsTo(l, COMPLETED, [ClientNonInviteAddRetransmitTimer, AddTimeoutTimer])
      else LeadsTo(l, TERMINATED, [])
  {
    if s == PROCEEDING {
      EntryAt(ServerInvite, s, event,
        if event == SEND_TRYING then 0 else if event == SEND_RINGING then 1
        else if event == SEND_REQUEST_TERMINATED then 4 else if event == SEND_OK then 5 else 6);
    } else {
      EntryNone(ServerInvite, s, event);
    }
  }

  lemma OtherAnswerEntries(s: State, event: Event)
    requires s != INIT && IsAnswer(event)
    ensures var l := Locate(ServerNonInvite, s, event);
      if s != TRYING && s != PROCEEDING then !l.Found?
      else if event == SEND_RINGING then LeadsTo(l, PROCEEDING, [])
      else if event == SEND_OK then LeadsTo(l, COMPLETED, [AddServerNonInviteWaitRequestRetransmitTimer])
      else !l.Found?
  {
    if (s == TRYING || s == PROCEEDING) && (event == SEND_RINGING || event == SEND_OK) {
      EntryAt(ServerNonInvite, s, event, if event == SEND_RINGING then 0 else if s == TRYING then 1 else 2);
    } else {
      EntryNone(ServerNonInvite, s, event);
    }
  }

  /** An entry with two local changes. */
  lemma TwoStep(env: Env, w: World, i: nat, event: Event, next: State, a: Action, b: Action)
    requires i < |w.txs| && next != TERMINATED && ActionLevel(a) == ActionLevel(b) == 0
    requires LeadsTo(Locate(w.txs[i].ttype, w.txs[i].state, event), next, [a, b])
    ensures RunFsm(env, w, i, event)
         == Ok(SetTx(w, i, LocalAction(b, LocalAction(a, w.txs[i].(curEvent := event, state := next)))))
  {
    LocalStep(env, w, i, event, Locate(w.txs[i].ttype, w.txs[i].state, event).entry);
    FewLocals(w.txs[i].(curEvent := event, state := next), a, b);
  }

  /** An answer that has been recorded and put on the wire is one event of its transaction. */
  lemma AnswerStep(env: Env, w: World, i: nat, m: Message, event: Event)
    requires i in w.list && i < |w.txs|
    ensures DoStep(env, w, Answer(i, m, event))
         == RunFsm(env, Answered(w, i, m), i, if env.net(|w.wire|) then event else TRANSPORT_ERROR)
  {
    var r := ResponseWith(env, w, i, m, event);
    var next := RunFsm(env, Answered(w, i, m), i, if env.net(|w.wire|) then event else TRANSPORT_ERROR);
    ResponseWithUnfolds(env, w, i, m, event);
    assert r.AssertFailed? <==> next.AssertFailed?;
    assert r.AssertFailed? ==> DoStep(env, w, Answer(i, m, event)).AssertFailed?;
    assert r.ReadOverrun? ==> DoStep(env, w, Answer(i, m, event)).ReadOverrun?;
  }

  lemma SetAnswered(w: World, i: nat, m: Message, tx: Tx)
    requires i < |w.txs|
    ensures SetTx(Answered(w, i, m), i, tx) == SentWith(w, i, tx, m)
    ensures Gone(Answered(w, i, m), i, tx) == Gone(w.(wire := w.wire + [m]), i, tx)
  {
  }

  /** What an answer that has been sent does to a server transaction, by type, state and event. */
  predicate TakesAnswer(w: World, r: Outcome<World>, i: nat, m: Message, event: Event)
    requires i < |w.txs|
  {
    var tx := w.txs[i].(responses := w.txs[i].responses + [m], curEvent := event);
    match (tx.ttype, tx.state)
    case (ServerInvite, PROCEEDING) =>
      if event == 0x1 || event == 0x2 then r == Ok(SentWith(w, i, tx, m))
      else if event == 0x8 then
        r == Ok(SentWith(w, i, Arm(Arm(tx.(state := COMPLETED), Retransmit, 500), Timeout, 32000), m))
      else r == Ok(Gone(w.(wire := w.wire + [m]), i, tx.(state := TERMINATED)))
    case (ServerNonInvite, TRYING) => TakesOtherAnswer(w, r, i, tx, m, event)
    case (ServerNonInvite, PROCEEDING) => TakesOtherAnswer(w, r, i, tx, m, event)
    case _ => !r.Ok?
  }

  predicate TakesOtherAnswer(w: World, r: Outcome<World>, i: nat, tx: Tx, m: Message, event: Event)
    requires i < |w.txs|
  {
    if event == 0x1 then r == Ok(SentWith(w, i, tx.(state := PROCEEDING), m))
    else if event == 0x4 then r == Ok(SentWith(w, i, Arm(tx.(state := COMPLETED), WaitRequestRetransmits, 32000), m))
    else !r.Ok?
  }

  lemma MovedActions(tx: Tx)
    requires tx.state == COMPLETED
    ensures LocalAction(AddTimeoutTimer, LocalAction(ClientNonInviteAddRetransmitTimer, tx)) == Arm(Arm(tx, Retransmit, 500), Timeout, 32000)
    ensures LocalAction(AddServerNonInviteWaitRequestRetransmitTimer, tx) == Arm(tx, WaitRequestRetransmits, 32000)
  {
  }

  lemma InviteAnswer(env: Env, w: World, i: nat, m: Message, event: Event)
    requires i < |w.txs| && i in w.list && w.txs[i].ttype == ServerInvite && w.txs[i].state != INIT && IsAnswer(event)
    ensures TakesAnswer(w, RunFsm(env, Answered(w, i, m), i, event), i, m, event)
  {
    var tx := w.txs[i].(responses := w.txs[i].responses + [m], curEvent := event);
    var w1 := Answered(w, i, m);
    InviteAnswerEntries(tx.state, event);
    if tx.state == PROCEEDING {
      if event == SEND_MOVED {
        MovedAnswer(env, w, i, m);
      } else {
        var next := if event == SEND_TRYING || event == SEND_RINGING then PROCEEDING else TERMINATED;
        BareStep(env, w1, i, event, next);
        SetAnswered(w, i, m, tx.(state := next));
      }
    }
  }

  lemma MovedAnswer(env: Env, w: World, i: nat, m: Message)
    requires i < |w.txs| && w.txs[i].ttype == ServerInvite && w.txs[i].state == PROCEEDING
    ensures var tx := w.txs[i].(responses := w.txs[i].responses + [m], curEvent := SEND_MOVED, state := COMPLETED);
      RunFsm(env, Answered(w, i, m), i, SEND_MOVED) == Ok(SentWith(w, i, Arm(Arm(tx, Retransmit, 500), Timeout, 32000), m))
  {
    var tx := w.txs[i].(responses := w.txs[i].responses + [m], curEvent := SEND_MOVED, state := COMPLETED);
    InviteAnswerEntries(PROCEEDING, SEND_MOVED);
    MovedActions(tx);
    AnswerWithTwo(env, w, i, m, SEND_MOVED, COMPLETED, ClientNonInviteAddRetransmitTimer, AddTimeoutTimer,
                  tx, Arm(Arm(tx, Retransmit, 500), Timeout, 32000));
  }

  /** An answer whose entry makes two local changes. */
  lemma AnswerWithTwo(env: Env, w: World, i: nat, m: Message, event: Event, next: State, a: Action, b: Action, tx: Tx, tx': Tx)
    requires i < |w.txs| && next != TERMINATED && ActionLevel(a) == ActionLevel(b) == 0
    requires LeadsTo(Locate(w.txs[i].ttype, w.txs[i].state, event), next, [a, b])
    requires tx == w.txs[i].(responses := w.txs[i].responses + [m], curEvent := event, state := next)
    requires tx' == LocalAction(b, LocalAction(a, tx))
    ensures RunFsm(env, Answered(w, i, m), i, event) == Ok(SentWith(w, i, tx', m))
  {
    TwoStep(env, Answered(w, i, m), i, event, next, a, b);
    SetAnswered(w, i, m, tx');
  }

  lemma OtherAnswer(env: Env, w: World, i: nat, m: Message, event: Event)
    requires i < |w.txs| && i in w.list && w.txs[i].ttype == ServerNonInvite && w.txs[i].state != INIT && IsAnswer(event)
    ensures TakesAnswer(w, RunFsm(env, Answered(w, i, m), i, event), i, m, event)
  {
    var tx := w.txs[i].(responses := w.txs[i].responses + [m], curEvent := event);
    var w1 := Answered(w, i, m);
    OtherAnswerEntries(tx.state, event);
    if tx.state == TRYING || tx.state == PROCEEDING {
      if event == SEND_OK {
        OneStep(env, w1, i, event, COMPLETED, AddServerNonInviteWaitRequestRetransmitTimer);
        MovedActions(tx.(state := COMPLETED));
        SetAnswered(w, i, m, Arm(tx.(state := COMPLETED), WaitRequestRetransmits, 32000));
      } else if event == SEND_RINGING {
        BareStep(env, w1, i, event, PROCEEDING);
        SetAnswered(w, i, m, tx.(state := PROCEEDING));
      }
    }
  }

  /**
  Theorem: an answer of a server transaction that is sent. An INVITE in PROCEEDING stays with 0x1 and 0x2 (ringing and
  trying), waits for the ACK after 0x8 (moved), and ends with 0x4 and 0x10 (OK and terminated). A non-INVITE goes to
  PROCEEDING with 0x1 and to COMPLETED with 0x4. Every other answer aborts.
  */
  lemma SentAnswers(env: Env, w: World, i: nat, m: Message, event: Event)
    requires Inv(w, {}) && i in w.list && i < |w.txs| && !IsClient(w.txs[i]) && IsAnswer(event) && env.net(|w.wire|)
    ensures TakesAnswer(w, DoStep(env, w, Answer(i, m, event)), i, m, event)
  {
    assert Settled(w, i);
    if w.txs[i].ttype == ServerInvite { InviteAnswer(env, w, i, m, event); } else { OtherAnswer(env, w, i, m, event); }
    AnswerStep(env, w, i, m, event);
  }

  /** Theorem: an answer of a server transaction that cannot be sent ends it, except in the two states that have no row for this. */
  lemma LostAnswers(env: Env, w: World, i: nat, m: Message, event: Event)
    requires Inv(w, {}) && i in w.list && i < |w.txs| && !IsClient(w.txs[i]) && !env.net(|w.wire|)
    ensures var r, tx := DoStep(env, w, Answer(i, m, event)), w.txs[i];
      if (tx.ttype == ServerNonInvite && tx.state == TRYING) || (tx.ttype == ServerInvite && tx.state == CONFIRMED) then !r.Ok?
      else r == Ok(LostWith(w, i, tx.(responses := tx.responses + [m]), m))
  {
    assert Settled(w, i);
    AnswerStep(env, w, i, m, event);
    ServerErrors(w.txs[i].ttype, w.txs[i].state);
    if Handles(w.txs[i].ttype, w.txs[i].state, TRANSPORT_ERROR) {
      LostAnswer(env, w, i, m);
    }
  }

  lemma LostAnswer(env: Env, w: World, i: nat, m: Message)
    requires Listed(w) && i in w.list && i < |w.txs| && Handles(w.txs[i].ttype, w.txs[i].state, TRANSPORT_ERROR)
    ensures RunFsm(env, Answered(w, i, m), i, TRANSPORT_ERROR)
         == Ok(LostWith(w, i, w.txs[i].(responses := w.txs[i].responses + [m]), m))
  {
    TransportErrorIsFlat(env, Answered(w, i, m), i);
    SetAnswered(w, i, m, w.txs[i].(responses := w.txs[i].responses + [m], curEvent := TRANSPORT_ERROR, state := TERMINATED));
  }

  // ---------- Acknowledgements and timers ----------

  /** An event that exactly these states handle ends its transaction. */
  lemma EndsIn(env: Env, w: World, i: nat, event: Event)
    requires i < |w.txs| && i in w.list && LeadsTo(Locate(w.txs[i].ttype, w.txs[i].state, event), TERMINATED, [])
    ensures RunFsm(env, w, i, event) == Ok(Gone(w, i, w.txs[i].(curEvent := event, state := TERMINATED)))
  {
    BareStep(env, w, i, event, TERMINATED);
  }

  lemma AckEntries(tt: TransactionType, s: State)
    requires s != INIT
    ensures var l := Locate(tt, s, EVENT_ACK);
      if tt == ServerInvite && s == COMPLETED then LeadsTo(l, CONFIRMED, [AddWaitForResponseTimer]) else !l.Found?
  {
    if tt == ServerInvite && s == COMPLETED { EntryAt(tt, s, EVENT_ACK, 4); } else { EntryNone(tt, s, EVENT_ACK); }
  }

  /** Theorem: an ACK confirms a server INVITE transaction in COMPLETED, which then waits 5 seconds; any other aborts on it. */
  lemma AckConfirms(env: Env, w: World, i: nat)
    requires Inv(w, {}) && i in w.list && i < |w.txs|
    ensures var r, tx := DoStep(env, w, AckReceived(i)), w.txs[i];
      if tx.ttype == ServerInvite && tx.state == COMPLETED
      then r == Ok(SetTx(w, i, Arm(tx.(curEvent := 0x80, state := CONFIRMED), WaitForResponse, 5000)))
      else !r.Ok?
  {
    var tx := w.txs[i];
    assert Settled(w, i);
    AckEntries(tx.ttype, tx.state);
    if Handles(tx.ttype, tx.state, EVENT_ACK) {
      WaitAction(tx.(curEvent := EVENT_ACK, state := CONFIRMED));
      OneStep(env, w, i, EVENT_ACK, CONFIRMED, AddWaitForResponseTimer);
    }
  }

  /** The states that a timeout, a wait for responses and a wait for requests end. */
  predicate EndedBy(tt: TransactionType, s: State, kind: TimerKind) {
    match kind
    case Timeout =>
      || (tt == ClientInvite && s == CALLING) || (tt == ClientNonInvite && (s == TRYING || s == PROCEEDING))
      || (tt == ServerInvite && s == COMPLETED)
    case WaitForResponse =>
      ((tt == ClientInvite || tt == ClientNonInvite) && s == COMPLETED) || (tt == ServerInvite && s == CONFIRMED)
    case WaitRequestRetransmits => tt == ServerNonInvite && s == COMPLETED
    case Retransmit => false
  }

  function EndEvent(kind: TimerKind): Event {
    match kind
    case Timeout => 0x4_0000
    case WaitForResponse => 0x8_0000
    case WaitRequestRetransmits => 0x10_0000
    case Retransmit => 0x2_0000
  }

  lemma TimeoutEntries(tt: TransactionType, s: State)
    requires s != INIT
    ensures var l := Locate(tt, s, TIMEOUT_TIMER_FIRED);
      if EndedBy(tt, s, Timeout) then LeadsTo(l, TERMINATED, []) else !l.Found?
  {
    match (tt, s)
    case (ClientInvite, CALLING) => EntryAt(tt, s, TIMEOUT_TIMER_FIRED, 3);
    case (ClientNonInvite, TRYING) => EntryAt(tt, s, TIMEOUT_TIMER_FIRED, 4);
    case (ClientNonInvite, PROCEEDING) => EntryAt(tt, s, TIMEOUT_TIMER_FIRED, 4);
    case (ServerInvite, COMPLETED) => EntryAt(tt, s, TIMEOUT_TIMER_FIRED, 2);
    case _ => NoTimeoutEntry(tt, s);
  }

  lemma NoTimeoutEntry(tt: TransactionType, s: State)
    requires s != INIT && !EndedBy(tt, s, Timeout)
    ensures !Handles(tt, s, TIMEOUT_TIMER_FIRED)
  {
    EntryNone(tt, s, TIMEOUT_TIMER_FIRED);
  }

  lemma WaitEntries(tt: TransactionType, s: State, kind: TimerKind)
    requires s != INIT && (kind == WaitForResponse || kind == WaitRequestRetransmits)
    ensures var l := Locate(tt, s, TimerEvent(kind));
      if EndedBy(tt, s, kind) then LeadsTo(l, TERMINATED, []) else !l.Found?
  {
    if EndedBy(tt, s, kind) {
      EntryAt(tt, s, TimerEvent(kind), if tt == ClientInvite then 2 else if tt == ServerNonInvite then 1 else 0);
    } else {
      NoWaitEntry(tt, s, kind);
    }
  }

  lemma NoWaitEntry(tt: TransactionType, s: State, kind: TimerKind)
    requires s != INIT && (kind == WaitForResponse || kind == WaitRequestRetransmits) && !EndedBy(tt, s, kind)
    ensures !Handles(tt, s, TimerEvent(kind))
  {
    EntryNone(tt, s, TimerEvent(kind));
  }

  /**
  Theorem: a timeout ends a client transaction that waits for a response and a server INVITE that waits for its ACK; the
  waits for retransmissions end a transaction in COMPLETED or CONFIRMED. In any other state, destroyed ones included, such
  a firing aborts.
  */
  lemma TimerEnds(env: Env, w: World, i: nat, kind: TimerKind)
    requires Inv(w, {}) && Enabled(w, Fire(i, kind)) && kind != Retransmit
    ensures var r, tx := DoStep(env, w, Fire(i, kind)), w.txs[i];
      if EndedBy(tx.ttype, tx.state, kind)
      then r == Ok(Gone(w, i, tx.(pending := tx.pending - multiset{kind}, curEvent := EndEvent(kind), state := TERMINATED)))
      else !r.Ok?
  {
    var tx := w.txs[i];
    assert Settled(w, i);
    if kind == Timeout { TimeoutEntries(tx.ttype, tx.state); } else { WaitEntries(tx.ttype, tx.state, kind); }
    if EndedBy(tx.ttype, tx.state, kind) {
      FiringEnds(env, w, i, kind);
    }
  }

  lemma FiringEnds(env: Env, w: World, i: nat, kind: TimerKind)
    requires i < |w.txs| && i in w.list && LeadsTo(Locate(w.txs[i].ttype, w.txs[i].state, TimerEvent(kind)), TERMINATED, [])
    ensures RunFsm(env, Expire(w, i, kind), i, TimerEvent(kind))
         == Ok(Gone(w, i, w.txs[i].(pending := w.txs[i].pending - multiset{kind}, curEvent := EndEvent(kind), state := TERMINATED)))
  {
    var tx := w.txs[i].(pending := w.txs[i].pending - multiset{kind}, curEvent := EndEvent(kind), state := TERMINATED);
    EndsIn(env, Expire(w, i, kind), i, TimerEvent(kind));
    assert Gone(Expire(w, i, kind), i, tx) == Gone(w, i, tx);
  }

  predicate Resending(tt: TransactionType, s: State) {
    (tt == ClientInvite && s == CALLING) || (tt == ClientNonInvite && (s == TRYING || s == PROCEEDING))
  }

  function AddOf(tt: TransactionType): Action {
    if tt == ClientInvite then ClientInviteAddRetransmitTimer else ClientNonInviteAddRetransmitTimer
  }

  lemma RetransmitEntries(tt: TransactionType, s: State)
    requires s != INIT
    ensures var l := Locate(tt, s, RETRANSMIT_TIMER_FIRED);
      if tt == ServerInvite && s == COMPLETED then LeadsTo(l, s, [ResendLatestResponse])
      else if Resending(tt, s) then LeadsTo(l, s, [SendRequestMessage, IncRetransmit, AddOf(tt)])
      else !l.Found?
  {
    match (tt, s)
    case (ServerInvite, COMPLETED) => EntryAt(tt, s, RETRANSMIT_TIMER_FIRED, 1);
    case (ClientInvite, CALLING) => EntryAt(tt, s, RETRANSMIT_TIMER_FIRED, 2);
    case (ClientNonInvite, TRYING) => EntryAt(tt, s, RETRANSMIT_TIMER_FIRED, 3);
    case (ClientNonInvite, PROCEEDING) => EntryAt(tt, s, RETRANSMIT_TIMER_FIRED, 2);
    case _ => NoRetransmitEntry(tt, s);
  }

  lemma NoRetransmitEntry(tt: TransactionType, s: State)
    requires s != INIT && !Resending(tt, s) && !(tt == ServerInvite && s == COMPLETED)
    ensures !Handles(tt, s, RETRANSMIT_TIMER_FIRED)
  {
    EntryNone(tt, s, RETRANSMIT_TIMER_FIRED);
  }

  /** The next interval of a client transaction: doubled up to 4 seconds, and always 4 seconds in PROCEEDING. */
  function NextInterval(tx: Tx, retransmits: nat): nat {
    if tx.state == PROCEEDING || 500 * Pow2(retransmits) > 4000 then 4000 else 500 * Pow2(retransmits)
  }

  /** The transaction that has resent its request. */
  function Resent(tx: Tx): Tx {
    var n := if 500 * Pow2(tx.retransmits) <= 4000 then tx.retransmits + 1 else tx.retransmits;
    Arm(tx.(curEvent := 0x2_0000, retransmits := n), Retransmit, NextInterval(tx, n))
  }

  /** What the retransmit timer does, once it has expired. */
  predicate TakesRetransmit(env: Env, w: World, r: Outcome<World>, i: nat, tx: Tx)
    requires i < |w.txs|
  {
    if tx.ttype == ServerInvite && tx.state == COMPLETED then
      && tx.responses != []
      && var last := tx.responses[|tx.responses| - 1];
         r == Ok(if env.net(|w.wire|) then SentWith(w, i, tx.(curEvent := 0x2_0000), last) else LostWith(w, i, tx, last))
    else if Resending(tx.ttype, tx.state) then
      r == Ok(if env.net(|w.wire|) then SentWith(w, i, Resent(tx), tx.request) else LostWith(w, i, tx, tx.request))
    else !r.Ok?
  }

  lemma ResentActions(tx: Tx)
    requires Resending(tx.ttype, tx.state)
    ensures LocalAction(AddOf(tx.ttype), LocalAction(IncRetransmit, tx.(curEvent := RETRANSMIT_TIMER_FIRED))) == Resent(tx)
  {
  }

  lemma ResendRequest(env: Env, w: World, i: nat)
    requires Listed(w) && i < |w.txs| && i in w.list && Resending(w.txs[i].ttype, w.txs[i].state)
    ensures var tx := w.txs[i];
      RunFsm(env, w, i, RETRANSMIT_TIMER_FIRED)
      == Ok(if env.net(|w.wire|) then SentWith(w, i, Resent(tx), tx.request) else LostWith(w, i, tx, tx.request))
  {
    var tx := w.txs[i];
    RetransmitEntries(tx.ttype, tx.state);
    var e := Locate(tx.ttype, tx.state, RETRANSMIT_TIMER_FIRED).entry;
    NobodyCalled(env, Enter(w, i, RETRANSMIT_TIMER_FIRED, e.next), i, e.actions);
    RunIsFlat(env, w, i, RETRANSMIT_TIMER_FIRED);
    if env.net(|w.wire|) { SentRequest(env, w, i, e); } else { LostRequest(env, w, i, e); }
  }

  lemma SentRequest(env: Env, w: World, i: nat, e: Entry)
    requires i < |w.txs| && Resending(w.txs[i].ttype, w.txs[i].state) && env.net(|w.wire|)
    requires e.next == w.txs[i].state && e.actions == [SendRequestMessage, IncRetransmit, AddOf(w.txs[i].ttype)]
    ensures FlatRun(env, w, i, RETRANSMIT_TIMER_FIRED, e) == SentWith(w, i, Resent(w.txs[i]), w.txs[i].request)
  {
    RetransmitFlat(env, Enter(w, i, RETRANSMIT_TIMER_FIRED, e.next), i, AddOf(w.txs[i].ttype));
    ResentActions(w.txs[i]);
  }

  lemma LostRequest(env: Env, w: World, i: nat, e: Entry)
    requires Listed(w) && i < |w.txs| && i in w.list && !env.net(|w.wire|)
    requires e.next == w.txs[i].state && e.actions == [SendRequestMessage, IncRetransmit, AddOf(w.txs[i].ttype)]
    ensures FlatRun(env, w, i, RETRANSMIT_TIMER_FIRED, e) == LostWith(w, i, w.txs[i], w.txs[i].request)
  {
    FailedRun(env, w, i, RETRANSMIT_TIMER_FIRED, e, 0);
    assert e.actions[..0] == [] && w.txs[i].responses + [] == w.txs[i].responses;
  }

  /**
  Theorem: the retransmit timer makes a waiting client transaction resend its request, count, and arm the next interval; a
  server INVITE in COMPLETED resends its last response and arms nothing. In any other state the firing aborts.
  */
  lemma RetransmitTimer(env: Env, w: World, i: nat)
    requires Inv(w, {}) && Enabled(w, Fire(i, Retransmit))
    ensures TakesRetransmit(env, w, DoStep(env, w, Fire(i, Retransmit)), i,
                            w.txs[i].(pending := w.txs[i].pending - multiset{Retransmit}))
  {
    var tx, w1 := w.txs[i], Expire(w, i, Retransmit);
    assert Settled(w, i);
    RetransmitEntries(tx.ttype, tx.state);
    if tx.ttype == ServerInvite && tx.state == COMPLETED {
      Resends(env, w1, i, RETRANSMIT_TIMER_FIRED);
      AfterExpiry(w, i, w1.txs[i].(curEvent := RETRANSMIT_TIMER_FIRED), tx.responses[|tx.responses| - 1]);
    } else if Resending(tx.ttype, tx.state) {
      ResendRequest(env, w1, i);
      AfterExpiry(w, i, Resent(w1.txs[i]), tx.request);
      AfterExpiry(w, i, w1.txs[i], tx.request);
    }
  }

  lemma AfterExpiry(w: World, i: nat, tx: Tx, m: Message)
    requires i < |w.txs|
    ensures SentWith(Expire(w, i, Retransmit), i, tx, m) == SentWith(w, i, tx, m)
    ensures LostWith(Expire(w, i, Retransmit), i, tx, m) == LostWith(w, i, tx, m)
  {
  }

  // ---------- Starts ----------

  /** A transaction that has met its first event. */
  function First(tt: TransactionType, request: Message, dialog: Option<nat>, s: State, event: Event, responses: seq<Message>): Tx {
    Tx(tt, request, dialog, s, event, 0, responses, [], multiset{})
  }

  /** The world with a new transaction at the end of the list. */
  function Begin(w: World, tx: Tx): World { w.(txs := w.txs + [tx], list := w.list + [|w.txs|]) }

  /** The world with a new transaction that has been destroyed at once. */
  function BeginLost(w: World, tx: Tx): World {
    w.(txs := w.txs + [tx.(curEvent := 0x20_0000, state := TERMINATED)], destroyed := w.destroyed + [|w.txs|])
  }

  /** The 100 response to a request, with a new To tag if it has none. */
  function Trying(request: Message, tag: string): Message {
    Response(100, request.branch, request.sentBy, request.cseqMethod, if request.toTag == "" then tag else request.toTag, request.dest)
  }

  /** The world after the start of a transaction whose first message, if it has one, is sent. */
  function AfterStart(env: Env, w: World, request: Message, dialog: Option<nat>, tt: TransactionType): World {
    var trying := Trying(request, env.tag(|w.wire|));
    match tt
    case ServerNonInvite => Begin(w, First(tt, request, dialog, TRYING, 0x40, []))
    case ServerInvite => Begin(w, First(tt, request, dialog, PROCEEDING, 0x2, [trying])).(wire := w.wire + [trying])
    case _ =>
      var tx := First(tt, request, dialog, if tt == ClientInvite then CALLING else TRYING, 0x40, []);
      Begin(w, Arm(Arm(tx, Retransmit, 500), Timeout, 32000)).(wire := w.wire + [request])
  }

  /** The world after the start of a transaction whose first message is not sent. */
  function AfterLostStart(env: Env, w: World, request: Message, dialog: Option<nat>, tt: TransactionType): World {
    var trying := Trying(request, env.tag(|w.wire|));
    if tt == ServerInvite then BeginLost(w, First(tt, request, dialog, PROCEEDING, 0x2, [trying])).(wire := w.wire + [trying])
    else BeginLost(w, First(tt, request, dialog, TRYING, 0x40, [])).(wire := w.wire + [request])
  }

  lemma LastBecomes(w: World, tx: Tx, tx': Tx)
    ensures SetTx(Begin(w, tx), |w.txs|, tx') == Begin(w, tx')
  {
  }

  lemma LostBegin(w: World, tx: Tx)
    requires Listed(w)
    ensures Kill(Begin(w, tx), |w.txs|) == BeginLost(w, tx)
  {
    RemoveLast(w.list, |w.txs|);
  }

  /**
  Theorem: starting a transaction. A client sends its request and arms 500 ms and 32 seconds; a server INVITE answers 100; a
  server non-INVITE does nothing yet, and is refused for an INVITE and an ACK. When the message is not sent, the new
  transaction is destroyed with nothing armed.
  */
  lemma Starts(env: Env, w: World, request: Message, dialog: Option<nat>, tt: TransactionType)
    requires Inv(w, {})
    ensures var r := DoStep(env, w, Add(request, dialog, tt));
      if tt == ServerNonInvite && request.Request? && request.verb in {INVITE, ACK} then r == Ok(w)
      else r == Ok(if tt == ServerNonInvite || env.net(|w.wire|) then AfterStart(env, w, request, dialog, tt)
                   else AfterLostStart(env, w, request, dialog, tt))
  {
    AddIsFlat(env, w, request, dialog, tt);
    match tt
    case ServerNonInvite => LastBecomes(w, NewTx(request, dialog, tt), First(tt, request, dialog, TRYING, 0x40, []));
    case ServerInvite => InviteServed(env, w, request, dialog);
    case _ => RequestSent(env, w, request, dialog, tt);
  }

  lemma InviteServed(env: Env, w: World, request: Message, dialog: Option<nat>)
    requires Listed(w)
    ensures FlatAdd(env, w, request, dialog, ServerInvite) ==
      if env.net(|w.wire|) then AfterStart(env, w, request, dialog, ServerInvite) else AfterLostStart(env, w, request, dialog, ServerInvite)
  {
    var n, trying := |w.txs|, Trying(request, env.tag(|w.wire|));
    var tx, w0 := First(ServerInvite, request, dialog, PROCEEDING, EVENT_INIT, [trying]), w.(wire := w.wire + [trying]);
    var w1 := AddResponse(Enter(Append(w, request, dialog, ServerInvite), n, EVENT_INIT, PROCEEDING), n, trying);
    LastBecomes(w, NewTx(request, dialog, ServerInvite), tx);
    assert NewTx(request, dialog, ServerInvite).responses + [trying] == [trying];
    assert w1.(wire := w.wire + [trying]) == Begin(w0, tx);
    LostBegin(w0, tx);
  }

  lemma RequestSent(env: Env, w: World, request: Message, dialog: Option<nat>, tt: TransactionType)
    requires Listed(w) && (tt == ClientInvite || tt == ClientNonInvite)
    ensures FlatAdd(env, w, request, dialog, tt) ==
      if env.net(|w.wire|) then AfterStart(env, w, request, dialog, tt) else AfterLostStart(env, w, request, dialog, tt)
  {
    var s, w0 := if tt == ClientInvite then CALLING else TRYING, w.(wire := w.wire + [request]);
    var tx := First(tt, request, dialog, s, EVENT_INIT, []);
    LastBecomes(w, NewTx(request, dialog, tt), tx);
    assert Enter(Append(w, request, dialog, tt), |w.txs|, EVENT_INIT, s).(wire := w.wire + [request]) == Begin(w0, tx);
    LostBegin(w0, tx);
  }

  // ---------- CANCEL ----------

  /** The answer to a CANCEL: 487, of its branch and method. */
  function Terminated487(m: Message, tag: string): Message {
    Response(487, m.branch, m.sentBy, m.cseqMethod, if m.toTag == "" then tag else m.toTag, m.dest)
  }

  /** What handling a CANCEL of transaction `i` does. */
  ghost predicate Cancels(env: Env, w: World, w': World, i: nat, m: Message)
    requires i < |w.txs|
  {
    var tx, answer := w.txs[i], Terminated487(m, env.tag(|w.wire|));
    && i < |w'.txs| && w'.txs[i].responses == tx.responses + [answer]
    && w'.txs[i].state == TERMINATED && i !in w'.list && i in w'.destroyed
    && (w'.txs[i].curEvent == 0x20_0000 || (w'.txs[i].curEvent == 0x10 && tx.ttype == ServerInvite && tx.state == PROCEEDING))
    && w'.tuCalls == w.tuCalls + [TuCall(None, tx.user, 0x200, Some(m)), TuCall(None, None, 0x20, Some(m))]
    && w.wire <= w'.wire && answer in w'.wire[|w.wire|..]
  }

  lemma CancelEntries(tt: TransactionType, s: State)
    requires s != INIT
    ensures var l := Locate(tt, s, SEND_REQUEST_TERMINATED);
      if tt == ServerInvite && s == PROCEEDING then LeadsTo(l, TERMINATED, []) else !l.Found?
  {
    if tt == ServerInvite && s == PROCEEDING {
      EntryAt(tt, s, SEND_REQUEST_TERMINATED, 4);
    } else {
      EntryNone(tt, s, SEND_REQUEST_TERMINATED);
    }
  }

  /** The answer to a CANCEL, seen from its transaction. */
  lemma CancelledTx(env: Env, n: nat, tx: Tx, m: Message)
    requires tx.state != INIT && (env.net(n) ==> HandledBy(tx, SEND_REQUEST_TERMINATED))
    ensures var r := AnswerTx(env, n, tx, m, SEND_REQUEST_TERMINATED);
      && r.responses == tx.responses + [m] && r.state == TERMINATED
      && (r.curEvent == TRANSPORT_ERROR
          || (r.curEvent == SEND_REQUEST_TERMINATED && tx.ttype == ServerInvite && tx.state == PROCEEDING))
  {
    CancelEntries(tx.ttype, tx.state);
  }

  lemma CancelWire(env: Env, w: World, m: Message, i: nat)
    requires Inv(w, {}) && m.Request? && i < |w.txs|
    requires ReplyOk(env, FlatCall(env, w, CancelCall(w, i, m)), i, SEND_REQUEST_TERMINATED)
    ensures var w2 := CancelAnswered(env, w, m, i);
      w.wire <= w2.wire && CancelMessage(env, w, m) in w2.wire[|w.wire|..]
      && w2.wire <= FlatCall(env, w2, NewCall(m)).wire
  {
    var w1 := FlatCall(env, w, CancelCall(w, i, m));
    var w2 := CancelAnswered(env, w, m, i);
    TuEffect(env, w.(tuCalls := w.tuCalls + [CancelCall(w, i, m)]), env.tu(|w.tuCalls|));
    TuEffect(env, w2.(tuCalls := w2.tuCalls + [NewCall(m)]), env.tu(|w2.tuCalls|));
    assert w2.wire == w1.wire + [CancelMessage(env, w, m)];
    assert w2.wire[|w1.wire|] == CancelMessage(env, w, m);
    assert w2.wire[|w.wire|..][|w1.wire| - |w.wire|] == w2.wire[|w1.wire|];
  }

  /** The world of a CANCEL after its answer: the transaction, and the calls so far. */
  lemma CancelAnsweredTx(env: Env, w: World, m: Message, i: nat)
    requires Inv(w, {}) && m.Request? && i < |w.txs|
    requires ReplyOk(env, FlatCall(env, w, CancelCall(w, i, m)), i, SEND_REQUEST_TERMINATED)
    ensures var w2, tx := CancelAnswered(env, w, m, i), w.txs[i];
      && Inv(w2, {}) && w2.tuCalls == w.tuCalls + [CancelCall(w, i, m)]
      && w2.txs[i].responses == tx.responses + [CancelMessage(env, w, m)] && w2.txs[i].state == TERMINATED
      && (w2.txs[i].curEvent == TRANSPORT_ERROR
          || (w2.txs[i].curEvent == SEND_REQUEST_TERMINATED && tx.ttype == ServerInvite && tx.state == PROCEEDING))
  {
    var w1 := FlatCall(env, w, CancelCall(w, i, m));
    assert Settled(w, i);
    CallGrows(env, w, CancelCall(w, i, m));
    CancelAnswer(env, w, m, i);
    CancelledTx(env, |w1.wire|, w.txs[i], CancelMessage(env, w, m));
    CancelTellsNobody(env, |w1.wire|, w.txs[i], i, CancelMessage(env, w, m));
  }

  lemma CancelTellsNobody(env: Env, n: nat, tx: Tx, i: nat, m: Message)
    requires tx.state != INIT
    ensures AnswerCalls(env, n, tx, i, m, SEND_REQUEST_TERMINATED) == []
  {
    CancelEntries(tx.ttype, tx.state);
  }

  /**
  Theorem: a CANCEL that is handled ends the transaction of its INVITE: the user is told, 487 is put on the wire with the
  CANCEL's branch and method, and then the CANCEL is told as NEW. If 487 could be sent, the transaction was a server INVITE
  in PROCEEDING; any other aborts.
  */
  lemma CancelEnds(env: Env, w: World, m: Message, i: nat)
    requires Inv(w, {}) && m.Request? && m.verb == CANCEL && MatchRequest(w, m) == Some(i) && DoStep(env, w, Receive(m)).Ok?
    ensures Cancels(env, w, DoStep(env, w, Receive(m)).value, i, m)
  {
    var w2 := CancelAnswered(env, w, m, i);
    CancelUnfolds(env, w, m, i);
    CancelAnsweredTx(env, w, m, i);
    CallGrows(env, w2, NewCall(m));
    CancelWire(env, w, m, i);
    CancelIs(env, w, w2, FlatCall(env, w2, NewCall(m)), i, m);
  }

  lemma CancelIs(env: Env, w: World, w2: World, w': World, i: nat, m: Message)
    requires i < |w.txs| <= |w2.txs| && m.Request? && Inv(w', {}) && Grows(w2, w', {}) && w'.tuCalls == w2.tuCalls + [NewCall(m)]
    requires w2.tuCalls == w.tuCalls + [CancelCall(w, i, m)]
    requires w2.txs[i].responses == w.txs[i].responses + [CancelMessage(env, w, m)] && w2.txs[i].state == TERMINATED
    requires w2.txs[i].curEvent == TRANSPORT_ERROR
      || (w2.txs[i].curEvent == SEND_REQUEST_TERMINATED && w.txs[i].ttype == ServerInvite && w.txs[i].state == PROCEEDING)
    requires w.wire <= w2.wire <= w'.wire && CancelMessage(env, w, m) in w2.wire[|w.wire|..]
    ensures Cancels(env, w, w', i, m)
  {
    assert Settled(w', i);
    assert w2.wire[|w.wire|..] <= w'.wire[|w.wire|..];
  }
}
