/**
The timers of client transactions: how many are outstanding in each state over every run, and when the retransmissions
of an unanswered request happen.
*/
module TransactionTimers {
  import opened Common
  import opened TransactionTables
  import opened TransactionSpec
  import opened TransactionFlat
  import opened TransactionEffect
  import opened TransactionSafety
  import opened TransactionSteps
  import opened TransactionRuns

  /** How many timers of a kind a transaction has armed so far. */
  function Arms(armed: seq<Timer>, kind: TimerKind): nat {
    if armed == [] then 0
    else (if armed[|armed| - 1].kind == kind then 1 else 0) + Arms(armed[..|armed| - 1], kind)
  }

  lemma ArmsOne(tx: Tx, k: TimerKind, ms: nat, kind: TimerKind)
    ensures Arms(Arm(tx, k, ms).armed, kind) == Arms(tx.armed, kind) + (if k == kind then 1 else 0)
  {
    var a := tx.armed + [Timer(k, ms)];
    assert a[..|a| - 1] == tx.armed;
  }

  /** One retransmit timer is outstanding, and the timeout timer, armed once, is too. */
  predicate Ticking(tx: Tx) {
    && tx.pending[Retransmit] == 1
    && tx.pending[Timeout] == 1
    && Arms(tx.armed, Timeout) == 1
  }

  /** What the timers of a client transaction are in each state. */
  predicate TimersConserved(tx: Tx) {
    match tx.ttype
    case ClientInvite => tx.state == CALLING || tx.state == PROCEEDING || tx.state == COMPLETED ==> Ticking(tx)
    case ClientNonInvite =>
      && (tx.state == TRYING || tx.state == PROCEEDING ==>
            Ticking(tx) && Arms(tx.armed, WaitForResponse) == 0 && tx.pending[WaitForResponse] == 0)
      && (tx.state == COMPLETED ==>
            Ticking(tx) && Arms(tx.armed, WaitForResponse) == 1 && tx.pending[WaitForResponse] == 1)
    case _ => true
  }

  const TIMER_EVENTS: Event :=
    RETRANSMIT_TIMER_FIRED | TIMEOUT_TIMER_FIRED | WAIT_FOR_RESPONSE_TIMER_FIRED | WAIT_REQUEST_RETRANSMITS_TIMER_FIRED

  predicate ArmsClientTimer(a: Action) {
    a == ClientInviteAddRetransmitTimer || a == ClientNonInviteAddRetransmitTimer || a == AddTimeoutTimer
  }

  // ---------- The tables ----------

  /** The entries of client rows after INIT: what a retransmission does, and what other events leave alone. */
  predicate ClientEntryTimers(tt: TransactionType, s: State, e: Entry) {
    if Matches(e, RETRANSMIT_TIMER_FIRED) then
      && e.next == s && s != COMPLETED
      && (e.actions == [SendRequestMessage, IncRetransmit, ClientNonInviteAddRetransmitTimer]
          || e.actions == [SendRequestMessage, IncRetransmit, ClientInviteAddRetransmitTimer])
    else
      forall a | a in e.actions :: !ArmsClientTimer(a)
  }

  lemma ClientEntriesTimers(tt: TransactionType, s: State, e: Entry)
    requires (tt == ClientInvite || tt == ClientNonInvite) && s != INIT && InRow(tt, s, e)
    ensures ClientEntryTimers(tt, s, e)
  {
    if tt == ClientInvite { InviteEntriesTimers(s, e); } else { NonInviteEntriesTimers(s, e); }
  }

  lemma InviteEntriesTimers(s: State, e: Entry)
    requires s != INIT && InRow(ClientInvite, s, e)
    ensures ClientEntryTimers(ClientInvite, s, e)
  {
  }

  lemma NonInviteEntriesTimers(s: State, e: Entry)
    requires s != INIT && InRow(ClientNonInvite, s, e)
    ensures ClientEntryTimers(ClientNonInvite, s, e)
  {
  }

  lemma ClientTimerEntriesEnd(tt: TransactionType, s: State, e: Entry)
    requires (tt == ClientInvite || tt == ClientNonInvite) && s != INIT && InRow(tt, s, e)
    ensures Matches(e, TIMEOUT_TIMER_FIRED) || Matches(e, WAIT_FOR_RESPONSE_TIMER_FIRED) ==> e.next == TERMINATED
    ensures !Matches(e, WAIT_REQUEST_RETRANSMITS_TIMER_FIRED)
    ensures e.events & TIMER_EVENTS == 0 || !Matches(e, !TIMER_EVENTS)
  {
  }

  /** A client non-INVITE transaction arms its wait timer on the way to COMPLETED and nowhere else. */
  lemma NonInviteWaits(s: State, e: Entry)
    requires s != INIT && InRow(ClientNonInvite, s, e)
    ensures e.next == COMPLETED ==>
              (s == TRYING || s == PROCEEDING)
              && (e.actions == [AddWaitForResponseTimer] || e.actions == [AddWaitForResponseTimer, InformTU])
    ensures e.next != COMPLETED ==> AddWaitForResponseTimer !in e.actions
    ensures e.next == PROCEEDING ==> s == TRYING || s == PROCEEDING
  {
  }

  // ---------- One event ----------

  /** Another action than those arms neither a retransmit nor a timeout timer. */
  lemma QuietAct(env: Env, n: nat, tx: Tx, a: Action)
    requires !ArmsClientTimer(a)
    ensures var r := TxAct(env, n, tx, a).0;
      && r.pending[Retransmit] == tx.pending[Retransmit] && r.pending[Timeout] == tx.pending[Timeout]
      && Arms(r.armed, Timeout) == Arms(tx.armed, Timeout)
      && (a != AddWaitForResponseTimer ==>
            Arms(r.armed, WaitForResponse) == Arms(tx.armed, WaitForResponse)
            && r.pending[WaitForResponse] == tx.pending[WaitForResponse])
  {
    if a == AddWaitForResponseTimer {
      QuietArm(tx, WaitForResponse, T4);
    } else if a == AddServerNonInviteWaitRequestRetransmitTimer {
      QuietArm(tx, WaitRequestRetransmits, 64 * T1);
    } else {
      NothingArmed(env, n, tx, a);
    }
  }

  lemma QuietArm(tx: Tx, kind: TimerKind, ms: nat)
    requires kind == WaitForResponse || kind == WaitRequestRetransmits
    ensures var r := Arm(tx, kind, ms);
      && r.pending[Retransmit] == tx.pending[Retransmit] && r.pending[Timeout] == tx.pending[Timeout]
      && Arms(r.armed, Timeout) == Arms(tx.armed, Timeout)
      && (kind == WaitRequestRetransmits ==>
            Arms(r.armed, WaitForResponse) == Arms(tx.armed, WaitForResponse)
            && r.pending[WaitForResponse] == tx.pending[WaitForResponse])
  {
    ArmsOne(tx, kind, ms, Timeout);
    ArmsOne(tx, kind, ms, WaitForResponse);
  }

  lemma NothingArmed(env: Env, n: nat, tx: Tx, a: Action)
    requires !ArmsClientTimer(a) && a != AddWaitForResponseTimer && a != AddServerNonInviteWaitRequestRetransmitTimer
    ensures TxAct(env, n, tx, a).0.armed == tx.armed && TxAct(env, n, tx, a).0.pending == tx.pending
  {
  }

  lemma {:induction false} QuietActs(env: Env, n: nat, tx: Tx, acts: seq<Action>)
    requires forall a | a in acts :: !ArmsClientTimer(a)
    ensures var r := TxActs(env, n, tx, acts);
      && r.pending[Retransmit] == tx.pending[Retransmit] && r.pending[Timeout] == tx.pending[Timeout]
      && Arms(r.armed, Timeout) == Arms(tx.armed, Timeout)
      && (AddWaitForResponseTimer !in acts ==>
            Arms(r.armed, WaitForResponse) == Arms(tx.armed, WaitForResponse)
            && r.pending[WaitForResponse] == tx.pending[WaitForResponse])
    decreases |acts|
  {
    if acts != [] {
      assert acts[0] in acts;
      QuietAct(env, n, tx, acts[0]);
      QuietActs(env, if Sends(acts[0]) then n + 1 else n, TxAct(env, n, tx, acts[0]).0, acts[1..]);
    }
  }

  /** Waiting arms exactly the wait timer. */
  lemma WaitActs(env: Env, n: nat, tx: Tx, acts: seq<Action>)
    requires acts == [AddWaitForResponseTimer] || acts == [AddWaitForResponseTimer, InformTU]
    ensures TxActs(env, n, tx, acts) == Arm(tx, WaitForResponse, T4)
  {
    var tx1 := LocalAction(AddWaitForResponseTimer, tx);
    assert TxActs(env, n, tx, acts) == TxActs(env, n, tx1, acts[1..]);
    if |acts| == 2 {
      assert acts[1..] == [InformTU];
      assert TxActs(env, n, tx1, [InformTU]) == TxActs(env, n, tx1, []);
    }
  }

  /** A retransmission: send, count, arm again; or end, when the send fails. */
  lemma RetransmitActs(env: Env, n: nat, tx: Tx, add: Action)
    requires add == ClientNonInviteAddRetransmitTimer || add == ClientInviteAddRetransmitTimer
    ensures TxActs(env, n, tx, [SendRequestMessage, IncRetransmit, add]) ==
      if env.net(n) then LocalAction(add, LocalAction(IncRetransmit, tx))
      else tx.(curEvent := TRANSPORT_ERROR, state := TERMINATED)
  {
    var acts := [SendRequestMessage, IncRetransmit, add];
    assert tx.responses + [] == tx.responses;
    if env.net(n) {
      assert acts[1..] == [IncRetransmit, add] && [IncRetransmit, add][1..] == [add];
      var tx1 := LocalAction(IncRetransmit, tx);
      assert TxActs(env, n, tx, acts) == TxActs(env, n + 1, tx, [IncRetransmit, add]);
      assert TxActs(env, n + 1, tx, [IncRetransmit, add]) == TxActs(env, n + 1, tx1, [add]);
      assert TxActs(env, n + 1, tx1, [add]) == TxActs(env, n + 1, LocalAction(add, tx1), []);
    }
  }

  lemma NotTimerEntry(e: Entry, event: Event)
    requires Matches(e, event) && event & TIMER_EVENTS == 0
    requires e.events & TIMER_EVENTS == 0 || !Matches(e, !TIMER_EVENTS)
    ensures !Matches(e, RETRANSMIT_TIMER_FIRED)
  {
  }

  /** The entry that a handled event selects in a client row. */
  lemma ClientLocated(tx: Tx, event: Event)
    requires IsClient(tx) && tx.state != INIT && HandledBy(tx, event)
    ensures var e := Locate(tx.ttype, tx.state, event).entry;
      && ClientEntryTimers(tx.ttype, tx.state, e)
      && (event & TIMER_EVENTS == 0 ==> !Matches(e, RETRANSMIT_TIMER_FIRED))
      && (event == TIMEOUT_TIMER_FIRED || event == WAIT_FOR_RESPONSE_TIMER_FIRED ==> e.next == TERMINATED)
      && event != WAIT_REQUEST_RETRANSMITS_TIMER_FIRED
      && Matches(e, event)
      && Order(tx.state) <= Order(e.next)
      && tx.state in Fsm(tx.ttype)
  {
    var e := Locate(tx.ttype, tx.state, event).entry;
    FsmRowIs(tx.ttype, tx.state);
    LocateFsmStateIs(tx.ttype, Fsm(tx.ttype), tx.state);
    EntryLeads(tx.ttype, tx.state, e);
    ClientEntriesTimers(tx.ttype, tx.state, e);
    ClientTimerEntriesEnd(tx.ttype, tx.state, e);
    if event & TIMER_EVENTS == 0 {
      NotTimerEntry(e, event);
    }
  }

  lemma NonInviteLocated(tx: Tx, event: Event)
    requires tx.ttype == ClientNonInvite && tx.state != INIT && HandledBy(tx, event)
    ensures var e := Locate(tx.ttype, tx.state, event).entry;
      && (e.next == COMPLETED ==>
            (tx.state == TRYING || tx.state == PROCEEDING)
            && (e.actions == [AddWaitForResponseTimer] || e.actions == [AddWaitForResponseTimer, InformTU]))
      && (e.next != COMPLETED ==> AddWaitForResponseTimer !in e.actions)
      && (e.next == PROCEEDING ==> tx.state == TRYING || tx.state == PROCEEDING)
  {
    FsmRowIs(tx.ttype, tx.state);
    NonInviteWaits(tx.state, Locate(tx.ttype, tx.state, event).entry);
  }

  /** The event selects the entry of the retransmit timer. */
  predicate IsRetransmission(tx: Tx, event: Event) {
    HandledBy(tx, event) && Matches(Locate(tx.ttype, tx.state, event).entry, RETRANSMIT_TIMER_FIRED)
  }

  lemma InviteEventTimers(env: Env, n: nat, tx: Tx, event: Event)
    requires tx.ttype == ClientInvite && TxOk(tx) && TimersConserved(tx) && HandledBy(tx, event)
    requires !IsRetransmission(tx, event)
    ensures TimersConserved(RunTx(env, n, tx, event))
  {
    var e := Locate(tx.ttype, tx.state, event).entry;
    var tx1 := tx.(curEvent := event, state := e.next);
    ClientLocated(tx, event);
    TxActsState(env, n, tx1, e.actions);
    QuietActs(env, n, tx1, e.actions);
  }

  /** Arming the wait timer is what COMPLETED asks for. */
  lemma Waiting(tx: Tx)
    requires tx.ttype == ClientNonInvite && Ticking(tx) && Arms(tx.armed, WaitForResponse) == 0 && tx.state == COMPLETED
    requires tx.pending[WaitForResponse] == 0
    ensures TimersConserved(Arm(tx, WaitForResponse, T4))
  {
    ArmsOne(tx, WaitForResponse, T4, WaitForResponse);
    ArmsOne(tx, WaitForResponse, T4, Timeout);
  }

  lemma NonInviteQuiet(env: Env, n: nat, tx: Tx, acts: seq<Action>)
    requires tx.ttype == ClientNonInvite && tx.state != COMPLETED && Ticking(tx)
    requires tx.state == TRYING || tx.state == PROCEEDING ==>
               Arms(tx.armed, WaitForResponse) == 0 && tx.pending[WaitForResponse] == 0
    requires AddWaitForResponseTimer !in acts && forall a | a in acts :: !ArmsClientTimer(a)
    ensures TimersConserved(TxActs(env, n, tx, acts))
  {
    TxActsState(env, n, tx, acts);
    QuietActs(env, n, tx, acts);
  }

  lemma NonInviteEventTimers(env: Env, n: nat, tx: Tx, event: Event)
    requires tx.ttype == ClientNonInvite && TxOk(tx) && TimersConserved(tx) && HandledBy(tx, event)
    requires !IsRetransmission(tx, event)
    ensures TimersConserved(RunTx(env, n, tx, event))
  {
    var e := Locate(tx.ttype, tx.state, event).entry;
    var tx1 := tx.(curEvent := event, state := e.next);
    ClientLocated(tx, event);
    NonInviteLocated(tx, event);
    if e.next == COMPLETED {
      WaitActs(env, n, tx1, e.actions);
      Waiting(tx1);
    } else {
      NonInviteQuiet(env, n, tx1, e.actions);
    }
  }

  lemma OtherEventKeepsTimers(env: Env, n: nat, tx: Tx, event: Event)
    requires IsClient(tx) && TxOk(tx) && TimersConserved(tx) && HandledBy(tx, event) && !IsRetransmission(tx, event)
    ensures TimersConserved(RunTx(env, n, tx, event))
  {
    if tx.ttype == ClientInvite {
      InviteEventTimers(env, n, tx, event);
    } else {
      NonInviteEventTimers(env, n, tx, event);
    }
  }

  /** An event that has no timer bit keeps the timers of a client transaction as its new state wants them. */
  lemma EventKeepsTimers(env: Env, n: nat, tx: Tx, event: Event)
    requires IsClient(tx) && TxOk(tx) && TimersConserved(tx) && event & TIMER_EVENTS == 0 && HandledBy(tx, event)
    ensures TimersConserved(RunTx(env, n, tx, event))
  {
    ClientLocated(tx, event);
    OtherEventKeepsTimers(env, n, tx, event);
  }

  /** Arming again replaces the retransmit timer that fired. */
  lemma Rearmed(tx: Tx, tx1: Tx, add: Action)
    requires IsClient(tx) && TimersConserved(tx) && Ticking(tx) && tx.state != COMPLETED
    requires tx1 == tx.(pending := tx.pending - multiset{Retransmit}, curEvent := RETRANSMIT_TIMER_FIRED)
    requires add == ClientNonInviteAddRetransmitTimer || add == ClientInviteAddRetransmitTimer
    ensures TimersConserved(LocalAction(add, LocalAction(IncRetransmit, tx1)))
  {
    var tx2 := LocalAction(IncRetransmit, tx1);
    var ms := RetransmitMs(tx2, add);
    assert LocalAction(add, tx2) == Arm(tx2, Retransmit, ms);
    ArmsOne(tx2, Retransmit, ms, Timeout);
    ArmsOne(tx2, Retransmit, ms, WaitForResponse);
  }

  lemma RetransmitKeepsTimers(env: Env, n: nat, tx: Tx)
    requires IsClient(tx) && TxOk(tx) && TimersConserved(tx) && HandledBy(tx, RETRANSMIT_TIMER_FIRED)
    ensures TimersConserved(RunTx(env, n, tx.(pending := tx.pending - multiset{Retransmit}), RETRANSMIT_TIMER_FIRED))
  {
    var e := Locate(tx.ttype, tx.state, RETRANSMIT_TIMER_FIRED).entry;
    ClientLocated(tx, RETRANSMIT_TIMER_FIRED);
    var tx1 := tx.(pending := tx.pending - multiset{Retransmit}, curEvent := RETRANSMIT_TIMER_FIRED);
    var add := if e.actions[2] == ClientInviteAddRetransmitTimer then ClientInviteAddRetransmitTimer else ClientNonInviteAddRetransmitTimer;
    RetransmitActs(env, n, tx1, add);
    Rearmed(tx, tx1, add);
  }

  /**
  Theorem: an event that no timer raised keeps the timers exactly when it does not select the entry of the retransmit
  timer. A status code outside 100..699 is used as a mask and can select it.
  */
  lemma ExactlyKeepsTimers(env: Env, n: nat, tx: Tx, event: Event)
    requires IsClient(tx) && TxOk(tx) && TimersConserved(tx) && HandledBy(tx, event) && env.net(n)
    ensures TimersConserved(RunTx(env, n, tx, event)) <==> !IsRetransmission(tx, event)
  {
    if IsRetransmission(tx, event) {
      SelectedRetransmission(tx, event);
      ArmsTwice(env, n, tx.(curEvent := event), Locate(tx.ttype, tx.state, event).entry.actions[2]);
    } else {
      OtherEventKeepsTimers(env, n, tx, event);
    }
  }

  /** A retransmission that no timer asked for leaves two retransmit timers. */
  lemma ArmsTwice(env: Env, n: nat, tx: Tx, add: Action)
    requires IsClient(tx) && Ticking(tx) && env.net(n)
    requires tx.ttype == ClientInvite ==> tx.state == CALLING || tx.state == PROCEEDING
    requires tx.ttype == ClientNonInvite ==> tx.state == TRYING || tx.state == PROCEEDING
    requires add == ClientNonInviteAddRetransmitTimer || add == ClientInviteAddRetransmitTimer
    ensures !TimersConserved(TxActs(env, n, tx, [SendRequestMessage, IncRetransmit, add]))
  {
    RetransmitActs(env, n, tx, add);
    var tx2 := LocalAction(IncRetransmit, tx);
    assert LocalAction(add, tx2) == Arm(tx2, Retransmit, RetransmitMs(tx2, add));
  }

  lemma SelectedRetransmission(tx: Tx, event: Event)
    requires IsClient(tx) && TxOk(tx) && TimersConserved(tx) && IsRetransmission(tx, event)
    ensures var e := Locate(tx.ttype, tx.state, event).entry;
      && ClientEntryTimers(tx.ttype, tx.state, e) && e.next == tx.state
      && Ticking(tx)
      && (tx.ttype == ClientInvite ==> tx.state == CALLING || tx.state == PROCEEDING)
      && (tx.ttype == ClientNonInvite ==> tx.state == TRYING || tx.state == PROCEEDING)
  {
    ClientLocated(tx, event);
  }

  lemma MaskFits()
    ensures 131072 % 0x1_0000_0000 == 131072
  {
  }

  lemma MaskBit()
    ensures (131072 as bv32) == 0x2_0000
  {
  }

  lemma CodeIsMask()
    ensures CodeBits(131072) == 0x2_0000
  {
    MaskFits();
    MaskBit();
  }

  lemma TryingRetransmits()
    ensures Handles(ClientNonInvite, TRYING, RETRANSMIT_TIMER_FIRED)
  {
    var row := ClientNonInviteRow(TRYING).value.entries;
    FsmRowIs(ClientNonInvite, TRYING);
    HandlesMeansEntry(ClientNonInvite, TRYING, RETRANSMIT_TIMER_FIRED);
    assert row[3].events == RETRANSMIT_TIMER_FIRED && row[3] in row;
  }

  /** Status code 131072 is such a mask: it is taken for a retransmit timer, and a second one is armed. */
  lemma StatusCodeTakenForTimer(env: Env, n: nat, tx: Tx)
    requires tx.ttype == ClientNonInvite && tx.state == TRYING && TimersConserved(tx) && env.net(n)
    ensures !TimersConserved(RunTx(env, n, tx, MapStatusCodeToEvent(131072)))
  {
    CodeIsMask();
    assert MapStatusCodeToEvent(131072) == CodeBits(131072);
    TryingRetransmits();
    FsmRowIs(ClientNonInvite, TRYING);
    ExactlyKeepsTimers(env, n, tx, RETRANSMIT_TIMER_FIRED);
  }

  lemma FireKeepsTimers(env: Env, n: nat, tx: Tx, kind: TimerKind)
    requires IsClient(tx) && TxOk(tx) && TimersConserved(tx) && HandledBy(tx, TimerEvent(kind))
    ensures TimersConserved(RunTx(env, n, tx.(pending := tx.pending - multiset{kind}), TimerEvent(kind)))
  {
    if kind == Retransmit {
      RetransmitKeepsTimers(env, n, tx);
    } else {
      var e := Locate(tx.ttype, tx.state, TimerEvent(kind)).entry;
      ClientLocated(tx, TimerEvent(kind));
      TxActsState(env, n, tx.(pending := tx.pending - multiset{kind}, curEvent := TimerEvent(kind), state := e.next), e.actions);
    }
  }

  /** The interval with which the two retransmit actions arm. */
  function RetransmitMs(tx: Tx, add: Action): nat {
    if add == ClientInviteAddRetransmitTimer || tx.state == TRYING then RetransmitInterval(tx.retransmits)
    else if tx.state == PROCEEDING then T2 else T1
  }

  // ---------- Runs ----------

  /** Timer events come from timers only: status codes are in 100..699 and a user answers with TRANSACTION_SEND_ events. */
  predicate TimerConsistent(s: Step) {
    match s
    case Receive(m) => m.Response? ==> 100 <= m.code < 700
    case Answer(_, _, event) => IsAnswer(event)
    case _ => true
  }

  ghost predicate AllConserved(w: World) {
    forall k: nat | k < |w.txs| && IsClient(w.txs[k]) :: TimersConserved(w.txs[k])
  }

  lemma AnswerKeepsTimers(env: Env, n: nat, tx: Tx, m: Message, event: Event)
    requires IsClient(tx) && TxOk(tx) && TimersConserved(tx) && event & TIMER_EVENTS == 0
    requires env.net(n) ==> HandledBy(tx, event)
    ensures TimersConserved(AnswerTx(env, n, tx, m, event))
  {
    if env.net(n) {
      assert TxOk(Respond(tx, m)) && TimersConserved(Respond(tx, m));
      EventKeepsTimers(env, n + 1, Respond(tx, m), event);
    }
  }

  lemma CancelKeepsTimers(env: Env, w: World, m: Message, k: nat)
    requires Inv(w, {}) && m.Request? && k < |w.txs| && CancelRuns(env, w, k, m)
    requires IsClient(w.txs[k]) && TimersConserved(w.txs[k])
    ensures TimersConserved(AnswerTx(env, |FlatCall(env, w, CancelCall(w, k, m)).wire|, w.txs[k],
                                     CancelMessage(env, w, m), SEND_REQUEST_TERMINATED))
  {
    CallGrows(env, w, CancelCall(w, k, m));
    assert Settled(w, k);
    AnswerKeepsTimers(env, |FlatCall(env, w, CancelCall(w, k, m)).wire|, w.txs[k], CancelMessage(env, w, m), SEND_REQUEST_TERMINATED);
  }

  lemma StepKeepsTimers(env: Env, w: World, s: Step, k: nat)
    requires Inv(w, {}) && Enabled(w, s) && Accepts(env, w, s) && TimerConsistent(s)
    requires k < |w.txs| && IsClient(w.txs[k]) && TimersConserved(w.txs[k])
    ensures TimersConserved(StepTx(env, w, s, k))
  {
    var tx := w.txs[k];
    assert Settled(w, k);
    match s
    case Add(_, _, _) =>
    case Receive(m) =>
      if m.Response? {
        if MatchResponse(w, m) == Some(k) {
          assert TxOk(Respond(tx, m)) && TimersConserved(Respond(tx, m));
          EventKeepsTimers(env, |w.wire|, Respond(tx, m), MapStatusCodeToEvent(m.code));
        }
      } else if MatchRequest(w, m) == Some(k) {
        if m.verb == INVITE {
          EventKeepsTimers(env, |w.wire|, tx, EVENT_INVITE);
        } else if m.verb == CANCEL {
          CancelKeepsTimers(env, w, m, k);
        }
      }
    case Fire(i, kind) => if i == k { FireKeepsTimers(env, |w.wire|, tx, kind); }
    case Answer(i, m, event) => if i == k { AnswerKeepsTimers(env, |w.wire|, tx, m, event); }
    case AckReceived(i) => if i == k { EventKeepsTimers(env, |w.wire|, tx, EVENT_ACK); }
  }

  lemma ArmsOfTwo(kind: TimerKind)
    ensures Arms([Timer(Retransmit, T1), Timer(Timeout, 64 * T1)], kind)
         == (if kind == Retransmit then 1 else 0) + (if kind == Timeout then 1 else 0)
  {
    var one := [Timer(Retransmit, T1)];
    var two := [Timer(Retransmit, T1), Timer(Timeout, 64 * T1)];
    assert two[..1] == one && one[..0] == [];
    assert Arms(one, kind) == (if kind == Retransmit then 1 else 0) + Arms(one[..0], kind);
  }

  lemma StartedTimers(tx: Tx)
    requires Begun(tx) && IsClient(tx)
    ensures TimersConserved(tx)
  {
    ArmsOfTwo(Timeout);
    ArmsOfTwo(WaitForResponse);
  }

  /** Theorem: over every timer-consistent run, whatever the network does, the timers of client transactions are conserved. */
  lemma {:induction false} TimerConservation(env: Env, w: World, steps: seq<Step>, w': World)
    requires Inv(w, {}) && AllConserved(w)
    requires Reaches(env, w, steps, w') && forall s | s in steps :: TimerConsistent(s)
    ensures AllConserved(w')
    decreases |steps|
  {
    if steps != [] {
      var w1 := DoStep(env, w, steps[0]).value;
      StepTheorem(env, w, steps[0]);
      forall k: nat | k < |w1.txs| && IsClient(w1.txs[k]) ensures TimersConserved(w1.txs[k]) {
        if k < |w.txs| {
          StepTxLater(env, w, steps[0], k);
          StepKeepsTimers(env, w, steps[0], k);
        } else {
          StartedTimers(w1.txs[k]);
        }
      }
      TimerConservation(env, w1, steps[1..], w');
    }
  }

  lemma LateStatesIgnoreRetransmit(tt: TransactionType, s: State)
    requires (tt == ClientNonInvite && s == COMPLETED) || (tt == ClientInvite && (s == PROCEEDING || s == COMPLETED))
    ensures !Handles(tt, s, RETRANSMIT_TIMER_FIRED)
  {
    FsmRowIs(tt, s);
    HandlesMeansEntry(tt, s, RETRANSMIT_TIMER_FIRED);
  }

  /**
  Theorem: no timer is ever cancelled, so in every reachable world a client non-INVITE transaction in COMPLETED, or a client
  INVITE transaction in PROCEEDING or COMPLETED, has an outstanding retransmit timer whose firing reaches the abort.
  */
  lemma StaleTimerAborts(env: Env, steps: seq<Step>, w: World, k: nat)
    requires Reaches(env, EmptyWorld, steps, w) && forall s | s in steps :: TimerConsistent(s)
    requires k < |w.txs|
    requires (w.txs[k].ttype == ClientNonInvite && w.txs[k].state == COMPLETED)
          || (w.txs[k].ttype == ClientInvite && (w.txs[k].state == PROCEEDING || w.txs[k].state == COMPLETED))
    ensures Enabled(w, Fire(k, Retransmit)) && !DoStep(env, w, Fire(k, Retransmit)).Ok?
  {
    EmptyWorldInv();
    RunTheorem(env, EmptyWorld, steps, w);
    TimerConservation(env, EmptyWorld, steps, w);
    assert Settled(w, k) && TimersConserved(w.txs[k]);
    LateStatesIgnoreRetransmit(w.txs[k].ttype, w.txs[k].state);
    StepTheorem(env, w, Fire(k, Retransmit));
  }

  // ---------- The timers of destroyed transactions ----------

  /** Handling an event takes no timer away. */
  lemma {:induction false} TxActsArm(env: Env, n: nat, tx: Tx, acts: seq<Action>)
    ensures var r := TxActs(env, n, tx, acts);
      tx.armed <= r.armed && tx.pending <= r.pending
    decreases |acts|
  {
    if acts != [] {
      var (tx1, stop) := TxAct(env, n, tx, acts[0]);
      assert tx.armed <= tx1.armed && tx.pending <= tx1.pending;
      if !stop {
        TxActsArm(env, if Sends(acts[0]) then n + 1 else n, tx1, acts[1..]);
      }
    }
  }

  lemma RunTxArms(env: Env, n: nat, tx: Tx, event: Event)
    ensures var r := RunTx(env, n, tx, event);
      tx.armed <= r.armed && tx.pending <= r.pending
  {
    var l := Locate(tx.ttype, tx.state, event);
    if l.Found? {
      TxActsArm(env, n, tx.(curEvent := event, state := l.entry.next), l.entry.actions);
    }
  }

  /** A terminated transaction has outstanding timers exactly if it ever armed one. */
  predicate Leftover(tx: Tx) {
    tx.state == TERMINATED ==> (tx.armed == [] <==> tx.pending == multiset{})
  }

  ghost predicate AllLeftover(w: World) {
    forall k: nat | k < |w.txs| && IsClient(w.txs[k]) :: Leftover(w.txs[k])
  }

  lemma ClientTicks(tx: Tx)
    requires IsClient(tx) && TxOk(tx) && TimersConserved(tx) && tx.state != TERMINATED
    ensures Ticking(tx) && tx.armed != []
  {
    FsmRowIs(tx.ttype, tx.state);
  }

  lemma HasTimer(tx: Tx, r: Tx, kind: TimerKind)
    requires tx.armed != [] && tx.armed <= r.armed && kind in tx.pending && tx.pending <= r.pending
    ensures Leftover(r)
  {
    assert kind in r.pending;
  }

  /** One event of a client transaction that is not terminated, of whose two timers at most one has just fired. */
  lemma RunTxLeaves(env: Env, n: nat, tx: Tx, event: Event)
    requires tx.armed != [] && (Retransmit in tx.pending || Timeout in tx.pending)
    ensures Leftover(RunTx(env, n, tx, event))
  {
    RunTxArms(env, n, tx, event);
    HasTimer(tx, RunTx(env, n, tx, event), if Retransmit in tx.pending then Retransmit else Timeout);
  }

  lemma AnswerTxLeaves(env: Env, n: nat, tx: Tx, m: Message, event: Event)
    requires tx.armed != [] && (Retransmit in tx.pending || Timeout in tx.pending)
    ensures Leftover(AnswerTx(env, n, tx, m, event))
  {
    RunTxLeaves(env, n + 1, Respond(tx, m), event);
  }

  lemma StepLeaves(env: Env, w: World, s: Step, k: nat)
    requires Inv(w, {}) && Enabled(w, s) && Accepts(env, w, s)
    requires k < |w.txs| && IsClient(w.txs[k]) && TimersConserved(w.txs[k]) && Leftover(w.txs[k])
    ensures Leftover(StepTx(env, w, s, k))
  {
    var tx := w.txs[k];
    assert Settled(w, k);
    if tx.state == TERMINATED {
      TerminatedStays(env, w, s, k);
    } else {
      ClientTicks(tx);
      match s
      case Add(_, _, _) =>
      case Receive(m) =>
        if m.Response? {
          RunTxLeaves(env, |w.wire|, Respond(tx, m), MapStatusCodeToEvent(m.code));
        } else if m.verb == INVITE {
          RunTxLeaves(env, |w.wire|, tx, EVENT_INVITE);
        } else if m.verb == CANCEL {
          AnswerTxLeaves(env, |FlatCall(env, w, CancelCall(w, k, m)).wire|, tx, CancelMessage(env, w, m), SEND_REQUEST_TERMINATED);
        }
      case Fire(_, kind) => RunTxLeaves(env, |w.wire|, tx.(pending := tx.pending - multiset{kind}), TimerEvent(kind));
      case Answer(_, m, event) => AnswerTxLeaves(env, |w.wire|, tx, m, event);
      case AckReceived(_) => RunTxLeaves(env, |w.wire|, tx, EVENT_ACK);
    }
  }

  /** A completed step leaves a terminated transaction as it is: it is not listed, and no row handles its timers. */
  lemma TerminatedStays(env: Env, w: World, s: Step, k: nat)
    requires Inv(w, {}) && Enabled(w, s) && Accepts(env, w, s)
    requires k < |w.txs| && w.txs[k].state == TERMINATED
    ensures StepTx(env, w, s, k) == w.txs[k]
  {
    assert Settled(w, k);
    FsmRowIs(w.txs[k].ttype, TERMINATED);
  }

  lemma {:induction false} LeftoverTimers(env: Env, w: World, steps: seq<Step>, w': World)
    requires Inv(w, {}) && AllConserved(w) && AllLeftover(w)
    requires Reaches(env, w, steps, w') && forall s | s in steps :: TimerConsistent(s)
    ensures AllLeftover(w')
    decreases |steps|
  {
    if steps != [] {
      var w1 := DoStep(env, w, steps[0]).value;
      StepTheorem(env, w, steps[0]);
      assert Reaches(env, w, [steps[0]], w1);
      TimerConservation(env, w, [steps[0]], w1);
      forall k: nat | k < |w1.txs| && IsClient(w1.txs[k]) ensures Leftover(w1.txs[k]) {
        if k < |w.txs| {
          StepTxLater(env, w, steps[0], k);
          StepLeaves(env, w, steps[0], k);
        }
      }
      LeftoverTimers(env, w1, steps[1..], w');
    }
  }

  /**
  Theorem: in every world reached by a timer-consistent run, a destroyed client transaction has a timer that can still
  fire exactly if it ever armed one, and each such firing aborts, going by the state in which the transaction was freed.
  */
  lemma DestroyedTimers(env: Env, steps: seq<Step>, w: World, k: nat)
    requires Reaches(env, EmptyWorld, steps, w) && forall s | s in steps :: TimerConsistent(s)
    requires k in w.destroyed && k < |w.txs| && IsClient(w.txs[k])
    ensures (exists kind :: Enabled(w, Fire(k, kind))) <==> w.txs[k].armed != []
    ensures forall kind | Enabled(w, Fire(k, kind)) :: DoStep(env, w, Fire(k, kind)) == AssertFailed
  {
    EmptyWorldInv();
    RunTheorem(env, EmptyWorld, steps, w);
    LeftoverTimers(env, EmptyWorld, steps, w);
    assert Settled(w, k) && Leftover(w.txs[k]);
    FreedTimers(env, w, k);
  }

  lemma FreedTimers(env: Env, w: World, k: nat)
    requires k < |w.txs| && w.txs[k].state == TERMINATED && Leftover(w.txs[k])
    ensures (exists kind :: Enabled(w, Fire(k, kind))) <==> w.txs[k].armed != []
    ensures forall kind | Enabled(w, Fire(k, kind)) :: DoStep(env, w, Fire(k, kind)) == AssertFailed
  {
    if w.txs[k].armed != [] {
      var kind :| kind in w.txs[k].pending;
      assert Enabled(w, Fire(k, kind));
    }
    forall kind | Enabled(w, Fire(k, kind)) ensures DoStep(env, w, Fire(k, kind)) == AssertFailed {
      FsmRowIs(w.txs[k].ttype, TERMINATED);
    }
  }
}
