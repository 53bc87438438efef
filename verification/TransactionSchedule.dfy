/**
The retransmission schedule: the intervals that a client transaction has armed so far, in every run, and what a row of
firings puts on the wire.
*/
module TransactionSchedule {
  import opened Common
  import opened TransactionTables
  import opened TransactionSpec
  import opened TransactionFlat
  import opened TransactionEffect
  import opened TransactionSafety
  import opened TransactionSteps
  import opened TransactionRuns
  import opened TransactionTimers
  import opened TransactionDelivery

  // ---------- The retransmission schedule ----------

  /** min(T1 * 2^n, T2): the interval armed after `n` retransmissions. */
  function Interval(n: nat): nat {
    if T1 * Pow2(n) <= T2 then T1 * Pow2(n) else T2
  }

  /** The counter after `n` retransmissions. */
  function Counter(n: nat): nat {
    if n <= 4 then n else 4
  }

  lemma {:induction false} Pow2Grows(n: nat)
    ensures 4 <= n ==> 16 <= Pow2(n)
  {
    if n == 4 {
      assert Pow2(4) == 2 * Pow2(3) && Pow2(3) == 2 * Pow2(2) && Pow2(2) == 2 * Pow2(1) && Pow2(1) == 2 * Pow2(0);
    } else if n > 4 {
      Pow2Grows(n - 1);
    }
  }

  lemma CounterSteps(n: nat)
    ensures NextRetransmits(Counter(n)) == Counter(n + 1)
    ensures RetransmitInterval(Counter(n)) == Interval(n)
  {
    assert Pow2(1) == 2 && Pow2(2) == 4;
    assert Pow2(3) == 2 * Pow2(2) && Pow2(4) == 2 * Pow2(3);
    Pow2Grows(n);
    Pow2Grows(n + 1);
  }

  /** The time of the n-th firing after INIT, counting from 0 at INIT. */
  function FiringTime(n: nat): nat {
    if n == 0 then 0 else FiringTime(n - 1) + Interval(n - 1)
  }

  lemma {:induction false} FiringTimeIs(n: nat)
    ensures FiringTime(n) == if n <= 4 then T1 * (Pow2(n) - 1) else 7500 + 4000 * (n - 4)
  {
    if n > 0 {
      FiringTimeIs(n - 1);
      Pow2Grows(n - 1);
      assert Pow2(1) == 2 && Pow2(2) == 4;
      assert Pow2(3) == 2 * Pow2(2) && Pow2(4) == 2 * Pow2(3);
    }
  }

  /** Theorem: exactly ten retransmissions of an unanswered request come before its timeout. */
  lemma TenBeforeTimeout(n: nat)
    ensures FiringTime(n) < 64 * T1 <==> n <= 10
  {
    FiringTimeIs(n);
    assert Pow2(1) == 2 && Pow2(2) == 4;
    assert Pow2(3) == 2 * Pow2(2) && Pow2(4) == 2 * Pow2(3);
  }

  predicate Waits(tx: Tx) {
    || (tx.ttype == ClientNonInvite && tx.state == TRYING)
    || (tx.ttype == ClientInvite && tx.state == CALLING)
  }

  // ---------- The schedule in every run ----------

  /** The intervals of the retransmit timers that a transaction has armed, in order. */
  function Intervals(ts: seq<Timer>): seq<nat> {
    if ts == [] then [] else (if ts[0].kind == Retransmit then [ts[0].ms] else []) + Intervals(ts[1..])
  }

  lemma {:induction false} IntervalsAppend(ts: seq<Timer>, t: Timer)
    ensures Intervals(ts + [t]) == Intervals(ts) + (if t.kind == Retransmit then [t.ms] else [])
  {
    var one := if t.kind == Retransmit then [t.ms] else [];
    if ts == [] {
      assert [t][1..] == [];
      assert ts + [t] == [t];
    } else {
      assert (ts + [t])[1..] == ts[1..] + [t];
      IntervalsAppend(ts[1..], t);
      Regrouped(if ts[0].kind == Retransmit then [ts[0].ms] else [], Intervals(ts[1..]), one);
    }
  }

  /** The first `n` intervals of the schedule. */
  function Planned(n: nat): (r: seq<nat>)
    ensures |r| == n
  {
    seq(n, k requires 0 <= k => Interval(k))
  }

  /** A waiting client transaction has armed the first intervals of the schedule, one for its start and each retransmission. */
  predicate OnSchedule(tx: Tx) {
    IsClient(tx) && Waits(tx) ==>
      var n := |Intervals(tx.armed)|;
      n > 0 && Intervals(tx.armed) == Planned(n) && tx.retransmits == Counter(n - 1)
  }

  ghost predicate AllOnSchedule(w: World) {
    forall k: nat | k < |w.txs| :: OnSchedule(w.txs[k])
  }

  lemma StartedOnSchedule(tx: Tx)
    requires Begun(tx) && tx.state != INIT
    ensures OnSchedule(tx)
  {
    if IsClient(tx) && Waits(tx) {
      var rest := [Timer(Timeout, 64 * T1)];
      assert tx.armed == [Timer(Retransmit, T1)] + rest && tx.armed[1..] == rest && rest[1..] == [];
      assert Intervals(rest) == [];
      assert Intervals(tx.armed) == [T1] + Intervals(rest);
      assert Interval(0) == T1 by {
        assert Pow2(0) == 1;
      }
      assert Planned(1) == [Interval(0)];
    }
  }

  /** A waiting state that is kept is kept by the entry of the retransmit timer. */
  lemma WaitingEntries(tt: TransactionType, s: State, e: Entry)
    requires (tt == ClientNonInvite && s == TRYING) || (tt == ClientInvite && s == CALLING)
    requires InRow(tt, s, e) && e.next == s
    ensures e.actions == [SendRequestMessage, IncRetransmit,
      if tt == ClientInvite then ClientInviteAddRetransmitTimer else ClientNonInviteAddRetransmitTimer]
  {
  }

  /** A retransmission goes on with the schedule. */
  lemma NextOnSchedule(tx: Tx, add: Action)
    requires IsClient(tx) && Waits(tx) && OnSchedule(tx)
    requires add == if tx.ttype == ClientInvite then ClientInviteAddRetransmitTimer else ClientNonInviteAddRetransmitTimer
    ensures OnSchedule(LocalAction(add, LocalAction(IncRetransmit, tx)))
  {
    var n := |Intervals(tx.armed)|;
    var tx1 := LocalAction(IncRetransmit, tx);
    CounterSteps(n - 1);
    CounterSteps(n);
    assert LocalAction(add, tx1) == Arm(tx1, Retransmit, Interval(n));
    IntervalsAppend(tx.armed, Timer(Retransmit, Interval(n)));
    assert Planned(n) + [Interval(n)] == Planned(n + 1);
  }

  lemma RunTxOnSchedule(env: Env, n: nat, tx: Tx, event: Event)
    requires TxOk(tx) && OnSchedule(tx)
    ensures OnSchedule(RunTx(env, n, tx, event))
  {
    var l := Locate(tx.ttype, tx.state, event);
    if l.Found? {
      var e := l.entry;
      var tx1 := tx.(curEvent := event, state := e.next);
      TableEntry(tx.ttype, tx.state, e);
      FsmRowIs(tx.ttype, tx.state);
      TxActsState(env, n, tx1, e.actions);
      if IsClient(tx) && Waits(RunTx(env, n, tx, event)) {
        assert e.next == tx.state;
        WaitingEntries(tx.ttype, tx.state, e);
        RetransmitActs(env, n, tx1, e.actions[2]);
        NextOnSchedule(tx1, e.actions[2]);
      }
    }
  }

  lemma AnswerTxOnSchedule(env: Env, n: nat, tx: Tx, m: Message, event: Event)
    requires TxOk(tx) && OnSchedule(tx)
    ensures OnSchedule(AnswerTx(env, n, tx, m, event))
  {
    RunTxOnSchedule(env, n + 1, Respond(tx, m), event);
  }

  lemma StepOnSchedule(env: Env, w: World, s: Step, k: nat)
    requires k < |w.txs| && TxOk(w.txs[k]) && OnSchedule(w.txs[k])
    ensures OnSchedule(StepTx(env, w, s, k))
  {
    var tx := w.txs[k];
    match s
    case Add(_, _, _) =>
    case Receive(m) =>
      if m.Response? {
        RunTxOnSchedule(env, |w.wire|, Respond(tx, m), MapStatusCodeToEvent(m.code));
      } else if m.verb == INVITE {
        RunTxOnSchedule(env, |w.wire|, tx, EVENT_INVITE);
      } else if m.verb == CANCEL {
        AnswerTxOnSchedule(env, |FlatCall(env, w, CancelCall(w, k, m)).wire|, tx, CancelMessage(env, w, m), SEND_REQUEST_TERMINATED);
      }
    case Fire(_, kind) => RunTxOnSchedule(env, |w.wire|, tx.(pending := tx.pending - multiset{kind}), TimerEvent(kind));
    case Answer(_, m, event) => AnswerTxOnSchedule(env, |w.wire|, tx, m, event);
    case AckReceived(_) => RunTxOnSchedule(env, |w.wire|, tx, EVENT_ACK);
  }

  /**
  Theorem: over every run, whatever else happens in it and whichever sends fail, a client transaction that waits for an
  answer has armed, for some n, the first n intervals of the schedule min(T1 * 2^k, T2), and counts n - 1 retransmissions,
  up to 4.
  */
  lemma {:induction false} RunsOnSchedule(env: Env, w: World, steps: seq<Step>, w': World)
    requires Inv(w, {}) && AllOnSchedule(w) && Reaches(env, w, steps, w')
    ensures AllOnSchedule(w')
    decreases |steps|
  {
    if steps != [] {
      var w1 := DoStep(env, w, steps[0]).value;
      StepTheorem(env, w, steps[0]);
      forall k: nat | k < |w1.txs| ensures OnSchedule(w1.txs[k]) {
        assert Settled(w1, k);
        if k < |w.txs| {
          assert Settled(w, k);
          StepOnSchedule(env, w, steps[0], k);
        } else {
          StartedOnSchedule(w1.txs[k]);
        }
      }
      RunsOnSchedule(env, w1, steps[1..], w');
    }
  }

  // ---------- A row of firings ----------

  /** The transaction after one retransmission. */
  function Retransmitted(tx: Tx): Tx {
    var r := NextRetransmits(tx.retransmits);
    tx.(curEvent := RETRANSMIT_TIMER_FIRED, retransmits := r, armed := tx.armed + [Timer(Retransmit, RetransmitInterval(r))])
  }

  lemma WaitingEntry(tt: TransactionType, s: State)
    requires (tt == ClientNonInvite && s == TRYING) || (tt == ClientInvite && s == CALLING)
    ensures var l := Locate(tt, s, RETRANSMIT_TIMER_FIRED);
      l.Found? && l.entry.next == s && l.entry.actions == [SendRequestMessage, IncRetransmit,
        if tt == ClientInvite then ClientInviteAddRetransmitTimer else ClientNonInviteAddRetransmitTimer]
  {
    FsmRowIs(tt, s);
    HandlesMeansEntry(tt, s, RETRANSMIT_TIMER_FIRED);
    var row := RowOf(tt, s).value.entries;
    var k := if tt == ClientInvite then 2 else 3;
    assert row[k].events == RETRANSMIT_TIMER_FIRED && row[k] in row;
  }

  lemma RetransmitFlat(env: Env, w: World, i: nat, add: Action)
    requires i < |w.txs| && env.net(|w.wire|)
    requires add == ClientNonInviteAddRetransmitTimer || add == ClientInviteAddRetransmitTimer
    ensures FlatActs(env, w, i, [SendRequestMessage, IncRetransmit, add]) ==
      SetTx(w.(wire := w.wire + [w.txs[i].request]), i, LocalAction(add, LocalAction(IncRetransmit, w.txs[i])))
  {
    var acts := [SendRequestMessage, IncRetransmit, add];
    var w1 := w.(wire := w.wire + [w.txs[i].request]);
    assert acts[1..] == [IncRetransmit, add];
    assert FlatActs(env, w, i, acts) == FlatActs(env, w1, i, [IncRetransmit, add]);
    LocalsAreFlat(env, w1, i, [IncRetransmit, add], 2);
    assert [IncRetransmit, add][..2] == [IncRetransmit, add] && [IncRetransmit, add][2..] == [];
    assert [IncRetransmit, add][1..] == [add] && [add][1..] == [];
    var tx1 := LocalAction(IncRetransmit, w.txs[i]);
    assert Locals(w.txs[i], [IncRetransmit, add]) == Locals(tx1, [add]);
    assert Locals(tx1, [add]) == LocalAction(add, tx1);
  }

  /** The world after one retransmission. */
  function OneMore(w: World, i: nat): World
    requires i < |w.txs|
  {
    SetTx(w, i, Retransmitted(w.txs[i])).(wire := w.wire + [w.txs[i].request])
  }

  lemma RetransmitRunIsFlat(env: Env, w: World, i: nat, tx: Tx, e: Entry)
    requires i < |w.txs| && w.txs[i] == tx.(pending := tx.pending - multiset{Retransmit}) && env.net(|w.wire|)
    requires Waits(tx) && Retransmit in tx.pending && e.next == tx.state
    requires e.actions == [SendRequestMessage, IncRetransmit,
               if tx.ttype == ClientInvite then ClientInviteAddRetransmitTimer else ClientNonInviteAddRetransmitTimer]
    ensures FlatRun(env, w, i, RETRANSMIT_TIMER_FIRED, e) ==
            SetTx(w, i, Retransmitted(tx)).(wire := w.wire + [tx.request])
  {
    var w1 := Enter(w, i, RETRANSMIT_TIMER_FIRED, e.next);
    var add := if tx.ttype == ClientInvite then ClientInviteAddRetransmitTimer else ClientNonInviteAddRetransmitTimer;
    RetransmitFlat(env, w1, i, add);
    assert tx.pending - multiset{Retransmit} + multiset{Retransmit} == tx.pending;
    assert LocalAction(add, LocalAction(IncRetransmit, w1.txs[i])) == Retransmitted(tx);
  }

  lemma ExpiredThenSet(w: World, i: nat, kind: TimerKind)
    requires i < |w.txs|
    ensures SetTx(Expire(w, i, kind), i, Retransmitted(w.txs[i])).(wire := w.wire + [w.txs[i].request]) == OneMore(w, i)
  {
  }

  lemma RetransmitRun(env: Env, w: World, i: nat)
    requires Listed(w) && i < |w.txs| && Waits(w.txs[i]) && Retransmit in w.txs[i].pending && env.net(|w.wire|)
    ensures RunFsm(env, Expire(w, i, Retransmit), i, RETRANSMIT_TIMER_FIRED) == Ok(OneMore(w, i))
  {
    var tx := w.txs[i];
    var w0 := Expire(w, i, Retransmit);
    WaitingEntry(tx.ttype, tx.state);
    var e := Locate(tx.ttype, tx.state, RETRANSMIT_TIMER_FIRED).entry;
    NobodyCalled(env, Enter(w0, i, RETRANSMIT_TIMER_FIRED, e.next), i, e.actions);
    RunIsFlat(env, w0, i, RETRANSMIT_TIMER_FIRED);
    RetransmitRunIsFlat(env, w0, i, tx, e);
    ExpiredThenSet(w, i, Retransmit);
  }

  lemma RetransmitStep(env: Env, w: World, i: nat)
    requires Inv(w, {}) && i < |w.txs| && Waits(w.txs[i]) && Retransmit in w.txs[i].pending && env.net(|w.wire|)
    ensures Enabled(w, Fire(i, Retransmit)) && DoStep(env, w, Fire(i, Retransmit)) == Ok(OneMore(w, i))
  {
    assert Settled(w, i);
    RetransmitRun(env, w, i);
  }

  /** The world after `n` retransmissions, `m` having been made before. */
  function AfterRetransmits(w: World, i: nat, m: nat, n: nat): World
    requires i < |w.txs|
  {
    if n == 0 then w
    else
      var tx := w.txs[i];
      SetTx(w, i, tx.(curEvent := RETRANSMIT_TIMER_FIRED, retransmits := Counter(m + n),
                      armed := tx.armed + seq(n, k requires 0 <= k => Timer(Retransmit, Interval(m + k + 1)))))
        .(wire := w.wire + seq(n, _ => tx.request))
  }

  /** One retransmission more. */
  lemma AfterNext(w: World, i: nat, m: nat, n: nat)
    requires i < |w.txs| && w.txs[i].retransmits == Counter(m)
    ensures OneMore(AfterRetransmits(w, i, m, n), i) == AfterRetransmits(w, i, m, n + 1)
  {
    var tx := w.txs[i];
    CounterSteps(m + n);
    CounterSteps(m + n + 1);
    var all := seq(n + 1, k requires 0 <= k => Timer(Retransmit, Interval(m + k + 1)));
    var now := seq(n, k requires 0 <= k => Timer(Retransmit, Interval(m + k + 1)));
    assert all == now + [Timer(Retransmit, Interval(m + n + 1))];
    assert n == 0 ==> now == [];
    assert tx.armed + all == (tx.armed + now) + [Timer(Retransmit, Interval(m + n + 1))];
    var sent, before := seq(n + 1, _ => tx.request), seq(n, _ => tx.request);
    assert sent == before + [tx.request];
    assert n == 0 ==> before == [];
    assert w.wire + sent == (w.wire + before) + [tx.request];
    var was := AfterRetransmits(w, i, m, n);
    assert was.txs[i].armed == tx.armed + now && was.wire == w.wire + before && was.txs[i].retransmits == Counter(m + n);
    assert OneMore(was, i).txs == w.txs[i := Retransmitted(was.txs[i])];
  }

  /** Transaction `i` is waiting for an answer and has resent its request `m` times. */
  ghost predicate Retrying(w: World, i: nat, m: nat) {
    Inv(w, {}) && i < |w.txs| && Waits(w.txs[i]) && Retransmit in w.txs[i].pending && w.txs[i].retransmits == Counter(m)
  }

  lemma RetryOnce(env: Env, w: World, i: nat, m: nat)
    requires Retrying(w, i, m) && env.net(|w.wire|)
    ensures Enabled(w, Fire(i, Retransmit)) && DoStep(env, w, Fire(i, Retransmit)) == Ok(OneMore(w, i))
    ensures Retrying(OneMore(w, i), i, m + 1)
  {
    RetransmitStep(env, w, i);
    StepKeepsInv(env, w, Fire(i, Retransmit));
    CounterSteps(m);
  }

  /** `n` firings of the retransmit timer. */
  function Firings(i: nat, n: nat): (r: seq<Step>)
    ensures |r| == n
  {
    if n == 0 then [] else [Fire(i, Retransmit)] + Firings(i, n - 1)
  }

  lemma {:induction false} ReachesSnoc(env: Env, w: World, steps: seq<Step>, w1: World, s: Step, w2: World)
    requires Reaches(env, w, steps, w1) && Enabled(w1, s) && DoStep(env, w1, s) == Ok(w2)
    ensures Reaches(env, w, steps + [s], w2)
    decreases |steps|
  {
    if steps == [] {
      assert steps + [s] == [s] && [s][1..] == [];
    } else {
      assert (steps + [s])[0] == steps[0] && (steps + [s])[1..] == steps[1..] + [s];
      ReachesSnoc(env, DoStep(env, w, steps[0]).value, steps[1..], w1, s, w2);
    }
  }

  lemma {:induction false} FiringsSnoc(i: nat, n: nat)
    ensures Firings(i, n + 1) == Firings(i, n) + [Fire(i, Retransmit)]
  {
    if n > 0 {
      FiringsSnoc(i, n - 1);
    }
  }

  /** `j` retransmissions, one after the other. */
  function Retries(w: World, i: nat, j: nat): (r: World)
    requires i < |w.txs|
    ensures |r.txs| == |w.txs|
  {
    if j == 0 then w else OneMore(Retries(w, i, j - 1), i)
  }

  lemma {:induction false} RetriesAre(w: World, i: nat, m: nat, j: nat)
    requires i < |w.txs| && w.txs[i].retransmits == Counter(m)
    ensures Retries(w, i, j) == AfterRetransmits(w, i, m, j)
  {
    if j > 0 {
      RetriesAre(w, i, m, j - 1);
      AfterNext(w, i, m, j - 1);
    }
  }

  lemma {:induction false} RetryingAfter(env: Env, w: World, i: nat, m: nat, j: nat)
    requires Retrying(w, i, m) && SendsSucceed(env, |w.wire|, j)
    ensures Retrying(Retries(w, i, j), i, m + j) && |Retries(w, i, j).wire| == |w.wire| + j
    decreases j
  {
    if j > 0 {
      RetryingAfter(env, w, i, m, j - 1);
      RetryOnce(env, Retries(w, i, j - 1), i, m + j - 1);
    }
  }

  lemma OneFiringMore(env: Env, w: World, i: nat, m: nat, n: nat)
    requires Retrying(w, i, m) && SendsSucceed(env, |w.wire|, n + 1)
    requires Reaches(env, w, Firings(i, n), Retries(w, i, n))
    ensures Reaches(env, w, Firings(i, n + 1), Retries(w, i, n + 1))
  {
    RetryingAfter(env, w, i, m, n);
    RetryOnce(env, Retries(w, i, n), i, m + n);
    FiringsSnoc(i, n);
    ReachesSnoc(env, w, Firings(i, n), Retries(w, i, n), Fire(i, Retransmit), Retries(w, i, n + 1));
  }

  lemma {:induction false} FiringsReach(env: Env, w: World, i: nat, m: nat, n: nat)
    requires Retrying(w, i, m) && SendsSucceed(env, |w.wire|, n)
    ensures Reaches(env, w, Firings(i, n), Retries(w, i, n))
    decreases n
  {
    if n > 0 {
      FiringsReach(env, w, i, m, n - 1);
      OneFiringMore(env, w, i, m, n - 1);
    }
  }

  /**
  Theorem: as long as nothing else happens and the sends succeed, n firings put n copies of the request on the wire, and
  the k-th retransmission arms min(T1 * 2^k, T2), for every n.
  */
  lemma RetransmitSchedule(env: Env, w: World, i: nat, m: nat, n: nat)
    requires Retrying(w, i, m) && SendsSucceed(env, |w.wire|, n)
    ensures Reaches(env, w, Firings(i, n), AfterRetransmits(w, i, m, n))
  {
    FiringsReach(env, w, i, m, n);
    RetriesAre(w, i, m, n);
  }

  lemma {:induction false} IntervalsOfRetries(m: nat, n: nat)
    ensures Intervals(seq(n, k requires 0 <= k => Timer(Retransmit, Interval(m + k)))) == seq(n, k requires 0 <= k => Interval(m + k))
    decreases n
  {
    var ts := seq(n, k requires 0 <= k => Timer(Retransmit, Interval(m + k)));
    if n > 0 {
      assert ts[1..] == seq(n - 1, k requires 0 <= k => Timer(Retransmit, Interval(m + 1 + k)));
      IntervalsOfRetries(m + 1, n - 1);
      assert [Interval(m)] + seq(n - 1, k requires 0 <= k => Interval(m + 1 + k)) == seq(n, k requires 0 <= k => Interval(m + k));
    }
  }

  /**
  Theorem: a client transaction that has just been started, while nothing answers and the sends succeed, arms after its
  n-th retransmission the interval min(T1 * 2^n, T2), for every n from 0 on.
  */
  lemma ScheduleFromStart(env: Env, w: World, i: nat, n: nat)
    requires Inv(w, {}) && i < |w.txs| && Started(w.txs[i]) && w.txs[i].state != TERMINATED
    requires w.txs[i].ttype == ClientInvite || w.txs[i].ttype == ClientNonInvite
    requires SendsSucceed(env, |w.wire|, n)
    ensures Reaches(env, w, Firings(i, n), AfterRetransmits(w, i, 0, n))
    ensures Intervals(AfterRetransmits(w, i, 0, n).txs[i].armed) == seq(n + 1, k requires 0 <= k => Interval(k))
  {
    RetransmitSchedule(env, w, i, 0, n);
    StartedIntervals(n);
    ArmedAfter(w, i, n);
  }

  lemma ArmedAfter(w: World, i: nat, n: nat)
    requires i < |w.txs|
    ensures AfterRetransmits(w, i, 0, n).txs[i].armed
         == w.txs[i].armed + seq(n, k requires 0 <= k => Timer(Retransmit, Interval(0 + k + 1)))
  {
    if n == 0 {
      assert seq(n, k requires 0 <= k => Timer(Retransmit, Interval(0 + k + 1))) == [];
    }
  }

  lemma StartedIntervals(n: nat)
    ensures Intervals([Timer(Retransmit, T1), Timer(Timeout, 64 * T1)] + seq(n, k requires 0 <= k => Timer(Retransmit, Interval(0 + k + 1))))
         == seq(n + 1, k requires 0 <= k => Interval(k))
  {
    var more := seq(n, k requires 0 <= k => Timer(Retransmit, Interval(0 + k + 1)));
    assert more == seq(n, k requires 0 <= k => Timer(Retransmit, Interval(1 + k)));
    IntervalsOfRetries(1, n);
    var armed := [Timer(Retransmit, T1), Timer(Timeout, 64 * T1)] + more;
    assert armed[1..] == [Timer(Timeout, 64 * T1)] + more && armed[1..][1..] == more;
    assert Interval(0) == T1 by { CounterSteps(0); }
    assert [Interval(0)] + seq(n, k requires 0 <= k => Interval(1 + k)) == seq(n + 1, k requires 0 <= k => Interval(k));
  }
}
