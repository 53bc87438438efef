/**
Facts about whole runs of the transaction layer, from any sequence of enabled and handled steps.
*/
module TransactionRuns {
  import opened Common
  import opened TransactionTables
  import opened TransactionSpec
  import opened TransactionFlat
  import opened TransactionEffect
  import opened TransactionSafety
  import opened TransactionSteps

  /** The same transaction, in the same or a later state. */
  predicate Later(tx: Tx, tx': Tx) {
    && tx'.ttype == tx.ttype && tx'.request == tx.request && tx'.user == tx.user
    && Order(tx.state) <= Order(tx'.state)
  }

  lemma RunTxLater(env: Env, n: nat, tx: Tx, event: Event)
    ensures Later(tx, RunTx(env, n, tx, event))
  {
    var l := Locate(tx.ttype, tx.state, event);
    if l.Found? {
      TableEntry(tx.ttype, tx.state, l.entry);
      TxActsState(env, n, tx.(curEvent := event, state := l.entry.next), l.entry.actions);
    }
  }

  lemma AnswerTxLater(env: Env, n: nat, tx: Tx, m: Message, event: Event)
    ensures Later(tx, AnswerTx(env, n, tx, m, event))
  {
    RunTxLater(env, n + 1, Respond(tx, m), event);
  }

  lemma StepTxLater(env: Env, w: World, s: Step, k: nat)
    requires k < |w.txs|
    ensures Later(w.txs[k], StepTx(env, w, s, k))
  {
    var tx := w.txs[k];
    match s
    case Add(_, _, _) =>
    case Receive(m) =>
      if m.Response? {
        RunTxLater(env, |w.wire|, Respond(tx, m), MapStatusCodeToEvent(m.code));
      } else if m.verb == INVITE {
        RunTxLater(env, |w.wire|, tx, EVENT_INVITE);
      } else if m.verb == CANCEL {
        AnswerTxLater(env, |FlatCall(env, w, CancelCall(w, k, m)).wire|, tx,
                      BuildResponse(m, 487, env.tag(|w.wire|)), SEND_REQUEST_TERMINATED);
      }
    case Fire(_, kind) =>
      RunTxLater(env, |w.wire|, tx.(pending := tx.pending - multiset{kind}), TimerEvent(kind));
    case Answer(_, m, event) => AnswerTxLater(env, |w.wire|, tx, m, event);
    case AckReceived(_) => RunTxLater(env, |w.wire|, tx, EVENT_ACK);
  }

  /** Theorem: over every run the manager invariant holds, and no transaction changes identity or goes back. */
  lemma {:induction false} RunTheorem(env: Env, w: World, steps: seq<Step>, w': World)
    requires Inv(w, {}) && Reaches(env, w, steps, w')
    ensures Inv(w', {}) && |w.txs| <= |w'.txs|
    ensures forall k: nat | k < |w.txs| :: Later(w.txs[k], w'.txs[k])
    decreases |steps|
  {
    if steps != [] {
      var w1 := DoStep(env, w, steps[0]).value;
      StepTheorem(env, w, steps[0]);
      RunTheorem(env, w1, steps[1..], w');
      forall k: nat | k < |w.txs| ensures Later(w.txs[k], w'.txs[k]) {
        StepTxLater(env, w, steps[0], k);
        assert Later(w1.txs[k], w'.txs[k]);
      }
    }
  }

  lemma EmptyWorldInv()
    ensures Inv(EmptyWorld, {})
  {
  }

  // ---------- The list of the manager ----------

  /** The numbers in `ids` whose transactions are not terminated, in the same order. */
  function Live(w: World, ids: seq<nat>): seq<nat>
    requires forall a | 0 <= a < |ids| :: ids[a] < |w.txs|
  {
    if ids == [] then []
    else if w.txs[ids[0]].state != TERMINATED then [ids[0]] + Live(w, ids[1..])
    else Live(w, ids[1..])
  }

  ghost predicate Increasing(s: seq<nat>) {
    forall a, b | 0 <= a < b < |s| :: s[a] < s[b]
  }

  lemma {:induction false} LiveMembers(w: World, ids: seq<nat>)
    requires Increasing(ids) && forall a | 0 <= a < |ids| :: ids[a] < |w.txs|
    ensures Increasing(Live(w, ids))
    ensures forall k: nat :: k in Live(w, ids) <==> k in ids && w.txs[k].state != TERMINATED
  {
    if ids != [] {
      var rest := ids[1..];
      var r := Live(w, rest);
      LiveMembers(w, rest);
      assert forall k :: k in ids <==> k == ids[0] || k in rest;
      assert forall k :: k in [ids[0]] + r <==> k == ids[0] || k in r;
      forall a | 0 <= a < |r| ensures ids[0] < r[a] {
        assert r[a] in rest;
        var b :| 0 <= b < |rest| && rest[b] == r[a];
        assert ids[b + 1] == r[a];
      }
    }
  }

  lemma {:induction false} IncreasingUnique(s: seq<nat>, t: seq<nat>)
    requires Increasing(s) && Increasing(t) && forall k: nat :: k in s <==> k in t
    ensures s == t
  {
    assert t != [] ==> t[0] in s;
    if s != [] {
      assert s[0] in t;
      var a :| 0 <= a < |t| && t[a] == s[0];
      var b :| 0 <= b < |s| && s[b] == t[0];
      assert s[0] == t[0];
      forall k: nat ensures k in s[1..] <==> k in t[1..] {
        assert k in s <==> k == s[0] || k in s[1..];
        assert k in t <==> k == t[0] || k in t[1..];
        if k == s[0] {
          assert k !in s[1..] && k !in t[1..];
        }
      }
      IncreasingUnique(s[1..], t[1..]);
    }
  }

  /** The transactions created since there were `n`. */
  function Since(w: World, n: nat): (r: seq<nat>)
    requires n <= |w.txs|
    ensures forall a | 0 <= a < |r| :: r[a] == n + a
  {
    seq(|w.txs| - n, a requires 0 <= a => n + a)
  }

  /**
  Theorem: along any run the list loses exactly the transactions that terminated, keeps the others in their order,
  and has the surviving new ones at its end in order of creation.
  */
  lemma ListOrder(env: Env, w: World, steps: seq<Step>, w': World)
    requires Inv(w, {}) && Reaches(env, w, steps, w')
    ensures |w.txs| <= |w'.txs| && (forall a | 0 <= a < |w.list| :: w.list[a] < |w'.txs|)
    ensures w'.list == Live(w', w.list) + Live(w', Since(w', |w.txs|))
  {
    RunTheorem(env, w, steps, w');
    ListOrderOfWorlds(w, w');
  }

  lemma ListedBefore(w: World, w': World, k: nat)
    requires Inv(w, {}) && Inv(w', {}) && |w.txs| <= |w'.txs|
    requires forall k: nat | k < |w.txs| :: Later(w.txs[k], w'.txs[k])
    ensures k in w'.list <==> k < |w'.txs| && w'.txs[k].state != TERMINATED && (k in w.list || |w.txs| <= k)
    ensures k in w.list ==> k < |w.txs|
  {
    if k < |w'.txs| { assert Settled(w', k); }
    if k < |w.txs| { assert Settled(w, k); assert Later(w.txs[k], w'.txs[k]); }
  }

  lemma SinceMembers(w: World, n: nat, k: nat)
    requires n <= |w.txs|
    ensures k in Since(w, n) <==> n <= k < |w.txs|
  {
    if n <= k < |w.txs| { assert Since(w, n)[k - n] == k; }
  }

  lemma ListOrderOfWorlds(w: World, w': World)
    requires Inv(w, {}) && Inv(w', {}) && |w.txs| <= |w'.txs|
    requires forall k: nat | k < |w.txs| :: Later(w.txs[k], w'.txs[k])
    ensures w'.list == Live(w', w.list) + Live(w', Since(w', |w.txs|))
  {
    var n := |w.txs|;
    var old', new' := Live(w', w.list), Live(w', Since(w', n));
    LiveMembers(w', w.list);
    LiveMembers(w', Since(w', n));
    forall k: nat ensures k in w'.list <==> k in old' + new' {
      ListedBefore(w, w', k);
      SinceMembers(w', n, k);
    }
    assert forall a | 0 <= a < |old'| :: old'[a] in old';
    assert forall a | 0 <= a < |new'| :: new'[a] in new';
    IncreasingUnique(w'.list, old' + new');
  }

  // ---------- The user hears of a success once ----------

  predicate Tells(c: TuCall, k: nat) {
    c.tx == Some(k) && c.event == EVENT_2XX
  }

  /** How often transaction `k` has told its user of a 2xx. */
  function Told(calls: seq<TuCall>, k: nat): nat {
    if calls == [] then 0 else (if Tells(calls[0], k) then 1 else 0) + Told(calls[1..], k)
  }

  lemma {:induction false} ToldConcat(c: seq<TuCall>, d: seq<TuCall>, k: nat)
    ensures Told(c + d, k) == Told(c, k) + Told(d, k)
  {
    if c == [] {
      assert c + d == d;
    } else {
      ToldConcat(c[1..], d, k);
      assert (c + d)[1..] == c[1..] + d;
    }
  }

  /** A callback of `k` about a 2xx is made at most once by an event, which takes `k` to COMPLETED or TERMINATED. */
  lemma RunTold(env: Env, n: nat, tx: Tx, i: nat, event: Event, k: nat)
    ensures Told(CallsFor(tx, i, event), k) <= 1
    ensures Told(CallsFor(tx, i, event), k) == 1 ==>
              i == k && Order(tx.state) < Order(COMPLETED) <= Order(RunTx(env, n, tx, event).state)
  {
    var l := Locate(tx.ttype, tx.state, event);
    if l.Found? && InformTU in l.entry.actions && event == EVENT_2XX {
      ToldAdvances(env, n, tx, event, l.entry);
    }
  }

  lemma ToldAdvances(env: Env, n: nat, tx: Tx, event: Event, e: Entry)
    requires Locate(tx.ttype, tx.state, event) == Found(e) && InformTU in e.actions && event == EVENT_2XX
    ensures Order(tx.state) < Order(COMPLETED) <= Order(RunTx(env, n, tx, event).state)
  {
    TableEntry(tx.ttype, tx.state, e);
    TxActsState(env, n, tx.(curEvent := event, state := e.next), e.actions);
  }

  lemma AnswerTold(env: Env, n: nat, tx: Tx, i: nat, m: Message, event: Event, k: nat)
    ensures Told(AnswerCalls(env, n, tx, i, m, event), k) <= 1
    ensures Told(AnswerCalls(env, n, tx, i, m, event), k) == 1 ==>
              i == k && Order(tx.state) < Order(COMPLETED) <= Order(AnswerTx(env, n, tx, m, event).state)
  {
    RunTold(env, n + 1, Respond(tx, m), i, event, k);
  }

  lemma StepTold(env: Env, w: World, s: Step, k: nat)
    requires Inv(w, {}) && Enabled(w, s)
    ensures Told(StepCalls(env, w, s), k) <= 1
    ensures Told(StepCalls(env, w, s), k) == 1 ==>
              k < |w.txs| && Order(w.txs[k].state) < Order(COMPLETED) <= Order(StepTx(env, w, s, k).state)
  {
    match s
    case Add(_, _, _) =>
    case Receive(m) =>
      if m.Response? {
        if MatchResponse(w, m).Some? {
          var i := MatchResponse(w, m).value;
          RunTold(env, |w.wire|, Respond(w.txs[i], m), i, MapStatusCodeToEvent(m.code), k);
        }
      } else if MatchRequest(w, m).Some? {
        var i := MatchRequest(w, m).value;
        if m.verb == INVITE {
          RunTold(env, |w.wire|, w.txs[i], i, EVENT_INVITE, k);
        } else if m.verb == CANCEL {
          CancelTold(env, w, m, i, k);
        }
      }
    case Fire(i, kind) =>
      RunTold(env, |w.wire|, w.txs[i].(pending := w.txs[i].pending - multiset{kind}), i, TimerEvent(kind), k);
    case Answer(i, m, event) => AnswerTold(env, |w.wire|, w.txs[i], i, m, event, k);
    case AckReceived(i) => RunTold(env, |w.wire|, w.txs[i], i, EVENT_ACK, k);
  }

  lemma CancelTold(env: Env, w: World, m: Message, i: nat, k: nat)
    requires m.Request? && m.verb == CANCEL && MatchRequest(w, m) == Some(i)
    ensures var told := Told(StepCalls(env, w, Receive(m)), k);
      told <= 1 && (told == 1 ==>
        i == k && Order(w.txs[k].state) < Order(COMPLETED) <= Order(StepTx(env, w, Receive(m), k).state))
  {
    var n := |FlatCall(env, w, CancelCall(w, i, m)).wire|;
    var answer := BuildResponse(m, 487, env.tag(|w.wire|));
    var calls := AnswerCalls(env, n, w.txs[i], i, answer, SEND_REQUEST_TERMINATED);
    var new' := [TuCall(None, None, EVENT_NEW, Some(m))];
    AnswerTold(env, n, w.txs[i], i, answer, SEND_REQUEST_TERMINATED, k);
    ToldConcat([CancelCall(w, i, m)] + calls, new', k);
    ToldConcat([CancelCall(w, i, m)], calls, k);
  }

  /** What is true of the callbacks in every reachable world. */
  ghost predicate ToldOnce(w: World) {
    forall k: nat ::
      && Told(w.tuCalls, k) <= 1
      && (Told(w.tuCalls, k) == 1 ==> k < |w.txs| && Order(COMPLETED) <= Order(w.txs[k].state))
  }

  /** Theorem: over every run no transaction tells its user of a 2xx twice. */
  lemma {:induction false} RunToldOnce(env: Env, w: World, steps: seq<Step>, w': World)
    requires Inv(w, {}) && ToldOnce(w) && Reaches(env, w, steps, w')
    ensures ToldOnce(w')
    decreases |steps|
  {
    if steps != [] {
      var w1 := DoStep(env, w, steps[0]).value;
      StepTheorem(env, w, steps[0]);
      forall k: nat ensures Told(w1.tuCalls, k) <= 1
        && (Told(w1.tuCalls, k) == 1 ==> k < |w1.txs| && Order(COMPLETED) <= Order(w1.txs[k].state))
      {
        StepTold(env, w, steps[0], k);
        ToldConcat(w.tuCalls, StepCalls(env, w, steps[0]), k);
        if k < |w.txs| { StepTxLater(env, w, steps[0], k); }
      }
      RunToldOnce(env, w1, steps[1..], w');
    }
  }

  /** Theorem: a callback made while a response is handled carries that response and its event. */
  lemma ResponseIsSeen(env: Env, w: World, m: Message, c: TuCall)
    requires Inv(w, {}) && m.Response? && c in StepCalls(env, w, Receive(m))
    ensures MatchResponse(w, m).Some?
    ensures c == TuCall(MatchResponse(w, m), w.txs[MatchResponse(w, m).value].user, MapStatusCodeToEvent(m.code), Some(m))
  {
  }
}
