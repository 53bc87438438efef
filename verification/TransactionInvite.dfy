/**
The client INVITE transaction over whole runs: its record of responses and the ACKs between them.
*/
module TransactionInvite {
  import opened Common
  import opened TransactionTables
  import opened TransactionSpec
  import opened TransactionFlat
  import opened TransactionEffect
  import opened TransactionSafety
  import opened TransactionSteps
  import opened TransactionRuns

  /** What reaches the responses of a transaction from outside: a matched response, with the state that met it, or an answer. */
  datatype Receipt = Incoming(message: Message, state: State) | Answered(message: Message)

  const FINAL_FAILURE: Event := EVENT_3XX | EVENT_4XX | EVENT_5XX | EVENT_6XX

  /** A response is acknowledged when it is a 3xx-6xx met in PROCEEDING or COMPLETED; in CALLING it is not. */
  predicate Acknowledged(code: int, s: State) {
    (s == PROCEEDING || s == COMPLETED) && MapStatusCodeToEvent(code) & FINAL_FAILURE != 0
  }

  function AckOf(request: Message, response: Message): Message {
    Request(ACK, request.branch, request.sentBy, ACK, response.toTag, request.dest)
  }

  /** What one receipt puts among the responses. */
  function WithAck(request: Message, r: Receipt): seq<Message> {
    if r.Incoming? && r.message.Response? && Acknowledged(r.message.code, r.state)
    then [r.message, AckOf(request, r.message)] else [r.message]
  }

  function FlatMap<T, U>(f: T -> seq<U>, s: seq<T>): seq<U> {
    if s == [] then [] else f(s[0]) + FlatMap(f, s[1..])
  }

  lemma {:induction false} FlatMapConcat<T, U>(f: T -> seq<U>, a: seq<T>, b: seq<T>)
    ensures FlatMap(f, a + b) == FlatMap(f, a) + FlatMap(f, b)
  {
    if a == [] {
      assert a + b == b;
    } else {
      FlatMapConcat(f, a[1..], b);
      assert (a + b)[0] == a[0] && (a + b)[1..] == a[1..] + b;
    }
  }

  function AckRule(request: Message): Receipt -> seq<Message> {
    (r: Receipt) => WithAck(request, r)
  }

  /** The responses in order, each acknowledged one followed by its ACK. */
  function WithAcks(request: Message, receipts: seq<Receipt>): seq<Message> {
    FlatMap(AckRule(request), receipts)
  }

  function StepReceipts(env: Env, w: World, s: Step, k: nat): seq<Receipt>
    requires k < |w.txs|
  {
    match s
    case Receive(m) =>
      if m.Response? then (if MatchResponse(w, m) == Some(k) then [Incoming(m, w.txs[k].state)] else [])
      else if MatchRequest(w, m) == Some(k) && m.verb == CANCEL then [Answered(BuildResponse(m, 487, env.tag(|w.wire|)))]
      else []
    case Answer(i, m, _) => if i == k then [Answered(m)] else []
    case _ => []
  }

  function Receipts(env: Env, w: World, steps: seq<Step>, k: nat): seq<Receipt>
    requires k < |w.txs|
    decreases |steps|
  {
    if steps == [] || !Enabled(w, steps[0]) then []
    else
      var r := DoStep(env, w, steps[0]);
      StepReceipts(env, w, steps[0], k)
      + (if r.Ok? && k < |r.value.txs| then Receipts(env, r.value, steps[1..], k) else [])
  }

  /** A transaction user answers with one of the TRANSACTION_SEND_ events. */
  predicate Orderly(s: Step) {
    s.Answer? ==> IsAnswer(s.event)
  }

  lemma {:induction false} NoAckRecorded(env: Env, n: nat, tx: Tx, acts: seq<Action>)
    requires SendAckRequest !in acts && ResponseWith100Trying !in acts
    ensures TxActs(env, n, tx, acts).responses == tx.responses
    decreases |acts|
  {
    if acts != [] {
      assert acts[0] in acts;
      var (tx1, stop) := TxAct(env, n, tx, acts[0]);
      assert tx1.responses == tx.responses;
      NoAckRecorded(env, if Sends(acts[0]) then n + 1 else n, tx1, acts[1..]);
    }
  }

  /** The two entries with SendAckRequest record one ACK, whether it can be sent or not. */
  lemma AckRecorded(env: Env, n: nat, tx: Tx, acts: seq<Action>)
    requires tx.responses != []
    requires acts == [AddWaitForResponseTimer, SendAckRequest] || acts == [SendAckRequest, AddWaitForResponseTimer]
    ensures TxActs(env, n, tx, acts).responses == tx.responses + [AckFor(tx, "")]
  {
    if acts[0] == SendAckRequest {
      var (tx1, stop) := TxAct(env, n, tx, SendAckRequest);
      assert acts[1..] == [AddWaitForResponseTimer];
      NoAckRecorded(env, n + 1, tx1, acts[1..]);
    } else {
      var tx1 := LocalAction(AddWaitForResponseTimer, tx);
      assert acts[1..] == [SendAckRequest];
      assert TxActs(env, n, tx, acts) == TxActs(env, n, tx1, [SendAckRequest]);
      var (tx2, stop) := TxAct(env, n, tx1, SendAckRequest);
      assert TxActs(env, n, tx1, [SendAckRequest]) == tx2;
    }
  }

  lemma ClientInviteAckEntries(s: State, e: Entry)
    requires ClientInviteRow(s).Some? && e in ClientInviteRow(s).value.entries
    ensures ResponseWith100Trying !in e.actions
    ensures SendAckRequest in e.actions ==>
              && (s == PROCEEDING || s == COMPLETED) && e.events == FINAL_FAILURE
              && (e.actions == [AddWaitForResponseTimer, SendAckRequest] || e.actions == [SendAckRequest, AddWaitForResponseTimer])
  {
  }

  /** In PROCEEDING and COMPLETED the first entry takes every final failure. */
  lemma FinalFailureFirst(s: State, event: Event)
    requires (s == PROCEEDING || s == COMPLETED) && event & FINAL_FAILURE != 0
    ensures var l := Locate(ClientInvite, s, event);
      l.Found? && SendAckRequest in l.entry.actions
  {
    FsmRowIs(ClientInvite, s);
    var row := ClientInviteRow(s).value;
    assert Matches(row.entries[0], event);
  }

  lemma RunTxResponses(env: Env, n: nat, tx: Tx, event: Event)
    requires tx.ttype == ClientInvite && tx.responses != []
    ensures RunTx(env, n, tx, event).responses ==
      tx.responses + (if (tx.state == PROCEEDING || tx.state == COMPLETED) && event & FINAL_FAILURE != 0
                      then [AckFor(tx, "")] else [])
  {
    var l := Locate(ClientInvite, tx.state, event);
    Acknowledges(tx.state, event);
    if l.Found? {
      FoundResponses(env, n, tx, event, l.entry);
    }
  }

  lemma FoundResponses(env: Env, n: nat, tx: Tx, event: Event, e: Entry)
    requires tx.ttype == ClientInvite && tx.responses != []
    requires Locate(ClientInvite, tx.state, event) == Found(e) && AckActions(e.actions)
    ensures RunTx(env, n, tx, event).responses == tx.responses + (if SendAckRequest in e.actions then [AckFor(tx, "")] else [])
  {
    var tx1 := tx.(curEvent := event, state := e.next);
    EntryResponses(env, n, tx1, e.actions);
    assert AckFor(tx1, "") == AckFor(tx, "");
  }

  /** The entry of an event, and when it has an ACK. */
  lemma Acknowledges(s: State, event: Event)
    ensures var l, final := Locate(ClientInvite, s, event), (s == PROCEEDING || s == COMPLETED) && event & FINAL_FAILURE != 0;
      && (final ==> l.Found?)
      && (l.Found? ==> AckActions(l.entry.actions) && (SendAckRequest in l.entry.actions <==> final))
  {
    var l := Locate(ClientInvite, s, event);
    if (s == PROCEEDING || s == COMPLETED) && event & FINAL_FAILURE != 0 {
      FinalFailureFirst(s, event);
    }
    if l.Found? {
      FsmRowIs(ClientInvite, s);
      ClientInviteAckEntries(s, l.entry);
    }
  }

  predicate AckActions(acts: seq<Action>) {
    && ResponseWith100Trying !in acts
    && (SendAckRequest in acts ==>
          acts == [AddWaitForResponseTimer, SendAckRequest] || acts == [SendAckRequest, AddWaitForResponseTimer])
  }

  lemma EntryResponses(env: Env, n: nat, tx: Tx, acts: seq<Action>)
    requires tx.responses != [] && AckActions(acts)
    ensures TxActs(env, n, tx, acts).responses == tx.responses + (if SendAckRequest in acts then [AckFor(tx, "")] else [])
  {
    if SendAckRequest in acts {
      AckRecorded(env, n, tx, acts);
    } else {
      NoAckRecorded(env, n, tx, acts);
    }
  }

  /** Events that are no responses leave the responses of a client INVITE transaction alone. */
  lemma RunTxKeepsResponses(env: Env, n: nat, tx: Tx, event: Event)
    requires tx.ttype == ClientInvite && event & FINAL_FAILURE == 0
    ensures RunTx(env, n, tx, event).responses == tx.responses
  {
    var l := Locate(ClientInvite, tx.state, event);
    if l.Found? {
      FsmRowIs(ClientInvite, tx.state);
      ClientInviteAckEntries(tx.state, l.entry);
      NoAckRecorded(env, n, tx.(curEvent := event, state := l.entry.next), l.entry.actions);
    }
  }

  lemma AnswerTxResponses(env: Env, n: nat, tx: Tx, m: Message, event: Event)
    requires tx.ttype == ClientInvite && event & FINAL_FAILURE == 0
    ensures AnswerTx(env, n, tx, m, event).responses == tx.responses + [m]
  {
    RunTxKeepsResponses(env, n + 1, Respond(tx, m), event);
  }

  lemma Chain(request: Message, before: seq<Message>, middle: seq<Message>, a: seq<Receipt>, b: seq<Receipt>)
    requires middle == before + WithAcks(request, a)
    ensures middle + WithAcks(request, b) == before + WithAcks(request, a + b)
  {
    FlatMapConcat(AckRule(request), a, b);
    Regrouped(before, WithAcks(request, a), WithAcks(request, b));
  }

  lemma WithAcksOne(request: Message, r: Receipt)
    ensures WithAcks(request, [r]) == WithAck(request, r)
  {
    assert [r][1..] == [];
    assert FlatMap(AckRule(request), [r]) == AckRule(request)(r) + FlatMap(AckRule(request), []);
  }

  lemma ReceiveResponses(env: Env, w: World, m: Message, k: nat)
    requires k < |w.txs| && w.txs[k].ttype == ClientInvite && m.Response? && MatchResponse(w, m) == Some(k)
    ensures StepTx(env, w, Receive(m), k).responses
         == w.txs[k].responses + WithAck(w.txs[k].request, Incoming(m, w.txs[k].state))
  {
    RunTxResponses(env, |w.wire|, Respond(w.txs[k], m), MapStatusCodeToEvent(m.code));
    assert LatestResponse(Respond(w.txs[k], m)) == Some(m);
  }

  lemma StepResponses(env: Env, w: World, s: Step, k: nat)
    requires k < |w.txs| && w.txs[k].ttype == ClientInvite && Orderly(s)
    ensures StepTx(env, w, s, k).responses
         == w.txs[k].responses + WithAcks(w.txs[k].request, StepReceipts(env, w, s, k))
  {
    var tx := w.txs[k];
    if StepReceipts(env, w, s, k) != [] {
      WithAcksOne(tx.request, StepReceipts(env, w, s, k)[0]);
    }
    match s
    case Add(_, _, _) =>
    case Receive(m) =>
      if m.Response? {
        if MatchResponse(w, m) == Some(k) { ReceiveResponses(env, w, m, k); }
      } else if m.verb == INVITE {
        RunTxKeepsResponses(env, |w.wire|, tx, EVENT_INVITE);
      } else if m.verb == CANCEL {
        AnswerTxResponses(env, |FlatCall(env, w, CancelCall(w, k, m)).wire|, tx,
                          BuildResponse(m, 487, env.tag(|w.wire|)), SEND_REQUEST_TERMINATED);
      }
    case Fire(_, kind) =>
      RunTxKeepsResponses(env, |w.wire|, tx.(pending := tx.pending - multiset{kind}), TimerEvent(kind));
    case Answer(_, m, event) => AnswerTxResponses(env, |w.wire|, tx, m, event);
    case AckReceived(_) => RunTxKeepsResponses(env, |w.wire|, tx, EVENT_ACK);
  }

  lemma StepGoesOn(env: Env, w: World, s: Step, k: nat)
    requires Inv(w, {}) && k < |w.txs| && w.txs[k].ttype == ClientInvite
    requires Orderly(s) && Enabled(w, s) && DoStep(env, w, s).Ok?
    ensures var w1 := DoStep(env, w, s).value;
      && Inv(w1, {}) && k < |w1.txs|
      && w1.txs[k].ttype == ClientInvite && w1.txs[k].request == w.txs[k].request
      && w1.txs[k].responses == w.txs[k].responses + WithAcks(w.txs[k].request, StepReceipts(env, w, s, k))
  {
    StepTheorem(env, w, s);
    StepResponses(env, w, s, k);
    StepTxLater(env, w, s, k);
  }

  /**
  Theorem: over every run, whatever the network does, the responses of a client INVITE transaction are those received
  for it, in order, with exactly one ACK right after each acknowledged one, carrying the To tag of that response.
  */
  lemma {:induction false} ClientInviteResponses(env: Env, w: World, steps: seq<Step>, w': World, k: nat)
    requires Inv(w, {}) && k < |w.txs| && w.txs[k].ttype == ClientInvite
    requires Reaches(env, w, steps, w') && forall s | s in steps :: Orderly(s)
    ensures k < |w'.txs|
    ensures w'.txs[k].responses == w.txs[k].responses + WithAcks(w.txs[k].request, Receipts(env, w, steps, k))
    decreases |steps|
  {
    if steps != [] {
      var w1 := DoStep(env, w, steps[0]).value;
      StepGoesOn(env, w, steps[0], k);
      ClientInviteResponses(env, w1, steps[1..], w', k);
      Chain(w.txs[k].request, w.txs[k].responses, w1.txs[k].responses,
            StepReceipts(env, w, steps[0], k), Receipts(env, w1, steps[1..], k));
    }
  }

  /** Which status codes are acknowledged: all of 300..699, and those outside 100..699 that share a bit with the mask. */
  lemma AcknowledgedCodes(code: int, s: State)
    requires 100 <= code < 700
    ensures Acknowledged(code, s) <==> (s == PROCEEDING || s == COMPLETED) && 300 <= code
  {
  }
}
