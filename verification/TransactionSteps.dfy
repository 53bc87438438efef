/**
One top-level step of the transaction layer: when it reaches the abort, what it does to each transaction,
and the manager invariant over whole runs.
*/
module TransactionSteps {
  import opened Common
  import opened TransactionTables
  import opened TransactionSpec
  import opened TransactionFlat
  import opened TransactionEffect
  import opened TransactionSafety

  // ---------- The events of one step ----------

  /** RunFsm seen from its own transaction. */
  function RunTx(env: Env, n: nat, tx: Tx, event: Event): Tx {
    match Locate(tx.ttype, tx.state, event)
    case Found(e) => TxRun(env, n, tx, event, e)
    case _ => tx
  }

  /** The callbacks of RunFsm. */
  function CallsFor(tx: Tx, i: nat, event: Event): seq<TuCall> {
    match Locate(tx.ttype, tx.state, event)
    case Found(e) => CallsOf(tx.(curEvent := event), i, e.actions)
    case _ => []
  }

  function Respond(tx: Tx, m: Message): Tx {
    tx.(responses := tx.responses + [m])
  }

  /** ResponseWith seen from its own transaction: the answer is recorded, and a failed send ends it. */
  function AnswerTx(env: Env, n: nat, tx: Tx, m: Message, event: Event): Tx {
    if env.net(n) then RunTx(env, n + 1, Respond(tx, m), event)
    else Respond(tx, m).(curEvent := TRANSPORT_ERROR, state := TERMINATED)
  }

  function CancelCall(w: World, i: nat, m: Message): TuCall
    requires i < |w.txs|
  {
    TuCall(None, w.txs[i].user, EVENT_CANCEL, Some(m))
  }

  /** What a step does to transaction `k`. */
  function StepTx(env: Env, w: World, s: Step, k: nat): Tx
    requires k < |w.txs|
  {
    var tx := w.txs[k];
    match s
    case Add(_, _, _) => tx
    case Receive(m) =>
      if m.Response? then
        if MatchResponse(w, m) == Some(k) then RunTx(env, |w.wire|, Respond(tx, m), MapStatusCodeToEvent(m.code)) else tx
      else if MatchRequest(w, m) != Some(k) then tx
      else if m.verb == INVITE then RunTx(env, |w.wire|, tx, EVENT_INVITE)
      else if m.verb == CANCEL then
        AnswerTx(env, |FlatCall(env, w, CancelCall(w, k, m)).wire|, tx, BuildResponse(m, 487, env.tag(|w.wire|)), SEND_REQUEST_TERMINATED)
      else tx
    case Fire(i, kind) =>
      if i == k then RunTx(env, |w.wire|, tx.(pending := tx.pending - multiset{kind}), TimerEvent(kind)) else tx
    case Answer(i, m, event) => if i == k then AnswerTx(env, |w.wire|, tx, m, event) else tx
    case AckReceived(i) => if i == k then RunTx(env, |w.wire|, tx, EVENT_ACK) else tx
  }

  function AnswerCalls(env: Env, n: nat, tx: Tx, i: nat, m: Message, event: Event): seq<TuCall> {
    if env.net(n) then CallsFor(Respond(tx, m), i, event) else []
  }

  /** The callbacks of a step, in order. */
  function StepCalls(env: Env, w: World, s: Step): seq<TuCall>
    requires Enabled(w, s)
  {
    match s
    case Add(_, _, _) => []
    case Receive(m) =>
      if m.Response? then
        (match MatchResponse(w, m)
         case None => []
         case Some(i) => CallsFor(Respond(w.txs[i], m), i, MapStatusCodeToEvent(m.code)))
      else
        (match MatchRequest(w, m)
         case None => if m.verb == REGISTER then [] else [TuCall(None, None, EVENT_NEW, Some(m))]
         case Some(i) =>
           if m.verb == INVITE then CallsFor(w.txs[i], i, EVENT_INVITE)
           else if m.verb == CANCEL then
             [CancelCall(w, i, m)]
             + AnswerCalls(env, |FlatCall(env, w, CancelCall(w, i, m)).wire|, w.txs[i], i,
                           BuildResponse(m, 487, env.tag(|w.wire|)), SEND_REQUEST_TERMINATED)
             + [TuCall(None, None, EVENT_NEW, Some(m))]
           else [])
    case Fire(i, kind) => CallsFor(w.txs[i].(pending := w.txs[i].pending - multiset{kind}), i, TimerEvent(kind))
    case Answer(i, m, event) => AnswerCalls(env, |w.wire|, w.txs[i], i, m, event)
    case AckReceived(i) => CallsFor(w.txs[i], i, EVENT_ACK)
  }

  predicate HandledBy(tx: Tx, event: Event) {
    Handles(tx.ttype, tx.state, event)
  }

  /** An event of transaction `i` is handled, and the user that it calls completes its own answers. */
  predicate Runs(env: Env, w: World, i: nat, event: Event)
    requires i < |w.txs|
  {
    HandledBy(w.txs[i], event) && RunOk(env, w, i, event, Locate(w.txs[i].ttype, w.txs[i].state, event).entry)
  }

  /** The world in which an answer has been recorded and put on the wire. */
  function Answered(w: World, i: nat, m: Message): World
    requires i < |w.txs|
  {
    var w0 := AddResponse(w, i, m);
    w0.(wire := w0.wire + [m])
  }

  /** An answer completes if its event does, or, when its send fails, if a transport error is handled. */
  predicate AnswerRuns(env: Env, w: World, i: nat, m: Message, event: Event)
    requires i < |w.txs|
  {
    if env.net(|w.wire|) then Runs(env, Answered(w, i, m), i, event) else HandledBy(w.txs[i], TRANSPORT_ERROR)
  }

  function NewCall(m: Message): TuCall { TuCall(None, None, EVENT_NEW, Some(m)) }

  /** A CANCEL of transaction `i`: the user is told, 487 is sent, and the CANCEL goes on as a new request. */
  predicate CancelRuns(env: Env, w: World, i: nat, m: Message)
    requires m.Request? && i < |w.txs|
  {
    var w1 := FlatCall(env, w, CancelCall(w, i, m));
    var terminated := BuildResponse(m, 487, env.tag(|w.wire|));
    && CallOk(env, w, CancelCall(w, i, m))
    && ReplyOk(env, w1, i, SEND_REQUEST_TERMINATED)
    && CallOk(env, FlatReply(env, w1, i, terminated, SEND_REQUEST_TERMINATED), NewCall(m))
  }

  /** When a step completes without reaching the abort. */
  predicate Accepts(env: Env, w: World, s: Step)
    requires Enabled(w, s)
  {
    match s
    case Add(_, _, _) => true
    case Receive(m) =>
      if m.Response? then
        (match MatchResponse(w, m)
         case None => true
         case Some(i) => Runs(env, AddResponse(w, i, m), i, MapStatusCodeToEvent(m.code)))
      else
        (match MatchRequest(w, m)
         case None => m.verb != REGISTER ==> CallOk(env, w, NewCall(m))
         case Some(i) =>
           if m.verb == INVITE then Runs(env, w, i, EVENT_INVITE)
           else m.verb == CANCEL ==> CancelRuns(env, w, i, m))
    case Fire(i, kind) => Runs(env, Expire(w, i, kind), i, TimerEvent(kind))
    case Answer(i, m, event) => AnswerRuns(env, w, i, m, event)
    case AckReceived(i) => Runs(env, w, i, EVENT_ACK)
  }

  /** A transaction as AddTransaction leaves it. */
  predicate Started(tx: Tx) {
    && tx.retransmits == 0
    && (tx.state == TERMINATED ==> tx.armed == [] && tx.pending == multiset{})
    && (tx.state != TERMINATED ==>
          match tx.ttype
          case ServerInvite => tx.state == PROCEEDING && tx.armed == [] && |tx.responses| == 1
          case ServerNonInvite => tx.state == TRYING && tx.armed == [] && tx.responses == []
          case _ =>
            && tx.state == (if tx.ttype == ClientInvite then CALLING else TRYING)
            && tx.armed == [Timer(Retransmit, T1), Timer(Timeout, 64 * T1)]
            && tx.pending == multiset{Retransmit, Timeout}
            && tx.responses == [])
  }

  predicate IsClient(tx: Tx) {
    tx.ttype == ClientInvite || tx.ttype == ClientNonInvite
  }

  /** A transaction as a call leaves it that starts it: just started, or served, with the answers of its user. */
  predicate Begun(tx: Tx) {
    Started(tx) || (!IsClient(tx) && tx.state != INIT && tx.responses != [])
  }

  /** From `w` to `w1` transactions are only appended, each one begun, apart from those in `changed`. */
  ghost predicate Grows(w: World, w1: World, changed: set<nat>) {
    && |w.txs| <= |w1.txs|
    && (forall k: nat | k < |w.txs| && k !in changed :: w1.txs[k] == w.txs[k])
    && (forall k: nat | |w.txs| <= k < |w1.txs| :: Begun(w1.txs[k]))
  }

  lemma AddCallsNobody(env: Env, w: World, request: Message, dialog: Option<nat>, tt: TransactionType)
    ensures FlatAdd(env, w, request, dialog, tt).tuCalls == w.tuCalls
    ensures |FlatAdd(env, w, request, dialog, tt).txs| <= |w.txs| + 1
  {
  }

  /** The two timers that INIT arms. */
  lemma ArmedTwice(tx: Tx)
    requires tx.armed == [] && tx.pending == multiset{}
    ensures var r := Arm(Arm(tx, Retransmit, T1), Timeout, 64 * T1);
      r == tx.(armed := [Timer(Retransmit, T1), Timer(Timeout, 64 * T1)], pending := multiset{Retransmit, Timeout})
  {
  }

  lemma ClientStarts(env: Env, w: World, request: Message, dialog: Option<nat>, tt: TransactionType)
    requires tt == ClientInvite || tt == ClientNonInvite
    ensures var w1 := FlatAdd(env, w, request, dialog, tt);
      |w1.txs| == |w.txs| + 1 && Started(w1.txs[|w.txs|])
  {
    var s := if tt == ClientInvite then CALLING else TRYING;
    var w0 := Enter(Append(w, request, dialog, tt), |w.txs|, EVENT_INIT, s);
    var tx := NewTx(request, dialog, tt).(curEvent := EVENT_INIT, state := s);
    assert w0.txs[|w.txs|] == tx;
    ArmedTwice(tx);
  }

  lemma ServerStarts(env: Env, w: World, request: Message, dialog: Option<nat>, tt: TransactionType)
    requires !Refused(request, tt) && (tt == ServerInvite || tt == ServerNonInvite)
    ensures var w1 := FlatAdd(env, w, request, dialog, tt);
      |w1.txs| == |w.txs| + 1 && Started(w1.txs[|w.txs|])
  {
  }

  lemma AddStarts(env: Env, w: World, request: Message, dialog: Option<nat>, tt: TransactionType)
    requires !Refused(request, tt)
    ensures var w1 := FlatAdd(env, w, request, dialog, tt);
      |w1.txs| == |w.txs| + 1 && Started(w1.txs[|w.txs|])
  {
    if tt == ClientInvite || tt == ClientNonInvite {
      ClientStarts(env, w, request, dialog, tt);
    } else {
      ServerStarts(env, w, request, dialog, tt);
    }
  }

  lemma AddGrows(env: Env, w: World, request: Message, dialog: Option<nat>, tt: TransactionType)
    ensures Grows(w, FlatAdd(env, w, request, dialog, tt), {})
    ensures FlatAdd(env, w, request, dialog, tt).tuCalls == w.tuCalls
  {
    AddCallsNobody(env, w, request, dialog, tt);
    if !Refused(request, tt) {
      AddStarts(env, w, request, dialog, tt);
      forall k: nat | k < |w.txs| {
        FlatAddKeepsOthers(env, w, request, dialog, tt, k);
      }
    }
  }

  /** An answer changes its transaction only, and leaves it begun. */
  lemma ReplyGrows(env: Env, w: World, i: nat, m: Message, event: Event)
    requires Listed(w) && i < |w.txs| && Begun(w.txs[i]) && !IsClient(w.txs[i]) && w.txs[i].state != INIT
    ensures var r := FlatReply(env, w, i, m, event);
      && Begun(r.txs[i]) && !IsClient(r.txs[i]) && r.txs[i].state != INIT
      && Listed(r) && forall k: nat | k < |w.txs| && k != i :: r.txs[k] == w.txs[k]
  {
    ReplyKeepsListed(env, w, i, m, event);
    if ReplyOk(env, w, i, event) && env.net(|w.wire|) {
      var tx := w.txs[i];
      var e := Locate(tx.ttype, tx.state, event).entry;
      TableEntry(tx.ttype, tx.state, e);
      LocalsState(Respond(tx, m).(curEvent := event, state := e.next), e.actions);
    }
  }

  lemma {:induction false} RepliesGrow(env: Env, w: World, i: nat, replies: seq<Reply>)
    requires Listed(w) && i < |w.txs| && Begun(w.txs[i]) && !IsClient(w.txs[i]) && w.txs[i].state != INIT
    ensures var r := FlatReplies(env, w, i, replies);
      Begun(r.txs[i]) && forall k: nat | k < |w.txs| && k != i :: r.txs[k] == w.txs[k]
    decreases |replies|
  {
    if replies != [] {
      ReplyGrows(env, w, i, replies[0].message, replies[0].event);
      RepliesGrow(env, FlatReply(env, w, i, replies[0].message, replies[0].event), i, replies[1..]);
    }
  }

  lemma ServeGrows(env: Env, w: World, request: Message, dialog: Option<nat>, invite: bool, replies: seq<Reply>)
    requires Listed(w)
    ensures Grows(w, FlatServe(env, w, request, dialog, Served(invite), replies), {})
    ensures Listed(FlatServe(env, w, request, dialog, Served(invite), replies))
  {
    ServeKeepsListed(env, w, request, dialog, Served(invite), replies);
    if !Refused(request, Served(invite)) {
      var w1 := FlatAdd(env, w, request, dialog, Served(invite));
      AddGrows(env, w, request, dialog, Served(invite));
      FlatAddKeepsListed(env, w, request, dialog, Served(invite));
      ServedNow(env, w, request, dialog, invite);
      RepliesGrow(env, w1, |w.txs|, replies);
    }
  }

  lemma ServedNow(env: Env, w: World, request: Message, dialog: Option<nat>, invite: bool)
    requires !Refused(request, Served(invite))
    ensures var tx := FlatAdd(env, w, request, dialog, Served(invite)).txs[|w.txs|];
      tx.ttype == Served(invite) && tx.state != INIT
  {
  }

  lemma {:induction false} TuGrows(env: Env, w: World, acts: seq<TuAct>)
    requires Listed(w)
    ensures Grows(w, FlatTu(env, w, acts), {})
    decreases |acts|
  {
    if acts != [] {
      match acts[0]
      case StartTransaction(request, dialog, tt) =>
        AddGrows(env, w, request, dialog, tt);
        FlatAddKeepsListed(env, w, request, dialog, tt);
        TuGrows(env, FlatAdd(env, w, request, dialog, tt), acts[1..]);
      case Serve(request, dialog, invite, replies) =>
        ServeGrows(env, w, request, dialog, invite, replies);
        TuGrows(env, FlatServe(env, w, request, dialog, Served(invite), replies), acts[1..]);
      case SendDirectly(m) =>
        TuGrows(env, w.(wire := w.wire + [m]), acts[1..]);
    }
  }

  lemma CallGrows(env: Env, w: World, call: TuCall)
    requires Inv(w, {})
    ensures OnTransactionEvent(env, w, call).Ok? <==> CallOk(env, w, call)
    ensures CallOk(env, w, call) ==> OnTransactionEvent(env, w, call) == Ok(FlatCall(env, w, call))
    ensures Grows(w, FlatCall(env, w, call), {}) && Inv(FlatCall(env, w, call), {})
    ensures FlatCall(env, w, call).tuCalls == w.tuCalls + [call]
  {
    CallIsFlat(env, w, call);
    var w0 := w.(tuCalls := w.tuCalls + [call]);
    assert Inv(w0, {});
    TuGrows(env, w0, env.tu(|w.tuCalls|));
    TuKeeps(env, w0, {}, env.tu(|w.tuCalls|));
    TuEffect(env, w0, env.tu(|w.tuCalls|));
  }

  ghost predicate BegunFrom(w: World, n: nat) {
    forall k: nat | n <= k < |w.txs| :: Begun(w.txs[k])
  }

  lemma {:induction false} ActsGrow(env: Env, w: World, i: nat, acts: seq<Action>, n: nat)
    requires Listed(w) && i < n <= |w.txs| && BegunFrom(w, n)
    ensures BegunFrom(FlatActs(env, w, i, acts), n)
    decreases |acts|
  {
    if acts != [] {
      var (w1, status) := FlatAct(env, w, i, acts[0]);
      FlatActKeeps(env, w, i, acts[0]);
      if acts[0] == InformTU && w.txs[i].user.Some? {
        var call := TuCall(Some(i), w.txs[i].user, w.txs[i].curEvent, LatestResponse(w.txs[i]));
        TuGrows(env, w.(tuCalls := w.tuCalls + [call]), env.tu(|w.tuCalls|));
      }
      if status >= 0 {
        ActsGrow(env, w1, i, acts[1..], n);
      }
    }
  }

  /** One handled event: everything that RunFsm does, on a world that satisfies the invariant. */
  lemma HandledRun(env: Env, w: World, i: nat, event: Event)
    requires Inv(w, {}) && i < |w.txs|
    ensures var r := RunFsm(env, w, i, event);
      && (r.Ok? <==> Runs(env, w, i, event))
      && (r.Ok? ==> Inv(r.value, {}) && Grows(w, r.value, {i})
                    && r.value.txs[i] == RunTx(env, |w.wire|, w.txs[i], event)
                    && r.value.tuCalls == w.tuCalls + CallsFor(w.txs[i], i, event))
  {
    if HandledBy(w.txs[i], event) {
      var tx := w.txs[i];
      var e := Locate(tx.ttype, tx.state, event).entry;
      TableEntry(tx.ttype, tx.state, e);
      assert Settled(w, i);
      RunIsFlat(env, w, i, event);
      RunEffect(env, w, i, event, e);
      InvWeakens(w, i);
      RunKeeps(env, w, {}, i, event, e);
      ActsGrow(env, Enter(w, i, event, e.next), i, e.actions, |w.txs|);
    }
  }

  lemma InvWeakens(w: World, i: nat)
    requires Inv(w, {})
    ensures Inv(w, {} + {i})
  {
  }

  /** The two ways ResponseWith can go on. */
  lemma ResponseWithUnfolds(env: Env, w: World, i: nat, m: Message, event: Event)
    requires i < |w.txs|
    ensures var r := ResponseWith(env, w, i, m, event);
      var next := RunFsm(env, Answered(w, i, m), i, if env.net(|w.wire|) then event else TRANSPORT_ERROR);
      (r.Ok? <==> next.Ok?) && (r.Ok? ==> r.value.0 == next.value)
  {
  }

  lemma HandledAnswer(env: Env, w: World, i: nat, m: Message, event: Event)
    requires Inv(w, {}) && i < |w.txs|
    ensures var r := ResponseWith(env, w, i, m, event);
      && (r.Ok? <==> AnswerRuns(env, w, i, m, event))
      && (r.Ok? ==> var w1 := r.value.0;
           && Inv(w1, {}) && Grows(w, w1, {i})
           && w1.txs[i] == AnswerTx(env, |w.wire|, w.txs[i], m, event)
           && w1.tuCalls == w.tuCalls + AnswerCalls(env, |w.wire|, w.txs[i], i, m, event))
  {
    ResponseWithUnfolds(env, w, i, m, event);
    if env.net(|w.wire|) { SentAnswer(env, w, i, m, event); } else { UnsentAnswer(env, w, i, m); }
  }

  lemma AnsweredKeeps(w: World, i: nat, m: Message)
    requires Inv(w, {}) && i < |w.txs|
    ensures Inv(Answered(w, i, m), {})
  {
    RecordKeeps(w, {}, i, m);
  }

  /** The rest of an answer that was sent. */
  lemma SentAnswer(env: Env, w: World, i: nat, m: Message, event: Event)
    requires Inv(w, {}) && i < |w.txs|
    ensures var r := RunFsm(env, Answered(w, i, m), i, event);
      && (r.Ok? <==> Runs(env, Answered(w, i, m), i, event))
      && (r.Ok? ==> Inv(r.value, {}) && Grows(w, r.value, {i})
                    && r.value.txs[i] == RunTx(env, |w.wire| + 1, Respond(w.txs[i], m), event)
                    && r.value.tuCalls == w.tuCalls + CallsFor(Respond(w.txs[i], m), i, event))
  {
    AnsweredKeeps(w, i, m);
    HandledRun(env, Answered(w, i, m), i, event);
  }

  /** The rest of an answer whose send failed. */
  lemma UnsentAnswer(env: Env, w: World, i: nat, m: Message)
    requires Inv(w, {}) && i < |w.txs|
    ensures var r := RunFsm(env, Answered(w, i, m), i, TRANSPORT_ERROR);
      && (r.Ok? <==> HandledBy(w.txs[i], TRANSPORT_ERROR))
      && (r.Ok? ==> Inv(r.value, {}) && Grows(w, r.value, {i})
                    && r.value.txs[i] == Respond(w.txs[i], m).(curEvent := TRANSPORT_ERROR, state := TERMINATED)
                    && r.value.tuCalls == w.tuCalls)
  {
    var w1 := Answered(w, i, m);
    AnsweredKeeps(w, i, m);
    HandledRun(env, w1, i, TRANSPORT_ERROR);
    if HandledBy(w.txs[i], TRANSPORT_ERROR) {
      TransportErrorIsFlat(env, w1, i);
    }
  }

  // ---------- One step ----------

  /** What is true of a step from a world that satisfies the invariant. */
  ghost predicate StepDone(env: Env, w: World, s: Step)
    requires Enabled(w, s)
  {
    var r := DoStep(env, w, s);
    && (r.Ok? <==> Accepts(env, w, s))
    && (r.Ok? ==>
          && Inv(r.value, {})
          && |w.txs| <= |r.value.txs|
          && (forall k: nat | k < |w.txs| :: r.value.txs[k] == StepTx(env, w, s, k))
          && (forall k: nat | |w.txs| <= k < |r.value.txs| :: Begun(r.value.txs[k])))
  }

  ghost predicate StepCalled(env: Env, w: World, s: Step)
    requires Enabled(w, s)
  {
    var r := DoStep(env, w, s);
    r.Ok? ==> r.value.tuCalls == w.tuCalls + StepCalls(env, w, s)
  }

  function CancelMessage(env: Env, w: World, m: Message): Message
    requires m.Request?
  {
    BuildResponse(m, 487, env.tag(|w.wire|))
  }

  /** The world of a CANCEL after its answer. */
  function CancelAnswered(env: Env, w: World, m: Message, i: nat): (r: World)
    requires m.Request? && i < |w.txs|
    ensures |w.txs| <= |r.txs|
  {
    FlatReply(env, FlatCall(env, w, CancelCall(w, i, m)), i, CancelMessage(env, w, m), SEND_REQUEST_TERMINATED)
  }

  /** What the answer to a CANCEL is and does. */
  lemma CancelAnswer(env: Env, w: World, m: Message, i: nat)
    requires Inv(w, {}) && m.Request? && i < |w.txs|
    ensures var w1 := FlatCall(env, w, CancelCall(w, i, m));
      var r := ResponseWith(env, w1, i, CancelMessage(env, w, m), SEND_REQUEST_TERMINATED);
      && (r.Ok? <==> ReplyOk(env, w1, i, SEND_REQUEST_TERMINATED))
      && (r.Ok? ==>
            var w2 := CancelAnswered(env, w, m, i);
            && r.value.0 == w2 && Inv(w2, {}) && Grows(w, w2, {i})
            && w2.txs[i] == AnswerTx(env, |w1.wire|, w.txs[i], CancelMessage(env, w, m), SEND_REQUEST_TERMINATED)
            && w2.tuCalls == w.tuCalls + [CancelCall(w, i, m)]
                 + AnswerCalls(env, |w1.wire|, w.txs[i], i, CancelMessage(env, w, m), SEND_REQUEST_TERMINATED))
  {
    var w1 := FlatCall(env, w, CancelCall(w, i, m));
    CallGrows(env, w, CancelCall(w, i, m));
    HandledAnswer(env, w1, i, CancelMessage(env, w, m), SEND_REQUEST_TERMINATED);
    ReplyIsFlat(env, w1, i, CancelMessage(env, w, m), SEND_REQUEST_TERMINATED);
  }

  /** Handling a CANCEL: the user is told, then the answer, then the CANCEL as a new request. */
  lemma CancelUnfolds(env: Env, w: World, m: Message, i: nat)
    requires Inv(w, {}) && m.Request? && m.verb == CANCEL && MatchRequest(w, m) == Some(i)
    ensures var r := DoStep(env, w, Receive(m));
      && (r.Ok? <==> CancelRuns(env, w, i, m))
      && (r.Ok? ==> r == OnTransactionEvent(env, CancelAnswered(env, w, m, i), NewCall(m)))
  {
    CallIsFlat(env, w, CancelCall(w, i, m));
    CancelAnswer(env, w, m, i);
    if ReplyOk(env, FlatCall(env, w, CancelCall(w, i, m)), i, SEND_REQUEST_TERMINATED) {
      CallIsFlat(env, CancelAnswered(env, w, m, i), NewCall(m));
    }
  }

  lemma StepCancel(env: Env, w: World, m: Message, i: nat)
    requires Inv(w, {}) && m.Request? && m.verb == CANCEL && MatchRequest(w, m) == Some(i)
    ensures StepDone(env, w, Receive(m))
  {
    CancelAnswer(env, w, m, i);
    CancelUnfolds(env, w, m, i);
    if CancelRuns(env, w, i, m) {
      CallGrows(env, CancelAnswered(env, w, m, i), NewCall(m));
    }
  }

  lemma StepCancelCalls(env: Env, w: World, m: Message, i: nat)
    requires Inv(w, {}) && m.Request? && m.verb == CANCEL && MatchRequest(w, m) == Some(i)
    ensures StepCalled(env, w, Receive(m))
  {
    CancelAnswer(env, w, m, i);
    CancelUnfolds(env, w, m, i);
    if CancelRuns(env, w, i, m) {
      CallGrows(env, CancelAnswered(env, w, m, i), NewCall(m));
      CallsOfCancel(env, w, m, i, AnswerCalls(env, |FlatCall(env, w, CancelCall(w, i, m)).wire|, w.txs[i], i,
                                  CancelMessage(env, w, m), SEND_REQUEST_TERMINATED));
    }
  }

  lemma CallsOfCancel(env: Env, w: World, m: Message, i: nat, calls: seq<TuCall>)
    requires m.Request? && m.verb == CANCEL && MatchRequest(w, m) == Some(i)
    requires calls == AnswerCalls(env, |FlatCall(env, w, CancelCall(w, i, m)).wire|, w.txs[i], i,
                                  CancelMessage(env, w, m), SEND_REQUEST_TERMINATED)
    ensures w.tuCalls + StepCalls(env, w, Receive(m)) == w.tuCalls + [CancelCall(w, i, m)] + calls + [NewCall(m)]
  {
  }

  lemma StepRequest(env: Env, w: World, m: Message)
    requires Inv(w, {}) && m.Request?
    ensures StepDone(env, w, Receive(m)) && StepCalled(env, w, Receive(m))
  {
    match MatchRequest(w, m)
    case None =>
      CallGrows(env, w, NewCall(m));
    case Some(i) =>
      if m.verb == INVITE {
        HandledRun(env, w, i, EVENT_INVITE);
      } else if m.verb == CANCEL {
        StepCancel(env, w, m, i);
        StepCancelCalls(env, w, m, i);
      }
  }

  lemma StepResponse(env: Env, w: World, m: Message)
    requires Inv(w, {}) && m.Response?
    ensures StepDone(env, w, Receive(m)) && StepCalled(env, w, Receive(m))
  {
    if MatchResponse(w, m).Some? {
      var i := MatchResponse(w, m).value;
      RecordKeeps(w, {}, i, m);
      HandledRun(env, AddResponse(w, i, m), i, MapStatusCodeToEvent(m.code));
      ResponseDone(env, w, m, i);
    }
  }

  /** Handling a response is one run of the tables after recording it. */
  lemma ResponseDone(env: Env, w: World, m: Message, i: nat)
    requires m.Response? && MatchResponse(w, m) == Some(i)
    requires var r := RunFsm(env, AddResponse(w, i, m), i, MapStatusCodeToEvent(m.code));
      && (r.Ok? <==> Runs(env, AddResponse(w, i, m), i, MapStatusCodeToEvent(m.code)))
      && (r.Ok? ==> Inv(r.value, {}) && Grows(AddResponse(w, i, m), r.value, {i})
                    && r.value.txs[i] == RunTx(env, |w.wire|, Respond(w.txs[i], m), MapStatusCodeToEvent(m.code))
                    && r.value.tuCalls == w.tuCalls + CallsFor(Respond(w.txs[i], m), i, MapStatusCodeToEvent(m.code)))
    ensures StepDone(env, w, Receive(m)) && StepCalled(env, w, Receive(m))
  {
  }

  lemma StepFire(env: Env, w: World, i: nat, kind: TimerKind)
    requires Inv(w, {}) && Enabled(w, Fire(i, kind))
    ensures StepDone(env, w, Fire(i, kind)) && StepCalled(env, w, Fire(i, kind))
  {
    ExpireKeeps(w, i, kind);
    HandledRun(env, Expire(w, i, kind), i, TimerEvent(kind));
    FireDone(env, w, i, kind);
  }

  lemma ExpireKeeps(w: World, i: nat, kind: TimerKind)
    requires Inv(w, {}) && i < |w.txs|
    ensures Inv(Expire(w, i, kind), {})
  {
  }

  /** A firing is one run of the tables after the timer has expired. */
  lemma FireDone(env: Env, w: World, i: nat, kind: TimerKind)
    requires Enabled(w, Fire(i, kind))
    requires var tx := w.txs[i].(pending := w.txs[i].pending - multiset{kind});
      var r := RunFsm(env, Expire(w, i, kind), i, TimerEvent(kind));
      && (r.Ok? <==> Runs(env, Expire(w, i, kind), i, TimerEvent(kind)))
      && (r.Ok? ==> Inv(r.value, {}) && Grows(Expire(w, i, kind), r.value, {i})
                    && r.value.txs[i] == RunTx(env, |w.wire|, tx, TimerEvent(kind))
                    && r.value.tuCalls == w.tuCalls + CallsFor(tx, i, TimerEvent(kind)))
    ensures StepDone(env, w, Fire(i, kind)) && StepCalled(env, w, Fire(i, kind))
  {
  }

  lemma StepAdd(env: Env, w: World, request: Message, dialog: Option<nat>, tt: TransactionType)
    requires Inv(w, {})
    ensures StepDone(env, w, Add(request, dialog, tt)) && StepCalled(env, w, Add(request, dialog, tt))
  {
    AddIsFlat(env, w, request, dialog, tt);
    AddKeeps(env, w, {}, request, dialog, tt);
    AddGrows(env, w, request, dialog, tt);
  }

  /** Theorem: exactly when a step completes, that it keeps the invariant, and its effect on every transaction. */
  lemma StepTheorem(env: Env, w: World, s: Step)
    requires Inv(w, {}) && Enabled(w, s)
    ensures StepDone(env, w, s) && StepCalled(env, w, s)
  {
    match s
    case Add(request, dialog, tt) => StepAdd(env, w, request, dialog, tt);
    case Receive(m) =>
      if m.Response? { StepResponse(env, w, m); } else { StepRequest(env, w, m); }
    case Fire(i, kind) => StepFire(env, w, i, kind);
    case Answer(i, m, event) => HandledAnswer(env, w, i, m, event);
    case AckReceived(i) => HandledRun(env, w, i, EVENT_ACK);
  }
}
