/**
The transaction layer as functions: what each function of sip/Transaction.c and sip/TransactionManager.c does
to the whole world of transactions, including the events an action raises while another event is being handled.

Transactions are numbered in order of creation and stay in `txs` after they are destroyed, because the outer
RunFsm still reads the state of a transaction that a nested RunFsm destroyed. The network, the transaction user
and the tag generator are arbitrary functions of how often they were used before.
*/
module TransactionSpec {
  import opened Common
  import opened TransactionTables

  datatype Method = INVITE | ACK | CANCEL | REGISTER | Other(name: string)

  datatype Address = Address(ip: string, port: int)

  datatype Message =
    | Request(verb: Method, branch: string, sentBy: string, cseqMethod: Method, toTag: string, dest: Address)
    | Response(code: int, branch: string, sentBy: string, cseqMethod: Method, toTag: string, dest: Address)

  datatype TimerKind = Retransmit | Timeout | WaitForResponse | WaitRequestRetransmits

  datatype Timer = Timer(kind: TimerKind, ms: nat)

  /** `armed` lists the AddTimer calls made for the transaction, `pending` those that have not fired. */
  datatype Tx = Tx(ttype: TransactionType, request: Message, user: Option<nat>,
                   state: State, curEvent: Event, retransmits: nat, responses: seq<Message>,
                   armed: seq<Timer>, pending: multiset<TimerKind>)

  /** A call of OnTransactionEvent; `tx` is the transaction whose action made it. */
  datatype TuCall = TuCall(tx: Option<nat>, dialog: Option<nat>, event: Event, message: Option<Message>)

  /** `list` is the list of the manager, `destroyed` the calls of DestroyTransaction, oldest first. */
  datatype World = World(txs: seq<Tx>, list: seq<nat>, destroyed: seq<nat>, wire: seq<Message>, tuCalls: seq<TuCall>)

  type AnswerEvent = e: Event | IsAnswer(e) witness SEND_OK

  /** An answer to a request, with the event that tells of it. */
  datatype Reply = Reply(message: Message, event: AnswerEvent)

  /** What a transaction user does inside a callback. A transaction that it starts it may answer at once, as it does for BYE. */
  datatype TuAct =
    | StartTransaction(request: Message, dialog: Option<nat>, ttype: TransactionType)
    | Serve(request: Message, dialog: Option<nat>, invite: bool, replies: seq<Reply>)
    | SendDirectly(message: Message)

  function Served(invite: bool): TransactionType {
    if invite then ServerInvite else ServerNonInvite
  }

  datatype Env = Env(net: nat -> bool, tu: nat -> seq<TuAct>, tag: nat -> string)

  /** Done, stopped by assert(0), or reading past the end of a row. */
  datatype Outcome<+T> = Ok(value: T) | AssertFailed | ReadOverrun {
    predicate IsFailure() { !Ok? }
    function PropagateFailure<U>(): Outcome<U>
      requires IsFailure()
    {
      if AssertFailed? then AssertFailed else ReadOverrun
    }
    function Extract(): T
      requires Ok?
    {
      value
    }
  }

  // ---------- Times ----------

  const T1 := 500
  const T2 := 4000
  const T4 := 5000

  /** T1 << retransmits, capped at T2. */
  function RetransmitInterval(retransmits: nat): nat {
    var interval := T1 * Pow2(retransmits);
    if interval > T2 then T2 else interval
  }

  function NextRetransmits(retransmits: nat): nat {
    if T1 * Pow2(retransmits) <= T2 then retransmits + 1 else retransmits
  }

  function TimerEvent(k: TimerKind): Event {
    match k
    case Retransmit => RETRANSMIT_TIMER_FIRED
    case Timeout => TIMEOUT_TIMER_FIRED
    case WaitForResponse => WAIT_FOR_RESPONSE_TIMER_FIRED
    case WaitRequestRetransmits => WAIT_REQUEST_RETRANSMITS_TIMER_FIRED
  }

  // ---------- Messages ----------

  function LatestResponse(tx: Tx): Option<Message> {
    if tx.responses == [] then None else Some(tx.responses[|tx.responses| - 1])
  }

  function BuildResponse(request: Message, code: int, freshTag: string): Message {
    Response(code, request.branch, request.sentBy, request.cseqMethod,
             if request.toTag == "" then freshTag else request.toTag, request.dest)
  }

  /** The ACK of sip/MessageBuilder.c:388-412: everything of the INVITE but the method and the To tag. */
  function BuildAck(invite: Message, tag: Option<string>, freshTag: string): Message {
    var toTag := match tag
      case Some(t) => t
      case None => (if invite.toTag == "" then freshTag else invite.toTag);
    Request(ACK, invite.branch, invite.sentBy, ACK, toTag, invite.dest)
  }

  function AckFor(tx: Tx, freshTag: string): Message {
    BuildAck(tx.request, (match LatestResponse(tx) case Some(r) => Some(r.toTag) case None => None), freshTag)
  }

  // ---------- Updates of one transaction ----------

  function Arm(tx: Tx, kind: TimerKind, ms: nat): Tx {
    tx.(armed := tx.armed + [Timer(kind, ms)], pending := tx.pending + multiset{kind})
  }

  /** The actions that neither send nor inform. */
  function LocalAction(a: Action, tx: Tx): Tx {
    match a
    case IncRetransmit => tx.(retransmits := NextRetransmits(tx.retransmits))
    case ResetRetransmits => tx.(retransmits := 0)
    case ClientInviteAddRetransmitTimer => Arm(tx, Retransmit, RetransmitInterval(tx.retransmits))
    case ClientNonInviteAddRetransmitTimer =>
      Arm(tx, Retransmit, if tx.state == TRYING then RetransmitInterval(tx.retransmits)
                          else if tx.state == PROCEEDING then T2 else T1)
    case AddTimeoutTimer => Arm(tx, Timeout, 64 * T1)
    case AddWaitForResponseTimer => Arm(tx, WaitForResponse, T4)
    case AddServerNonInviteWaitRequestRetransmitTimer => Arm(tx, WaitRequestRetransmits, 64 * T1)
    case _ => tx
  }

  function AddResponse(w: World, i: nat, m: Message): World
    requires i < |w.txs|
  {
    w.(txs := w.txs[i := w.txs[i].(responses := w.txs[i].responses + [m])])
  }

  // ---------- The interpreter ----------

  function RemoveFirst(list: seq<nat>, i: nat): seq<nat> {
    if list == [] then []
    else if list[0] == i then list[1..]
    else [list[0]] + RemoveFirst(list[1..], i)
  }

  /** _RemoveTransaction by address: the list loses the first occurrence, which is destroyed, or nothing happens. */
  function RemoveTransaction(w: World, i: nat): World {
    if i in w.list then w.(list := RemoveFirst(w.list, i), destroyed := w.destroyed + [i]) else w
  }

  function RemoveTerminated(w: World, i: nat): World
    requires i < |w.txs|
  {
    if w.txs[i].state == TERMINATED then RemoveTransaction(w, i) else w
  }

  function RunFsm(env: Env, w: World, i: nat, event: Event): (r: Outcome<World>)
    requires i < |w.txs|
    ensures r.Ok? ==> |w.txs| <= |r.value.txs|
    decreases Rank(event), 3, 0
  {
    var tx := w.txs[i];
    match Locate(tx.ttype, tx.state, event)
    case NotFound => AssertFailed
    case Overrun => ReadOverrun
    case Found(e) =>
      TableEntry(tx.ttype, tx.state, e);
      var w1 :- InvokeActions(env, w.(txs := w.txs[i := tx.(curEvent := event, state := e.next)]), i, e.actions);
      Ok(RemoveTerminated(w1, i))
  }

  function InvokeActions(env: Env, w: World, i: nat, acts: seq<Action>): (r: Outcome<World>)
    requires i < |w.txs|
    ensures r.Ok? ==> |w.txs| <= |r.value.txs|
    decreases Level(acts), 2, |acts|
  {
    if acts == [] then Ok(w)
    else
      var (w1, status) :- Act(env, w, i, acts[0]);
      if status < 0 then Ok(w1) else InvokeActions(env, w1, i, acts[1..])
  }

  /** One action: the world after it and the status it returns. */
  function Act(env: Env, w: World, i: nat, a: Action): (r: Outcome<(World, int)>)
    requires i < |w.txs|
    ensures r.Ok? ==> |w.txs| <= |r.value.0.txs|
    decreases ActionLevel(a), 1, 1
  {
    var tx := w.txs[i];
    match a
    case SendRequestMessage => SendTransactionMessage(env, w, i, tx.request)
    case ResendLatestResponse =>
      (match LatestResponse(tx)
       case Some(m) => SendTransactionMessage(env, w, i, m)
       case None => AssertFailed)
    case SendAckRequest =>
      var ack := AckFor(tx, env.tag(|w.wire|));
      SendTransactionMessage(env, AddResponse(w, i, ack), i, ack)
    case ResponseWith100Trying =>
      var trying := BuildResponse(tx.request, 100, env.tag(|w.wire|));
      var (w1, _) :- ResponseWith(env, w, i, trying, SEND_TRYING);
      Ok((w1, 0))
    case InformTU =>
      if tx.user.None? then Ok((w, 0))
      else
        var w1 :- OnTransactionEvent(env, w, TuCall(Some(i), tx.user, tx.curEvent, LatestResponse(tx)));
        Ok((w1, 0))
    case _ => Ok((w.(txs := w.txs[i := LocalAction(a, tx)]), 0))
  }

  function SendTransactionMessage(env: Env, w: World, i: nat, m: Message): (r: Outcome<(World, int)>)
    requires i < |w.txs|
    ensures r.Ok? ==> |w.txs| <= |r.value.0.txs|
    decreases 1, 0, 0
  {
    var w1 := w.(wire := w.wire + [m]);
    if env.net(|w.wire|) then Ok((w1, 0))
    else
      var w2 :- RunFsm(env, w1, i, TRANSPORT_ERROR);
      Ok((w2, -1))
  }

  function ResponseWith(env: Env, w: World, i: nat, m: Message, event: Event): (r: Outcome<(World, int)>)
    requires i < |w.txs|
    ensures r.Ok? ==> |w.txs| <= |r.value.0.txs|
    decreases 1 + Rank(event), 0, 1
  {
    var (w1, status) :- SendTransactionMessage(env, AddResponse(w, i, m), i, m);
    if status < 0 then Ok((w1, -1))
    else
      var w2 :- RunFsm(env, w1, i, event);
      Ok((w2, 0))
  }

  function OnTransactionEvent(env: Env, w: World, call: TuCall): (r: Outcome<World>)
    ensures r.Ok? ==> |w.txs| <= |r.value.txs|
    decreases 2, 1, 0
  {
    TuActs(env, w.(tuCalls := w.tuCalls + [call]), env.tu(|w.tuCalls|))
  }

  function TuActs(env: Env, w: World, acts: seq<TuAct>): (r: Outcome<World>)
    ensures r.Ok? ==> |w.txs| <= |r.value.txs|
    decreases 2, 0, |acts|
  {
    if acts == [] then Ok(w)
    else match acts[0]
      case StartTransaction(request, dialog, tt) =>
        var w1 :- AddTransaction(env, w, request, dialog, tt);
        TuActs(env, w1, acts[1..])
      case Serve(request, dialog, invite, replies) =>
        var w1 :- ServeRequest(env, w, request, dialog, Served(invite), replies);
        TuActs(env, w1, acts[1..])
      case SendDirectly(m) => TuActs(env, w.(wire := w.wire + [m]), acts[1..])
  }

  /** Start a transaction and answer it; when none was started, the first answer meets the assertion that there is one. */
  function ServeRequest(env: Env, w: World, request: Message, dialog: Option<nat>, tt: TransactionType, replies: seq<Reply>): (r: Outcome<World>)
    ensures r.Ok? ==> |w.txs| <= |r.value.txs|
    decreases 1, 6, 0
  {
    var w1 :- AddTransaction(env, w, request, dialog, tt);
    if Refused(request, tt) then (if replies == [] then Ok(w1) else AssertFailed)
    else AnswerAll(env, w1, |w.txs|, replies)
  }

  function AnswerAll(env: Env, w: World, i: nat, replies: seq<Reply>): (r: Outcome<World>)
    requires i < |w.txs|
    ensures r.Ok? ==> |w.txs| <= |r.value.txs|
    decreases 1, 5, |replies|
  {
    if replies == [] then Ok(w)
    else
      var (w1, _) :- ResponseWith(env, w, i, replies[0].message, replies[0].event);
      AnswerAll(env, w1, i, replies[1..])
  }

  function NewTx(request: Message, dialog: Option<nat>, tt: TransactionType): Tx {
    Tx(tt, request, dialog, INIT, 0, 0, [], [], multiset{})
  }

  /** AddTransactionImpl refuses to answer INVITE and ACK by a server non-INVITE transaction. */
  predicate Refused(request: Message, tt: TransactionType) {
    tt == ServerNonInvite && request.Request? && (request.verb == INVITE || request.verb == ACK)
  }

  function Append(w: World, request: Message, dialog: Option<nat>, tt: TransactionType): World {
    w.(txs := w.txs + [NewTx(request, dialog, tt)], list := w.list + [|w.txs|])
  }

  function AddTransaction(env: Env, w: World, request: Message, dialog: Option<nat>, tt: TransactionType): (r: Outcome<World>)
    ensures r.Ok? ==> |w.txs| <= |r.value.txs| && (!Refused(request, tt) ==> |w.txs| < |r.value.txs|)
    decreases 1, 4, 0
  {
    if Refused(request, tt) then Ok(w)
    else RunFsm(env, Append(w, request, dialog, tt), |w.txs|, EVENT_INIT)
  }

  // ---------- Messages that come in ----------

  predicate TransactionMatched(tx: Tx, branch: string, cseqMethod: Method) {
    tx.request.branch == branch && tx.request.cseqMethod == cseqMethod
  }

  /** `r` is the first of the listed transactions whose request has the branch and the CSeq method, or there is none. */
  ghost predicate IsFirstMatch(w: World, list: seq<nat>, branch: string, cseqMethod: Method, r: Option<nat>) {
    match r
    case Some(i) =>
      exists a: nat :: a < |list| && list[a] == i && i < |w.txs|
        && w.txs[i].request.branch == branch && w.txs[i].request.cseqMethod == cseqMethod
        && forall b: nat | b < a && list[b] < |w.txs| :: OtherRequest(w.txs[list[b]].request, branch, cseqMethod)
    case None =>
      forall b: nat | b < |list| && list[b] < |w.txs| :: OtherRequest(w.txs[list[b]].request, branch, cseqMethod)
  }

  predicate OtherRequest(request: Message, branch: string, cseqMethod: Method) {
    request.branch != branch || request.cseqMethod != cseqMethod
  }

  /** GetTransaction: the first listed transaction that matches. */
  function GetTransaction(w: World, list: seq<nat>, branch: string, cseqMethod: Method): (r: Option<nat>)
    ensures r.Some? ==> r.value in list && r.value < |w.txs|
  {
    if list == [] then None
    else if list[0] < |w.txs| && TransactionMatched(w.txs[list[0]], branch, cseqMethod) then Some(list[0])
    else GetTransaction(w, list[1..], branch, cseqMethod)
  }

  lemma {:induction false} GetTransactionIsFirst(w: World, list: seq<nat>, branch: string, cseqMethod: Method)
    ensures IsFirstMatch(w, list, branch, cseqMethod, GetTransaction(w, list, branch, cseqMethod))
  {
    if list != [] {
      if list[0] < |w.txs| && TransactionMatched(w.txs[list[0]], branch, cseqMethod) {
        assert list[0] == GetTransaction(w, list, branch, cseqMethod).value;
      } else {
        GetTransactionIsFirst(w, list[1..], branch, cseqMethod);
        FirstMatchLater(w, list, branch, cseqMethod, GetTransaction(w, list[1..], branch, cseqMethod));
      }
    }
  }

  lemma FirstMatchLater(w: World, list: seq<nat>, branch: string, cseqMethod: Method, r: Option<nat>)
    requires list != [] && !(list[0] < |w.txs| && TransactionMatched(w.txs[list[0]], branch, cseqMethod))
    requires IsFirstMatch(w, list[1..], branch, cseqMethod, r)
    ensures IsFirstMatch(w, list, branch, cseqMethod, r)
  {
    var rest := list[1..];
    assert forall b: nat | 0 < b < |list| :: list[b] == rest[b - 1];
    if r.Some? {
      var i := r.value;
      var a: nat :| a < |rest| && rest[a] == i && i < |w.txs|
        && w.txs[i].request.branch == branch && w.txs[i].request.cseqMethod == cseqMethod
        && forall b: nat | b < a && rest[b] < |w.txs| :: OtherRequest(w.txs[rest[b]].request, branch, cseqMethod);
      assert list[a + 1] == i;
    }
  }

  /** MatchRequest: a CANCEL is matched to the transaction of its INVITE. */
  function MatchRequest(w: World, m: Message): (r: Option<nat>)
    requires m.Request?
    ensures r.Some? ==> r.value in w.list && r.value < |w.txs|
  {
    GetTransaction(w, w.list, m.branch, if m.verb == CANCEL then INVITE else m.verb)
  }

  function MatchResponse(w: World, m: Message): (r: Option<nat>)
    requires m.Response?
    ensures r.Some? ==> r.value in w.list && r.value < |w.txs|
  {
    GetTransaction(w, w.list, m.branch, m.cseqMethod)
  }

  /** A message is matched to the first listed transaction with its branch and method, a CANCEL to that of the INVITE. */
  lemma MatchIsFirst(w: World, m: Message)
    ensures m.Request? ==> IsFirstMatch(w, w.list, m.branch, if m.verb == CANCEL then INVITE else m.verb, MatchRequest(w, m))
    ensures m.Response? ==> IsFirstMatch(w, w.list, m.branch, m.cseqMethod, MatchResponse(w, m))
  {
    if m.Request? {
      GetTransactionIsFirst(w, w.list, m.branch, if m.verb == CANCEL then INVITE else m.verb);
    } else {
      GetTransactionIsFirst(w, w.list, m.branch, m.cseqMethod);
    }
  }

  /** The 32 bits of a status code. */
  function CodeBits(code: int): Event {
    (code % 0x1_0000_0000) as bv32
  }

  /** A status code outside 100..699 is itself used as the event mask. */
  function MapStatusCodeToEvent(code: int): Event {
    if 100 <= code < 200 then EVENT_1XX
    else if 200 <= code < 300 then EVENT_2XX
    else if 300 <= code < 400 then EVENT_3XX
    else if 400 <= code < 500 then EVENT_4XX
    else if 500 <= code < 600 then EVENT_5XX
    else if 600 <= code < 700 then EVENT_6XX
    else CodeBits(code)
  }

  /** TmHandleReponseMessage. */
  function ReceiveResponse(env: Env, w: World, m: Message): Outcome<World>
    requires m.Response?
  {
    match MatchResponse(w, m)
    case None => Ok(w)
    case Some(i) => RunFsm(env, AddResponse(w, i, m), i, MapStatusCodeToEvent(m.code))
  }

  /** TmHandleRequestMessage, TmNewTransaction and TmRequestInTransaction. */
  function ReceiveRequest(env: Env, w: World, m: Message): Outcome<World>
    requires m.Request?
  {
    match MatchRequest(w, m)
    case None =>
      if m.verb == REGISTER then Ok(w)
      else OnTransactionEvent(env, w, TuCall(None, None, EVENT_NEW, Some(m)))
    case Some(i) =>
      if m.verb == INVITE then RunFsm(env, w, i, EVENT_INVITE)
      else if m.verb == CANCEL then ReceiveCancel(env, w, i, m)
      else Ok(w)
  }

  /** TmRequestInTransaction, for a CANCEL. */
  function ReceiveCancel(env: Env, w: World, i: nat, m: Message): Outcome<World>
    requires i < |w.txs|
  {
    var w1 :- OnTransactionEvent(env, w, TuCall(None, w.txs[i].user, EVENT_CANCEL, Some(m)));
    var terminated := BuildResponse(m, 487, env.tag(|w.wire|));
    var (w2, _) :- ResponseWith(env, w1, i, terminated, SEND_REQUEST_TERMINATED);
    OnTransactionEvent(env, w2, TuCall(None, None, EVENT_NEW, Some(m)))
  }

  // ---------- Runs ----------

  /** What reaches the layer from outside, one top-level call each. */
  datatype Step =
    | Add(request: Message, dialog: Option<nat>, ttype: TransactionType)
    | Receive(message: Message)
    | Fire(timerTx: nat, kind: TimerKind)
    | Answer(answerTx: nat, message: Message, event: Event)
    | AckReceived(ackTx: nat)

  /**
  A timer can fire when armed and not fired yet, also when its transaction has been destroyed meanwhile; the transaction
  that a caller names is a listed one.
  */
  predicate Enabled(w: World, s: Step) {
    match s
    case Add(_, _, _) => true
    case Receive(_) => true
    case Fire(i, k) => i < |w.txs| && k in w.txs[i].pending
    case Answer(i, _, _) => i in w.list && i < |w.txs|
    case AckReceived(i) => i in w.list && i < |w.txs|
  }

  function Expire(w: World, i: nat, k: TimerKind): World
    requires i < |w.txs|
  {
    w.(txs := w.txs[i := w.txs[i].(pending := w.txs[i].pending - multiset{k})])
  }

  function DoStep(env: Env, w: World, s: Step): Outcome<World>
    requires Enabled(w, s)
  {
    match s
    case Add(request, dialog, tt) => AddTransaction(env, w, request, dialog, tt)
    case Receive(m) => if m.Response? then ReceiveResponse(env, w, m) else ReceiveRequest(env, w, m)
    case Fire(i, k) => RunFsm(env, Expire(w, i, k), i, TimerEvent(k))
    case Answer(i, m, event) =>
      var (w1, _) :- ResponseWith(env, w, i, m, event);
      Ok(w1)
    case AckReceived(i) => RunFsm(env, w, i, EVENT_ACK)
  }

  const EmptyWorld := World([], [], [], [], [])

  /** `w'` is reached from `w` by `steps`, every one of them enabled and handled. */
  predicate Reaches(env: Env, w: World, steps: seq<Step>, w': World)
    decreases |steps|
  {
    if steps == [] then w' == w
    else Enabled(w, steps[0]) &&
         var r := DoStep(env, w, steps[0]);
         r.Ok? && Reaches(env, r.value, steps[1..], w')
  }
}
