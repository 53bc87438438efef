/**
Sends: what a failed one does, of an action and of an answer, and how duplicate INVITEs are answered.
*/
module TransactionDelivery {
  import opened Common
  import opened TransactionTables
  import opened TransactionSpec
  import opened TransactionFlat
  import opened TransactionEffect
  import opened TransactionSafety
  import opened TransactionSteps

  // ---------- A send that fails ----------

  /** The message that a sending action puts on the wire. */
  function Sent(env: Env, n: nat, tx: Tx, a: Action): Message
    requires Sends(a) && (a == ResendLatestResponse ==> tx.responses != [])
  {
    match a
    case SendRequestMessage => tx.request
    case ResendLatestResponse => LatestResponse(tx).value
    case SendAckRequest => AckFor(tx, env.tag(n))
    case ResponseWith100Trying => BuildResponse(tx.request, 100, env.tag(n))
  }

  predicate IsLocal(a: Action) {
    ActionLevel(a) == 0
  }

  lemma {:induction false} LocalsAreFlat(env: Env, w: World, i: nat, acts: seq<Action>, p: nat)
    requires i < |w.txs| && p <= |acts| && forall q | 0 <= q < p :: IsLocal(acts[q])
    ensures FlatActs(env, w, i, acts) == FlatActs(env, SetTx(w, i, Locals(w.txs[i], acts[..p])), i, acts[p..])
    decreases p
  {
    if p == 0 {
      assert SetTx(w, i, w.txs[i]) == w && acts[0..] == acts;
    } else {
      var w1 := SetTx(w, i, LocalAction(acts[0], w.txs[i]));
      LocalsAreFlat(env, w1, i, acts[1..], p - 1);
      assert acts[..p][1..] == acts[1..][..p - 1] && acts[1..][p - 1..] == acts[p..];
      assert SetTx(w1, i, Locals(w1.txs[i], acts[1..][..p - 1])) == SetTx(w, i, Locals(w.txs[i], acts[..p]));
    }
  }

  lemma FailedSendActs(env: Env, w: World, i: nat, acts: seq<Action>)
    requires i < |w.txs| && acts != [] && Sends(acts[0]) && !env.net(|w.wire|)
    requires acts[0] == ResendLatestResponse ==> w.txs[i].responses != []
    requires acts[0] == ResponseWith100Trying ==> |acts| == 1
    ensures FlatActs(env, w, i, acts) ==
      var tx := w.txs[i];
      Kill(SetTx(w, i, tx.(responses := tx.responses + Recorded(env, |w.wire|, tx, acts[0])))
             .(wire := w.wire + [Sent(env, |w.wire|, tx, acts[0])]), i)
  {
    var tx := w.txs[i];
    assert tx.responses + [] == tx.responses;
    assert SetTx(w, i, tx) == w;
    if acts[0] == ResponseWith100Trying {
      assert acts[1..] == [];
    }
  }

  /** The world that a failed send of action `p` of entry `e` leaves. */
  function FailedWorld(env: Env, w: World, i: nat, event: Event, e: Entry, p: nat): World
    requires i < |w.txs| && p < |e.actions| && Sends(e.actions[p])
    requires e.actions[p] == ResendLatestResponse ==>
               Locals(w.txs[i].(curEvent := event, state := e.next), e.actions[..p]).responses != []
  {
    var tx := Locals(w.txs[i].(curEvent := event, state := e.next), e.actions[..p]);
    World(w.txs[i := tx.(responses := tx.responses + Recorded(env, |w.wire|, tx, e.actions[p]),
                         curEvent := TRANSPORT_ERROR, state := TERMINATED)],
          RemoveFirst(w.list, i),
          w.destroyed + [i],
          w.wire + [Sent(env, |w.wire|, tx, e.actions[p])],
          w.tuCalls)
  }

  lemma {:induction false} LocalsKeep(tx: Tx, acts: seq<Action>)
    ensures Locals(tx, acts).responses == tx.responses && Locals(tx, acts).state == tx.state
    decreases |acts|
  {
    if acts != [] {
      LocalsKeep(LocalAction(acts[0], tx), acts[1..]);
    }
  }

  /**
  Theorem: at whatever depth an event is handled, when the first send of its entry fails, the transaction is terminated,
  taken off the list and destroyed once; the actions before the send have been done, and none after it: nothing is
  counted, armed or told. For the 100 response the failure is not even reported, and nothing else is done all the same.
  */
  lemma FailedSend(env: Env, w: World, i: nat, event: Event, p: nat)
    requires Listed(w) && i < |w.txs| && i in w.list && HandledBy(w.txs[i], event)
    requires var acts := Locate(w.txs[i].ttype, w.txs[i].state, event).entry.actions;
      && p < |acts| && Sends(acts[p]) && (forall q | 0 <= q < p :: !Sends(acts[q]))
      && (ResendLatestResponse in acts ==> w.txs[i].responses != [])
    requires !env.net(|w.wire|)
    ensures var e := Locate(w.txs[i].ttype, w.txs[i].state, event).entry;
      var tx := Locals(w.txs[i].(curEvent := event, state := e.next), e.actions[..p]);
      && (e.actions[p] == ResendLatestResponse ==> tx.responses != [])
      && RunFsm(env, w, i, event) == Ok(FailedWorld(env, w, i, event, e, p))
      && i !in FailedWorld(env, w, i, event, e, p).list
  {
    var tx := w.txs[i];
    var e := Locate(tx.ttype, tx.state, event).entry;
    TableEntry(tx.ttype, tx.state, e);
    assert e.actions[p] in e.actions;
    NobodyCalled(env, Enter(w, i, event, e.next), i, e.actions);
    RunIsFlat(env, w, i, event);
    FailedRun(env, w, i, event, e, p);
  }

  /** Starting a transaction whose first send fails, as a step of its own or inside a callback. */
  lemma FailedStart(env: Env, w: World, request: Message, dialog: Option<nat>, tt: TransactionType)
    requires Listed(w) && tt != ServerNonInvite && !env.net(|w.wire|)
    ensures var n := |w.txs|;
      var r := AddTransaction(env, w, request, dialog, tt);
      && r.Ok? && |r.value.txs| == n + 1 && r.value.txs[..n] == w.txs
      && r.value.txs[n].state == TERMINATED && r.value.txs[n].armed == [] && r.value.txs[n].retransmits == 0
      && r.value.list == w.list && r.value.destroyed == w.destroyed + [n]
      && |r.value.wire| == |w.wire| + 1 && r.value.tuCalls == w.tuCalls
  {
    AddIsFlat(env, w, request, dialog, tt);
    RemoveLast(w.list, |w.txs|);
  }

  lemma {:induction false} RemoveLast(list: seq<nat>, n: nat)
    requires forall a | 0 <= a < |list| :: list[a] < n
    ensures n in list + [n] && RemoveFirst(list + [n], n) == list
  {
    if list != [] {
      assert (list + [n])[1..] == list[1..] + [n];
      RemoveLast(list[1..], n);
    }
  }

  lemma FailedRun(env: Env, w: World, i: nat, event: Event, e: Entry, p: nat)
    requires Listed(w) && i < |w.txs| && i in w.list
    requires p < |e.actions| && Sends(e.actions[p]) && forall q | 0 <= q < p :: !Sends(e.actions[q])
    requires InformsLast(e.actions) && (ResponseWith100Trying in e.actions ==> e.actions == [ResponseWith100Trying])
    requires e.actions[p] == ResendLatestResponse ==> w.txs[i].responses != []
    requires !env.net(|w.wire|)
    ensures e.actions[p] == ResendLatestResponse ==>
              Locals(w.txs[i].(curEvent := event, state := e.next), e.actions[..p]).responses != []
    ensures FlatRun(env, w, i, event, e) == FailedWorld(env, w, i, event, e, p)
    ensures i !in FailedWorld(env, w, i, event, e, p).list
  {
    LocalsKeep(w.txs[i].(curEvent := event, state := e.next), e.actions[..p]);
    FailedEntry(env, Enter(w, i, event, e.next), i, e, p);
    RemoveKeepsListed(w, i);
  }

  lemma FailedEntry(env: Env, w: World, i: nat, e: Entry, p: nat)
    requires i < |w.txs| && p < |e.actions| && Sends(e.actions[p]) && forall q | 0 <= q < p :: !Sends(e.actions[q])
    requires InformsLast(e.actions) && (ResponseWith100Trying in e.actions ==> e.actions == [ResponseWith100Trying])
    requires e.actions[p] == ResendLatestResponse ==> w.txs[i].responses != []
    requires !env.net(|w.wire|)
    ensures var tx := Locals(w.txs[i], e.actions[..p]);
      && (e.actions[p] == ResendLatestResponse ==> tx.responses != [])
      && FlatActs(env, w, i, e.actions) ==
           Kill(SetTx(w, i, tx.(responses := tx.responses + Recorded(env, |w.wire|, tx, e.actions[p])))
                  .(wire := w.wire + [Sent(env, |w.wire|, tx, e.actions[p])]), i)
  {
    var acts := e.actions;
    assert InformTU !in acts;
    forall q | 0 <= q < p ensures IsLocal(acts[q]) {
      assert acts[q] in acts;
    }
    var w1 := SetTx(w, i, Locals(w.txs[i], acts[..p]));
    LocalsKeep(w.txs[i], acts[..p]);
    LocalsAreFlat(env, w, i, acts, p);
    assert acts[p..][0] == acts[p] && acts[p] in acts;
    FailedSendActs(env, w1, i, acts[p..]);
  }

  // ---------- An answer whose send fails ----------

  /**
  Theorem: an answer of a listed server transaction whose send fails aborts exactly in the non-INVITE state TRYING, whose
  row lacks TRANSPORT_ERROR, and reads past the end of its row exactly in the INVITE state CONFIRMED.
  */
  lemma FailedAnswer(env: Env, w: World, i: nat, m: Message, event: Event)
    requires Inv(w, {}) && i in w.list && i < |w.txs| && !IsClient(w.txs[i]) && !env.net(|w.wire|)
    ensures var r, tx := DoStep(env, w, Answer(i, m, event)), w.txs[i];
      && (r == AssertFailed <==> tx.ttype == ServerNonInvite && tx.state == TRYING)
      && (r == ReadOverrun <==> tx.ttype == ServerInvite && tx.state == CONFIRMED)
  {
    assert Settled(w, i);
    ResponseWithUnfolds(env, w, i, m, event);
    HandledAnswer(env, w, i, m, event);
    ServerErrors(w.txs[i].ttype, w.txs[i].state);
  }

  /** What the rows of the servers make of a transport error. */
  lemma ServerErrors(tt: TransactionType, s: State)
    requires (tt == ServerInvite || tt == ServerNonInvite) && s != INIT && FsmRow(tt, s).Some?
    ensures Locate(tt, s, TRANSPORT_ERROR) ==
      if tt == ServerNonInvite && s == TRYING then NotFound
      else if tt == ServerInvite && s == CONFIRMED then Overrun
      else Found(Entry(TRANSPORT_ERROR, TERMINATED, []))
  {
    FsmRowIs(tt, s);
    if tt == ServerInvite { InviteServerErrors(s); } else { OtherServerErrors(s); }
  }

  lemma InviteServerErrors(s: State)
    requires s != INIT && ServerInviteRow(s).Some?
    ensures var row := ServerInviteRow(s).value;
      Scan(row.entries, row.terminated, TRANSPORT_ERROR) ==
        if s == CONFIRMED then Overrun else Found(Entry(TRANSPORT_ERROR, TERMINATED, []))
  {
    var row := ServerInviteRow(s).value;
    if s == CONFIRMED {
      ScanNone(row.entries, row.terminated, TRANSPORT_ERROR);
    } else {
      ScanAt(row.entries, row.terminated, TRANSPORT_ERROR, 3);
    }
  }

  lemma OtherServerErrors(s: State)
    requires s != INIT && ServerNonInviteRow(s).Some?
    ensures var row := ServerNonInviteRow(s).value;
      Scan(row.entries, row.terminated, TRANSPORT_ERROR) ==
        if s == TRYING then NotFound else Found(Entry(TRANSPORT_ERROR, TERMINATED, []))
  {
    var row := ServerNonInviteRow(s).value;
    if s == TRYING {
      ScanNone(row.entries, row.terminated, TRANSPORT_ERROR);
    } else {
      ScanAt(row.entries, row.terminated, TRANSPORT_ERROR, if s == PROCEEDING then 1 else 0);
    }
  }

  /** A scan ends at the first entry that matches. */
  lemma {:induction false} ScanAt(entries: seq<Entry>, terminated: bool, event: Event, a: nat)
    requires a < |entries| && Matches(entries[a], event) && forall b | 0 <= b < a :: !Matches(entries[b], event)
    ensures Scan(entries, terminated, event) == Found(entries[a])
    decreases a
  {
    if a > 0 {
      ScanAt(entries[1..], terminated, event, a - 1);
    }
  }

  lemma {:induction false} ScanNone(entries: seq<Entry>, terminated: bool, event: Event)
    requires forall b | 0 <= b < |entries| :: !Matches(entries[b], event)
    ensures Scan(entries, terminated, event) == if terminated then NotFound else Overrun
  {
    if entries != [] {
      ScanNone(entries[1..], terminated, event);
    }
  }

  /**
  Theorem: a new request that the user serves at once with a non-INVITE transaction and a final answer, as it does a BYE,
  aborts exactly if the answer cannot be sent.
  */
  lemma ServedAtOnce(env: Env, w: World, m: Message, dialog: Option<nat>, answer: Message)
    requires Inv(w, {}) && m.Request? && MatchRequest(w, m) == None
    requires m.verb != INVITE && m.verb != ACK && m.verb != REGISTER
    requires env.tu(|w.tuCalls|) == [Serve(m, dialog, false, [Reply(answer, SEND_OK)])]
    ensures var r := DoStep(env, w, Receive(m));
      && (r.Ok? <==> env.net(|w.wire|))
      && (!env.net(|w.wire|) ==> r == AssertFailed)
      && (r.Ok? ==> |r.value.txs| == |w.txs| + 1 && r.value.txs[|w.txs|].state == COMPLETED && r.value.wire == w.wire + [answer])
  {
    var w0 := w.(tuCalls := w.tuCalls + [NewCall(m)]);
    var acts := env.tu(|w.tuCalls|);
    ServeOnce(env, w0, m, dialog, answer);
    ServesOnly(env, w0, acts, m, dialog, [Reply(answer, SEND_OK)]);
  }

  lemma ServesOnly(env: Env, w: World, acts: seq<TuAct>, m: Message, dialog: Option<nat>, replies: seq<Reply>)
    requires acts == [Serve(m, dialog, false, replies)]
    ensures TuActs(env, w, acts) == ServeRequest(env, w, m, dialog, ServerNonInvite, replies)
  {
    assert acts[0] == Serve(m, dialog, false, replies) && acts[1..] == [];
    assert forall u :: TuActs(env, u, []) == Ok(u);
  }

  lemma ServeOnce(env: Env, w: World, m: Message, dialog: Option<nat>, answer: Message)
    requires Listed(w) && !Refused(m, ServerNonInvite)
    ensures var r := ServeRequest(env, w, m, dialog, ServerNonInvite, [Reply(answer, SEND_OK)]);
      && (r.Ok? <==> env.net(|w.wire|))
      && (!env.net(|w.wire|) ==> r == AssertFailed)
      && (r.Ok? ==> |r.value.txs| == |w.txs| + 1 && r.value.txs[|w.txs|].state == COMPLETED && r.value.wire == w.wire + [answer])
  {
    var w1 := FlatAdd(env, w, m, dialog, ServerNonInvite);
    AddIsFlat(env, w, m, dialog, ServerNonInvite);
    AnswerInTrying(env, w1, |w.txs|, answer);
    AnswerOnce(env, w1, |w.txs|, Reply(answer, SEND_OK));
  }

  lemma AnswerInTrying(env: Env, w: World, i: nat, answer: Message)
    requires i < |w.txs| && w.txs[i].ttype == ServerNonInvite && w.txs[i].state == TRYING
    ensures var r := ResponseWith(env, w, i, answer, SEND_OK);
      && (r.Ok? <==> env.net(|w.wire|))
      && (!env.net(|w.wire|) ==> r == AssertFailed)
      && (r.Ok? ==> |r.value.0.txs| == |w.txs| && r.value.0.txs[i].state == COMPLETED && r.value.0.wire == w.wire + [answer])
  {
    TryingAnswers();
    var w0 := AddResponse(w, i, answer);
    if env.net(|w.wire|) {
      AnswerIsFlat(env, w0.(wire := w0.wire + [answer]), i, SEND_OK);
    }
  }

  lemma TryingAnswers()
    ensures Locate(ServerNonInvite, TRYING, SEND_OK) == Found(Entry(SEND_OK, COMPLETED, [AddServerNonInviteWaitRequestRetransmitTimer]))
    ensures Locate(ServerNonInvite, TRYING, TRANSPORT_ERROR) == NotFound
  {
    FsmRowIs(ServerNonInvite, TRYING);
    ServerErrors(ServerNonInvite, TRYING);
    var row := ServerNonInviteRow(TRYING).value;
    ScanAt(row.entries, row.terminated, SEND_OK, 1);
  }

  lemma AnswerOnce(env: Env, w: World, i: nat, r: Reply)
    requires i < |w.txs|
    ensures var one := ResponseWith(env, w, i, r.message, r.event);
      AnswerAll(env, w, i, [r]) == match one
        case Ok(p) => Ok(p.0)
        case AssertFailed => AssertFailed
        case ReadOverrun => ReadOverrun
  {
    assert [r][1..] == [];
  }

  // ---------- Runs ----------

  ghost predicate SendsSucceed(env: Env, from: nat, n: nat) {
    forall k: nat | from <= k < from + n :: env.net(k)
  }

  lemma StepKeepsInv(env: Env, w: World, s: Step)
    requires Inv(w, {}) && Enabled(w, s) && DoStep(env, w, s).Ok?
    ensures Inv(DoStep(env, w, s).value, {})
  {
    StepTheorem(env, w, s);
  }

  lemma FirstStep(env: Env, w: World, steps: seq<Step>, w1: World, w': World)
    requires steps != [] && Enabled(w, steps[0]) && DoStep(env, w, steps[0]) == Ok(w1) && Reaches(env, w1, steps[1..], w')
    ensures Reaches(env, w, steps, w')
  {
  }

  // ---------- Duplicate INVITEs ----------

  predicate Answers(tx: Tx) {
    tx.ttype == ServerInvite && (tx.state == PROCEEDING || tx.state == COMPLETED)
  }

  lemma DuplicateEntry(s: State)
    requires s == PROCEEDING || s == COMPLETED
    ensures var l := Locate(ServerInvite, s, EVENT_INVITE);
      l.Found? && l.entry.next == s && l.entry.actions == [ResendLatestResponse]
  {
    FsmRowIs(ServerInvite, s);
    HandlesMeansEntry(ServerInvite, s, EVENT_INVITE);
    var row := RowOf(ServerInvite, s).value.entries;
    var k := if s == PROCEEDING then 2 else 0;
    assert row[k].events == EVENT_INVITE && row[k] in row;
  }

  /** The world after `n` duplicates of the request of transaction `i`. */
  function AfterDuplicates(w: World, i: nat, n: nat): World
    requires i < |w.txs| && w.txs[i].responses != []
  {
    if n == 0 then w
    else SetTx(w, i, w.txs[i].(curEvent := EVENT_INVITE))
           .(wire := w.wire + seq(n, _ => LatestResponse(w.txs[i]).value))
  }

  lemma ResendIsFlat(env: Env, w: World, i: nat, e: Entry)
    requires i < |w.txs| && Answers(w.txs[i]) && w.txs[i].responses != [] && env.net(|w.wire|)
    requires e.next == w.txs[i].state && e.actions == [ResendLatestResponse]
    ensures FlatRun(env, w, i, EVENT_INVITE, e) == AfterDuplicates(w, i, 1)
  {
    var latest := LatestResponse(w.txs[i]).value;
    assert [ResendLatestResponse][1..] == [];
    assert seq(1, _ => latest) == [latest];
  }

  lemma DuplicateStep(env: Env, w: World, i: nat, m: Message)
    requires Inv(w, {}) && i < |w.txs| && Answers(w.txs[i]) && env.net(|w.wire|)
    requires m.Request? && m.verb == INVITE && MatchRequest(w, m) == Some(i)
    ensures w.txs[i].responses != []
    ensures DoStep(env, w, Receive(m)) == Ok(AfterDuplicates(w, i, 1))
  {
    assert Settled(w, i);
    DuplicateEntry(w.txs[i].state);
    RunIsFlat(env, w, i, EVENT_INVITE);
    ResendIsFlat(env, w, i, Locate(ServerInvite, w.txs[i].state, EVENT_INVITE).entry);
  }

  /** Matching looks only at the list and the requests. */
  lemma {:induction false} SameMatch(w: World, w1: World, list: seq<nat>, branch: string, method': Method)
    requires |w.txs| == |w1.txs| && forall k: nat | k < |w.txs| :: w.txs[k].request == w1.txs[k].request
    ensures GetTransaction(w, list, branch, method') == GetTransaction(w1, list, branch, method')
  {
    if list != [] {
      SameMatch(w, w1, list[1..], branch, method');
    }
  }

  /** Requests that are received one after the other. */
  function Receipts(ms: seq<Message>): (r: seq<Step>)
    ensures |r| == |ms|
  {
    if ms == [] then [] else [Receive(ms[0])] + Receipts(ms[1..])
  }

  ghost predicate Duplicates(w: World, i: nat, ms: seq<Message>) {
    forall m | m in ms :: m.Request? && m.verb == INVITE && MatchRequest(w, m) == Some(i)
  }

  lemma StillDuplicates(w: World, i: nat, ms: seq<Message>)
    requires i < |w.txs| && w.txs[i].responses != [] && Duplicates(w, i, ms)
    ensures Duplicates(AfterDuplicates(w, i, 1), i, ms)
  {
    forall m | m in ms ensures MatchRequest(AfterDuplicates(w, i, 1), m) == Some(i) {
      SameMatch(w, AfterDuplicates(w, i, 1), w.list, m.branch, INVITE);
    }
  }

  lemma DuplicateFirst(env: Env, w: World, i: nat, ms: seq<Message>)
    requires Inv(w, {}) && i < |w.txs| && Answers(w.txs[i]) && w.txs[i].responses != []
    requires ms != [] && Duplicates(w, i, ms) && env.net(|w.wire|)
    requires Reaches(env, AfterDuplicates(w, i, 1), Receipts(ms[1..]), AfterDuplicates(AfterDuplicates(w, i, 1), i, |ms| - 1))
    ensures Reaches(env, w, Receipts(ms), AfterDuplicates(w, i, |ms|))
  {
    DuplicateStep(env, w, i, ms[0]);
    OneDuplicateMore(w, i, |ms|);
    assert Receipts(ms)[1..] == Receipts(ms[1..]);
    FirstStep(env, w, Receipts(ms), AfterDuplicates(w, i, 1), AfterDuplicates(w, i, |ms|));
  }

  lemma DuplicateKeepsInv(env: Env, w: World, i: nat, m: Message)
    requires Inv(w, {}) && i < |w.txs| && Answers(w.txs[i]) && env.net(|w.wire|)
    requires m.Request? && m.verb == INVITE && MatchRequest(w, m) == Some(i)
    ensures w.txs[i].responses != [] && Inv(AfterDuplicates(w, i, 1), {})
  {
    DuplicateStep(env, w, i, m);
    StepKeepsInv(env, w, Receive(m));
  }

  /**
  Theorem: any number of duplicate INVITEs leaves the state, the responses and the list of a server INVITE transaction
  unchanged and puts one copy of the same latest response on the wire for each.
  */
  lemma {:induction false} DuplicateInvites(env: Env, w: World, i: nat, ms: seq<Message>)
    requires Inv(w, {}) && i < |w.txs| && Answers(w.txs[i])
    requires Duplicates(w, i, ms) && SendsSucceed(env, |w.wire|, |ms|)
    ensures w.txs[i].responses != []
    ensures Reaches(env, w, Receipts(ms), AfterDuplicates(w, i, |ms|))
    decreases |ms|
  {
    assert Settled(w, i);
    if ms != [] {
      DuplicateKeepsInv(env, w, i, ms[0]);
      StillDuplicates(w, i, ms);
      DuplicateInvites(env, AfterDuplicates(w, i, 1), i, ms[1..]);
      DuplicateFirst(env, w, i, ms);
    }
  }

  lemma OneDuplicateMore(w: World, i: nat, n: nat)
    requires i < |w.txs| && w.txs[i].responses != [] && 0 < n
    ensures AfterDuplicates(AfterDuplicates(w, i, 1), i, n - 1) == AfterDuplicates(w, i, n)
  {
    var latest := LatestResponse(w.txs[i]).value;
    assert w.wire + seq(1, _ => latest) + seq(n - 1, _ => latest) == w.wire + seq(n, _ => latest);
  }
}
