/**
The events, states, actions and the four state tables of sip/Transaction.c, as the tables are written.
*/
module TransactionTables {
  import opened Common

  datatype State = INIT | TRYING | CALLING | PROCEEDING | COMPLETED | CONFIRMED | TERMINATED

  /** Position in the enumeration of include/Transaction.h. */
  function Order(s: State): nat {
    match s
    case INIT => 0
    case TRYING => 1
    case CALLING => 2
    case PROCEEDING => 3
    case COMPLETED => 4
    case CONFIRMED => 5
    case TERMINATED => 6
  }

  datatype TransactionType = ClientInvite | ClientNonInvite | ServerInvite | ServerNonInvite

  /** An event is a bit mask; a row entry matches an event when the masks share a bit. */
  type Event = bv32

  const SEND_RINGING: Event := 0x1
  const SEND_TRYING: Event := 0x2
  const SEND_OK: Event := 0x4
  const SEND_MOVED: Event := 0x8
  const SEND_REQUEST_TERMINATED: Event := 0x10
  const EVENT_NEW: Event := 0x20
  const EVENT_INIT: Event := 0x40
  const EVENT_ACK: Event := 0x80
  const EVENT_INVITE: Event := 0x100
  const EVENT_CANCEL: Event := 0x200
  const EVENT_1XX: Event := 0x800
  const EVENT_2XX: Event := 0x1000
  const EVENT_3XX: Event := 0x2000
  const EVENT_4XX: Event := 0x4000
  const EVENT_5XX: Event := 0x8000
  const EVENT_6XX: Event := 0x1_0000
  const RETRANSMIT_TIMER_FIRED: Event := 0x2_0000
  const TIMEOUT_TIMER_FIRED: Event := 0x4_0000
  const WAIT_FOR_RESPONSE_TIMER_FIRED: Event := 0x8_0000
  const WAIT_REQUEST_RETRANSMITS_TIMER_FIRED: Event := 0x10_0000
  const TRANSPORT_ERROR: Event := 0x20_0000

  datatype Action =
    | SendRequestMessage
    | ResendLatestResponse
    | SendAckRequest
    | ResponseWith100Trying
    | InformTU
    | IncRetransmit
    | ResetRetransmits
    | ClientInviteAddRetransmitTimer
    | ClientNonInviteAddRetransmitTimer
    | AddTimeoutTimer
    | AddWaitForResponseTimer
    | AddServerNonInviteWaitRequestRetransmitTimer

  datatype Entry = Entry(events: Event, next: State, actions: seq<Action>)

  /** A row of a table. Two rows of the source lack the entry that stops the scan (`terminated` is false). */
  datatype Row = Row(entries: seq<Entry>, terminated: bool)

  function ClientNonInviteRow(s: State): Option<Row> {
    match s
    case INIT => Some(Row([
      Entry(EVENT_INIT, TRYING, [SendRequestMessage, ClientNonInviteAddRetransmitTimer, AddTimeoutTimer]),
      Entry(TRANSPORT_ERROR, TERMINATED, [])], true))
    case TRYING => Some(Row([
      Entry(EVENT_2XX, COMPLETED, [AddWaitForResponseTimer, InformTU]),
      Entry(EVENT_1XX, PROCEEDING, [ResetRetransmits]),
      Entry(EVENT_4XX, COMPLETED, [AddWaitForResponseTimer, InformTU]),
      Entry(RETRANSMIT_TIMER_FIRED, TRYING, [SendRequestMessage, IncRetransmit, ClientNonInviteAddRetransmitTimer]),
      Entry(TIMEOUT_TIMER_FIRED, TERMINATED, []),
      Entry(TRANSPORT_ERROR, TERMINATED, [])], true))
    case PROCEEDING => Some(Row([
      Entry(EVENT_2XX, COMPLETED, [AddWaitForResponseTimer]),
      Entry(EVENT_1XX, PROCEEDING, []),
      Entry(RETRANSMIT_TIMER_FIRED, PROCEEDING, [SendRequestMessage, IncRetransmit, ClientNonInviteAddRetransmitTimer]),
      Entry(TRANSPORT_ERROR, TERMINATED, []),
      Entry(TIMEOUT_TIMER_FIRED, TERMINATED, [])], true))
    case COMPLETED => Some(Row([
      Entry(WAIT_FOR_RESPONSE_TIMER_FIRED, TERMINATED, [])], true))
    case _ => None
  }

  function ClientInviteRow(s: State): Option<Row> {
    match s
    case INIT => Some(Row([
      Entry(EVENT_INIT, CALLING, [SendRequestMessage, ClientNonInviteAddRetransmitTimer, AddTimeoutTimer]),
      Entry(TRANSPORT_ERROR, TERMINATED, [])], true))
    case CALLING => Some(Row([
      Entry(EVENT_2XX, TERMINATED, [InformTU]),
      Entry(EVENT_1XX, PROCEEDING, [ResetRetransmits]),
      Entry(RETRANSMIT_TIMER_FIRED, CALLING, [SendRequestMessage, IncRetransmit, ClientInviteAddRetransmitTimer]),
      Entry(TIMEOUT_TIMER_FIRED, TERMINATED, []),
      Entry(TRANSPORT_ERROR, TERMINATED, []),
      Entry(EVENT_3XX | EVENT_5XX | EVENT_6XX, COMPLETED, [AddWaitForResponseTimer])], true))
    case PROCEEDING => Some(Row([
      Entry(EVENT_3XX | EVENT_4XX | EVENT_5XX | EVENT_6XX, COMPLETED, [AddWaitForResponseTimer, SendAckRequest]),
      Entry(EVENT_2XX, TERMINATED, [InformTU]),
      Entry(EVENT_1XX, PROCEEDING, [InformTU])], true))
    case COMPLETED => Some(Row([
      Entry(EVENT_3XX | EVENT_4XX | EVENT_5XX | EVENT_6XX, COMPLETED, [SendAckRequest, AddWaitForResponseTimer]),
      Entry(TRANSPORT_ERROR, TERMINATED, []),
      Entry(WAIT_FOR_RESPONSE_TIMER_FIRED, TERMINATED, [])], true))
    case _ => None
  }

  function ServerInviteRow(s: State): Option<Row> {
    match s
    case INIT => Some(Row([
      Entry(EVENT_INIT, PROCEEDING, [ResponseWith100Trying]),
      Entry(TRANSPORT_ERROR, TERMINATED, [])], true))
    case PROCEEDING => Some(Row([
      Entry(SEND_TRYING, PROCEEDING, []),
      Entry(SEND_RINGING, PROCEEDING, []),
      Entry(EVENT_INVITE, PROCEEDING, [ResendLatestResponse]),
      Entry(TRANSPORT_ERROR, TERMINATED, []),
      Entry(SEND_REQUEST_TERMINATED, TERMINATED, []),
      Entry(SEND_OK, TERMINATED, []),
      Entry(SEND_MOVED, COMPLETED, [ClientNonInviteAddRetransmitTimer, AddTimeoutTimer])], true))
    case COMPLETED => Some(Row([
      Entry(EVENT_INVITE, COMPLETED, [ResendLatestResponse]),
      Entry(RETRANSMIT_TIMER_FIRED, COMPLETED, [ResendLatestResponse]),
      Entry(TIMEOUT_TIMER_FIRED, TERMINATED, []),
      Entry(TRANSPORT_ERROR, TERMINATED, []),
      Entry(EVENT_ACK, CONFIRMED, [AddWaitForResponseTimer])], true))
    case CONFIRMED => Some(Row([
      Entry(WAIT_FOR_RESPONSE_TIMER_FIRED, TERMINATED, [])], false))
    case _ => None
  }

  function ServerNonInviteRow(s: State): Option<Row> {
    match s
    case INIT => Some(Row([
      Entry(EVENT_INIT, TRYING, [])], true))
    case TRYING => Some(Row([
      Entry(SEND_RINGING, PROCEEDING, []),
      Entry(SEND_OK, COMPLETED, [AddServerNonInviteWaitRequestRetransmitTimer])], true))
    case PROCEEDING => Some(Row([
      Entry(SEND_RINGING, PROCEEDING, []),
      Entry(TRANSPORT_ERROR, TERMINATED, []),
      Entry(SEND_OK, COMPLETED, [AddServerNonInviteWaitRequestRetransmitTimer])], true))
    case COMPLETED => Some(Row([
      Entry(TRANSPORT_ERROR, TERMINATED, []),
      Entry(WAIT_REQUEST_RETRANSMITS_TIMER_FIRED, TERMINATED, [])], false))
    case _ => None
  }

  function RowOf(tt: TransactionType, s: State): Option<Row> {
    match tt
    case ClientInvite => ClientInviteRow(s)
    case ClientNonInvite => ClientNonInviteRow(s)
    case ServerInvite => ServerInviteRow(s)
    case ServerNonInvite => ServerNonInviteRow(s)
  }

  /** The states of a table, in the order in which it lists them. */
  function Fsm(tt: TransactionType): seq<State> {
    match tt
    case ClientInvite => [INIT, CALLING, PROCEEDING, COMPLETED]
    case ClientNonInvite => [INIT, TRYING, PROCEEDING, COMPLETED]
    case ServerInvite => [INIT, PROCEEDING, COMPLETED, CONFIRMED]
    case ServerNonInvite => [INIT, TRYING, PROCEEDING, COMPLETED]
  }

  /** LocateFsmState: the whole table is scanned and the last row of the state is taken. */
  function LocateFsmState(tt: TransactionType, states: seq<State>, s: State): Option<Row> {
    if states == [] then None
    else
      var later := LocateFsmState(tt, states[1..], s);
      if later.Some? || states[0] != s then later else RowOf(tt, s)
  }

  /** The row of a state in the table of a transaction type, if the table has one. */
  function FsmRow(tt: TransactionType, s: State): Option<Row> {
    LocateFsmState(tt, Fsm(tt), s)
  }

  lemma {:induction false} LocateFsmStateIs(tt: TransactionType, states: seq<State>, s: State)
    ensures LocateFsmState(tt, states, s) == if s in states then RowOf(tt, s) else None
  {
    if states != [] {
      LocateFsmStateIs(tt, states[1..], s);
    }
  }

  lemma FsmRowIs(tt: TransactionType, s: State)
    ensures FsmRow(tt, s) == RowOf(tt, s)
  {
    LocateFsmStateIs(tt, Fsm(tt), s);
    var states := Fsm(tt);
    assert states[0] in states && states[1] in states && states[2] in states && states[3] in states;
  }

  /** What a scan of a row ends in: an entry, no entry, or a read past the end of an unterminated row. */
  datatype Lookup = Found(entry: Entry) | NotFound | Overrun

  predicate Matches(e: Entry, event: Event) {
    e.events & event != 0
  }

  /** The first entry of `entries` that matches, as the scan meets it. */
  function Scan(entries: seq<Entry>, terminated: bool, event: Event): (r: Lookup)
    ensures r.Found? ==> r.entry in entries && Matches(r.entry, event)
  {
    if entries == [] then (if terminated then NotFound else Overrun)
    else if Matches(entries[0], event) then Found(entries[0])
    else Scan(entries[1..], terminated, event)
  }

  function Locate(tt: TransactionType, s: State, event: Event): Lookup {
    match FsmRow(tt, s)
    case None => NotFound
    case Some(row) => Scan(row.entries, row.terminated, event)
  }

  predicate Handles(tt: TransactionType, s: State, event: Event) {
    Locate(tt, s, event).Found?
  }

  // ---------- Nesting levels ----------

  /** How deep an action can raise events: 0 none, 1 TRANSPORT_ERROR or SEND_TRYING, 2 the INIT of a new transaction. */
  function ActionLevel(a: Action): nat {
    match a
    case InformTU => 2
    case SendRequestMessage => 1
    case ResendLatestResponse => 1
    case SendAckRequest => 1
    case ResponseWith100Trying => 1
    case _ => 0
  }

  predicate Sends(a: Action) {
    ActionLevel(a) == 1
  }

  function Level(acts: seq<Action>): (r: nat)
    ensures forall a | a in acts :: ActionLevel(a) <= r
  {
    if InformTU in acts then 2
    else if exists a | a in acts :: Sends(a) then 1
    else 0
  }

  /** The events with which a transaction is told that an answer has been sent. */
  predicate IsAnswer(event: Event) {
    || event == SEND_RINGING || event == SEND_TRYING || event == SEND_OK || event == SEND_MOVED
    || event == SEND_REQUEST_TERMINATED
  }

  const ANSWERS: Event := 0x1f

  lemma AnswerBits(events: Event, event: Event)
    requires IsAnswer(event) && events & event != 0
    ensures events & ANSWERS != 0
  {
  }

  /** The rank of an event: every entry an event selects raises only events of a lower rank. */
  function Rank(event: Event): nat {
    if event == TRANSPORT_ERROR || IsAnswer(event) then 0
    else if event == EVENT_INIT then 1
    else 2
  }

  // ---------- What the tables guarantee ----------

  /** The states that an entry with a sending action can lead to. */
  predicate SendingState(tt: TransactionType, s: State) {
    match tt
    case ClientNonInvite => s == TRYING || s == PROCEEDING
    case ClientInvite => s == CALLING || s == COMPLETED
    case ServerInvite => s == PROCEEDING || s == COMPLETED
    case ServerNonInvite => false
  }

  /** Where an entry can lead. */
  predicate Leads(tt: TransactionType, s: State, e: Entry) {
    && Order(s) <= Order(e.next)
    && e.next != INIT
    && (e.next != TERMINATED ==> RowOf(tt, e.next).Some?)
    && (tt == ServerInvite && e.next == COMPLETED ==> s == PROCEEDING || s == COMPLETED)
    && (tt == ServerInvite && e.next == PROCEEDING && s == INIT ==> e.actions == [ResponseWith100Trying])
  }

  /** The entries that nested events select neither send nor inform. */
  predicate NestedIsPlain(s: State, e: Entry) {
    && (e.events & ANSWERS != 0 ==> forall a | a in e.actions :: ActionLevel(a) == 0)
    && (Matches(e, TRANSPORT_ERROR) ==> e.actions == [] && e.next == TERMINATED)
    && (Matches(e, SEND_TRYING) ==> e.actions == [] && e.next == s)
    && (Matches(e, EVENT_INIT) ==> InformTU !in e.actions)
  }

  /** Where the actions that raise events stand. */
  predicate SendsPlaced(tt: TransactionType, e: Entry) {
    && (forall a | a in e.actions && Sends(a) :: SendingState(tt, e.next))
    && (ResponseWith100Trying in e.actions ==>
          e.actions == [ResponseWith100Trying] && tt == ServerInvite && e.next == PROCEEDING)
  }

  predicate ResendPlaced(tt: TransactionType, s: State, e: Entry) {
    ResendLatestResponse in e.actions ==> tt == ServerInvite && e.next == s && (s == PROCEEDING || s == COMPLETED)
  }

  predicate InformPlaced(s: State, e: Entry) {
    && (InformTU in e.actions ==> e.actions == [InformTU] || e.actions == [AddWaitForResponseTimer, InformTU])
    && (InformTU in e.actions && Matches(e, EVENT_2XX) ==> Order(s) < Order(COMPLETED) <= Order(e.next))
  }

  predicate InRow(tt: TransactionType, s: State, e: Entry) {
    RowOf(tt, s).Some? && e in RowOf(tt, s).value.entries
  }

  lemma EntryLeads(tt: TransactionType, s: State, e: Entry)
    requires InRow(tt, s, e)
    ensures Leads(tt, s, e)
  {
    match tt
    case ClientInvite => ClientInviteLeads(s, e);
    case ClientNonInvite => ClientNonInviteLeads(s, e);
    case ServerInvite => ServerInviteLeads(s, e);
    case ServerNonInvite => ServerNonInviteLeads(s, e);
  }

  lemma ClientInviteLeads(s: State, e: Entry)
    requires InRow(ClientInvite, s, e)
    ensures Leads(ClientInvite, s, e)
  {
  }

  lemma ClientNonInviteLeads(s: State, e: Entry)
    requires InRow(ClientNonInvite, s, e)
    ensures Leads(ClientNonInvite, s, e)
  {
  }

  lemma ServerInviteLeads(s: State, e: Entry)
    requires InRow(ServerInvite, s, e)
    ensures Leads(ServerInvite, s, e)
  {
  }

  lemma ServerNonInviteLeads(s: State, e: Entry)
    requires InRow(ServerNonInvite, s, e)
    ensures Leads(ServerNonInvite, s, e)
  {
  }

  lemma EntryPlain(tt: TransactionType, s: State, e: Entry)
    requires InRow(tt, s, e)
    ensures NestedIsPlain(s, e)
  {
    match tt
    case ClientInvite => ClientInvitePlain(s, e);
    case ClientNonInvite => ClientNonInvitePlain(s, e);
    case ServerInvite => ServerInvitePlain(s, e);
    case ServerNonInvite => ServerNonInvitePlain(s, e);
  }

  lemma ClientInvitePlain(s: State, e: Entry)
    requires InRow(ClientInvite, s, e)
    ensures NestedIsPlain(s, e)
  {
  }

  lemma ClientNonInvitePlain(s: State, e: Entry)
    requires InRow(ClientNonInvite, s, e)
    ensures NestedIsPlain(s, e)
  {
  }

  lemma ServerInvitePlain(s: State, e: Entry)
    requires InRow(ServerInvite, s, e)
    ensures NestedIsPlain(s, e)
  {
  }

  lemma ServerNonInvitePlain(s: State, e: Entry)
    requires InRow(ServerNonInvite, s, e)
    ensures NestedIsPlain(s, e)
  {
  }

  lemma EntrySends(tt: TransactionType, s: State, e: Entry)
    requires InRow(tt, s, e)
    ensures SendsPlaced(tt, e)
  {
    if tt == ClientInvite || tt == ClientNonInvite { ClientEntrySends(tt, s, e); } else { ServerEntrySends(tt, s, e); }
  }

  lemma ClientEntrySends(tt: TransactionType, s: State, e: Entry)
    requires (tt == ClientInvite || tt == ClientNonInvite) && InRow(tt, s, e)
    ensures SendsPlaced(tt, e)
  {
  }

  lemma ServerEntrySends(tt: TransactionType, s: State, e: Entry)
    requires (tt == ServerInvite || tt == ServerNonInvite) && InRow(tt, s, e)
    ensures SendsPlaced(tt, e)
  {
  }

  lemma EntryResends(tt: TransactionType, s: State, e: Entry)
    requires InRow(tt, s, e)
    ensures ResendPlaced(tt, s, e)
  {
  }

  lemma EntryInforms(tt: TransactionType, s: State, e: Entry)
    requires InRow(tt, s, e)
    ensures InformPlaced(s, e)
  {
    if tt == ClientInvite { InviteEntryInforms(s, e); } else { OtherEntryInforms(tt, s, e); }
  }

  lemma InviteEntryInforms(s: State, e: Entry)
    requires InRow(ClientInvite, s, e)
    ensures InformPlaced(s, e)
  {
  }

  lemma OtherEntryInforms(tt: TransactionType, s: State, e: Entry)
    requires tt != ClientInvite && InRow(tt, s, e)
    ensures InformPlaced(s, e)
  {
  }

  predicate EntryOk(tt: TransactionType, s: State, e: Entry) {
    Leads(tt, s, e) && NestedIsPlain(s, e) && SendsPlaced(tt, e) && ResendPlaced(tt, s, e) && InformPlaced(s, e)
  }

  /** Everything else about nesting and termination is derived from these facts about the entries. */
  lemma TableEntry(tt: TransactionType, s: State, e: Entry)
    requires FsmRow(tt, s).Some? && e in FsmRow(tt, s).value.entries
    ensures EntryOk(tt, s, e)
    ensures forall event | IsAnswer(event) && Matches(e, event) :: e.events & ANSWERS != 0
    ensures e.next != TERMINATED ==> FsmRow(tt, e.next).Some?
  {
    FsmRowIs(tt, s);
    FsmRowIs(tt, e.next);
    EntryLeads(tt, s, e);
    EntryPlain(tt, s, e);
    EntrySends(tt, s, e);
    EntryResends(tt, s, e);
    EntryInforms(tt, s, e);
    forall event | IsAnswer(event) && Matches(e, event) ensures e.events & ANSWERS != 0 {
      AnswerBits(e.events, event);
    }
  }

  // ---------- What a scan finds ----------

  lemma {:induction false} ScanFinds(entries: seq<Entry>, terminated: bool, event: Event)
    ensures Scan(entries, terminated, event).Found? <==> exists e | e in entries :: Matches(e, event)
  {
    if entries != [] {
      ScanFinds(entries[1..], terminated, event);
      assert forall e :: e in entries <==> e == entries[0] || e in entries[1..];
    }
  }

  /** A state handles an event when its row holds a matching entry; a scan that fails runs over only where the terminator is missing. */
  lemma HandlesMeansEntry(tt: TransactionType, s: State, event: Event)
    ensures Handles(tt, s, event) <==>
            FsmRow(tt, s).Some? && exists e | e in FsmRow(tt, s).value.entries :: Matches(e, event)
  {
    if FsmRow(tt, s).Some? {
      ScanFinds(FsmRow(tt, s).value.entries, FsmRow(tt, s).value.terminated, event);
    }
  }

  lemma SendingStateRows(tt: TransactionType, s: State)
    requires SendingState(tt, s)
    ensures RowOf(tt, s).Some? && Entry(TRANSPORT_ERROR, TERMINATED, []) in RowOf(tt, s).value.entries
    ensures tt == ServerInvite && s == PROCEEDING ==> Entry(SEND_TRYING, PROCEEDING, []) in RowOf(tt, s).value.entries
  {
    var row := RowOf(tt, s).value.entries;
    assert tt == ClientNonInvite && s == TRYING ==> row[5] == Entry(TRANSPORT_ERROR, TERMINATED, []);
    assert tt == ClientNonInvite && s == PROCEEDING ==> row[3] == Entry(TRANSPORT_ERROR, TERMINATED, []);
    assert tt == ClientInvite && s == CALLING ==> row[4] == Entry(TRANSPORT_ERROR, TERMINATED, []);
    assert tt == ClientInvite && s == COMPLETED ==> row[1] == Entry(TRANSPORT_ERROR, TERMINATED, []);
    assert tt == ServerInvite ==> row[3] == Entry(TRANSPORT_ERROR, TERMINATED, []);
  }

  lemma SendingStatesHandle(tt: TransactionType, s: State)
    requires SendingState(tt, s)
    ensures Handles(tt, s, TRANSPORT_ERROR)
    ensures tt == ServerInvite && s == PROCEEDING ==> Handles(tt, s, SEND_TRYING)
  {
    FsmRowIs(tt, s);
    SendingStateRows(tt, s);
    HandlesMeansEntry(tt, s, TRANSPORT_ERROR);
    HandlesMeansEntry(tt, s, SEND_TRYING);
    assert Matches(Entry(TRANSPORT_ERROR, TERMINATED, []), TRANSPORT_ERROR);
    assert Matches(Entry(SEND_TRYING, PROCEEDING, []), SEND_TRYING);
  }

  /** Every entry with a sending action leads to a state whose row handles what the send can raise. */
  predicate NestedHandled(tt: TransactionType, e: Entry) {
    && (forall a | a in e.actions && Sends(a) :: Handles(tt, e.next, TRANSPORT_ERROR))
    && (ResponseWith100Trying in e.actions ==>
          e.actions == [ResponseWith100Trying] && Handles(tt, e.next, SEND_TRYING))
  }

  lemma TableNestedHandled(tt: TransactionType, s: State, e: Entry)
    requires FsmRow(tt, s).Some? && e in FsmRow(tt, s).value.entries
    ensures NestedHandled(tt, e)
  {
    TableEntry(tt, s, e);
    if SendingState(tt, e.next) {
      SendingStatesHandle(tt, e.next);
    }
  }
}
