# Verification of the SIP stack's protocol and support code

This project models five parts of the SIP phone and proves properties of them for all inputs and all runs:

1. **The transaction layer** (`sip/Transaction.c`, `sip/TransactionManager.c`). `TransactionTables` holds the four state
   tables as they are written. `TransactionSpec` says as functions what the interpreter does to the whole world of
   transactions, with the events that an action raises while another event is being handled; failures of a send, callbacks
   and tags are arbitrary oracles. `TransactionFlat` proves that this re-entrant interpreter equals a flat one that never nests.
   `TransactionEffect`, `TransactionSafety`, `TransactionSteps` and `TransactionRuns` give the effect of one call and the
   invariant of the manager over every run; `TransactionInvite`, `TransactionTimers`, `TransactionDelivery` and
   `TransactionSchedule` give the facts about responses and ACKs, about timers, about failed sends and duplicates, and about
   the schedule of the retransmissions. `TransactionResponses` and `TransactionRequests` say in states, status codes,
   messages and milliseconds, without the tables, what every response, request, answer, timer and start does.
   `TransactionLayer` is the program itself, classes whose fields are updated in place and methods with the loops of the
   source, each proved against its function. A transaction user may, inside a callback, start transactions and answer those
   it starts, as it does for a BYE.
2. **MD5** (`utils/md5.c`). `Md5Spec` is the digest of RFC 1321, sections 3.1 to 3.5, as a loop of 64 steps; `Md5` has the
   macros, the 64 unrolled lines and the streaming context; `Md5Words` the words of any width of 32 bits or more, what their
   operations are bit by bit, and which numbers they read from bytes.
3. **The header codec** (`sip/Parser.c`, `sip/Parameter.c`, `sip/WWW_AuthenticationHeader.c`). `CodecText` has the C strings
   and numbers, `CodecPattern` the pattern tables and when reading undoes printing, `CodecTables` the tables of the status
   line, CSeq, the headers that are a number, parameters and authentication headers, `CodecParameters` the parameter list as
   a map, and `CodecParser` the loops of the source.
4. **The doubly linked list** (`utils/list/src`). `LinkedList` has the nodes with their links in both directions, and deletion.
5. **The leak detector's table** (`cpputest/src/CppUTest/MemoryLeakDetector.cpp`). `LeakTable` has the 73 lists, their
   enumerations, clearing and marking, and the table as a map from addresses.

`Common` is what several modules share.

## What the proofs found

- Of the events that are raised while another one is handled, only an answer that the user gives inside a callback can reach
  the abort of `RunFsm`; `StepTheorem` says exactly when a call completes. The missing TRANSPORT_ERROR row of the server
  non-INVITE state TRYING (sip/Transaction.c:630-638) matters for an answer in TRYING whose send fails, and for nothing else
  (`FailedAnswer`). A BYE or a CANCEL is answered in TRYING at once (sip/Dialog.c:326-336); the call that handles a BYE
  aborts exactly if that answer cannot be sent (`ServedAtOnce`). In the INVITE state CONFIRMED an answer whose send fails
  makes the scan read past the end of its row.
- Timers are never cancelled. In every reachable world a client transaction that has gone past its retransmissions has an
  outstanding timer whose firing aborts (`StaleTimerAborts`), and a destroyed one has an outstanding timer if and only if it
  ever armed one; each such firing runs on freed memory and, going by the state that was freed, aborts (`DestroyedTimers`).
- A client non-INVITE transaction that has met a 1xx does not tell its user of the 2xx that follows (`Success`,
  sip/Transaction.c:436), and it aborts on every 3xx, 5xx and 6xx; a client INVITE aborts on a 4xx that comes before any 1xx
  (`Failure`, sip/Transaction.c:513-519).
- An ACK of a failure has its INVITE's branch but not its method, so that it is not matched to the INVITE's transaction but
  told as a new request (`MessageWithoutTransaction`, sip/TransactionManager.c:44-45).
- A server INVITE in COMPLETED resends its last response once: the retransmit timer is not armed again (`RetransmitTimer`,
  sip/Transaction.c:597).
- A status code outside 100..699 is used as an event mask (sip/Transaction.c:794-811). Code 131072 is taken for a retransmit
  timer and arms a second one (`StatusCodeTakenForTimer`); `ExactlyKeepsTimers` says which codes do no harm.
- A header whose last printed field belongs to a line that is not mandatory loses that field when read
  (sip/Parser.c:84-99): a status line without a reason phrase, a CSeq without a method, and an authentication header
  without a parameter are not read back, and neither is a Max-Forwards or Expires of 0, which is printed as its name alone;
  Content-Length, whose lines are mandatory, keeps its 0. `RoundTrip` gives the condition for every table of this form.
- An authentication header whose parameters hold a comma, such as a list of qop values, or whose list has 256 characters or
  more, is not read back (`AuthRoundTrip`).
- `ParseString` drops a single character that ends a string with leading spaces (sip/Parser.c:23-29), and has no defined
  outcome from 128 characters on, because it keeps the length in a char (sip/Parser.c:13).
- `AddParameter` looks a name up with its spaces and stores it without (sip/Parameter.c:98-109), so that names that differ
  in a leading space become equal (`SpacedNameTwice`).
- `del_all_node_as` stops at the first match whose data is NULL (utils/list/src/del_all_node_as.c:16) and leaves later
  matches in the list.

## Model

| member | source | states |
|---|---|---|
| TransactionTables.FsmRowIs | sip/Transaction.c:688-703 | the loop over a machine's rows finds the row of each state, or none |
| TransactionTables.HandlesMeansEntry | sip/Transaction.c:705-721 | scanning a row finds an entry exactly if the row has one whose mask meets the event, also in the two rows without a terminator |
| TransactionTables.TableEntry | sip/Transaction.c:405-665 | of every entry of the four tables: states never go down, the next state has a row, sends and callbacks stand only where nesting is safe |
| TransactionTables.TableNestedHandled | sip/Transaction.c:405-665 | every entry that sends leads to a state whose row handles the events the send can raise |
| TransactionSpec.GetTransactionIsFirst | sip/TransactionManager.c:40-98 | the result is the first listed transaction whose request has the branch and the CSeq method, and none means that every listed one differs in one of them |
| TransactionSpec.MatchIsFirst | sip/TransactionManager.c:100-118 | a request matches the first listed transaction of its branch and method, a CANCEL that of the INVITE, and a response that of its branch and CSeq method |
| TransactionFlat.RunIsFlat | sip/Transaction.c:772-792 | an event with an entry is handled to the end, whatever fails or is called back inside it, exactly if the user that it calls completes its own answers; the outcome is that of an interpreter that does not nest |
| TransactionFlat.ActsAreFlat | sip/Transaction.c:669-677 | the same for any list of actions of an entry |
| TransactionFlat.ActIsFlat | sip/Transaction.c:178-198 | one action, with the events that its send raises, completes unless the user that it calls does not, and has the outcome of the interpreter that does not nest |
| TransactionFlat.AddIsFlat | sip/TransactionManager.c:252-264 | starting a transaction, also inside a callback, always completes |
| TransactionFlat.CallIsFlat | sip/Dialog.c:188-208 | a callback that starts any number of transactions, and answers some of them, completes exactly if each of these answers does |
| TransactionFlat.AnswerIsFlat | sip/Transaction.c:605-657 | the event of an answer that a row handles causes no further events |
| TransactionFlat.ReplyIsFlat | sip/Transaction.c:252-263 | an answer completes exactly if the row handles its event after a send that succeeds, and TRANSPORT_ERROR after one that fails |
| TransactionFlat.ServeIsFlat | sip/Dialog.c:326-336 | starting a server transaction and answering it any number of times completes exactly if the answers do |
| TransactionFlat.TransportErrorIsFlat | sip/Transaction.c:178-186 | TRANSPORT_ERROR raised by a send terminates and removes its transaction and does nothing else |
| TransactionFlat.SendTryingIsFlat | sip/Transaction.c:280-285 | SEND_TRYING raised by the 100 response is handled without further events |
| TransactionEffect.RunEffect | sip/Transaction.c:772-792 | an event changes its own transaction as a fold over that transaction alone, no other that existed, and makes exactly the named callbacks |
| TransactionSafety.RunKeeps | sip/Transaction.c:772-792 | one event keeps the manager's invariant at any nesting depth |
| TransactionSafety.RetransmitsBounded | sip/Transaction.c:118-124 | the shift count never passes 4 |
| TransactionSteps.StepTheorem | sip/TransactionManager.c:120-200 | a top-level call completes exactly if the row of the transaction it reaches has an entry for its event, and the answers that callbacks give at once complete; then the invariant holds, each transaction is as the effect on it alone says, new ones are freshly started or served, and the callbacks are the named ones |
| TransactionRuns.RunTheorem | sip/TransactionManager.c:60-72 | over every run: no duplicates, each transaction listed exactly until terminated and destroyed once, in a state its machine has a row for, never going back |
| TransactionRuns.EmptyWorldInv | sip/TransactionManager.c:17-23 | the invariant holds at the start |
| TransactionRuns.ListOrder | sip/TransactionManager.c:60-72 | along every run the list keeps its survivors in order, with the new ones behind them in order of creation |
| TransactionRuns.RunToldOnce | sip/Transaction.c:170-176 | over every run no transaction tells its user of a 2xx twice |
| TransactionRuns.ResponseIsSeen | sip/TransactionManager.c:120-137 | a callback made while a response is handled carries that response and its event |
| TransactionInvite.ClientInviteResponses | sip/Transaction.c:287-303 | over every run the responses of a client INVITE are those received, in order, with exactly one ACK right behind each acknowledged one, carrying its To tag |
| TransactionInvite.AcknowledgedCodes | sip/Transaction.c:478-558 | acknowledged are exactly 300..699 in PROCEEDING and COMPLETED, none in CALLING |
| TransactionResponses.CodeEvents | sip/Transaction.c:794-811 | the event of a code from 100 to 699 is the bit of its hundreds; codes share an event exactly if their hundreds agree |
| TransactionResponses.Provisional | sip/Transaction.c:417-541 | what a 1xx does to its transaction and to the rest of the world, by type and state; all others abort on it |
| TransactionResponses.Success | sip/Transaction.c:417-541 | what a 2xx does: an INVITE in CALLING or PROCEEDING ends and its user is told, a non-INVITE completes and tells its user only in TRYING; all others abort |
| TransactionResponses.Failure | sip/Transaction.c:417-558 | what a 3xx to 6xx does: the ACK with its branch, method and To tag on the wire and among the responses, the wait of 5 seconds, a lost ACK, and who aborts |
| TransactionResponses.HeardExactly | sip/Transaction.c:170-176 | a matched response makes exactly one call, with the transaction, its user, event and message, in the listed states and code ranges, and none otherwise |
| TransactionResponses.HeardOfSuccesses | sip/TransactionManager.c:120-137 | over every run a client INVITE with a user tells it of a 2xx once for each that it meets |
| TransactionResponses.HeardOnce | sip/TransactionManager.c:120-137 | over every run such a transaction tells of a 2xx exactly once if it meets one, and never otherwise |
| TransactionRequests.OnlyOwnTransaction | sip/TransactionManager.c:100-118 | a message changes no transaction that existed but a listed one of its branch and method |
| TransactionRequests.MessageWithoutTransaction | sip/TransactionManager.c:139-149 | a message that no listed transaction fits is told as NEW if it is a request but no REGISTER, and otherwise changes nothing |
| TransactionRequests.DuplicateRequest | sip/TransactionManager.c:151-158 | a matched INVITE puts the last response on the wire in PROCEEDING and COMPLETED of a server INVITE, and aborts elsewhere; other requests change nothing |
| TransactionRequests.UnhandledEvent | sip/Transaction.c:705-721 | an event that a state does not handle reads past the row in the two states whose rows have no terminator, and aborts in all others |
| TransactionRequests.CancelEnds | sip/TransactionManager.c:159-167 | a CANCEL that is handled ends its transaction, with the two callbacks in order and 487 of the CANCEL's branch and method on the wire |
| TransactionRequests.SentAnswers | sip/Transaction.c:579-649 | the whole world after an answer that is sent, by type, state and event |
| TransactionRequests.LostAnswers | sip/Transaction.c:252-263 | the whole world after an answer that is not sent: its transaction is gone, or, in two states, the call does not complete |
| TransactionRequests.AckConfirms | sip/Transaction.c:593-603 | an ACK takes a server INVITE from COMPLETED to CONFIRMED with a wait of 5 seconds; any other aborts |
| TransactionRequests.TimerEnds | sip/Transaction.c:92-110 | which states a timeout and the waits end, and that every other firing aborts |
| TransactionRequests.RetransmitTimer | sip/Transaction.c:118-150 | the whole world after the retransmit timer: the request with the next interval, or the last response and nothing armed; any other firing aborts |
| TransactionRequests.Starts | sip/TransactionManager.c:245-264 | the whole world after a start, sent or not: the request with 500 ms and 32 seconds, the 100 response, or nothing yet |
| TransactionTimers.TimerConservation | sip/Transaction.c:133-162 | over every timer-consistent run, sends failing or not: one outstanding retransmit timer while waiting, one timeout timer armed ever, one wait timer in COMPLETED |
| TransactionTimers.ExactlyKeepsTimers | sip/Transaction.c:405-558 | an event that no timer raised keeps the timers exactly if it does not select the retransmission's entry |
| TransactionTimers.StatusCodeTakenForTimer | sip/Transaction.c:794-811 | status code 131072 arms a second retransmit timer |
| TransactionTimers.LateStatesIgnoreRetransmit | sip/Transaction.c:448-558 | the states past retransmission have no entry for the retransmit timer |
| TransactionTimers.StaleTimerAborts | sip/Transaction.c:788-791 | in every reachable world the outstanding timer of such a state aborts when it fires |
| TransactionTimers.DestroyedTimers | sip/TransactionManager.c:60-82 | over every timer-consistent run a destroyed client transaction has an outstanding timer if and only if it ever armed one, and every firing of one aborts |
| TransactionDelivery.FailedSend | sip/Transaction.c:178-186 | a failed send at any depth, the first one in INIT and the 100 response included: terminated, off the list, destroyed once, the actions before it done and none after it |
| TransactionDelivery.FailedStart | sip/TransactionManager.c:252-264 | a transaction whose first send fails is terminated with nothing armed, the list is as it was, and it is destroyed once |
| TransactionDelivery.FailedAnswer | sip/Transaction.c:252-263 | an answer whose send fails aborts exactly in the non-INVITE state TRYING, and reads past its row exactly in the INVITE state CONFIRMED |
| TransactionDelivery.ServedAtOnce | sip/Dialog.c:326-336 | a request that its callback answers with a final answer at once, as for BYE, aborts exactly if the answer cannot be sent; otherwise its transaction is COMPLETED |
| TransactionSchedule.CounterSteps | sip/Transaction.c:118-131 | after n retransmissions the counter is min(n, 4) and the interval min(T1 * 2^n, T2) |
| TransactionSchedule.FiringTimeIs | include/Timer.h:1-7 | the n-th firing is at 500 * (2^n - 1) up to n = 4, then at 7500 + 4000 * (n - 4) |
| TransactionSchedule.TenBeforeTimeout | include/Timer.h:5-7 | exactly ten firings come before 64 * T1 |
| TransactionSchedule.RunsOnSchedule | sip/Transaction.c:118-150 | over every run, whatever is interleaved and whichever sends fail, a waiting client transaction has armed the intervals min(T1 * 2^k, T2) for k = 0, 1, .. in order, and its counter fits |
| TransactionSchedule.RetransmitSchedule | sip/Transaction.c:118-150 | for uninterrupted firings whose sends succeed: n of them resend the request n times and change nothing else but the timers armed |
| TransactionSchedule.ScheduleFromStart | sip/Transaction.c:405-426 | the same from the start of a client transaction on, with the intervals it has armed, for every n |
| TransactionDelivery.DuplicateInvites | sip/TransactionManager.c:151-158 | any number of duplicate INVITEs leave state, responses and list unchanged and send one copy of the same latest response each |
| TransactionLayer.Transaction.constructor | sip/Transaction.c:346-363 | a new transaction is in INIT with nothing armed |
| TransactionLayer.Transaction.GetLatestResponse | sip/Transaction.c:85-89 | the last response, or none |
| TransactionLayer.Transaction.CalculateRetransmitInterval | sip/Transaction.c:126-131 | the interval of the specification |
| TransactionLayer.TransactionManager.RunFsm | sip/Transaction.c:772-792 | the objects change as the function of the re-entrant interpreter says |
| TransactionLayer.TransactionManager.HandleEvent | sip/Transaction.c:679-686 | enter the state first, then act |
| TransactionLayer.TransactionManager.InvokeActions | sip/Transaction.c:669-677 | the loop over the actions stops at the first that fails |
| TransactionLayer.TransactionManager.LocateState | sip/Transaction.c:688-703 | the row of the state, or none |
| TransactionLayer.TransactionManager.LocateEventEntry | sip/Transaction.c:705-721 | the first entry that matches, or none, where the scan ends inside the row |
| TransactionLayer.TransactionManager.SendTransactionMessage | sip/Transaction.c:178-186 | the message is on the wire, and a failure has run TRANSPORT_ERROR |
| TransactionLayer.TransactionManager.ResponseWith | sip/Transaction.c:252-263 | record, send, and run the event only if the send succeeded |
| TransactionLayer.TransactionManager.ResponseWith100Trying | sip/Transaction.c:280-285 | as its function says, with status 0 in any case |
| TransactionLayer.TransactionManager.SendAckRequest | sip/Transaction.c:287-303 | the ACK is recorded before it is sent, with the To tag of the latest response |
| TransactionLayer.TransactionManager.InformTU | sip/Transaction.c:170-176 | the user is called with the current event and the latest response |
| TransactionLayer.TransactionManager.RemoveTransaction | sip/TransactionManager.c:60-82 | exactly the transaction leaves the list, and is destroyed once |
| TransactionLayer.TransactionManager.RemoveTerminatedTransaction | sip/Transaction.c:389-395 | a terminated transaction is removed, if a nested event has not done so |
| TransactionLayer.TransactionManager.AddTransaction | sip/TransactionManager.c:245-264 | the new transaction is appended and initialised; INVITE and ACK get no server non-INVITE transaction |
| TransactionLayer.TransactionManager.ServeNow | sip/Dialog.c:326-336 | the transaction that a callback starts gets its answers one after the other |
| TransactionLayer.TransactionManager.FindTransaction | sip/TransactionManager.c:84-98 | the first listed transaction that matches |
| TransactionLayer.TransactionManager.HandleResponseMessage | sip/TransactionManager.c:120-137 | the response is recorded before its event is run; the result says whether it matched |
| TransactionLayer.TransactionManager.HandleRequestMessage | sip/TransactionManager.c:139-181 | new requests go to the user, duplicates to the tables |
| TransactionLayer.TransactionManager.HandleCancel | sip/TransactionManager.c:159-167 | the user is told, 487 is sent, and the CANCEL goes on as a new request |
| TransactionLayer.TransactionManager.SipMessageInput | sip/TransactionManager.c:183-200 | any message that the step accepts is handled as the step says and keeps the invariant; the result says whether a response matched, or a request matched or was passed on as new |
| TransactionLayer.TransactionManager.TimerFired | sip/Transaction.c:92-110 | a handled timer keeps the invariant |
| Md5Spec.ZerosAreLeast | utils/md5.c:263-275 | no smaller number of zeros fills the last block |
| Md5.MacroStepKept | utils/md5.c:51-63 | the macro of any step, with the rewritten F and G and the alternating H, is the step of the RFC in the low 32 bits |
| Md5.Round1Is | utils/md5.c:120-135 | the 16 lines of round 1 are steps 0..15 with the RFC's message indices, constants and shifts |
| Md5.Round2Is | utils/md5.c:138-153 | the same of round 2, index 1 + 5i |
| Md5.Round3Is | utils/md5.c:156-171 | the same of round 3, index 5 + 3i, H and H2 in turn |
| Md5.Round4Is | utils/md5.c:174-189 | the same of round 4, index 7i |
| Md5.RoundsKept | utils/md5.c:119-189 | the 64 unrolled lines are the 64 steps of the RFC in the low 32 bits |
| Md5.BlockKept | utils/md5.c:115-196 | the block function is the RFC's, for every word type that keeps 32-bit arithmetic |
| Md5.DigestKept | utils/md5.c:207-289 | the program's digest is the RFC's for every such word type |
| Md5.Context.constructor | utils/md5.c:207-216 | a context with no bytes fed |
| Md5.Context.Init | utils/md5.c:207-216 | from any context, no bytes fed |
| Md5.Context.Set | utils/md5.c:86-91 | the word of the block is the one read from its four bytes |
| Md5.Context.OneBlock | utils/md5.c:115-198 | one turn of body applies the block function |
| Md5.Context.Body | utils/md5.c:100-205 | the registers become the fold of the block function over the data |
| Md5.Context.Count | utils/md5.c:223-226 | the counters with the carry test count the bytes, the high one modulo 2^32 |
| Md5.Context.CountModulo | utils/md5.c:223-226 | hi * 2^29 + lo is the number of bytes modulo 2^61 |
| Md5.Context.Update | utils/md5.c:218-250 | the message grows by the data: registers are the fold of all complete blocks and the buffer holds the rest, however it was cut |
| Md5.Context.PadOut | utils/md5.c:258-275 | one block or two: the message becomes its padding with the least zeros |
| Md5.Context.LengthIs | utils/md5.c:277-279 | the eight bytes written are the bit count modulo 2^64, low-order word first |
| Md5.Context.Final | utils/md5.c:258-289 | the result is the fold over the padded message, and the context is cleared |
| Md5.HashPieces | utils/md5.c:207-289 | Init, one Update for each piece, Final: the digest of the pieces joined |
| Md5Words.LawsHold | utils/md5.c:51-63 | the rewritten macros equal the RFC's, and the sum of STEP in either order |
| Md5Words.WordsKeep | utils/md5.c:60-63 | words of any width of 32 bits or more keep 32-bit arithmetic in their low bits, the masked rotation included |
| Md5Words.BitsOfOps | utils/md5.c:51-63 | and, or, xor and not of words of any width, bit by bit |
| Md5Words.WordIsNumber | utils/md5.c:86-91 | a word read from four bytes is b0 + 256 b1 + 65536 b2 + 16777216 b3 |
| Md5Words.BytesOfWord | utils/md5.c:252-256 | the bytes written of a word are those that it was read from |
| Md5Words.BytesOfRegisters | utils/md5.c:283-286 | the sixteen bytes of the result are those of the four registers in order |
| Md5Words.DigestIsRfc | utils/md5.c:207-289 | with words of any such width the digest is that of RFC 1321 |
| Md5Words.Hash | sip/WWW_AuthenticationHeader.c:144-160 | a message hashed in any pieces with words of any width gives its RFC 1321 digest |
| CodecText.ParseStringTrims | sip/Parser.c:10-38 | ParseString is defined up to 127 characters, and trims, except exactly when one character ends a string that starts with a space |
| CodecText.ParsedIsBare | sip/Parser.c:10-38 | what is stored has no spaces at its ends |
| CodecText.DecimalRead | sip/Parser.c:40-46 | atoi undoes %d for every 32-bit integer |
| CodecText.NumberRead | sip/Parser.c:40-46 | a number is read between white space and anything that is not a digit |
| CodecText.NextSeparator | sip/Parser.c:57-73 | the first of the six separators, or the end |
| CodecPattern.ElementIs | sip/Parser.c:75-132 | a text up to its end separator is exactly the component read |
| CodecPattern.RoundTrip | sip/Parser.c:153-239 | for a chain of any length, whose first m fields are printed: the printed form is read back if m is the length or the m-th line is mandatory; otherwise it is only if empty text denotes the m-th field as well, and then it is unless a later line repeats its separator |
| CodecTables.StatusLineRoundTrip | sip/StatusLine.c:13-19 | read back if and only if there is a reason phrase and, with code 0, it is one word |
| CodecTables.CSeqRoundTrip | sip/CSeqHeader.c:20-25 | read back if and only if there is a number and a method |
| CodecTables.NumberHeaderRoundTrip | sip/ContentLengthHeader.c:13-17 | a header that is a number is read back if and only if the number is not 0 or one of its lines is mandatory |
| CodecTables.NumberHeaders | sip/MaxForwardsHeader.c:12-16 | Content-Length is read back with every number, Max-Forwards and Expires if and only if the number is not 0 |
| CodecTables.ParameterRoundTrip | sip/Parameter.c:20-32 | a parameter is read back with or without a value |
| CodecTables.Tokens | sip/Parameter.c:67-72 | tokens are not empty, lack the separator and have no characters of their own |
| CodecTables.ParametersRoundTrip | sip/Parameter.c:51-78 | a list of any length is read back if and only if no name or value holds a semicolon |
| CodecTables.AuthRoundTrip | sip/WWW_AuthenticationHeader.c:166-189 | printed with commas, read back if and only if there is a parameter, none holds a semicolon or a comma, and the text of the list is shorter than 256 characters |
| CodecParameters.AddKeepsDistinct | sip/Parameter.c:92-112 | adding keeps names distinct if and only if the name has no spaces to lose or is new without them |
| CodecParameters.GetAfterAdd | sip/Parameter.c:92-155 | after adding, the name has the value and every other name is untouched |
| CodecParameters.AddsMerge | sip/Parameter.c:92-112 | any sequence of additions gives first positions and last values |
| CodecParameters.AddsAreMap | sip/Parameter.c:92-155 | after any sequence of additions names are distinct and each has the value it came with last |
| CodecParameters.MatchedIsEqual | sip/Parameter.c:114-137 | two lists match exactly if they have the same names and values in the same order |
| CodecParameters.DupMatches | sip/Parameter.c:114-137 | a copy matches its source, and is the same list, if and only if the names are distinct |
| CodecParameters.SpacedNameTwice | sip/Parameter.c:98-109 | two additions after which a name is in the list twice |
| CodecParser.NextSeparatorFrom | sip/Parser.c:57-73 | the loops find the separator of the specification |
| CodecParser.FindEndSeparator | sip/Parser.c:75-99 | spaces skipped, then the separator, or the end where mandatory |
| CodecParser.FindNextComponent | sip/Parser.c:101-120 | the end of the component, NULL from NULL on |
| CodecParser.ParseString | sip/Parser.c:10-38 | what the loops store, nothing from 128 characters on |
| CodecParser.Parse | sip/Parser.c:153-187 | the target's fields, in place, are those of the specification, also after a value that is not legal |
| CodecParser.ToString | sip/Parser.c:226-239 | the printed form, line after line |
| CodecParser.Parameters.AddParameter | sip/Parameter.c:92-112 | the last parameter of the name is overwritten, or a new one appended |
| CodecParser.Parameters.GetParameter | sip/Parameter.c:139-155 | the value of the first parameter of the name, or none |
| CodecParser.Parameters.Matches | sip/Parameter.c:114-137 | true exactly for the same list |
| CodecParser.Parameters.Dup | sip/Parameter.c:227-238 | a fresh list of the additions of the source |
| CodecParser.Parameters.ParseParametersExt | sip/Parameter.c:51-78 | the parameters of all tokens are appended |
| CodecParser.Parameters.ToText | sip/Parameter.c:164-181 | the printed list, with or without a start separator of its own |
| CodecParser.Parameters.Clear | sip/Parameter.c:210-220 | no parameter is left |
| CodecParser.AuthHeader2String | sip/WWW_AuthenticationHeader.c:166-181 | the printed header with every semicolon made a comma |
| LinkedList.Node.constructor | utils/list/src/new_node.c:10-20 | a node with its data and no neighbours |
| LinkedList.Handle.PutInList | utils/list/src/put_in_list.c:11-40 | the data is appended and all links are consistent |
| LinkedList.Handle.GetDataAt | utils/list/src/get_data_at.c:10-26 | the data at the position, NULL behind the end |
| LinkedList.Handle.DelNode | utils/list/src/del_node.c:10-35 | one position leaves the sequence; prev, next, begin, end and len stay consistent, and the list is NULL exactly if empty |
| LinkedList.Handle.DelNodeAs | utils/list/src/del_node_as.c:10-23 | the first match leaves, or nothing changes |
| LinkedList.Handle.DelAllNodeAs | utils/list/src/del_all_node_as.c:10-19 | the list and the destructor's data are those of deleting one match at a time; NULL list if and only if none remain |
| LinkedList.DeletedAllIs | utils/list/src/del_all_node_as.c:10-19 | left are, in order, the elements that do not match up to the first match without data, and everything behind it; the destructor gets the matches in order |
| LinkedList.DeletesAllMatches | utils/list/src/del_all_node_as.c:10-19 | all matches go if and only if none stands behind a match without data |
| LeakTable.LeakList.AddNewNode | cpputest/src/CppUTest/MemoryLeakDetector.cpp:295-299 | the node is at the head |
| LeakTable.LeakList.ClearAllAccounting | cpputest/src/CppUTest/MemoryLeakDetector.cpp:273-293 | left are exactly the nodes that are not of the period, in order |
| LeakTable.LeakList.RemoveNode | cpputest/src/CppUTest/MemoryLeakDetector.cpp:301-320 | the first node of the address leaves and is returned |
| LeakTable.LeakList.RetrieveNode | cpputest/src/CppUTest/MemoryLeakDetector.cpp:322-331 | the first node of the address, or none |
| LeakTable.LeakList.GetLeakFrom | cpputest/src/CppUTest/MemoryLeakDetector.cpp:333-338 | the first node of the period from a node on |
| LeakTable.LeakList.GetFirstLeak | cpputest/src/CppUTest/MemoryLeakDetector.cpp:340-343 | the first node of the period |
| LeakTable.LeakList.GetNextLeak | cpputest/src/CppUTest/MemoryLeakDetector.cpp:345-348 | the first node of the period behind a node |
| LeakTable.LeakList.GetTotalLeaks | cpputest/src/CppUTest/MemoryLeakDetector.cpp:350-357 | the number of nodes of the period |
| LeakTable.Table.AddNewNode | cpputest/src/CppUTest/MemoryLeakDetector.cpp:372-375 | as a map: the node is the newest of its address, every other address is as before |
| LeakTable.Table.RemoveNode | cpputest/src/CppUTest/MemoryLeakDetector.cpp:377-380 | as a map: the newest node of the address is taken off, every other address is as before |
| LeakTable.Table.RetrieveNode | cpputest/src/CppUTest/MemoryLeakDetector.cpp:382-385 | the newest node of the address |
| LeakTable.Table.StackIsAll | cpputest/src/CppUTest/MemoryLeakDetector.cpp:361-385 | the nodes of an address in its one list are all the table has |
| LeakTable.Table.ClearAllAccounting | cpputest/src/CppUTest/MemoryLeakDetector.cpp:366-370 | of all nodes exactly those not of the period are left, in order |
| LeakTable.Table.GetTotalLeaks | cpputest/src/CppUTest/MemoryLeakDetector.cpp:387-393 | the number of nodes of the period in all lists |
| LeakTable.Table.GetFirstLeak | cpputest/src/CppUTest/MemoryLeakDetector.cpp:395-402 | the first node of the period of all lists |
| LeakTable.Table.GetNextLeak | cpputest/src/CppUTest/MemoryLeakDetector.cpp:404-415 | the next one behind a node, also when that has left the period meanwhile |
| LeakTable.Report | cpputest/src/CppUTest/MemoryLeakDetector.cpp:629-641 | enumeration visits every node of the period exactly once and in order, as many as the total says; that of Enabled lists exactly the nodes that are not disabled |
| LeakTable.PeriodsSelect | cpputest/src/CppUTest/MemoryLeakDetector.cpp:268-271 | All selects every node, Enabled those that are not disabled, Disabled and Checking only their own |
| LeakTable.TotalsAdd | cpputest/src/CppUTest/MemoryLeakDetector.cpp:387-393 | the totals of Enabled and Disabled add up to that of All, which counts every node |
| LeakTable.InItsList | cpputest/src/CppUTest/MemoryLeakDetector.cpp:361-364 | a node is in the list numbered by its address modulo 73 |
| LeakTable.MarkCheckingLeaks | cpputest/src/CppUTest/MemoryLeakDetector.cpp:650-657 | no node is left in the checking period, and the enabled period has the nodes it had |
| LeakTable.Detector.constructor | cpputest/src/CppUTest/MemoryLeakDetector.cpp:419-426 | an empty table, disabled, numbers from 1 |
| LeakTable.Detector.StoreLeakInformation | cpputest/src/CppUTest/MemoryLeakDetector.cpp:497-502 | a numbered node of the current period becomes the newest of its address |

## Left out

- The network: a send puts a message on a list and succeeds or fails as an arbitrary function of how often it was used. UDP, `select`, `fork` and the transporters are not modelled.
- The timers' bodies (`sip/Timer.c`): arming is an entry in a list, and an armed timer can fire at any time and in any order, also after its transaction has been destroyed. Such a firing reads freed memory; the model goes by the state in which the transaction was freed, which no row handles, so that no run goes on after it.
- The transaction user: a callback may start any transactions, answer each server transaction that it starts, at once and any number of times, and send any messages, as an arbitrary oracle says. It does not answer any other transaction from inside a callback; those answers are steps of their own, which may come at any time later. Dialogs, user agents and accounts are not part of this model.
- Messages: branch, method, CSeq method, To tag, sent-by and destination. How messages are built and the other headers are not part of this model; the random tag is an oracle.
- `SetTransactionState`, logging, dumps and the maps of names for printing.
- After a nested removal the outer `RunFsm` reads the state of a transaction that has been freed; the model keeps its last state, which is what the source relies on.
- TransactionLayer.TransactionManager.LocateEventEntry: requires that the scan does not run over the end of a row, because two rows have no terminator; what such a scan reads is not modelled.
- TransactionLayer.TransactionManager.TimerFired: requires a firing that completes; StaleTimerAborts and DestroyedTimers are about the others.
- TransactionLayer.TransactionManager.RunFsm: requires an outcome that is not an abort; RunIsFlat and StepTheorem say exactly when that is so.
- Md5: the sine derivation of the constants, which are taken as given; the faster SET and GET of some processors, which have the same value there; and the place of the reads in the first round, all of which are made before it.
- Md5.Context.Final: `result` must not be inside the context, which the source does not forbid but no caller does.
- CodecPattern.RoundTrip: leaves one case open, a last printed field of a line that is not mandatory which empty text denotes as well, when a later line starts with the same separator; what that line then reads depends on its parser, and no modelled table has the case.
- Codec: patterns whose format is not "*", URI, Via, Contact and whole messages, and the NULL entries of tables for reading and printing, which the modelled tables do not have.
- CodecParser.Parse: the difference of a pointer and NULL, when no end separator is found, is taken as a length out of range, so that the value is empty; C does not define it.
- Fixed buffers: strings have no bound of their own, so that an overflow does not show; the round trips require the lengths that the code forces.
- `atoi` outside 32 bits and `ParseString` from 128 characters on have no defined outcome, and reading stops there.
- Allocation always succeeds, and `free` is not modelled: a deleted node is one that is no longer in its list.
- The lists' `len` and the detector's numbers are not bounded.
- LinkedList.Handle.DelAllNodeAs: the destructor is the list of the data it is called with; what it does is not modelled.
- LeakTable.Detector.StoreLeakInformation: does not model the corruption marks that are written behind the memory.
- The rest of CppUTest, and of the detector its reports' text and the buffer that StartChecking clears for it, and allocators, files and lines.
