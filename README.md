# Authentication in the Fast-RTPS SecurityManager, modelled in Dafny

This project models the authentication side of the DDS Security `SecurityManager` of a
participant in Fast-RTPS. The manager does the following:

- **init.** It validates the local identity, retrying while the authentication plugin
  answers PENDING_RETRY. It registers the local participant with the cryptography plugin.
  It then creates the four builtin endpoints in order: stateless message writer, stateless
  message reader, volatile message writer, volatile message reader. On the first failure it
  deletes what was made and unregisters the crypto handle.
- **discovered_participant.** It validates a newly discovered remote identity and keeps a
  per-participant authentication state. It begins the handshake request when it is the
  initiator. A remote participant it already knows is never validated again: if its begin
  step failed, that step is simply run again.
- **onNewCacheChangeAdded** of the stateless reader. It recognises authentication envelopes
  (class id `dds.sec.auth`, addressed to the local participant, one token). It correlates
  replies and final messages with the last message sent to that sender. It calls
  `begin_handshake_reply` or `process_handshake`, and sends the resulting token through the
  stateless writer. It drops the change it answered from the writer history. When the reply
  it answered with a final message arrives again, it resends that final message.
- **The resend timer.** While an answer to the last message is awaited, that message is
  handed to the writer history again (`remove_change_and_reuse`, then `add_change`).
- **The destructor.** It returns every identity and handshake handle still held. It
  unregisters the local crypto handle and deletes the endpoints.

The behaviour follows the authentication unit tests of the repository. The manager's own
implementation file is not part of this model. The answers that decide the manager's course
are parameters of the operation that receives them. These are the authentication and crypto
plugin answers to validation, handshake and registration calls. They also include
`new_change`, `add_change` and the endpoint creations. The answer of
`remove_change_and_reuse` is computed from the modelled writer history instead: the change
of that number, if the history holds one. The answers of `remove_change` on the writer and
reader histories, of `unregister_participant` and of `return_identity_handle` /
`return_handshake_handle` are not modelled (see "Left out").

The modules are:

- `SecurityTypes` (`types.dfy`): the values the manager exchanges: GUIDs, validation
  results, envelopes, cache changes, the calls it makes.
- `AuthMessage` (`auth_message.dfy`): building an authentication envelope, and deciding
  whether an inbound one is addressed to this participant and answers the last message sent.
- `Handshake` (`handshake.dfy`): the per-participant states. It holds the pure rules that
  move them: which step follows an answer, and what an inbound envelope is for.
- `WriterHistory` (`writer_history.dfy`): the stateless writer history, with `remove_change`
  and the reuse of a change.
- `Ledger` (`ledger.dfy`): which plugin handles were issued and which were returned. This is
  used to state that every handle is returned exactly once.
- `ManagerModel` (`manager_model.dfy`): the whole manager state as one value,
  `ManagerState`. It has a function per operation, the invariant `ValidState`, and the
  lemmas about them.
- `Manager` (`security_manager.dfy`): the class `SecurityManager`. Its fields are updated in
  place, and each method is proved to move `Snap()` (its fields and its ghost logs) exactly
  as the matching `ManagerModel` function says. The public methods (`Init`,
  `DiscoveredParticipant`, `OnNewCacheChangeAdded`, `Resend`, `Destroy`) also keep
  `Valid()`. The helper methods `Provision`, `Proceed`, `Advance`, `Admit` and `Reuse`
  are proved equal to their functions only.
- `Scenarios` (`scenarios.dfy`): manager lifetimes as the tests drive them. Each starts with
  a successful init. Two of them run at most one discovery and end with the destructor, and
  count the handle returns. Two others run a discovery that fails, then a second discovery
  of the same participant, and state what the second one calls.

Plugin handles are numbered by a counter; the number stands for the pointer the plugin
hands out. The ghost logs record a trace for each kind of call: the plugin calls, the
writer and history calls, the listener notifications, the changes removed from the reader
history, the endpoint creations and deletions, and the crypto registrations.

Decisions where the tests leave room:

- **Correlation.** A reply or final message must name, in its related message identity,
  the remote participant's key and the sequence number of the message last sent to it. In
  the tests the local and the remote participant keys are equal. So the tests cannot tell
  this reading from one that compares the related source with the local key. A consequence
  of this reading: a peer that answers a message names, as related source, the key of the
  participant it answers. So between two participants whose keys differ, no reply or final
  message would ever be correlated.
- **A step that fails keeps the step it was in.** This applies to a FAILED answer, to
  `new_change` returning nothing, and to `add_change` refusing. That is what lets a
  rediscovery begin the handshake request again without validating again. A FAILED answer
  reports UNAUTHORIZED.
- **A rejected remote identity keeps nothing.** This applies to the validation answers
  FAILED, PENDING_RETRY and OK_WITH_FINAL_MESSAGE, so a rediscovery validates it again.
  Remote validation OK reports AUTHORIZED.
- **Handshake handles.** A handshake handle is issued by `begin_handshake_request` and
  `begin_handshake_reply` unless they answer FAILED. If that step then fails (its message
  does not go out, or it answered PENDING_RETRY or PENDING_HANDSHAKE_REQUEST), the handle is
  returned at once. Otherwise it is returned by the destructor.
- **Message sequence numbers.** The sequence number of a message identity is taken when the
  message is generated, whether or not it is then sent.
- **Removing the answered change.** A `process_handshake` that does not answer FAILED
  removes the change it answers from the writer history before anything new is sent.
- **PENDING_RETRY and PENDING_HANDSHAKE_REQUEST from a handshake call.** A
  `begin_handshake_*` or `process_handshake` that answers `PENDING_RETRY` or
  `PENDING_HANDSHAKE_REQUEST` fails and reports nothing. It still removes the change it
  answers from the writer history, and that change is no longer kept for a resend. No
  test pins these answers.
- **OK_WITH_FINAL_MESSAGE keeps the expected sequence number.** A duplicate of the reply is
  then recognised and answered by resending the final message.
- **The local identity handle on a failed init.** When init fails after the local identity
  was validated, that handle stays held until the destructor. The tests do not pin when it
  is returned.

## Model

| member | source | states |
|---|---|---|
| AuthMessage.GenerateAuthenticationMessage | test/unittest/rtps/security/SecurityAuthenticationTests.cpp:1228-1243 | The envelope has class `dds.sec.auth`, the local key and the given sequence number as its identity, the answered identity as related identity, and the remote key as destination. It carries the single token. The remote peer recognises it and attributes it to the local participant. |
| Handshake.InitialStep | test/unittest/rtps/security/SecurityAuthenticationTests.cpp:473-549 | Validation OK authorizes; PENDING_HANDSHAKE_REQUEST makes this side the initiator; PENDING_HANDSHAKE_MESSAGE waits for the request. FAILED, PENDING_RETRY and OK_WITH_FINAL_MESSAGE reject. Each direction holds as an if-and-only-if. |
| Handshake.NextStep | test/unittest/rtps/security/SecurityAuthenticationTests.cpp:551-580 | A step authorizes exactly on OK and OK_WITH_FINAL_MESSAGE. After sending a message, an initiator that sent its request waits for the reply, and every other side waits for the final message. |
| Handshake.SentMessageAwaitsAnswer | test/unittest/rtps/security/SecurityAuthenticationTests.cpp:1225-1309 | After a step that sent a message and waits for its answer, an envelope recognised from that participant is processed exactly when its related identity is that participant with the number just sent. Any other is ignored. |
| Handshake.Classify | test/unittest/rtps/security/SecurityAuthenticationTests.cpp:840-930 | An envelope of another class, for another participant, or from an unknown sender is ignored. A request is answered exactly when this side waits for the sender's request. A reply or final message is processed exactly when the sender awaits it and it answers the last message sent. A duplicate of the reply answered by a final message resends exactly the kept change. |
| Handshake.DuplicateReplyResendsFinal | test/unittest/rtps/security/SecurityAuthenticationTests.cpp:1414-1454 | An envelope that was processed and answered with OK_WITH_FINAL_MESSAGE is, when it arrives again, classified as a resend of the final change. |
| Handshake.AuthorizedWithoutFinalIgnoresAll | test/unittest/rtps/security/SecurityAuthenticationTests.cpp:1565-1613 | After a step authorized with OK and sent nothing, every envelope from that participant is ignored. |
| WriterHistory.Without | test/unittest/rtps/security/SecurityAuthenticationTests.cpp:1265-1309 | `remove_change(n)` keeps exactly the changes whose number is not `n`. |
| WriterHistory.WithoutWellFormed | test/unittest/rtps/security/SecurityAuthenticationTests.cpp:1265-1309 | Removing a change keeps the history's numbers distinct and within the last number given out. |
| WriterHistory.Find | test/unittest/rtps/security/SecurityAuthenticationTests.cpp:656-674 | The lookup finds a change exactly when the history holds one of that number, and the change it finds has that number. |
| WriterHistory.ReuseKeepsChanges | test/unittest/rtps/security/SecurityAuthenticationTests.cpp:656-674 | `remove_change_and_reuse`, then `add_change` of the same change, leaves the history holding the same changes and still well formed. |
| Ledger.DistinctCardinality | test/unittest/rtps/security/SecurityAuthenticationTests.cpp:498-502 | A sequence of handle returns without repetition has as many entries as it names handles. |
| Ledger.IssueFresh | test/unittest/rtps/security/SecurityAuthenticationTests.cpp:499-502 | Issuing a handle never issued before keeps the ledger balanced, with that handle now held. |
| Ledger.ReturnHeld | test/unittest/rtps/security/SecurityAuthenticationTests.cpp:582-610 | Returning a held handle keeps the ledger balanced, with that handle no longer held. |
| Ledger.AllReturned | test/unittest/rtps/security/SecurityAuthenticationTests.cpp:646-654 | When nothing is held, the returns name exactly the issued handles, as many as were issued, each exactly once. |
| Ledger.CompletionReturnsHeld | test/unittest/rtps/security/SecurityAuthenticationTests.cpp:646-654 | The returns a completion adds name exactly the handles that were held, none twice. |
| Ledger.Split | test/unittest/rtps/security/SecurityAuthenticationTests.cpp:646-654 | The handles of a participant map split into those of one participant and those of the rest, and the two parts are disjoint. |
| Ledger.Extend | test/unittest/rtps/security/SecurityAuthenticationTests.cpp:492-507 | Adding a participant adds exactly its handles. Fresh handles keep every handle owned once. |
| Ledger.Replace | test/unittest/rtps/security/SecurityAuthenticationTests.cpp:1265-1309 | Replacing a participant's state replaces exactly its handles. |
| Ledger.SameHandles | test/unittest/rtps/security/SecurityAuthenticationTests.cpp:656-674 | A state change that keeps a participant's handles keeps the map's handles. |
| Ledger.ReturnState | test/unittest/rtps/security/SecurityAuthenticationTests.cpp:646-654 | Returning one participant's identity and handshake handles leaves the rest held as before. |
| Ledger.ReturnNext | test/unittest/rtps/security/SecurityAuthenticationTests.cpp:646-654 | One more participant's returns keep the teardown loop's invariant. |
| Ledger.ReturnLast | test/unittest/rtps/security/SecurityAuthenticationTests.cpp:465-471 | Once every participant's handles and the local identity handle are returned, both ledgers are complete. |
| ManagerModel.Constructed | test/unittest/rtps/security/SecurityAuthenticationTests.cpp:282-286 | A constructed manager holds no participant, no history and no handle, is not registered, and satisfies the invariant. |
| ManagerModel.LeadingSuccesses | test/unittest/rtps/security/SecurityAuthenticationTests.cpp:338-431 | The count of endpoints created before the first failed creation. |
| ManagerModel.Initialize | test/unittest/rtps/security/SecurityAuthenticationTests.cpp:303-431 | Without a plugin, init succeeds and changes nothing. With one, it succeeds exactly when local validation is OK, crypto registration succeeds and all four endpoints are created. A local validation that is not OK changes nothing. An OK validation holds a new identity handle. Creations are attempted in order and stop at the first failure. A creation failure deletes the endpoints made and unregisters the crypto handle. |
| ManagerModel.InitializeKeepsValid | test/unittest/rtps/security/SecurityAuthenticationTests.cpp:111-137 | init of a fresh manager keeps the invariant. |
| ManagerModel.CallFor | test/unittest/rtps/security/SecurityAuthenticationTests.cpp:526-580 | The initiator's step calls `begin_handshake_request` and the responder's first step calls `begin_handshake_reply`. Each calls only for the participant concerned. |
| ManagerModel.CountsAppend | test/unittest/rtps/security/SecurityAuthenticationTests.cpp:582-644 | The counts of writer calls in a joined log are the sums of the counts of its parts. |
| ManagerModel.StepKeepsRest | test/unittest/rtps/security/SecurityAuthenticationTests.cpp:932-974 | A handshake step changes neither the identity handles, the local identity, the endpoints nor the reader history. |
| ManagerModel.StepOutcome | test/unittest/rtps/security/SecurityAuthenticationTests.cpp:526-580 | A step makes exactly one plugin call. It succeeds exactly on OK, or when its message went out. FAILED reports UNAUTHORIZED once. A successful step that authorizes reports AUTHORIZED once. Any other step reports nothing. |
| ManagerModel.StepWriterCalls | test/unittest/rtps/security/SecurityAuthenticationTests.cpp:582-644 | A step that has a token calls `new_change` once, and `add_change` once when a change was granted. OK and FAILED allocate nothing. Only a step that does not answer FAILED calls `remove_change`, once, when a change is kept; which change it removes is stated by `StepRemovesAnswered`. |
| ManagerModel.StepRemovesAnswered | test/unittest/rtps/security/SecurityAuthenticationTests.cpp:1265-1309 | A step that does not answer FAILED first calls `remove_change` with the number of the change the participant keeps. That change is no longer in the writer history, and every other change still is. |
| ManagerModel.StepParticipants | test/unittest/rtps/security/SecurityAuthenticationTests.cpp:1225-1264 | The participant advances to the next step exactly when the step succeeds, and otherwise keeps its step. No other participant changes. |
| ManagerModel.StepKeepsValid | test/unittest/rtps/security/SecurityAuthenticationTests.cpp:1310-1402 | A handshake step keeps the invariant. |
| ManagerModel.StepKeepsHandles | test/unittest/rtps/security/SecurityAuthenticationTests.cpp:582-644 | A step that does not answer FAILED keeps every handle owned once or returned once. |
| ManagerModel.StepKeepsHistory | test/unittest/rtps/security/SecurityAuthenticationTests.cpp:1310-1402 | A step that does not answer FAILED keeps the writer history well formed, holding every change kept for a resend. |
| ManagerModel.StepFailedKeepsState | test/unittest/rtps/security/SecurityAuthenticationTests.cpp:794-838 | A FAILED step changes only the plugin calls and the notifications, and fails. |
| ManagerModel.DiscoverOutcome | test/unittest/rtps/security/SecurityAuthenticationTests.cpp:473-524 | Without a plugin, discovery does nothing and succeeds. A known participant is never validated again; at most its request is begun again. A new one is validated first. A rejected identity is reported UNAUTHORIZED, nothing else changes, and discovery fails. Validation OK or PENDING_HANDSHAKE_MESSAGE makes discovery succeed with only the validation call, no writer call and the writer history unchanged. |
| ManagerModel.DiscoverResult | test/unittest/rtps/security/SecurityAuthenticationTests.cpp:492-580 | An accepted participant is kept under a newly issued identity handle. The exact notification: AUTHORIZED on validation OK, UNAUTHORIZED on rejection or a FAILED request, AUTHORIZED when the request step authorizes, and none otherwise. |
| ManagerModel.DiscoverSucceeds | test/unittest/rtps/security/SecurityAuthenticationTests.cpp:509-549 | Discovery succeeds exactly when the participant is accepted or known and, if it is the initiator, its request step succeeds. |
| ManagerModel.AdmitKeepsValid | test/unittest/rtps/security/SecurityAuthenticationTests.cpp:492-507 | Keeping a newly accepted participant under a fresh handle keeps the invariant. |
| ManagerModel.ReuseEffects | test/unittest/rtps/security/SecurityAuthenticationTests.cpp:656-674 | A resend calls no plugin, reports nothing and moves no participant. It issues or returns no handle and allocates no new change. It removes no other change and adds no change the history did not hold. Its first writer call is `remove_change_and_reuse` of that change. |
| ManagerModel.TimerResendEffects | test/unittest/rtps/security/SecurityAuthenticationTests.cpp:1144-1162 | The timer resends the kept change exactly when the participant awaits a reply or final message and keeps one. It never calls a plugin or reports, and otherwise changes nothing. |
| ManagerModel.TimerResend | test/unittest/rtps/security/SecurityAuthenticationTests.cpp:1144-1162 | The resend timer of one participant: a resend of the kept change while a reply or final message is awaited. Its properties are stated by `TimerResendEffects` and `TimerResendKeepsValid`. |
| ManagerModel.ReuseKeepsValid | test/unittest/rtps/security/SecurityAuthenticationTests.cpp:656-674 | A resend keeps the invariant. When the history takes the change back, the history holds the same changes as before. |
| ManagerModel.TimerResendKeepsValid | test/unittest/rtps/security/SecurityAuthenticationTests.cpp:1144-1162 | The resend timer keeps the invariant. |
| ManagerModel.DiscoverKeepsValid | test/unittest/rtps/security/SecurityAuthenticationTests.cpp:473-838 | discovered_participant keeps the invariant. |
| ManagerModel.ReceiveConsumes | test/unittest/rtps/security/SecurityAuthenticationTests.cpp:840-930 | Every inbound change is removed from the reader history. One that does not parse, or that nothing waits for, changes nothing else. |
| ManagerModel.ReceiveCalls | test/unittest/rtps/security/SecurityAuthenticationTests.cpp:932-1132 | A request is answered by `begin_handshake_reply`, and a correlated reply or final message by `process_handshake`. A duplicate of the reply answered by a final message calls no plugin, reports nothing and reuses exactly the kept change. |
| ManagerModel.ReceiveKeepsValid | test/unittest/rtps/security/SecurityAuthenticationTests.cpp:976-1026 | onNewCacheChangeAdded keeps the invariant. |
| ManagerModel.DuplicateReplyAfterFinal | test/unittest/rtps/security/SecurityAuthenticationTests.cpp:1414-1454 | A reply answered with a final message and then delivered again calls no plugin, reports nothing and moves no participant. The writer history holds the same changes. |
| ManagerModel.FinalAwaitsDuplicate | test/unittest/rtps/security/SecurityAuthenticationTests.cpp:1404-1412 | After a reply is answered with a final message, the state is valid and that reply is recognised as a duplicate. |
| ManagerModel.DuplicateResent | test/unittest/rtps/security/SecurityAuthenticationTests.cpp:1414-1454 | A duplicate answered by a resend calls no plugin, reports nothing, moves no participant and leaves the history holding the same changes. |
| ManagerModel.AuthorizedIgnoresDiscovery | test/unittest/rtps/security/SecurityAuthenticationTests.cpp:750-838 | Discovering an authorized participant again does nothing and succeeds. |
| ManagerModel.AuthorizedIgnoresInbound | test/unittest/rtps/security/SecurityAuthenticationTests.cpp:1565-1613 | No inbound change moves an authorized participant out of its state or reports it again. |
| ManagerModel.InboundStepKeepsOthers | test/unittest/rtps/security/SecurityAuthenticationTests.cpp:840-861 | An inbound step for another participant leaves this one as it is and reports only the other one. |
| ManagerModel.OtherStepKeeps | test/unittest/rtps/security/SecurityAuthenticationTests.cpp:840-861 | A handshake step of one participant keeps every other participant's state and appends notifications for that participant only. |
| ManagerModel.UncorrelatedAnswerDropped | test/unittest/rtps/security/SecurityAuthenticationTests.cpp:1456-1523 | A reply or final message whose related source or sequence number does not match the last message sent is consumed and changes nothing else. |
| ManagerModel.DiscoverRequestWriterCalls | test/unittest/rtps/security/SecurityAuthenticationTests.cpp:551-644 | A discovery that runs `begin_handshake_request` calls `new_change` once when the request comes with a token, and `add_change` once when a change was granted. It removes no change. Its plugin calls are the validation of a new participant, then the request. |
| ManagerModel.Provision | test/unittest/rtps/security/SecurityAuthenticationTests.cpp:323-431 | The part of init after the local identity is held: crypto registration, then the endpoints while their creation succeeds, with rollback on the first failure. Its properties are stated through `ManagerModel.Initialize`. |
| ManagerModel.Step | test/unittest/rtps/security/SecurityAuthenticationTests.cpp:526-748 | One handshake call and the send of its token. Its properties are stated by `StepOutcome`, `StepWriterCalls`, `StepParticipants`, `StepKeepsRest`, `StepFailedKeepsState` and `StepKeepsValid`. The same step answers the inbound requests, replies and final messages of the tests at lines 932-1132 and 1225-1613. |
| ManagerModel.Discover | test/unittest/rtps/security/SecurityAuthenticationTests.cpp:473-838 | discovered_participant. Its properties are stated by `DiscoverOutcome`, `DiscoverResult`, `DiscoverSucceeds`, `DiscoverRequestWriterCalls`, `AuthorizedIgnoresDiscovery` and `DiscoverKeepsValid`. |
| ManagerModel.Admit | test/unittest/rtps/security/SecurityAuthenticationTests.cpp:492-524 | Keeping a validated participant under a new identity handle, AUTHORIZED when it needs no handshake. Its properties are stated by `AdmitKeepsValid` and `DiscoverResult`. |
| ManagerModel.Reuse | test/unittest/rtps/security/SecurityAuthenticationTests.cpp:656-674 | `remove_change_and_reuse` then `add_change` of a kept change. Its properties are stated by `ReuseEffects` and `ReuseKeepsValid`. The same reuse answers a duplicate reply after a final message (lines 1414-1454). |
| ManagerModel.Receive | test/unittest/rtps/security/SecurityAuthenticationTests.cpp:840-1613 | onNewCacheChangeAdded. Its properties are stated by `ReceiveConsumes`, `ReceiveCalls`, `ReceiveKeepsValid`, `UncorrelatedAnswerDropped`, `DuplicateReplyAfterFinal` and `AuthorizedIgnoresInbound`. |
| ManagerModel.TornDown | test/unittest/rtps/security/SecurityAuthenticationTests.cpp:465-471 | What the destructor leaves: no participant, no local identity, crypto unregistered, endpoints deleted, both handle ledgers complete, nothing else changed. Its consequences are stated by `TeardownReturnsAll` and `TeardownCounts`. The handle returns it implies are the ones the tests expect at lines 646-654. |
| ManagerModel.TeardownKeepsValid | test/unittest/rtps/security/SecurityAuthenticationTests.cpp:465-471 | The destructor keeps the invariant. |
| ManagerModel.TeardownReturnsAll | test/unittest/rtps/security/SecurityAuthenticationTests.cpp:646-654 | The destructor returns exactly the identity and handshake handles held. Afterwards every handle ever issued has been returned exactly once, and unregistrations equal registrations. |
| ManagerModel.TeardownCounts | test/unittest/rtps/security/SecurityAuthenticationTests.cpp:565-568 | Over a whole lifetime, as many returns of each kind of handle are made as handles were issued. |
| Scenarios.Initialized | test/unittest/rtps/security/SecurityAuthenticationTests.cpp:111-137 | A successful init holds identity handle 0 and no handshake handle. It has registered crypto once, holds no participant, and satisfies the invariant. |
| Scenarios.InitThenTeardown | test/unittest/rtps/security/SecurityAuthenticationTests.cpp:465-471 | init then the destructor returns the local identity handle once and no handshake handle, and unregisters the crypto handle once. |
| Scenarios.DiscoveryLedgers | test/unittest/rtps/security/SecurityAuthenticationTests.cpp:473-654 | After one discovery, a second identity handle is issued exactly when validation accepts. A handshake handle is issued exactly when the request was begun and did not answer FAILED. |
| Scenarios.DiscoveryThenTeardown | test/unittest/rtps/security/SecurityAuthenticationTests.cpp:473-654 | init, one discovery and the destructor call `return_identity_handle` twice for an accepted participant and once otherwise. They call `return_handshake_handle` once exactly when a request was begun without FAILED. |
| Scenarios.RejectedThenValidatedAgain | test/unittest/rtps/security/SecurityAuthenticationTests.cpp:750-792 | After a rejected validation nothing is kept, so discovering the same participant again validates it again. |
| Scenarios.FailedRequestBegunAgain | test/unittest/rtps/security/SecurityAuthenticationTests.cpp:794-838 | After a FAILED `begin_handshake_request`, discovering the same participant again does not validate it. It calls `begin_handshake_request` again, and nothing else. |
| Manager.LeadingRetries | test/unittest/rtps/security/SecurityAuthenticationTests.cpp:433-463 | The number of PENDING_RETRY answers before the first other answer. |
| Manager.ValidateLocalIdentityUntilSettled | test/unittest/rtps/security/SecurityAuthenticationTests.cpp:433-463 | `validate_local_identity` is called again while it answers PENDING_RETRY. The first other answer is returned, after exactly one more call than there were retries. |
| Manager.SecurityManager.constructor | test/unittest/rtps/security/SecurityAuthenticationTests.cpp:282-286 | The new manager's state is the constructed state, and it is valid. |
| Manager.SecurityManager.Init | test/unittest/rtps/security/SecurityAuthenticationTests.cpp:303-463 | init validates the local identity until it settles, then changes the state exactly as `Initialize` says for the settled answer, keeping the invariant. |
| Manager.SecurityManager.CreateEndpoints | test/unittest/rtps/security/SecurityAuthenticationTests.cpp:338-431 | The endpoints are created in the order SW, SR, VW, VR up to the first failure. |
| Manager.SecurityManager.Provision | test/unittest/rtps/security/SecurityAuthenticationTests.cpp:323-431 | Crypto registration and endpoint creation change the state exactly as `ManagerModel.Provision` says. |
| Manager.SecurityManager.Proceed | test/unittest/rtps/security/SecurityAuthenticationTests.cpp:551-644 | A handshake step that is not FAILED changes the state exactly as `Step` says. |
| Manager.SecurityManager.Advance | test/unittest/rtps/security/SecurityAuthenticationTests.cpp:526-644 | A handshake step changes the state exactly as `Step` says. |
| Manager.SecurityManager.Admit | test/unittest/rtps/security/SecurityAuthenticationTests.cpp:492-524 | Keeping an accepted participant changes the state exactly as `ManagerModel.Admit` says. |
| Manager.SecurityManager.DiscoveredParticipant | test/unittest/rtps/security/SecurityAuthenticationTests.cpp:473-838 | discovered_participant changes the state and answers exactly as `Discover` says, keeping the invariant. |
| Manager.SecurityManager.Reuse | test/unittest/rtps/security/SecurityAuthenticationTests.cpp:656-674 | A resend of a kept change changes the state exactly as `ManagerModel.Reuse` says. |
| Manager.SecurityManager.Resend | test/unittest/rtps/security/SecurityAuthenticationTests.cpp:1144-1162 | The resend timer changes the state exactly as `TimerResend` says, keeping the invariant. |
| Manager.SecurityManager.OnNewCacheChangeAdded | test/unittest/rtps/security/SecurityAuthenticationTests.cpp:840-1613 | onNewCacheChangeAdded changes the state exactly as `Receive` says, keeping the invariant. |
| Manager.SecurityManager.ReturnHandles | test/unittest/rtps/security/SecurityAuthenticationTests.cpp:646-654 | Returning the handles of every participant and the local identity completes both ledgers. |
| Manager.SecurityManager.Destroy | test/unittest/rtps/security/SecurityAuthenticationTests.cpp:465-471 | The destructor leaves the state `TornDown` describes and keeps the invariant. |

## Left out

- The CDR serialization of envelopes is not modelled. Parsing either yields the envelope or
  fails, and a failure is an inbound change without a payload.
- The UDP transport, the mock framework and the plugin factory are outside this model.
- Remote crypto registration and key exchange on the volatile endpoints are not modelled.
  The model covers authentication only.
- The calls the manager makes on the participant discovery protocol are left out:
  serializing the local participant data for a token, and notifying the discovery of an
  authorized participant. Their only effect on authentication is the token, which is a
  parameter.
- The resend timer is an explicit operation (`TimerResend`, `SecurityManager.Resend`), not
  an event in time. Its period and the time it waits are left out.
- The manager's mutex and the threads that call it are left out. Every operation is atomic
  in the model.
- Sequence numbers and handle numbers are unbounded. The 64-bit sequence numbers of the
  writer history never wrap here.
- The answers of `remove_change` on the writer and reader histories, of
  `unregister_participant` and of `return_identity_handle` / `return_handshake_handle` are
  not modelled. In the tests they all succeed, and the manager does not act on them.
- The writer history is not drained at teardown. The destructor's effect on changes still
  held is not part of this model.
- Manager.SecurityManager.Destroy: the order in which the destructor returns handles is left
  to the participant map, so the contract states which handles come back and how often, not
  in which order.
- GUIDs of any width are accepted. `SecurityTypes.WellSized` states the 12 + 4 octet width
  of the source's keys, and no operation depends on it.
- Manager.ValidateLocalIdentityUntilSettled: it requires that some answer other than
  PENDING_RETRY arrives. An endless retry is not modelled.
- Manager.SecurityManager.ReturnHandles: its outputs are ghost, because the handle ledgers
  exist only in the proof. The plugin handles themselves carry no data.
- Manager.SecurityManager.Init: it requires a manager that has not run init yet, with no
  local identity and no crypto registration. A second init is not modelled.
