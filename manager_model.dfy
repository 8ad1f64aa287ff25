/** The security manager's whole observable state as one value, and each of its operations
    as a function on that value. The class in security_manager.dfy updates its fields in
    place and proves that each method does what the function here says. */
module ManagerModel {
  import opened SecurityTypes
  import opened AuthMessage
  import opened Handshake
  import opened WriterHistory
  import opened Ledger

  datatype ManagerState = ManagerState(
    authPlugin: bool,                  // an authentication plugin is configured
    localGuid: Guid,                   // the local participant key
    localIdentity: Option<nat>,        // local IdentityHandle from validate_local_identity
    cryptoRegistered: bool,            // local ParticipantCryptoHandle held
    endpoints: seq<Endpoint>,          // builtin endpoints created by init
    participants: map<Guid, AuthState>,
    writerHistory: seq<CacheChange>,   // stateless writer history
    lastWriterSequence: nat,           // last sequence number that history gave out
    nextMessageSequence: nat,          // next MessageIdentity sequence number
    nextHandle: nat,                   // distinguishes the handles the plugins hand out
    identityLedger: HandleLedger,      // identity handles issued and returned
    handshakeLedger: HandleLedger,     // handshake handles issued and returned
    cryptoRegistrations: nat,
    cryptoUnregistrations: nat,
    notifications: seq<AuthenticationInfo>,
    writerCalls: seq<WriterCall>,
    readerRemovals: seq<nat>,          // inbound changes removed from the stateless reader history
    pluginCalls: seq<PluginCall>,      // remote validation and handshake calls
    creationAttempts: seq<Endpoint>,
    deletedEndpoints: seq<Endpoint>)

  /** A manager just constructed, before init. */
  function Constructed(authPlugin: bool, localGuid: Guid): (s: ManagerState)
    ensures ValidState(s)
    ensures s.participants == map[] && s.writerHistory == [] && s.nextMessageSequence == 1
    ensures s.identityLedger.issued == {} && s.handshakeLedger.issued == {} && !s.cryptoRegistered
  {
    ManagerState(authPlugin, localGuid, None, false, [], map[], [], 0, 1, 0,
                 HandleLedger({}, []), HandleLedger({}, []), 0, 0, [], [], [], [], [], [])
  }

  // ------------------------------------------------------------------ invariant

  /** Which handles and pending changes a state holds, by step. */
  ghost predicate Shaped(st: AuthState)
  {
    && (BeginsHandshake(st.step) ==> st.handshakeHandle.None? && st.changeSequenceNumber.None?)
    && (st.step == WaitingReply || st.step == WaitingFinal ==> st.handshakeHandle.Some?)
  }

  /** Each change kept for a resend is still in the writer history. */
  ghost predicate PendingInHistory(m: map<Guid, AuthState>, h: seq<CacheChange>)
  {
    forall k | k in m && m[k].changeSequenceNumber.Some? :: Find(h, m[k].changeSequenceNumber.value).Some?
  }

  /** No two participants keep the same change. */
  ghost predicate PendingUnshared(m: map<Guid, AuthState>)
  {
    forall k, k' | k in m && k' in m && k != k' && m[k].changeSequenceNumber.Some? ::
      m[k].changeSequenceNumber != m[k'].changeSequenceNumber
  }

  /** Every handle issued is held by exactly one owner or was returned exactly once. */
  ghost predicate HandlesValid(s: ManagerState)
  {
    && Unshared(s.participants)
    && LocalHeld(s.localIdentity) !! RemoteIdentities(s.participants)
    && Balanced(s.identityLedger, LocalHeld(s.localIdentity) + RemoteIdentities(s.participants))
    && Balanced(s.handshakeLedger, Handshakes(s.participants))
    && (forall h | h in s.identityLedger.issued :: h < s.nextHandle)
    && (forall h | h in s.handshakeLedger.issued :: h < s.nextHandle)
  }

  ghost predicate HistoryValid(s: ManagerState)
  {
    && WellFormed(s.writerHistory, s.lastWriterSequence)
    && PendingInHistory(s.participants, s.writerHistory)
    && PendingUnshared(s.participants)
  }

  ghost predicate ValidState(s: ManagerState)
  {
    && (forall k | k in s.participants :: Shaped(s.participants[k]))
    && HandlesValid(s)
    && HistoryValid(s)
    && s.cryptoRegistrations == s.cryptoUnregistrations + (if s.cryptoRegistered then 1 else 0)
    && s.nextMessageSequence >= 1
  }

  // ------------------------------------------------------------------ init

  /** The number of leading `true` answers: the endpoints created before the first failure. */
  function LeadingSuccesses(created: seq<bool>): (n: nat)
    ensures n <= |created|
    ensures forall i | 0 <= i < n :: created[i]
    ensures n < |created| ==> !created[n]
  {
    if created == [] || !created[0] then 0 else 1 + LeadingSuccesses(created[1..])
  }

  /** init() once validate_local_identity has settled on `validation`: the local identity
      handle, the local crypto registration and the four endpoints, in that order, each
      step only when the one before succeeded. `created[i]` is the answer of the i-th
      creation call. */
  function Initialize(s: ManagerState, validation: ValidationResult, cryptoOk: bool, created: seq<bool>): (r: (ManagerState, bool))
    requires |created| == |EndpointCreationOrder|
    ensures !s.authPlugin ==> r == (s, true)
    ensures s.authPlugin ==>
              (r.1 <==> validation == ValidationOk && cryptoOk && LeadingSuccesses(created) == |EndpointCreationOrder|)
    // the local identity is held exactly when validation succeeded
    ensures s.authPlugin && validation == ValidationOk ==>
              r.0.localIdentity == Some(s.nextHandle) && r.0.identityLedger == Issue(s.identityLedger, s.nextHandle)
    ensures s.authPlugin && validation != ValidationOk ==> r == (s, false)
    // creations are attempted in order and stop at the first failure
    ensures s.authPlugin && validation == ValidationOk && cryptoOk ==>
              var n := LeadingSuccesses(created);
              r.0.creationAttempts == s.creationAttempts
                + EndpointCreationOrder[..if n < |EndpointCreationOrder| then n + 1 else n]
    ensures r.0.endpoints == if r.1 && s.authPlugin then s.endpoints + EndpointCreationOrder else s.endpoints
    // on a creation failure the endpoints made so far are deleted and the crypto handle
    // is unregistered in the same call; a success keeps it registered
    ensures s.authPlugin && validation == ValidationOk && cryptoOk && !r.1 ==>
              && r.0.deletedEndpoints == s.deletedEndpoints + EndpointCreationOrder[..LeadingSuccesses(created)]
              && r.0.cryptoUnregistrations == s.cryptoUnregistrations + 1 && !r.0.cryptoRegistered
    ensures r.0.cryptoRegistrations == s.cryptoRegistrations + (if s.authPlugin && validation == ValidationOk && cryptoOk then 1 else 0)
    ensures r.0.participants == s.participants && r.0.writerCalls == s.writerCalls
  {
    if !s.authPlugin then (s, true)
    else if validation != ValidationOk then (s, false)
    else
      var h := s.nextHandle;
      Provision(s.(localIdentity := Some(h), nextHandle := h + 1, identityLedger := Issue(s.identityLedger, h)),
                cryptoOk, created)
  }

  /** The part of init() after the local identity is held: register_local_participant
      (answer `cryptoOk`), then the endpoints while their creation succeeds. */
  function Provision(s: ManagerState, cryptoOk: bool, created: seq<bool>): (r: (ManagerState, bool))
    requires |created| == |EndpointCreationOrder|
  {
    if !cryptoOk then (s, false)
    else
      var registered := s.(cryptoRegistered := true, cryptoRegistrations := s.cryptoRegistrations + 1);
      var n := LeadingSuccesses(created);
      if n == |EndpointCreationOrder| then
        (registered.(endpoints := s.endpoints + EndpointCreationOrder,
                     creationAttempts := s.creationAttempts + EndpointCreationOrder), true)
      else
        (registered.(creationAttempts := s.creationAttempts + EndpointCreationOrder[..n + 1],
                     deletedEndpoints := s.deletedEndpoints + EndpointCreationOrder[..n],
                     cryptoRegistered := false,
                     cryptoUnregistrations := s.cryptoUnregistrations + 1), false)
  }

  lemma InitializeKeepsValid(s: ManagerState, validation: ValidationResult, cryptoOk: bool, created: seq<bool>)
    requires ValidState(s) && s.localIdentity.None? && !s.cryptoRegistered && |created| == |EndpointCreationOrder|
    ensures ValidState(Initialize(s, validation, cryptoOk, created).0)
  {
    var h := s.nextHandle;
    if s.authPlugin && validation == ValidationOk {
      assert h !in RemoteIdentities(s.participants);
      IssueFresh(s.identityLedger, LocalHeld(s.localIdentity) + RemoteIdentities(s.participants), h);
      assert LocalHeld(Some(h)) + RemoteIdentities(s.participants)
          == LocalHeld(s.localIdentity) + RemoteIdentities(s.participants) + {h};
    }
  }

  // ------------------------------------------------------------------ handshake step

  /** How many new_change, add_change and remove_change calls a writer log holds. */
  function NewChanges(log: seq<WriterCall>): nat
  {
    if log == [] then 0 else NewChanges(log[..|log| - 1]) + (if log[|log| - 1].NewChange? then 1 else 0)
  }

  function AddChanges(log: seq<WriterCall>): nat
  {
    if log == [] then 0 else AddChanges(log[..|log| - 1]) + (if log[|log| - 1].AddChange? then 1 else 0)
  }

  function Removals(log: seq<WriterCall>): nat
  {
    if log == [] then 0 else Removals(log[..|log| - 1]) + (if log[|log| - 1].RemoveChange? then 1 else 0)
  }

  /** The counts of a log extended by `more`. */
  lemma {:induction false} CountsAppend(log: seq<WriterCall>, more: seq<WriterCall>)
    ensures NewChanges(log + more) == NewChanges(log) + NewChanges(more)
    ensures AddChanges(log + more) == AddChanges(log) + AddChanges(more)
    ensures Removals(log + more) == Removals(log) + Removals(more)
  {
    if more != [] {
      CountsAppend(log, more[..|more| - 1]);
      assert (log + more)[..|log + more| - 1] == log + more[..|more| - 1];
    } else {
      assert log + more == log;
    }
  }

  /** The plugin operation a handshake step calls, by step. */
  function CallFor(step: AuthStep, key: Guid): (c: PluginCall)
    ensures c.BeginHandshakeRequest? <==> step == RequestNotSent
    ensures c.BeginHandshakeReply? <==> step == WaitingRequest
    ensures !c.ValidateLocalIdentity? && c.remote == key
  {
    match step
    case RequestNotSent => BeginHandshakeRequest(key)
    case WaitingRequest => BeginHandshakeReply(key)
    case _ => ProcessHandshake(key)
  }

  /** The writer calls of one send: new_change, then add_change when a change was granted. */
  function SendCalls(alloc: bool, publish: bool, c: CacheChange): seq<WriterCall>
  {
    [NewChange(alloc)] + (if alloc then [AddChange(c, publish)] else [])
  }

  lemma SingleCounts(x: WriterCall)
    ensures NewChanges([x]) == (if x.NewChange? then 1 else 0)
    ensures AddChanges([x]) == (if x.AddChange? then 1 else 0)
    ensures Removals([x]) == (if x.RemoveChange? then 1 else 0)
  {
    assert [x][..0] == [];
  }

  /** The writer call that drops the change a step answers, if one is kept. */
  function RemovalCalls(previous: Option<nat>): seq<WriterCall>
  {
    if previous.Some? then [RemoveChange(previous.value)] else []
  }

  lemma RemovalCounts(previous: Option<nat>)
    ensures NewChanges(RemovalCalls(previous)) == 0 && AddChanges(RemovalCalls(previous)) == 0
    ensures Removals(RemovalCalls(previous)) == if previous.Some? then 1 else 0
  {
    if previous.Some? { SingleCounts(RemoveChange(previous.value)); }
  }

  lemma SendCallsCounts(alloc: bool, publish: bool, c: CacheChange)
    ensures NewChanges(SendCalls(alloc, publish, c)) == 1
    ensures AddChanges(SendCalls(alloc, publish, c)) == if alloc then 1 else 0
    ensures Removals(SendCalls(alloc, publish, c)) == 0
  {
    SingleCounts(NewChange(alloc));
    SingleCounts(AddChange(c, publish));
    if alloc {
      CountsAppend([NewChange(alloc)], [AddChange(c, publish)]);
    } else {
      assert SendCalls(alloc, publish, c) == [NewChange(alloc)];
    }
  }

  /** One handshake call for `key` (begin_handshake_request, begin_handshake_reply or
      process_handshake, by step) that the plugin answers with `ret` and `token`, in answer
      to the message identified by `related`; `alloc` and `publish` are the answers of
      new_change and add_change. The second component is the step's success. */
  function Step(s: ManagerState, key: Guid, related: MessageIdentity, ret: ValidationResult,
                token: HandshakeMessageToken, alloc: bool, publish: bool): (r: (ManagerState, bool))
    requires key in s.participants && Handshaking(s.participants[key].step) && Shaped(s.participants[key])
  {
    var st := s.participants[key];
    var called := s.pluginCalls + [CallFor(st.step, key)];
    if ret == ValidationFailed then
      (s.(pluginCalls := called, notifications := s.notifications + [AuthenticationInfo(key, UnauthorizedParticipant)]), false)
    else
      var begins := BeginsHandshake(st.step);
      // begin_handshake_* hands out a new handshake handle; process_handshake uses the one held
      var handshake := if begins then s.nextHandle else st.handshakeHandle.value;
      // a reply takes the next message sequence number whether or not it goes out
      var c := CacheChange(s.lastWriterSequence + 1,
                           GenerateAuthenticationMessage(s.localGuid, s.nextMessageSequence, related, key, token));
      var delivered := SendsMessage(ret) && alloc && publish;
      var ok := StepSucceeds(ret, delivered);
      var cleared := st.(changeSequenceNumber := None);
      // remove_change of the change the step answers, if one is kept
      var kept := if st.changeSequenceNumber.Some? then Without(s.writerHistory, st.changeSequenceNumber.value) else s.writerHistory;
      (s.(participants := s.participants[key := if ok then Advanced(cleared, ret, handshake, s.nextMessageSequence, c.sequenceNumber) else cleared],
          writerHistory := kept + (if delivered then [c] else []),
          lastWriterSequence := if delivered then c.sequenceNumber else s.lastWriterSequence,
          nextMessageSequence := if SendsMessage(ret) then s.nextMessageSequence + 1 else s.nextMessageSequence,
          nextHandle := if begins then s.nextHandle + 1 else s.nextHandle,
          // the new handle of a step that failed is handed back at once
          handshakeLedger := if !begins then s.handshakeLedger
                             else if ok then Issue(s.handshakeLedger, handshake)
                             else Return(Issue(s.handshakeLedger, handshake), handshake),
          notifications := if ok && ret != ValidationPendingHandshakeMessage
                           then s.notifications + [AuthenticationInfo(key, AuthorizedParticipant)]
                           else s.notifications,
          writerCalls := s.writerCalls + RemovalCalls(st.changeSequenceNumber)
                         + (if SendsMessage(ret) then SendCalls(alloc, publish, c) else []),
          pluginCalls := called),
       ok)
  }

  /** Step's result, written out field by field from values a caller computed. */
  lemma StepFields(s: ManagerState, key: Guid, related: MessageIdentity, ret: ValidationResult,
                   token: HandshakeMessageToken, alloc: bool, publish: bool,
                   participants: map<Guid, AuthState>, history: seq<CacheChange>, last: nat, nextMessage: nat,
                   nextHandle: nat, ledger: HandleLedger, notifications: seq<AuthenticationInfo>,
                   writerCalls: seq<WriterCall>, pluginCalls: seq<PluginCall>, ok: bool)
    requires key in s.participants && Handshaking(s.participants[key].step) && Shaped(s.participants[key])
    requires ret != ValidationFailed
    requires var st := s.participants[key];
             var begins := BeginsHandshake(st.step);
             var handshake := if begins then s.nextHandle else st.handshakeHandle.value;
             var c := CacheChange(s.lastWriterSequence + 1,
                                  GenerateAuthenticationMessage(s.localGuid, s.nextMessageSequence, related, key, token));
             var delivered := SendsMessage(ret) && alloc && publish;
             var cleared := st.(changeSequenceNumber := None);
             && ok == StepSucceeds(ret, delivered)
             && participants == s.participants[key := if ok then Advanced(cleared, ret, handshake, s.nextMessageSequence, c.sequenceNumber) else cleared]
             && history == (if st.changeSequenceNumber.Some? then Without(s.writerHistory, st.changeSequenceNumber.value) else s.writerHistory)
                           + (if delivered then [c] else [])
             && last == (if delivered then c.sequenceNumber else s.lastWriterSequence)
             && nextMessage == (if SendsMessage(ret) then s.nextMessageSequence + 1 else s.nextMessageSequence)
             && nextHandle == (if begins then s.nextHandle + 1 else s.nextHandle)
             && ledger == (if !begins then s.handshakeLedger
                           else if ok then Issue(s.handshakeLedger, handshake)
                           else Return(Issue(s.handshakeLedger, handshake), handshake))
             && notifications == (if ok && ret != ValidationPendingHandshakeMessage
                                  then s.notifications + [AuthenticationInfo(key, AuthorizedParticipant)]
                                  else s.notifications)
             && writerCalls == s.writerCalls + RemovalCalls(st.changeSequenceNumber)
                               + (if SendsMessage(ret) then SendCalls(alloc, publish, c) else [])
             && pluginCalls == s.pluginCalls + [CallFor(st.step, key)]
    ensures Step(s, key, related, ret, token, alloc, publish)
            == (s.(participants := participants, writerHistory := history, lastWriterSequence := last,
                   nextMessageSequence := nextMessage, nextHandle := nextHandle, handshakeLedger := ledger,
                   notifications := notifications, writerCalls := writerCalls, pluginCalls := pluginCalls), ok)
  {
  }

  /** A handshake step touches neither the identity handles, the crypto registrations, the
      endpoints nor what the reader consumed. */
  lemma StepKeepsRest(s: ManagerState, key: Guid, related: MessageIdentity, ret: ValidationResult,
                      token: HandshakeMessageToken, alloc: bool, publish: bool)
    requires key in s.participants && Handshaking(s.participants[key].step) && Shaped(s.participants[key])
    ensures var r := Step(s, key, related, ret, token, alloc, publish).0;
            && r.readerRemovals == s.readerRemovals && r.identityLedger == s.identityLedger
            && r.localIdentity == s.localIdentity && r.endpoints == s.endpoints
  {
  }

  /** What one handshake step calls and reports. */
  lemma StepOutcome(s: ManagerState, key: Guid, related: MessageIdentity, ret: ValidationResult,
                    token: HandshakeMessageToken, alloc: bool, publish: bool)
    requires key in s.participants && Handshaking(s.participants[key].step) && Shaped(s.participants[key])
    // exactly one plugin call
    ensures Step(s, key, related, ret, token, alloc, publish).0.pluginCalls
            == s.pluginCalls + [CallFor(s.participants[key].step, key)]
    // the step succeeds on OK, or on a message that went out
    ensures Step(s, key, related, ret, token, alloc, publish).1 <==> StepSucceeds(ret, alloc && publish)
    // FAILED: one UNAUTHORIZED notification; OK and OK_WITH_FINAL_MESSAGE that succeed: one
    // AUTHORIZED notification; no notification otherwise
    ensures var r := Step(s, key, related, ret, token, alloc, publish);
            r.0.notifications == s.notifications
              + if ret == ValidationFailed then [AuthenticationInfo(key, UnauthorizedParticipant)]
                else if r.1 && ret != ValidationPendingHandshakeMessage then [AuthenticationInfo(key, AuthorizedParticipant)]
                else []
  {
  }

  /** A message is allocated once and added at most once; nothing is allocated for OK or
      FAILED; only a process_handshake that is not FAILED removes the change it answers. */
  lemma StepWriterCalls(s: ManagerState, key: Guid, related: MessageIdentity, ret: ValidationResult,
                        token: HandshakeMessageToken, alloc: bool, publish: bool)
    requires key in s.participants && Handshaking(s.participants[key].step) && Shaped(s.participants[key])
    ensures var r := Step(s, key, related, ret, token, alloc, publish).0;
            && NewChanges(r.writerCalls) == NewChanges(s.writerCalls) + (if SendsMessage(ret) then 1 else 0)
            && AddChanges(r.writerCalls) == AddChanges(s.writerCalls) + (if SendsMessage(ret) && alloc then 1 else 0)
            && Removals(r.writerCalls) == Removals(s.writerCalls)
                 + (if ret != ValidationFailed && s.participants[key].changeSequenceNumber.Some? then 1 else 0)
  {
    var calls := Step(s, key, related, ret, token, alloc, publish).0.writerCalls;
    if ret != ValidationFailed {
      var previous := s.participants[key].changeSequenceNumber;
      var c := CacheChange(s.lastWriterSequence + 1,
                           GenerateAuthenticationMessage(s.localGuid, s.nextMessageSequence, related, key, token));
      var sending := if SendsMessage(ret) then SendCalls(alloc, publish, c) else [];
      assert calls == s.writerCalls + RemovalCalls(previous) + sending;
      CountsAppend(s.writerCalls + RemovalCalls(previous), sending);
      CountsAppend(s.writerCalls, RemovalCalls(previous));
      RemovalCounts(previous);
      if SendsMessage(ret) {
        SendCallsCounts(alloc, publish, c);
      } else {
        assert NewChanges(sending) == 0 && AddChanges(sending) == 0 && Removals(sending) == 0;
      }
    }
  }

  /** A step that does not answer FAILED first calls remove_change for the change the
      participant keeps; that change leaves the writer history and every other change stays. */
  lemma StepRemovesAnswered(s: ManagerState, key: Guid, related: MessageIdentity, ret: ValidationResult,
                            token: HandshakeMessageToken, alloc: bool, publish: bool)
    requires ValidState(s) && key in s.participants && Handshaking(s.participants[key].step)
    requires ret != ValidationFailed && s.participants[key].changeSequenceNumber.Some?
    ensures var n := s.participants[key].changeSequenceNumber.value;
            var r := Step(s, key, related, ret, token, alloc, publish).0;
            && |r.writerCalls| > |s.writerCalls| && r.writerCalls[|s.writerCalls|] == RemoveChange(n)
            && Find(r.writerHistory, n).None?
            && forall c | c in s.writerHistory && c.sequenceNumber != n :: c in r.writerHistory
  {
    var n := s.participants[key].changeSequenceNumber.value;
    var r := Step(s, key, related, ret, token, alloc, publish).0;
    FindBound(s.writerHistory, s.lastWriterSequence, n);
    var kept := Without(s.writerHistory, n);
    assert r.writerHistory == kept || r.writerHistory == kept + [CacheChange(s.lastWriterSequence + 1, GenerateAuthenticationMessage(s.localGuid, s.nextMessageSequence, related, key, token))];
    assert forall c | c in r.writerHistory :: c.sequenceNumber != n;
  }

  /** The state of `key` advances exactly on success; no other participant changes. */
  lemma StepParticipants(s: ManagerState, key: Guid, related: MessageIdentity, ret: ValidationResult,
                         token: HandshakeMessageToken, alloc: bool, publish: bool)
    requires key in s.participants && Handshaking(s.participants[key].step) && Shaped(s.participants[key])
    ensures var r := Step(s, key, related, ret, token, alloc, publish);
            && (forall k :: k in r.0.participants <==> k in s.participants)
            && r.0.participants[key].step == (if r.1 then NextStep(s.participants[key].step, ret) else s.participants[key].step)
            && (forall k | k in s.participants && k != key :: r.0.participants[k] == s.participants[k])
  {
  }

  /** A handshake step keeps the invariant. */
  lemma StepKeepsValid(s: ManagerState, key: Guid, related: MessageIdentity, ret: ValidationResult,
                       token: HandshakeMessageToken, alloc: bool, publish: bool)
    requires ValidState(s) && key in s.participants && Handshaking(s.participants[key].step)
    ensures ValidState(Step(s, key, related, ret, token, alloc, publish).0)
  {
    if ret != ValidationFailed {
      StepKeepsHandles(s, key, related, ret, token, alloc, publish);
      StepKeepsHistory(s, key, related, ret, token, alloc, publish);
    }
  }

  lemma StepKeepsHandles(s: ManagerState, key: Guid, related: MessageIdentity, ret: ValidationResult,
                         token: HandshakeMessageToken, alloc: bool, publish: bool)
    requires ValidState(s) && key in s.participants && Handshaking(s.participants[key].step)
    requires ret != ValidationFailed
    ensures var r := Step(s, key, related, ret, token, alloc, publish).0;
            && (forall k | k in r.participants :: Shaped(r.participants[k]))
            && HandlesValid(r)
  {
    var r := Step(s, key, related, ret, token, alloc, publish);
    var begins := BeginsHandshake(s.participants[key].step);
    assert r.0.participants == s.participants[key := r.0.participants[key]];
    HandlesAfterStep(s, key, r.0.participants[key], begins, r.1);
    var t := s.(participants := r.0.participants, nextHandle := r.0.nextHandle, handshakeLedger := r.0.handshakeLedger);
    assert HandlesValid(t);
  }

  /** A step of `key` that keeps its identity handle and, when it begins a handshake, holds
      the handle it took on success and none on failure, keeps every handle accounted for. */
  lemma HandlesAfterStep(s: ManagerState, key: Guid, after: AuthState, begins: bool, ok: bool)
    requires ValidState(s) && key in s.participants
    requires begins <==> BeginsHandshake(s.participants[key].step)
    requires after.identityHandle == s.participants[key].identityHandle && Shaped(after)
    requires after.handshakeHandle == if begins && ok then Some(s.nextHandle)
                                     else if begins then None
                                     else s.participants[key].handshakeHandle
    ensures var r := s.(participants := s.participants[key := after],
                        nextHandle := if begins then s.nextHandle + 1 else s.nextHandle,
                        handshakeLedger := if !begins then s.handshakeLedger
                                           else if ok then Issue(s.handshakeLedger, s.nextHandle)
                                           else Return(Issue(s.handshakeLedger, s.nextHandle), s.nextHandle));
            (forall k | k in r.participants :: Shaped(r.participants[k])) && HandlesValid(r)
  {
    var m := s.participants;
    var st := m[key];
    Split(m, key);
    Replace(m, key, after);
    var held := Handshakes(m - {key});
    if begins {
      var h := s.nextHandle;
      assert h !in s.handshakeLedger.issued;
      assert HandshakeOf(st) == {};
      IssueFresh(s.handshakeLedger, held, h);
      if ok {
        assert HandshakeOf(after) == {h};
      } else {
        ReturnHeld(Issue(s.handshakeLedger, h), held + {h}, h);
        assert held + {h} - {h} == held;
      }
    } else {
      assert HandshakeOf(after) == HandshakeOf(st);
    }
    assert RemoteIdentities(m[key := after]) == RemoteIdentities(m);
  }

  lemma StepKeepsHistory(s: ManagerState, key: Guid, related: MessageIdentity, ret: ValidationResult,
                         token: HandshakeMessageToken, alloc: bool, publish: bool)
    requires ValidState(s) && key in s.participants && Handshaking(s.participants[key].step)
    requires ret != ValidationFailed
    ensures HistoryValid(Step(s, key, related, ret, token, alloc, publish).0)
  {
    var r := Step(s, key, related, ret, token, alloc, publish).0;
    var delivered := SendsMessage(ret) && alloc && publish;
    var c := CacheChange(s.lastWriterSequence + 1,
                         GenerateAuthenticationMessage(s.localGuid, s.nextMessageSequence, related, key, token));
    assert r.participants == s.participants[key := r.participants[key]];
    assert r.participants[key].changeSequenceNumber == if delivered then Some(c.sequenceNumber) else None;
    assert r.lastWriterSequence == s.lastWriterSequence + (if delivered then 1 else 0);
    HistoryAfterStep(s.participants, s.writerHistory, s.lastWriterSequence, key, r.participants[key], delivered, c);
  }

  /** The history after a step of `key` dropped the change that key kept and, when
      `delivered`, added `c` under the next number, which `key` now keeps. */
  lemma HistoryAfterStep(m: map<Guid, AuthState>, h: seq<CacheChange>, last: nat, key: Guid,
                         after: AuthState, delivered: bool, c: CacheChange)
    requires WellFormed(h, last) && PendingInHistory(m, h) && PendingUnshared(m) && key in m
    requires c.sequenceNumber == last + 1
    requires after.changeSequenceNumber == if delivered then Some(c.sequenceNumber) else None
    ensures var previous := m[key].changeSequenceNumber;
            var h' := (if previous.Some? then Without(h, previous.value) else h) + (if delivered then [c] else []);
            && WellFormed(h', last + (if delivered then 1 else 0))
            && PendingInHistory(m[key := after], h')
            && PendingUnshared(m[key := after])
  {
    var previous := m[key].changeSequenceNumber;
    var kept := if previous.Some? then Without(h, previous.value) else h;
    var h' := kept + (if delivered then [c] else []);
    if previous.Some? { WithoutWellFormed(h, last, previous.value); }
    // every other pending change survives the removal
    forall k | k in m && k != key && m[k].changeSequenceNumber.Some?
      ensures Find(kept, m[k].changeSequenceNumber.value).Some?
      ensures m[k].changeSequenceNumber.value <= last
    {
      FindBound(h, last, m[k].changeSequenceNumber.value);
      if previous.Some? {
        FindWithout(h, previous.value, m[k].changeSequenceNumber.value);
      }
    }
    var r := m[key := after];
    if delivered {
      AppendNext(kept, last, c);
      forall k | k in r && r[k].changeSequenceNumber.Some?
        ensures Find(h', r[k].changeSequenceNumber.value).Some?
      {
        FindAppend(kept, c, r[k].changeSequenceNumber.value);
      }
    } else {
      assert h' == kept;
    }
    PendingReplace(m, key, after, last);
  }

  /** A participant whose kept change is newer than every other one leaves the kept
      changes distinct. */
  lemma PendingReplace(m: map<Guid, AuthState>, key: Guid, after: AuthState, bound: nat)
    requires PendingUnshared(m) && key in m
    requires forall k | k in m && k != key && m[k].changeSequenceNumber.Some? :: m[k].changeSequenceNumber.value <= bound
    requires after.changeSequenceNumber.Some? ==> after.changeSequenceNumber.value == bound + 1
    ensures PendingUnshared(m[key := after])
  {
    var r := m[key := after];
    forall k, k' | k in r && k' in r && k != k' && r[k].changeSequenceNumber.Some?
      ensures r[k].changeSequenceNumber != r[k'].changeSequenceNumber
    {
      if k == key {
        if r[k'].changeSequenceNumber.Some? { assert r[k'] == m[k']; }
      } else if k' == key {
        assert r[k] == m[k];
      } else {
        assert r[k] == m[k] && r[k'] == m[k'];
      }
    }
  }

  /** FAILED changes nothing but the call and the notification log: the participant keeps
      its step, so a later discovery or message can retry it. */
  lemma StepFailedKeepsState(s: ManagerState, key: Guid, related: MessageIdentity,
                             token: HandshakeMessageToken, alloc: bool, publish: bool)
    requires key in s.participants && Handshaking(s.participants[key].step) && Shaped(s.participants[key])
    ensures var r := Step(s, key, related, ValidationFailed, token, alloc, publish);
            r.0 == s.(pluginCalls := r.0.pluginCalls, notifications := r.0.notifications) && !r.1
  {
  }


  // ------------------------------------------------------------------ discovery

  /** Every participant state holds the handles and changes its step calls for. */
  ghost predicate AllShaped(s: ManagerState)
  {
    forall k | k in s.participants :: Shaped(s.participants[k])
  }

  /** The step a discovered participant is in once validated: its known step, or the one
      remote validation answers for a new one. */
  function StartingStep(s: ManagerState, key: Guid, validation: ValidationResult): Option<AuthStep>
  {
    if key in s.participants then Some(s.participants[key].step) else InitialStep(validation)
  }

  /** discovered_participant for the participant `key`. A new participant is validated
      (answer `validation`); one that validation leaves as the initiator, and a known one
      whose request was not sent yet, runs begin_handshake_request (answers `ret`, `token`,
      `alloc`, `publish`). */
  function Discover(s: ManagerState, key: Guid, validation: ValidationResult, ret: ValidationResult,
                    token: HandshakeMessageToken, alloc: bool, publish: bool): (r: (ManagerState, bool))
    requires AllShaped(s)
  {
    if !s.authPlugin then (s, true)
    else if key in s.participants then
      if s.participants[key].step == RequestNotSent then Step(s, key, NoRelatedIdentity, ret, token, alloc, publish)
      else (s, true)
    else
      var validated := s.(pluginCalls := s.pluginCalls + [ValidateRemoteIdentity(key)]);
      var initial := InitialStep(validation);
      if initial.None? then
        (validated.(notifications := s.notifications + [AuthenticationInfo(key, UnauthorizedParticipant)]), false)
      else
        var added := Admit(validated, key, initial.value);
        if initial.value == RequestNotSent then Step(added, key, NoRelatedIdentity, ret, token, alloc, publish)
        else (added, true)
  }

  /** What discovered_participant calls, and what it does with an identity it rejects. */
  lemma DiscoverOutcome(s: ManagerState, key: Guid, validation: ValidationResult, ret: ValidationResult,
                        token: HandshakeMessageToken, alloc: bool, publish: bool)
    requires AllShaped(s)
    ensures !s.authPlugin ==> Discover(s, key, validation, ret, token, alloc, publish) == (s, true)
    // a known participant is never validated again
    ensures var r := Discover(s, key, validation, ret, token, alloc, publish);
            s.authPlugin && key in s.participants ==>
              r.0.pluginCalls == s.pluginCalls
              || r.0.pluginCalls == s.pluginCalls + [BeginHandshakeRequest(key)]
    // a new one is validated first
    ensures var r := Discover(s, key, validation, ret, token, alloc, publish);
            s.authPlugin && key !in s.participants ==>
              |r.0.pluginCalls| > |s.pluginCalls| && r.0.pluginCalls[|s.pluginCalls|] == ValidateRemoteIdentity(key)
    // a rejected identity is reported and nothing about it is kept
    ensures var r := Discover(s, key, validation, ret, token, alloc, publish);
            s.authPlugin && StartingStep(s, key, validation).None? ==>
              && r.0 == s.(pluginCalls := s.pluginCalls + [ValidateRemoteIdentity(key)],
                           notifications := s.notifications + [AuthenticationInfo(key, UnauthorizedParticipant)])
              && !r.1
    // validation OK or PENDING_HANDSHAKE_MESSAGE succeeds and sends nothing
    ensures var r := Discover(s, key, validation, ret, token, alloc, publish);
            s.authPlugin && key !in s.participants
            && InitialStep(validation) in {Some(AuthenticationOk), Some(WaitingRequest)} ==>
              && r.1 && r.0.writerCalls == s.writerCalls && r.0.writerHistory == s.writerHistory
              && r.0.pluginCalls == s.pluginCalls + [ValidateRemoteIdentity(key)]
  {
    if s.authPlugin {
      if key in s.participants {
        if s.participants[key].step == RequestNotSent {
          StepOutcome(s, key, NoRelatedIdentity, ret, token, alloc, publish);
        }
      } else if InitialStep(validation).Some? {
        var validated := s.(pluginCalls := s.pluginCalls + [ValidateRemoteIdentity(key)]);
        var added := Admit(validated, key, InitialStep(validation).value);
        assert key in added.participants && added.participants[key].identityHandle == s.nextHandle;
        if InitialStep(validation).value == RequestNotSent {
          StepOutcome(added, key, NoRelatedIdentity, ret, token, alloc, publish);
          StepParticipants(added, key, NoRelatedIdentity, ret, token, alloc, publish);
        }
      }
    }
  }

  /** What discovered_participant keeps and reports. */
  lemma DiscoverResult(s: ManagerState, key: Guid, validation: ValidationResult, ret: ValidationResult,
                       token: HandshakeMessageToken, alloc: bool, publish: bool)
    requires AllShaped(s)
    // an accepted one is kept, under a new identity handle
    ensures var r := Discover(s, key, validation, ret, token, alloc, publish);
            s.authPlugin && key !in s.participants && InitialStep(validation).Some? ==>
              && key in r.0.participants && r.0.participants[key].identityHandle == s.nextHandle
              && s.nextHandle in r.0.identityLedger.issued
    ensures var r := Discover(s, key, validation, ret, token, alloc, publish);
            s.authPlugin ==>
              r.0.notifications == s.notifications
                + if StartingStep(s, key, validation) == Some(AuthenticationOk) && key !in s.participants
                  then [AuthenticationInfo(key, AuthorizedParticipant)]
                  else if StartingStep(s, key, validation).None? || (StartingStep(s, key, validation) == Some(RequestNotSent) && ret == ValidationFailed)
                  then [AuthenticationInfo(key, UnauthorizedParticipant)]
                  else if StartingStep(s, key, validation) == Some(RequestNotSent) && StepSucceeds(ret, alloc && publish) && ret != ValidationPendingHandshakeMessage
                  then [AuthenticationInfo(key, AuthorizedParticipant)]
                  else []
  {
    if s.authPlugin {
      var r := Discover(s, key, validation, ret, token, alloc, publish);
      if key in s.participants {
        if s.participants[key].step == RequestNotSent {
          assert r == Step(s, key, NoRelatedIdentity, ret, token, alloc, publish);
          StepOutcome(s, key, NoRelatedIdentity, ret, token, alloc, publish);
        } else {
          assert r == (s, true);
        }
      } else {
        var validated := s.(pluginCalls := s.pluginCalls + [ValidateRemoteIdentity(key)]);
        if InitialStep(validation).None? {
          assert r == (validated.(notifications := s.notifications + [AuthenticationInfo(key, UnauthorizedParticipant)]), false);
        } else {
          var added := Admit(validated, key, InitialStep(validation).value);
          assert key in added.participants && added.participants[key].identityHandle == s.nextHandle;
          if InitialStep(validation).value == RequestNotSent {
            assert r == Step(added, key, NoRelatedIdentity, ret, token, alloc, publish);
            StepOutcome(added, key, NoRelatedIdentity, ret, token, alloc, publish);
            StepParticipants(added, key, NoRelatedIdentity, ret, token, alloc, publish);
          } else {
            assert r == (added, true);
          }
        }
      }
    }
  }

  /** When discovered_participant answers true: nothing was left to do, or the
      begin_handshake_request step succeeded. */
  lemma DiscoverSucceeds(s: ManagerState, key: Guid, validation: ValidationResult, ret: ValidationResult,
                         token: HandshakeMessageToken, alloc: bool, publish: bool)
    requires AllShaped(s)
    ensures var r := Discover(s, key, validation, ret, token, alloc, publish);
            s.authPlugin ==>
              (r.1 <==> var start := StartingStep(s, key, validation);
                        start.Some? && (start.value == RequestNotSent ==> StepSucceeds(ret, alloc && publish)))
  {
    if s.authPlugin {
      var r := Discover(s, key, validation, ret, token, alloc, publish);
      if key in s.participants {
        if s.participants[key].step == RequestNotSent {
          assert r == Step(s, key, NoRelatedIdentity, ret, token, alloc, publish);
          StepOutcome(s, key, NoRelatedIdentity, ret, token, alloc, publish);
        } else {
          assert r == (s, true);
        }
      } else {
        var validated := s.(pluginCalls := s.pluginCalls + [ValidateRemoteIdentity(key)]);
        if InitialStep(validation).None? {
          assert r == (validated.(notifications := s.notifications + [AuthenticationInfo(key, UnauthorizedParticipant)]), false);
        } else {
          var added := Admit(validated, key, InitialStep(validation).value);
          assert key in added.participants && added.participants[key].identityHandle == s.nextHandle;
          if InitialStep(validation).value == RequestNotSent {
            assert r == Step(added, key, NoRelatedIdentity, ret, token, alloc, publish);
            StepOutcome(added, key, NoRelatedIdentity, ret, token, alloc, publish);
            StepParticipants(added, key, NoRelatedIdentity, ret, token, alloc, publish);
          } else {
            assert r == (added, true);
          }
        }
      }
    }
  }

  /** The writer calls of a discovery that runs begin_handshake_request: one new_change
      when the request comes with a token, one add_change when a change was granted, no
      removal; the plugin calls are the validation of a new participant, then the request. */
  lemma DiscoverRequestWriterCalls(s: ManagerState, key: Guid, validation: ValidationResult, ret: ValidationResult,
                                   token: HandshakeMessageToken, alloc: bool, publish: bool)
    requires AllShaped(s) && s.authPlugin && StartingStep(s, key, validation) == Some(RequestNotSent)
    ensures var r := Discover(s, key, validation, ret, token, alloc, publish).0;
            && NewChanges(r.writerCalls) == NewChanges(s.writerCalls) + (if SendsMessage(ret) then 1 else 0)
            && AddChanges(r.writerCalls) == AddChanges(s.writerCalls) + (if SendsMessage(ret) && alloc then 1 else 0)
            && Removals(r.writerCalls) == Removals(s.writerCalls)
            && r.pluginCalls == s.pluginCalls + (if key in s.participants then [] else [ValidateRemoteIdentity(key)])
                                + [BeginHandshakeRequest(key)]
  {
    if key in s.participants {
      StepWriterCalls(s, key, NoRelatedIdentity, ret, token, alloc, publish);
      StepOutcome(s, key, NoRelatedIdentity, ret, token, alloc, publish);
    } else {
      var validated := s.(pluginCalls := s.pluginCalls + [ValidateRemoteIdentity(key)]);
      var added := Admit(validated, key, RequestNotSent);
      assert Discover(s, key, validation, ret, token, alloc, publish) == Step(added, key, NoRelatedIdentity, ret, token, alloc, publish);
      assert added.writerCalls == s.writerCalls && added.participants[key].changeSequenceNumber.None?;
      StepWriterCalls(added, key, NoRelatedIdentity, ret, token, alloc, publish);
      StepOutcome(added, key, NoRelatedIdentity, ret, token, alloc, publish);
    }
  }

  /** A validated remote participant is kept in `step` under a new identity handle; one
      that needs no handshake is reported AUTHORIZED. */
  function Admit(s: ManagerState, key: Guid, step: AuthStep): (r: ManagerState)
  {
    s.(participants := s.participants[key := AuthState(step, s.nextHandle, None, None, None)],
       nextHandle := s.nextHandle + 1,
       identityLedger := Issue(s.identityLedger, s.nextHandle),
       notifications := if step == AuthenticationOk
                        then s.notifications + [AuthenticationInfo(key, AuthorizedParticipant)]
                        else s.notifications)
  }

  lemma AdmitKeepsValid(s: ManagerState, key: Guid, step: AuthStep)
    requires ValidState(s) && key !in s.participants && (BeginsHandshake(step) || step == AuthenticationOk)
    ensures ValidState(Admit(s, key, step))
  {
    var h := s.nextHandle;
    var st := AuthState(step, h, None, None, None);
    var r := Admit(s, key, step);
    var held := LocalHeld(s.localIdentity) + RemoteIdentities(s.participants);
    assert h !in s.identityLedger.issued;
    Extend(s.participants, key, st);
    IssueFresh(s.identityLedger, held, h);
    assert LocalHeld(r.localIdentity) + RemoteIdentities(r.participants) == held + {h};
    assert HandshakeOf(st) == {};
    forall k | k in r.participants && r.participants[k].changeSequenceNumber.Some?
      ensures Find(r.writerHistory, r.participants[k].changeSequenceNumber.value).Some?
    {
      assert k != key && r.participants[k] == s.participants[k];
    }
    assert PendingUnshared(r.participants);
  }

  // ------------------------------------------------------------------ resend

  /** remove_change_and_reuse of the change `n` that `key` keeps, then add_change of it
      again (answer `publish`); a change the history refuses is gone. */
  function Reuse(s: ManagerState, key: Guid, n: nat, publish: bool): (r: ManagerState)
    requires key in s.participants
  {
    var c := Find(s.writerHistory, n);
    var reused := s.(writerCalls := s.writerCalls + [RemoveChangeAndReuse(n)]);
    if c.None? then reused
    else
      if publish then
        reused.(writerHistory := Without(s.writerHistory, n) + [c.value],
                writerCalls := reused.writerCalls + [AddChange(c.value, true)])
      else
        reused.(writerHistory := Without(s.writerHistory, n),
                writerCalls := reused.writerCalls + [AddChange(c.value, false)],
                participants := s.participants[key := s.participants[key].(changeSequenceNumber := None)])
  }

  /** A resend asks no plugin, reports nothing and moves no participant; the same
      change goes back out, so no new change is allocated and nothing else is removed. */
  lemma ReuseEffects(s: ManagerState, key: Guid, n: nat, publish: bool)
    requires key in s.participants
    ensures var r := Reuse(s, key, n, publish);
            && r.pluginCalls == s.pluginCalls && r.notifications == s.notifications
            && (forall k :: k in r.participants <==> k in s.participants)
            && (forall k | k in s.participants :: r.participants[k].step == s.participants[k].step)
            && r.handshakeLedger == s.handshakeLedger && r.identityLedger == s.identityLedger
            && r.nextMessageSequence == s.nextMessageSequence && r.lastWriterSequence == s.lastWriterSequence
    ensures var r := Reuse(s, key, n, publish);
            && NewChanges(r.writerCalls) == NewChanges(s.writerCalls) && Removals(r.writerCalls) == Removals(s.writerCalls)
            && (forall c | c in r.writerHistory :: c in s.writerHistory)
            && |r.writerCalls| > |s.writerCalls| && r.writerCalls[|s.writerCalls|] == RemoveChangeAndReuse(n)
  {
    var c := Find(s.writerHistory, n);
    var reused := s.writerCalls + [RemoveChangeAndReuse(n)];
    CountsAppend(s.writerCalls, [RemoveChangeAndReuse(n)]);
    SingleCounts(RemoveChangeAndReuse(n));
    if c.Some? {
      CountsAppend(reused, [AddChange(c.value, publish)]);
      SingleCounts(AddChange(c.value, publish));
    }
  }

  /** The resend timer of `key`: while an answer to the message it sent is awaited, that
      message goes out again. */
  function TimerResend(s: ManagerState, key: Guid, publish: bool): ManagerState
  {
    if key in s.participants && s.participants[key].step in {WaitingReply, WaitingFinal}
       && s.participants[key].changeSequenceNumber.Some?
    then Reuse(s, key, s.participants[key].changeSequenceNumber.value, publish)
    else s
  }

  /** The timer never calls a plugin or reports; it resends the kept change exactly while
      an answer to it is awaited, and otherwise changes nothing. */
  lemma TimerResendEffects(s: ManagerState, key: Guid, publish: bool)
    ensures var r := TimerResend(s, key, publish);
            r.pluginCalls == s.pluginCalls && r.notifications == s.notifications
    ensures (key !in s.participants || s.participants[key].step !in {WaitingReply, WaitingFinal}
             || s.participants[key].changeSequenceNumber.None?) ==> TimerResend(s, key, publish) == s
    ensures var r := TimerResend(s, key, publish);
            key in s.participants && s.participants[key].step in {WaitingReply, WaitingFinal}
            && s.participants[key].changeSequenceNumber.Some? ==>
              |r.writerCalls| > |s.writerCalls| && r.writerCalls[|s.writerCalls|] == RemoveChangeAndReuse(s.participants[key].changeSequenceNumber.value)
  {
    if key in s.participants && s.participants[key].step in {WaitingReply, WaitingFinal}
       && s.participants[key].changeSequenceNumber.Some? {
      ReuseEffects(s, key, s.participants[key].changeSequenceNumber.value, publish);
    }
  }

  // ------------------------------------------------------------------ inbound

  /** onNewCacheChangeAdded on the stateless reader with `change`; `ret`, `token`,
      `alloc` and `publish` answer the handshake call the envelope leads to, `publish`
      also the add_change of a resend. */
  function Receive(s: ManagerState, change: InboundChange, ret: ValidationResult,
                   token: HandshakeMessageToken, alloc: bool, publish: bool): (r: ManagerState)
    requires AllShaped(s)
  {
    var consumed := s.(readerRemovals := s.readerRemovals + [change.instance]);
    if change.payload.None? then consumed
    else
      var m := change.payload.value;
      match Classify(s.participants, s.localGuid, m)
      case Ignore => consumed
      case BeginReply(k) => Step(consumed, k, m.messageIdentity, ret, token, alloc, publish).0
      case ContinueHandshake(k) => Step(consumed, k, m.messageIdentity, ret, token, alloc, publish).0
      case ResendFinal(k, n) => Reuse(consumed, k, n, publish)
  }

  /** What onNewCacheChangeAdded consumes, and that an envelope nothing waits for changes
      nothing else. */
  lemma ReceiveConsumes(s: ManagerState, change: InboundChange, ret: ValidationResult,
                        token: HandshakeMessageToken, alloc: bool, publish: bool)
    requires AllShaped(s)
    // every inbound change is consumed, whatever it holds
    ensures Receive(s, change, ret, token, alloc, publish).readerRemovals == s.readerRemovals + [change.instance]
    // an envelope that does not parse or that nothing waits for changes nothing else
    ensures change.payload.None? || Classify(s.participants, s.localGuid, change.payload.value) == Ignore ==>
              Receive(s, change, ret, token, alloc, publish) == s.(readerRemovals := s.readerRemovals + [change.instance])
  {
    var consumed := s.(readerRemovals := s.readerRemovals + [change.instance]);
    if change.payload.Some? {
      var m := change.payload.value;
      match Classify(s.participants, s.localGuid, m)
      case Ignore =>
      case BeginReply(k) => StepKeepsRest(consumed, k, m.messageIdentity, ret, token, alloc, publish);
      case ContinueHandshake(k) => StepKeepsRest(consumed, k, m.messageIdentity, ret, token, alloc, publish);
      case ResendFinal(k, n) =>
    }
  }

  /** What onNewCacheChangeAdded calls: a request is answered with begin_handshake_reply, a
      correlated reply or final with process_handshake, a duplicate of the reply a final
      answered with the final again. */
  lemma ReceiveCalls(s: ManagerState, change: InboundChange, ret: ValidationResult,
                     token: HandshakeMessageToken, alloc: bool, publish: bool)
    requires AllShaped(s) && change.payload.Some?
    ensures var r := Receive(s, change, ret, token, alloc, publish);
            match Classify(s.participants, s.localGuid, change.payload.value)
            case Ignore => true
            case BeginReply(k) => r.pluginCalls == s.pluginCalls + [BeginHandshakeReply(k)]
            case ContinueHandshake(k) => r.pluginCalls == s.pluginCalls + [ProcessHandshake(k)]
            case ResendFinal(k, n) =>
              && r.pluginCalls == s.pluginCalls && r.notifications == s.notifications
              && |r.writerCalls| > |s.writerCalls| && r.writerCalls[|s.writerCalls|] == RemoveChangeAndReuse(n)
  {
    var consumed := s.(readerRemovals := s.readerRemovals + [change.instance]);
    var m := change.payload.value;
    match Classify(s.participants, s.localGuid, m)
    case Ignore =>
    case BeginReply(k) => StepOutcome(consumed, k, m.messageIdentity, ret, token, alloc, publish);
    case ContinueHandshake(k) => StepOutcome(consumed, k, m.messageIdentity, ret, token, alloc, publish);
    case ResendFinal(k, n) => ReuseEffects(consumed, k, n, publish);
  }

  // ------------------------------------------------------------------ preservation

  /** A resend of the change a participant keeps keeps the invariant; when the history
      takes the change back, it holds exactly the changes it held before. */
  lemma ReuseKeepsValid(s: ManagerState, key: Guid, n: nat, publish: bool)
    requires ValidState(s) && key in s.participants && s.participants[key].changeSequenceNumber == Some(n)
    ensures ValidState(Reuse(s, key, n, publish))
    ensures publish ==> multiset(Reuse(s, key, n, publish).writerHistory) == multiset(s.writerHistory)
  {
    var m := s.participants;
    var h := s.writerHistory;
    var r := Reuse(s, key, n, publish);
    assert Find(h, n).Some?;
    if publish {
      ReuseKeepsChanges(h, s.lastWriterSequence, n);
      forall k | k in m && m[k].changeSequenceNumber.Some?
        ensures Find(r.writerHistory, m[k].changeSequenceNumber.value).Some?
      {
        FindSameChanges(h, r.writerHistory, m[k].changeSequenceNumber.value);
      }
    } else {
      var st := m[key].(changeSequenceNumber := None);
      WithoutWellFormed(h, s.lastWriterSequence, n);
      SameHandles(m, key, st);
      forall k | k in r.participants && r.participants[k].changeSequenceNumber.Some?
        ensures Find(r.writerHistory, r.participants[k].changeSequenceNumber.value).Some?
      {
        assert k != key && r.participants[k] == m[k];
        FindWithout(h, n, m[k].changeSequenceNumber.value);
      }
      PendingReplace(m, key, st, s.lastWriterSequence);
    }
  }

  lemma TimerResendKeepsValid(s: ManagerState, key: Guid, publish: bool)
    requires ValidState(s)
    ensures ValidState(TimerResend(s, key, publish))
  {
    if key in s.participants && s.participants[key].step in {WaitingReply, WaitingFinal}
       && s.participants[key].changeSequenceNumber.Some? {
      ReuseKeepsValid(s, key, s.participants[key].changeSequenceNumber.value, publish);
    }
  }

  lemma DiscoverKeepsValid(s: ManagerState, key: Guid, validation: ValidationResult, ret: ValidationResult,
                           token: HandshakeMessageToken, alloc: bool, publish: bool)
    requires ValidState(s)
    ensures ValidState(Discover(s, key, validation, ret, token, alloc, publish).0)
  {
    if s.authPlugin {
      if key in s.participants {
        if s.participants[key].step == RequestNotSent {
          StepKeepsValid(s, key, NoRelatedIdentity, ret, token, alloc, publish);
        }
      } else if InitialStep(validation).Some? {
        var validated := s.(pluginCalls := s.pluginCalls + [ValidateRemoteIdentity(key)]);
        AdmitKeepsValid(validated, key, InitialStep(validation).value);
        if InitialStep(validation).value == RequestNotSent {
          StepKeepsValid(Admit(validated, key, RequestNotSent), key, NoRelatedIdentity, ret, token, alloc, publish);
        }
      }
    }
  }

  lemma ReceiveKeepsValid(s: ManagerState, change: InboundChange, ret: ValidationResult,
                          token: HandshakeMessageToken, alloc: bool, publish: bool)
    requires ValidState(s)
    ensures ValidState(Receive(s, change, ret, token, alloc, publish))
  {
    var consumed := s.(readerRemovals := s.readerRemovals + [change.instance]);
    assert ValidState(consumed);
    if change.payload.Some? {
      var m := change.payload.value;
      match Classify(s.participants, s.localGuid, m)
      case Ignore =>
      case BeginReply(k) => StepKeepsValid(consumed, k, m.messageIdentity, ret, token, alloc, publish);
      case ContinueHandshake(k) => StepKeepsValid(consumed, k, m.messageIdentity, ret, token, alloc, publish);
      case ResendFinal(k, n) => ReuseKeepsValid(consumed, k, n, publish);
    }
  }

  // ------------------------------------------------------------------ idempotence

  /** The reply an initiator answered with a final message, delivered again, calls no
      plugin and reports nothing: the final message goes out again and the writer history
      holds the same changes. */
  lemma DuplicateReplyAfterFinal(s: ManagerState, change: InboundChange, token: HandshakeMessageToken,
                                 ret': ValidationResult, token': HandshakeMessageToken, alloc': bool)
    requires ValidState(s) && change.payload.Some?
    requires Classify(s.participants, s.localGuid, change.payload.value).ContinueHandshake?
    ensures var s1 := Receive(s, change, ValidationOkWithFinalMessage, token, true, true);
            var s2 := Receive(s1, change, ret', token', alloc', true);
            && s2.pluginCalls == s1.pluginCalls
            && s2.notifications == s1.notifications
            && multiset(s2.writerHistory) == multiset(s1.writerHistory)
            && s2.participants == s1.participants
  {
    var s1 := Receive(s, change, ValidationOkWithFinalMessage, token, true, true);
    FinalAwaitsDuplicate(s, change, token);
    DuplicateResent(s1, change, ret', token', alloc');
  }

  /** After a reply was answered with a final message, that reply is recognised as a duplicate. */
  lemma FinalAwaitsDuplicate(s: ManagerState, change: InboundChange, token: HandshakeMessageToken)
    requires ValidState(s) && change.payload.Some?
    requires Classify(s.participants, s.localGuid, change.payload.value).ContinueHandshake?
    ensures var s1 := Receive(s, change, ValidationOkWithFinalMessage, token, true, true);
            ValidState(s1) && Classify(s1.participants, s1.localGuid, change.payload.value).ResendFinal?
  {
    var m := change.payload.value;
    var key := SenderKey(m);
    var consumed := s.(readerRemovals := s.readerRemovals + [change.instance]);
    var s1 := Receive(s, change, ValidationOkWithFinalMessage, token, true, true);
    assert s1 == Step(consumed, key, m.messageIdentity, ValidationOkWithFinalMessage, token, true, true).0;
    ReceiveKeepsValid(s, change, ValidationOkWithFinalMessage, token, true, true);
    StepParticipants(consumed, key, m.messageIdentity, ValidationOkWithFinalMessage, token, true, true);
    assert s1.participants[key].expectedSequenceNumber == s.participants[key].expectedSequenceNumber;
  }

  /** A duplicate answered by a resend asks no plugin, reports nothing, moves no participant
      and leaves the history holding the same changes. */
  lemma DuplicateResent(s: ManagerState, change: InboundChange, ret: ValidationResult,
                        token: HandshakeMessageToken, alloc: bool)
    requires ValidState(s) && change.payload.Some?
    requires Classify(s.participants, s.localGuid, change.payload.value).ResendFinal?
    ensures var r := Receive(s, change, ret, token, alloc, true);
            && r.pluginCalls == s.pluginCalls
            && r.notifications == s.notifications
            && multiset(r.writerHistory) == multiset(s.writerHistory)
            && r.participants == s.participants
  {
    var d := Classify(s.participants, s.localGuid, change.payload.value);
    var consumed := s.(readerRemovals := s.readerRemovals + [change.instance]);
    var r := Reuse(consumed, d.remote, d.sequenceNumber, true);
    assert Receive(s, change, ret, token, alloc, true) == r;
    ReuseKeepsValid(consumed, d.remote, d.sequenceNumber, true);
    assert Find(s.writerHistory, d.sequenceNumber).Some?;
    assert r.participants == s.participants;
  }

  /** Once `key` is authorized, discovering it again does nothing. */
  lemma AuthorizedIgnoresDiscovery(s: ManagerState, key: Guid, validation: ValidationResult,
                                   ret: ValidationResult, token: HandshakeMessageToken, alloc: bool, publish: bool)
    requires AllShaped(s) && key in s.participants && s.participants[key].step == AuthenticationOk
    ensures Discover(s, key, validation, ret, token, alloc, publish) == (s, true)
  {
  }

  /** Once `key` is authorized, no inbound change moves it or reports it again. */
  lemma AuthorizedIgnoresInbound(s: ManagerState, key: Guid, change: InboundChange,
                                 ret: ValidationResult, token: HandshakeMessageToken, alloc: bool, publish: bool)
    requires AllShaped(s) && key in s.participants && s.participants[key].step == AuthenticationOk
    ensures var r := Receive(s, change, ret, token, alloc, publish);
            && key in r.participants && r.participants[key].step == AuthenticationOk
            && |r.notifications| >= |s.notifications| && r.notifications[..|s.notifications|] == s.notifications
            && forall i | |s.notifications| <= i < |r.notifications| :: r.notifications[i].guid != key
  {
    var consumed := s.(readerRemovals := s.readerRemovals + [change.instance]);
    if change.payload.None? {
      assert Receive(s, change, ret, token, alloc, publish) == consumed;
    } else {
      var d := Classify(s.participants, s.localGuid, change.payload.value);
      if d.BeginReply? || d.ContinueHandshake? {
        InboundStepKeepsOthers(s, key, change, ret, token, alloc, publish);
      } else if d.ResendFinal? {
        assert Receive(s, change, ret, token, alloc, publish) == Reuse(consumed, d.remote, d.sequenceNumber, publish);
        ReuseEffects(consumed, d.remote, d.sequenceNumber, publish);
      } else {
        assert Receive(s, change, ret, token, alloc, publish) == consumed;
      }
    }
  }

  lemma InboundStepKeepsOthers(s: ManagerState, key: Guid, change: InboundChange,
                               ret: ValidationResult, token: HandshakeMessageToken, alloc: bool, publish: bool)
    requires AllShaped(s) && key in s.participants && change.payload.Some?
    requires var d := Classify(s.participants, s.localGuid, change.payload.value);
             (d.BeginReply? || d.ContinueHandshake?) && d.remote != key
    ensures var r := Receive(s, change, ret, token, alloc, publish);
            && key in r.participants && r.participants[key] == s.participants[key]
            && |r.notifications| >= |s.notifications| && r.notifications[..|s.notifications|] == s.notifications
            && forall i | |s.notifications| <= i < |r.notifications| :: r.notifications[i].guid != key
  {
    var m := change.payload.value;
    var d := Classify(s.participants, s.localGuid, m);
    var consumed := s.(readerRemovals := s.readerRemovals + [change.instance]);
    assert Receive(s, change, ret, token, alloc, publish) == Step(consumed, d.remote, m.messageIdentity, ret, token, alloc, publish).0;
    OtherStepKeeps(consumed, d.remote, key, m.messageIdentity, ret, token, alloc, publish);
  }

  /** A step of another participant leaves `key` as it is and reports only that participant. */
  lemma OtherStepKeeps(s: ManagerState, k: Guid, key: Guid, related: MessageIdentity, ret: ValidationResult,
                       token: HandshakeMessageToken, alloc: bool, publish: bool)
    requires k in s.participants && Handshaking(s.participants[k].step) && Shaped(s.participants[k])
    requires key in s.participants && key != k
    ensures var r := Step(s, k, related, ret, token, alloc, publish).0;
            && key in r.participants && r.participants[key] == s.participants[key]
            && |r.notifications| >= |s.notifications| && r.notifications[..|s.notifications|] == s.notifications
            && forall i | |s.notifications| <= i < |r.notifications| :: r.notifications[i].guid == k
  {
    StepParticipants(s, k, related, ret, token, alloc, publish);
  }

  // ------------------------------------------------------------------ correlation

  /** A reply or final message that does not answer the last message sent to its sender
      (wrong related source or sequence number) is consumed and otherwise ignored. */
  lemma UncorrelatedAnswerDropped(s: ManagerState, change: InboundChange, ret: ValidationResult,
                                  token: HandshakeMessageToken, alloc: bool, publish: bool)
    requires AllShaped(s) && change.payload.Some?
    requires var m := change.payload.value;
             && SenderKey(m) in s.participants
             && s.participants[SenderKey(m)].step in {WaitingReply, WaitingFinal}
             && !Answers(m, SenderKey(m), s.participants[SenderKey(m)].expectedSequenceNumber)
    ensures Receive(s, change, ret, token, alloc, publish) == s.(readerRemovals := s.readerRemovals + [change.instance])
  {
  }

  // ------------------------------------------------------------------ teardown

  /** What the destructor leaves: no participant state, every identity and handshake handle
      handed back (in an order the participant map decides), the local crypto handle
      unregistered if it was registered, the endpoints deleted, and nothing else changed. */
  ghost predicate TornDown(s: ManagerState, r: ManagerState)
  {
    && r == s.(participants := map[], localIdentity := None, cryptoRegistered := false, endpoints := [],
               identityLedger := r.identityLedger, handshakeLedger := r.handshakeLedger,
               cryptoUnregistrations := s.cryptoUnregistrations + (if s.cryptoRegistered then 1 else 0),
               deletedEndpoints := s.deletedEndpoints + s.endpoints)
    && Completes(s.identityLedger, r.identityLedger)
    && Completes(s.handshakeLedger, r.handshakeLedger)
  }

  /** Teardown keeps the invariant. */
  lemma TeardownKeepsValid(s: ManagerState, r: ManagerState)
    requires ValidState(s) && TornDown(s, r)
    ensures ValidState(r)
  {
    assert r.participants == map[];
    assert RemoteIdentities(r.participants) == {} && Handshakes(r.participants) == {};
    assert LocalHeld(r.localIdentity) == {};
  }

  /** Teardown hands back exactly what the manager held, and leaves every handle ever
      issued returned exactly once and every registration undone. */
  lemma TeardownReturnsAll(s: ManagerState, r: ManagerState)
    requires ValidState(s) && TornDown(s, r)
    ensures Elements(r.identityLedger.returned[|s.identityLedger.returned|..])
            == LocalHeld(s.localIdentity) + RemoteIdentities(s.participants)
    ensures Elements(r.handshakeLedger.returned[|s.handshakeLedger.returned|..]) == Handshakes(s.participants)
    ensures forall h | h in r.identityLedger.issued :: multiset(r.identityLedger.returned)[h] == 1
    ensures forall h | h in r.handshakeLedger.issued :: multiset(r.handshakeLedger.returned)[h] == 1
    ensures r.cryptoUnregistrations == r.cryptoRegistrations
  {
    CompletionReturnsHeld(s.identityLedger, r.identityLedger, LocalHeld(s.localIdentity) + RemoteIdentities(s.participants));
    CompletionReturnsHeld(s.handshakeLedger, r.handshakeLedger, Handshakes(s.participants));
    AllReturned(r.identityLedger);
    AllReturned(r.handshakeLedger);
  }

  /** At teardown as many returns are made for each kind of handle as were ever issued. */
  lemma TeardownCounts(s: ManagerState, r: ManagerState)
    requires ValidState(s) && TornDown(s, r)
    ensures |r.identityLedger.returned| == |s.identityLedger.issued|
    ensures |r.handshakeLedger.returned| == |s.handshakeLedger.issued|
  {
    AllReturned(r.identityLedger);
    AllReturned(r.handshakeLedger);
  }
}
