/** SecurityManager: the object that owns the per-participant authentication states and
    the stateless message writer, and drives the authentication plugin. Each method
    updates the fields in place; its contract ties the new fields to the function of
    ManagerModel that specifies the operation and keeps the invariant Valid(). */
module Manager {
  import opened SecurityTypes
  import opened AuthMessage
  import opened Handshake
  import opened WriterHistory
  import opened Ledger
  import opened ManagerModel

  /** The number of PENDING_RETRY answers validate_local_identity gives before it settles. */
  function LeadingRetries(answers: seq<ValidationResult>): (n: nat)
    ensures n <= |answers|
    ensures forall i | 0 <= i < n :: answers[i] == ValidationPendingRetry
    ensures n < |answers| ==> answers[n] != ValidationPendingRetry
  {
    if answers == [] || answers[0] != ValidationPendingRetry then 0 else 1 + LeadingRetries(answers[1..])
  }

  /** init calls validate_local_identity again for as long as it answers PENDING_RETRY;
      `answers` are its successive answers. */
  method ValidateLocalIdentityUntilSettled(answers: seq<ValidationResult>) returns (result: ValidationResult, calls: nat)
    requires LeadingRetries(answers) < |answers|
    ensures calls == LeadingRetries(answers) + 1
    ensures result == answers[calls - 1] && result != ValidationPendingRetry
  {
    calls := 1;
    result := answers[0];
    while result == ValidationPendingRetry
      invariant 1 <= calls <= LeadingRetries(answers) + 1
      invariant result == answers[calls - 1]
      decreases LeadingRetries(answers) + 1 - calls
    {
      result := answers[calls];
      calls := calls + 1;
    }
  }

  /** What the plugins, the writer, the reader and the listener have been asked: the
      manager's own state does not hold it, so the class keeps it as one ghost record. */
  datatype Trace = Trace(
    identityLedger: HandleLedger,
    handshakeLedger: HandleLedger,
    cryptoRegistrations: nat,
    cryptoUnregistrations: nat,
    notifications: seq<AuthenticationInfo>,
    writerCalls: seq<WriterCall>,
    readerRemovals: seq<nat>,
    pluginCalls: seq<PluginCall>,
    creationAttempts: seq<Endpoint>,
    deletedEndpoints: seq<Endpoint>)

  class SecurityManager {
    const authPlugin: bool
    const localGuid: Guid
    var localIdentity: Option<nat>
    var cryptoRegistered: bool
    var endpoints: seq<Endpoint>
    var participants: map<Guid, AuthState>
    var writerHistory: seq<CacheChange>
    var lastWriterSequence: nat
    var nextMessageSequence: nat
    var nextHandle: nat
    ghost var trace: Trace

    ghost function Snap(): ManagerState
      reads this
    {
      ManagerState(authPlugin, localGuid, localIdentity, cryptoRegistered, endpoints, participants,
                   writerHistory, lastWriterSequence, nextMessageSequence, nextHandle,
                   trace.identityLedger, trace.handshakeLedger, trace.cryptoRegistrations,
                   trace.cryptoUnregistrations, trace.notifications, trace.writerCalls,
                   trace.readerRemovals, trace.pluginCalls, trace.creationAttempts, trace.deletedEndpoints)
    }

    ghost predicate Valid()
      reads this
    {
      ValidState(Snap())
    }

    constructor (authPlugin: bool, localGuid: Guid)
      ensures Snap() == Constructed(authPlugin, localGuid) && Valid()
    {
      this.authPlugin := authPlugin;
      this.localGuid := localGuid;
      localIdentity := None;
      cryptoRegistered := false;
      endpoints := [];
      participants := map[];
      writerHistory := [];
      lastWriterSequence := 0;
      nextMessageSequence := 1;
      nextHandle := 0;
      trace := Trace(HandleLedger({}, []), HandleLedger({}, []), 0, 0, [], [], [], [], [], []);
    }

    /** init(): validate_local_identity until it settles (its answers are `localAnswers`),
        register_local_participant (answer `cryptoOk`), then the four builtin endpoints in
        creation order (answers `created`), undoing the endpoints and the registration
        when one of them cannot be created. `validations` counts the validation calls. */
    method Init(localAnswers: seq<ValidationResult>, cryptoOk: bool, created: seq<bool>) returns (ok: bool, validations: nat)
      requires Valid() && localIdentity.None? && !cryptoRegistered && |created| == |EndpointCreationOrder|
      requires authPlugin ==> LeadingRetries(localAnswers) < |localAnswers|
      modifies this
      ensures validations == if authPlugin then LeadingRetries(localAnswers) + 1 else 0
      ensures (Snap(), ok) == Initialize(old(Snap()), if authPlugin then localAnswers[LeadingRetries(localAnswers)] else ValidationOk,
                                         cryptoOk, created)
      ensures Valid()
    {
      if !authPlugin {
        return true, 0;
      }
      ghost var s := Snap();
      var validation;
      validation, validations := ValidateLocalIdentityUntilSettled(localAnswers);
      InitializeKeepsValid(s, validation, cryptoOk, created);
      if validation != ValidationOk {
        return false, validations;
      }
      localIdentity := Some(nextHandle);
      trace := trace.(identityLedger := Issue(trace.identityLedger, nextHandle));
      nextHandle := nextHandle + 1;
      assert Snap() == s.(localIdentity := Some(s.nextHandle), nextHandle := s.nextHandle + 1,
                          identityLedger := Issue(s.identityLedger, s.nextHandle));
      ok := Provision(cryptoOk, created);
    }

    /** The endpoints created, in creation order, until one creation fails; `created[i]`
        answers the i-th creation call. */
    static method CreateEndpoints(created: seq<bool>) returns (made: seq<Endpoint>)
      requires |created| == |EndpointCreationOrder|
      ensures made == EndpointCreationOrder[..LeadingSuccesses(created)]
    {
      made := [];
      while |made| < |EndpointCreationOrder| && created[|made|]
        invariant |made| <= LeadingSuccesses(created)
        invariant made == EndpointCreationOrder[..|made|]
      {
        made := made + [EndpointCreationOrder[|made|]];
      }
    }

    /** register_local_participant and the creation of the endpoints (see
        ManagerModel.Provision). */
    method Provision(cryptoOk: bool, created: seq<bool>) returns (ok: bool)
      requires |created| == |EndpointCreationOrder|
      modifies this
      ensures (Snap(), ok) == ManagerModel.Provision(old(Snap()), cryptoOk, created)
    {
      ghost var s := Snap();
      if !cryptoOk {
        return false;
      }
      var made := CreateEndpoints(created);
      if |made| == |EndpointCreationOrder| {
        assert made == EndpointCreationOrder;
        endpoints, cryptoRegistered := endpoints + made, true;
        trace := trace.(cryptoRegistrations := trace.cryptoRegistrations + 1,
                        creationAttempts := trace.creationAttempts + made);
        assert Snap() == s.(endpoints := s.endpoints + EndpointCreationOrder,
                            creationAttempts := s.creationAttempts + EndpointCreationOrder,
                            cryptoRegistered := true,
                            cryptoRegistrations := s.cryptoRegistrations + 1);
        return true;
      }
      // the failed creation was attempted too; what was made is deleted again, and the
      // registration undone
      assert EndpointCreationOrder[..|made| + 1] == made + [EndpointCreationOrder[|made|]];
      cryptoRegistered := false;
      trace := trace.(cryptoRegistrations := trace.cryptoRegistrations + 1,
                      creationAttempts := trace.creationAttempts + made + [EndpointCreationOrder[|made|]],
                      deletedEndpoints := trace.deletedEndpoints + made,
                      cryptoUnregistrations := trace.cryptoUnregistrations + 1);
      ok := false;
      assert Snap() == s.(creationAttempts := s.creationAttempts + EndpointCreationOrder[..|made| + 1],
                          deletedEndpoints := s.deletedEndpoints + EndpointCreationOrder[..|made|],
                          cryptoRegistered := false,
                          cryptoRegistrations := s.cryptoRegistrations + 1,
                          cryptoUnregistrations := s.cryptoUnregistrations + 1);
    }

    /** Installs the fields a handshake step changes. */
    method Store(participants': map<Guid, AuthState>, history: seq<CacheChange>, last: nat, nextMessage: nat,
                 nextHandle': nat, ghost ledger: HandleLedger, ghost notifications: seq<AuthenticationInfo>,
                 ghost writerCalls: seq<WriterCall>, ghost pluginCalls: seq<PluginCall>)
      modifies this
      ensures Snap() == old(Snap()).(participants := participants', writerHistory := history,
                                      lastWriterSequence := last, nextMessageSequence := nextMessage,
                                      nextHandle := nextHandle', handshakeLedger := ledger,
                                      notifications := notifications, writerCalls := writerCalls,
                                      pluginCalls := pluginCalls)
    {
      participants, writerHistory, lastWriterSequence, nextMessageSequence, nextHandle :=
        participants', history, last, nextMessage, nextHandle';
      trace := trace.(handshakeLedger := ledger, notifications := notifications,
                      writerCalls := writerCalls, pluginCalls := pluginCalls);
    }

    /** A handshake step the plugin did not reject: take the handshake handle, drop the
        change the step answers, send the reply when there is one (new_change, then
        add_change), and settle the participant's state. */
    method Proceed(key: Guid, related: MessageIdentity, ret: ValidationResult,
                   token: HandshakeMessageToken, alloc: bool, publish: bool) returns (ok: bool)
      requires key in participants && Handshaking(participants[key].step) && Shaped(participants[key])
      requires ret != ValidationFailed
      modifies this
      ensures (Snap(), ok) == Step(old(Snap()), key, related, ret, token, alloc, publish)
    {
      ghost var s := Snap();
      var st := participants[key];
      var begins := BeginsHandshake(st.step);
      var handshake := if begins then nextHandle else st.handshakeHandle.value;
      var previous := st.changeSequenceNumber;
      var kept := if previous.Some? then Without(writerHistory, previous.value) else writerHistory;
      var c := CacheChange(lastWriterSequence + 1, GenerateAuthenticationMessage(localGuid, nextMessageSequence, related, key, token));
      var delivered := SendsMessage(ret) && alloc && publish;
      ok := StepSucceeds(ret, delivered);
      var cleared := st.(changeSequenceNumber := None);
      var settled := if ok then Advanced(cleared, ret, handshake, nextMessageSequence, c.sequenceNumber) else cleared;
      var participants' := participants[key := settled];
      var history := kept + (if delivered then [c] else []);
      var last := if delivered then c.sequenceNumber else lastWriterSequence;
      var nextMessage := if SendsMessage(ret) then nextMessageSequence + 1 else nextMessageSequence;
      var nextHandle' := if begins then nextHandle + 1 else nextHandle;
      ghost var ledger := if !begins then trace.handshakeLedger
                          else if ok then Issue(trace.handshakeLedger, handshake)
                          else Return(Issue(trace.handshakeLedger, handshake), handshake);
      ghost var reported := if ok && ret != ValidationPendingHandshakeMessage
                            then trace.notifications + [AuthenticationInfo(key, AuthorizedParticipant)]
                            else trace.notifications;
      ghost var calls := trace.writerCalls + RemovalCalls(previous)
                         + (if SendsMessage(ret) then SendCalls(alloc, publish, c) else []);
      ghost var called := trace.pluginCalls + [CallFor(st.step, key)];
      StepFields(s, key, related, ret, token, alloc, publish,
                 participants', history, last, nextMessage, nextHandle', ledger, reported, calls, called, ok);
      Store(participants', history, last, nextMessage, nextHandle', ledger, reported, calls, called);
    }

    /** One handshake call for `key`: begin_handshake_request, begin_handshake_reply or
        process_handshake, by its step (see ManagerModel.Step). */
    method Advance(key: Guid, related: MessageIdentity, ret: ValidationResult,
                   token: HandshakeMessageToken, alloc: bool, publish: bool) returns (ok: bool)
      requires key in participants && Handshaking(participants[key].step) && Shaped(participants[key])
      modifies this
      ensures (Snap(), ok) == Step(old(Snap()), key, related, ret, token, alloc, publish)
    {
      if ret == ValidationFailed {
        trace := trace.(pluginCalls := trace.pluginCalls + [CallFor(participants[key].step, key)],
                        notifications := trace.notifications + [AuthenticationInfo(key, UnauthorizedParticipant)]);
        ok := false;
      } else {
        ok := Proceed(key, related, ret, token, alloc, publish);
      }
    }

    /** A validated remote participant is kept (see ManagerModel.Admit). */
    method Admit(key: Guid, step: AuthStep)
      modifies this
      ensures Snap() == ManagerModel.Admit(old(Snap()), key, step)
    {
      participants := participants[key := AuthState(step, nextHandle, None, None, None)];
      trace := trace.(identityLedger := Issue(trace.identityLedger, nextHandle),
                      notifications := if step == AuthenticationOk
                                       then trace.notifications + [AuthenticationInfo(key, AuthorizedParticipant)]
                                       else trace.notifications);
      nextHandle := nextHandle + 1;
    }

    /** discovered_participant: `validation` answers validate_remote_identity, and `ret`,
        `token`, `alloc`, `publish` the begin_handshake_request step it may lead to. */
    method DiscoveredParticipant(key: Guid, validation: ValidationResult, ret: ValidationResult,
                                 token: HandshakeMessageToken, alloc: bool, publish: bool) returns (ok: bool)
      requires Valid()
      modifies this
      ensures (Snap(), ok) == Discover(old(Snap()), key, validation, ret, token, alloc, publish)
      ensures Valid()
    {
      DiscoverKeepsValid(Snap(), key, validation, ret, token, alloc, publish);
      if !authPlugin {
        return true;
      }
      if key in participants {
        if participants[key].step == RequestNotSent {
          ok := Advance(key, NoRelatedIdentity, ret, token, alloc, publish);
        } else {
          ok := true;
        }
        return;
      }
      trace := trace.(pluginCalls := trace.pluginCalls + [ValidateRemoteIdentity(key)]);
      var initial := InitialStep(validation);
      if initial.None? {
        trace := trace.(notifications := trace.notifications + [AuthenticationInfo(key, UnauthorizedParticipant)]);
        return false;
      }
      Admit(key, initial.value);
      if initial.value == RequestNotSent {
        ok := Advance(key, NoRelatedIdentity, ret, token, alloc, publish);
      } else {
        ok := true;
      }
    }

    /** remove_change_and_reuse of change `n` of `key`, then add_change of it again (see
        ManagerModel.Reuse). */
    method Reuse(key: Guid, n: nat, publish: bool)
      requires key in participants
      modifies this
      ensures Snap() == ManagerModel.Reuse(old(Snap()), key, n, publish)
    {
      var c := Find(writerHistory, n);
      if c.Some? {
        trace := trace.(writerCalls := trace.writerCalls + [RemoveChangeAndReuse(n)] + [AddChange(c.value, publish)]);
        if publish {
          writerHistory := Without(writerHistory, n) + [c.value];
        } else {
          writerHistory := Without(writerHistory, n);
          participants := participants[key := participants[key].(changeSequenceNumber := None)];
        }
      } else {
        trace := trace.(writerCalls := trace.writerCalls + [RemoveChangeAndReuse(n)]);
      }
    }

    /** return_handshake_handle and return_identity_handle for each participant state of
        `m`, then return_identity_handle of `local`; the ghost results are the ledgers after. */
    static method ReturnHandles(m: map<Guid, AuthState>, local: Option<nat>,
                                ghost identities: HandleLedger, ghost handshakes: HandleLedger)
      returns (ghost identities': HandleLedger, ghost handshakes': HandleLedger)
      requires HeldBy(m, local, identities, handshakes)
      ensures Completes(identities, identities') && Completes(handshakes, handshakes')
    {
      var rest := m;
      identities', handshakes' := identities, handshakes;
      assert Returning(identities, handshakes, rest, local, identities', handshakes');
      while rest != map[]
        invariant Returning(identities, handshakes, rest, local, identities', handshakes')
        decreases |rest|
      {
        var k :| k in rest;
        ReturnNext(identities, handshakes, rest, k, local, identities', handshakes');
        identities', handshakes' := Return(identities', rest[k].identityHandle), ReturnHandshake(handshakes', rest[k]);
        rest := rest - {k};
      }
      ReturnLast(identities, handshakes, local, identities', handshakes');
      identities' := ReturnLocal(identities', local);
    }

    /** The destructor: return_handshake_handle and return_identity_handle for every remote
        participant state, return_identity_handle of the local identity, unregister the
        local crypto handle, and delete the builtin endpoints. */
    method Destroy()
      requires Valid()
      modifies this
      ensures TornDown(old(Snap()), Snap())
      ensures Valid()
    {
      ghost var s := Snap();
      ghost var identities, handshakes := ReturnHandles(participants, localIdentity, trace.identityLedger, trace.handshakeLedger);
      var unregistered := if cryptoRegistered then 1 else 0;
      trace := trace.(identityLedger := identities, handshakeLedger := handshakes,
                      cryptoUnregistrations := trace.cryptoUnregistrations + unregistered,
                      deletedEndpoints := trace.deletedEndpoints + endpoints);
      participants, localIdentity, cryptoRegistered, endpoints := map[], None, false, [];
      TeardownKeepsValid(s, Snap());
    }

    /** The resend timer of `key` fired. */
    method Resend(key: Guid, publish: bool)
      requires Valid()
      modifies this
      ensures Snap() == TimerResend(old(Snap()), key, publish)
      ensures Valid()
    {
      TimerResendKeepsValid(Snap(), key, publish);
      if key in participants && participants[key].step in {WaitingReply, WaitingFinal}
         && participants[key].changeSequenceNumber.Some? {
        Reuse(key, participants[key].changeSequenceNumber.value, publish);
      }
    }

    /** onNewCacheChangeAdded on the stateless reader: the change is always removed from
        the reader history; the envelope it carries may drive one handshake step or a resend. */
    method OnNewCacheChangeAdded(change: InboundChange, ret: ValidationResult,
                                 token: HandshakeMessageToken, alloc: bool, publish: bool)
      requires Valid()
      modifies this
      ensures Snap() == Receive(old(Snap()), change, ret, token, alloc, publish)
      ensures Valid()
    {
      ReceiveKeepsValid(Snap(), change, ret, token, alloc, publish);
      trace := trace.(readerRemovals := trace.readerRemovals + [change.instance]);
      if change.payload.None? {
        return;
      }
      var m := change.payload.value;
      match Classify(participants, localGuid, m)
      case Ignore =>
      case BeginReply(k) =>
        var _ := Advance(k, m.messageIdentity, ret, token, alloc, publish);
      case ContinueHandshake(k) =>
        var _ := Advance(k, m.messageIdentity, ret, token, alloc, publish);
      case ResendFinal(k, n) =>
        Reuse(k, n, publish);
    }
  }
}
