/** Whole lifetimes of a manager as the authentication tests drive it: init, at most one
    discovery, then the destructor, with the handle returns each lifetime makes. */
module Scenarios {
  import opened SecurityTypes
  import opened Handshake
  import opened Ledger
  import opened ManagerModel

  /** A manager with an authentication plugin after an init in which every plugin and
      endpoint call succeeded. */
  function Initialized(localGuid: Guid): (s: ManagerState)
    ensures ValidState(s) && s.participants == map[] && s.nextHandle == 1
    ensures s.identityLedger == HandleLedger({0}, []) && s.handshakeLedger == HandleLedger({}, [])
    ensures s.localIdentity == Some(0) && s.cryptoRegistered && s.cryptoRegistrations == 1
  {
    var c := Constructed(true, localGuid);
    InitializeKeepsValid(c, ValidationOk, true, [true, true, true, true]);
    Initialize(c, ValidationOk, true, [true, true, true, true]).0
  }

  /** init, then the destructor: the local identity handle is returned once, no handshake
      handle is, and the local crypto handle is unregistered once. */
  lemma InitThenTeardown(localGuid: Guid, r: ManagerState)
    requires TornDown(Initialized(localGuid), r)
    ensures r.identityLedger.returned == [0] && r.handshakeLedger.returned == []
    ensures r.cryptoRegistrations == 1 && r.cryptoUnregistrations == 1
  {
    var s := Initialized(localGuid);
    TeardownReturnsAll(s, r);
    assert RemoteIdentities(s.participants) == {} && Handshakes(s.participants) == {};
    DistinctCardinality(r.identityLedger.returned);
    DistinctCardinality(r.handshakeLedger.returned);
    assert r.identityLedger.returned[0] in Elements(r.identityLedger.returned);
  }

  /** The ledgers right after one discovery of a new participant: a second identity handle
      when validation accepts it, and a handshake handle when begin_handshake_request was
      called and did not answer FAILED. */
  lemma DiscoveryLedgers(localGuid: Guid, key: Guid, validation: ValidationResult, ret: ValidationResult,
                         token: HandshakeMessageToken, alloc: bool, publish: bool)
    ensures var d := Discover(Initialized(localGuid), key, validation, ret, token, alloc, publish).0;
            && d.identityLedger.issued == (if InitialStep(validation).Some? then {0, 1} else {0})
            && d.handshakeLedger.issued
               == (if InitialStep(validation) == Some(RequestNotSent) && ret != ValidationFailed then {2} else {})
  {
    var s := Initialized(localGuid);
    if InitialStep(validation).Some? {
      var added := Admit(s.(pluginCalls := s.pluginCalls + [ValidateRemoteIdentity(key)]), key, InitialStep(validation).value);
      assert added.identityLedger.issued == {0, 1} && added.nextHandle == 2;
      if InitialStep(validation) == Some(RequestNotSent) {
        var r := Step(added, key, NoRelatedIdentity, ret, token, alloc, publish);
        assert Discover(s, key, validation, ret, token, alloc, publish) == r;
      }
    }
  }

  /** init, one discovery, then the destructor: every handle issued comes back exactly
      once, so return_identity_handle is called twice for an accepted participant and once
      otherwise, and return_handshake_handle once exactly when a handshake began. */
  lemma DiscoveryThenTeardown(localGuid: Guid, key: Guid, validation: ValidationResult, ret: ValidationResult,
                              token: HandshakeMessageToken, alloc: bool, publish: bool, r: ManagerState)
    requires TornDown(Discover(Initialized(localGuid), key, validation, ret, token, alloc, publish).0, r)
    ensures |r.identityLedger.returned| == if InitialStep(validation).Some? then 2 else 1
    ensures |r.handshakeLedger.returned|
            == if InitialStep(validation) == Some(RequestNotSent) && ret != ValidationFailed then 1 else 0
  {
    var s := Initialized(localGuid);
    var d := Discover(s, key, validation, ret, token, alloc, publish).0;
    DiscoverKeepsValid(s, key, validation, ret, token, alloc, publish);
    DiscoveryLedgers(localGuid, key, validation, ret, token, alloc, publish);
    TeardownCounts(d, r);
    assert |{0, 1}| == 2 && |{2}| == 1;
  }

  /** discovered_participant for an identity validation rejects, then again for the same
      participant: nothing was kept, so the second discovery validates it afresh. */
  lemma RejectedThenValidatedAgain(localGuid: Guid, key: Guid, validation: ValidationResult, ret: ValidationResult,
                                   token: HandshakeMessageToken, alloc: bool, publish: bool,
                                   validation': ValidationResult, ret': ValidationResult,
                                   token': HandshakeMessageToken, alloc': bool, publish': bool)
    requires InitialStep(validation).None?
    ensures var s1 := Discover(Initialized(localGuid), key, validation, ret, token, alloc, publish).0;
            && AllShaped(s1) && key !in s1.participants
            && var r := Discover(s1, key, validation', ret', token', alloc', publish').0;
               |r.pluginCalls| > |s1.pluginCalls| && r.pluginCalls[|s1.pluginCalls|] == ValidateRemoteIdentity(key)
  {
    var s := Initialized(localGuid);
    DiscoverOutcome(s, key, validation, ret, token, alloc, publish);
    var s1 := Discover(s, key, validation, ret, token, alloc, publish).0;
    DiscoverOutcome(s1, key, validation', ret', token', alloc', publish');
  }

  /** discovered_participant whose begin_handshake_request answers FAILED, then again for the
      same participant: the identity is not validated again, and the request is begun again. */
  lemma FailedRequestBegunAgain(localGuid: Guid, key: Guid, token: HandshakeMessageToken, alloc: bool, publish: bool,
                                validation': ValidationResult, ret': ValidationResult,
                                token': HandshakeMessageToken, alloc': bool, publish': bool)
    ensures var s1 := Discover(Initialized(localGuid), key, ValidationPendingHandshakeRequest, ValidationFailed,
                               token, alloc, publish).0;
            && AllShaped(s1) && key in s1.participants && s1.participants[key].step == RequestNotSent
            && Discover(s1, key, validation', ret', token', alloc', publish').0.pluginCalls
               == s1.pluginCalls + [BeginHandshakeRequest(key)]
  {
    var s := Initialized(localGuid);
    var validated := s.(pluginCalls := s.pluginCalls + [ValidateRemoteIdentity(key)]);
    var added := Admit(validated, key, RequestNotSent);
    assert key in added.participants && added.participants[key].step == RequestNotSent;
    StepFailedKeepsState(added, key, NoRelatedIdentity, token, alloc, publish);
    DiscoverKeepsValid(s, key, ValidationPendingHandshakeRequest, ValidationFailed, token, alloc, publish);
    var s1 := Discover(s, key, ValidationPendingHandshakeRequest, ValidationFailed, token, alloc, publish).0;
    assert s1.participants == added.participants;
    StepOutcome(s1, key, NoRelatedIdentity, ret', token', alloc', publish');
  }
}
