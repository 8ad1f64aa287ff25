/** The per-remote-participant authentication state and the pure rules that move it:
    which step follows a plugin answer, and what an inbound envelope is for. */
module Handshake {
  import opened SecurityTypes
  import opened AuthMessage

  /** AuthenticationStatus of a discovered participant. */
  datatype AuthStep =
    | WaitingRequest    // responder: validation said the remote starts the handshake
    | RequestNotSent    // initiator: the request has not been sent yet
    | WaitingReply      // initiator: request sent, waiting for the reply
    | WaitingFinal      // responder: reply sent, waiting for the final message
    | AuthenticationOk  // authorized

  /** The state kept per remote participant key. */
  datatype AuthState = AuthState(
    step: AuthStep,
    identityHandle: nat,                 // remote IdentityHandle from validate_remote_identity
    handshakeHandle: Option<nat>,        // HandshakeHandle once a handshake step started
    expectedSequenceNumber: Option<nat>, // message sequence number an answer must relate to
    changeSequenceNumber: Option<nat>)   // writer-history sequence number of the last change sent

  /** The state a freshly validated remote participant starts in, by validation answer. */
  function InitialStep(validation: ValidationResult): (r: Option<AuthStep>)
    ensures r == Some(AuthenticationOk) <==> validation == ValidationOk
    ensures r == Some(RequestNotSent) <==> validation == ValidationPendingHandshakeRequest
    ensures r == Some(WaitingRequest) <==> validation == ValidationPendingHandshakeMessage
    ensures r == None <==> validation in {ValidationFailed, ValidationPendingRetry, ValidationOkWithFinalMessage}
  {
    match validation
    case ValidationOk => Some(AuthenticationOk)
    case ValidationPendingHandshakeRequest => Some(RequestNotSent)
    case ValidationPendingHandshakeMessage => Some(WaitingRequest)
    case _ => None
  }

  /** The steps in which a handshake call is made for the participant. */
  predicate Handshaking(step: AuthStep)
  {
    step in {RequestNotSent, WaitingRequest, WaitingReply, WaitingFinal}
  }

  /** Steps whose plugin call (begin_handshake_request / begin_handshake_reply) issues a
      new handshake handle; in the other handshaking steps process_handshake reuses it. */
  predicate BeginsHandshake(step: AuthStep)
  {
    step == RequestNotSent || step == WaitingRequest
  }

  /** Plugin answers that come with a token to send. */
  predicate SendsMessage(ret: ValidationResult)
  {
    ret == ValidationPendingHandshakeMessage || ret == ValidationOkWithFinalMessage
  }

  /** A step moves the state forward when the plugin accepts without a message, or when
      it produced a message and that message went out. */
  predicate StepSucceeds(ret: ValidationResult, delivered: bool)
  {
    ret == ValidationOk || (SendsMessage(ret) && delivered)
  }

  /** The step reached after a successful handshake call from `pre`. */
  function NextStep(pre: AuthStep, ret: ValidationResult): (r: AuthStep)
    requires StepSucceeds(ret, true)
    // authorization exactly on OK and OK_WITH_FINAL_MESSAGE
    ensures r == AuthenticationOk <==> ret != ValidationPendingHandshakeMessage
    // role determinism: an initiator that sent its request waits for the reply,
    // everybody else that sent a message waits for the final one
    ensures ret == ValidationPendingHandshakeMessage ==>
              (r == WaitingReply <==> pre == RequestNotSent) && (r == WaitingFinal <==> pre != RequestNotSent)
  {
    if ret == ValidationPendingHandshakeMessage then
      (if pre == RequestNotSent then WaitingReply else WaitingFinal)
    else AuthenticationOk
  }

  /** The state after a successful handshake call from `st` that holds `handshake`,
      sent message number `messageSeq` and, when a message was sent, change `changeSeq`. */
  function Advanced(st: AuthState, ret: ValidationResult, handshake: nat, messageSeq: nat, changeSeq: nat): (r: AuthState)
    requires StepSucceeds(ret, true)
    ensures r.identityHandle == st.identityHandle && r.handshakeHandle == Some(handshake)
    ensures r.step == NextStep(st.step, ret)
    // an answer must now relate to the message just sent; a final message still answers
    // the same reply, so the expected number is kept for recognising a duplicate of it
    ensures r.expectedSequenceNumber ==
              if ret == ValidationPendingHandshakeMessage then Some(messageSeq) else st.expectedSequenceNumber
    // the change kept for a resend is the one just sent, and none after a silent OK
    ensures r.changeSequenceNumber == if SendsMessage(ret) then Some(changeSeq) else None
  {
    AuthState(NextStep(st.step, ret), st.identityHandle, Some(handshake),
              if ret == ValidationPendingHandshakeMessage then Some(messageSeq) else st.expectedSequenceNumber,
              if SendsMessage(ret) then Some(changeSeq) else None)
  }

  /** What the manager does with an inbound envelope. */
  datatype Disposition =
    | Ignore
    | BeginReply(remote: Guid)                       // a request: call begin_handshake_reply
    | ContinueHandshake(remote: Guid)                // a correlated reply or final: process_handshake
    | ResendFinal(remote: Guid, sequenceNumber: nat) // a duplicate of the reply answered by a final

  /** The dispatch of a parsed envelope against the per-participant states. */
  function Classify(participants: map<Guid, AuthState>, local: Guid, m: ParticipantGenericMessage): (r: Disposition)
    ensures !IsAuthenticationMessage(m) || m.destinationParticipantKey != local ==> r == Ignore
    ensures SenderKey(m) !in participants ==> r == Ignore
    ensures r != Ignore ==> r.remote == SenderKey(m) && r.remote in participants && Recognised(m, local)
    ensures r.BeginReply? <==>
              Recognised(m, local) && SenderKey(m) in participants
              && participants[SenderKey(m)].step == WaitingRequest
    ensures r.ContinueHandshake? <==>
              Recognised(m, local) && SenderKey(m) in participants
              && participants[SenderKey(m)].step in {WaitingReply, WaitingFinal}
              && Answers(m, SenderKey(m), participants[SenderKey(m)].expectedSequenceNumber)
    ensures r.ResendFinal? <==>
              Recognised(m, local) && SenderKey(m) in participants
              && participants[SenderKey(m)].step == AuthenticationOk
              && participants[SenderKey(m)].changeSequenceNumber.Some?
              && Answers(m, SenderKey(m), participants[SenderKey(m)].expectedSequenceNumber)
    ensures r.ResendFinal? ==> Some(r.sequenceNumber) == participants[r.remote].changeSequenceNumber
  {
    var key := SenderKey(m);
    if !Recognised(m, local) || key !in participants then Ignore
    else
      var st := participants[key];
      match st.step
      case WaitingRequest => BeginReply(key)
      case WaitingReply =>
        if Answers(m, key, st.expectedSequenceNumber) then ContinueHandshake(key) else Ignore
      case WaitingFinal =>
        if Answers(m, key, st.expectedSequenceNumber) then ContinueHandshake(key) else Ignore
      case AuthenticationOk =>
        if st.changeSequenceNumber.Some? && Answers(m, key, st.expectedSequenceNumber)
        then ResendFinal(key, st.changeSequenceNumber.value) else Ignore
      case RequestNotSent => Ignore
  }

  /** Idempotence of the final step: the reply that an initiator answered with a final
      message, when it arrives again, is not processed a second time but resends the final. */
  lemma DuplicateReplyResendsFinal(participants: map<Guid, AuthState>, local: Guid, m: ParticipantGenericMessage,
                                   handshake: nat, messageSeq: nat, changeSeq: nat)
    requires Classify(participants, local, m).ContinueHandshake?
    ensures var key := SenderKey(m);
            var after := participants[key := Advanced(participants[key], ValidationOkWithFinalMessage, handshake, messageSeq, changeSeq)];
            Classify(after, local, m) == ResendFinal(key, changeSeq)
  {
  }

  /** Once authorized by a step that sent nothing, every later envelope is ignored. */
  lemma AuthorizedWithoutFinalIgnoresAll(participants: map<Guid, AuthState>, local: Guid, key: Guid,
                                         handshake: nat, messageSeq: nat, changeSeq: nat, m: ParticipantGenericMessage)
    requires key in participants && Handshaking(participants[key].step)
    ensures var after := participants[key := Advanced(participants[key], ValidationOk, handshake, messageSeq, changeSeq)];
            SenderKey(m) == key ==> Classify(after, local, m) == Ignore
  {
  }

  /** After a step of `key` that sent a message and waits for its answer, an envelope
      recognised from `key` is processed exactly when it answers that message, that is,
      its related identity is `key` with the number just sent; any other is ignored. */
  lemma SentMessageAwaitsAnswer(participants: map<Guid, AuthState>, local: Guid, key: Guid,
                                handshake: nat, messageSeq: nat, changeSeq: nat, m: ParticipantGenericMessage)
    requires key in participants && Handshaking(participants[key].step)
    requires Recognised(m, local) && SenderKey(m) == key
    ensures var after := participants[key := Advanced(participants[key], ValidationPendingHandshakeMessage,
                                                      handshake, messageSeq, changeSeq)];
            Classify(after, local, m)
            == if m.relatedMessageIdentity == MessageIdentity(key, messageSeq) then ContinueHandshake(key) else Ignore
  {
  }
}
