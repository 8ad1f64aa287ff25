/** The authentication envelope carried on the ParticipantStatelessMessage topic
    (section 7.4.3 of the OMG DDS Security specification): how the manager builds one
    and which envelopes it recognises. */
module AuthMessage {
  import opened SecurityTypes

  /** The message class id of the authentication protocol. */
  const AuthClassId: string := "dds.sec.auth"

  predicate IsAuthenticationMessage(m: ParticipantGenericMessage)
  {
    m.messageClassId == AuthClassId
  }

  /** The envelope a handshake step sends: identity (local key, next sequence number),
      the identity of the message it answers, the remote key and the single token. */
  function GenerateAuthenticationMessage(local: Guid, sequenceNumber: nat, related: MessageIdentity,
                                         remote: Guid, token: HandshakeMessageToken): (m: ParticipantGenericMessage)
    ensures IsAuthenticationMessage(m)
    ensures m.messageIdentity == MessageIdentity(local, sequenceNumber)
    ensures m.relatedMessageIdentity == related && m.destinationParticipantKey == remote
    ensures m.messageData == [token]
    // the peer whose key is `remote` recognises it and attributes it to the local participant
    ensures Recognised(m, remote) && SenderKey(m) == ParticipantKeyOf(local)
  {
    ParticipantGenericMessage(MessageIdentity(local, sequenceNumber), related, remote, AuthClassId, [token])
  }

  /** The key of the participant that sent `m`. */
  function SenderKey(m: ParticipantGenericMessage): Guid
  {
    ParticipantKeyOf(m.messageIdentity.source)
  }

  /** An envelope the manager looks at: the authentication class, addressed to the local
      participant, carrying exactly the one token a handshake step consumes. */
  predicate Recognised(m: ParticipantGenericMessage, local: Guid)
  {
    IsAuthenticationMessage(m) && m.destinationParticipantKey == local && |m.messageData| == 1
  }

  /** `m` answers the message this side last sent to `remote`: its related identity names
      the remote key and that message's sequence number. */
  predicate Answers(m: ParticipantGenericMessage, remote: Guid, expected: Option<nat>)
  {
    expected.Some?
    && m.relatedMessageIdentity.source == remote
    && m.relatedMessageIdentity.sequenceNumber == expected.value
  }
}
