/** Values exchanged between the security manager, its plugins and its endpoints. */
module SecurityTypes {

  type Octet = bv8

  datatype Option<T> = None | Some(value: T)

  /** GUID_t: a 12-octet prefix followed by a 4-octet entity id. */
  datatype Guid = Guid(prefix: seq<Octet>, entityId: seq<Octet>)

  /** The entity id of a participant, c_EntityId_RTPSParticipant. */
  const ParticipantEntityId: seq<Octet> := [0x00, 0x00, 0x01, 0xc1]

  /** GUID_t::unknown(): every octet zero. */
  const UnknownGuid: Guid := Guid([0, 0, 0, 0, 0, 0, 0, 0, 0, 0, 0, 0], [0, 0, 0, 0])

  /** A GUID of the width GUID_t has: 12 octets of prefix, 4 of entity id. The operations
      do not depend on the width, so the model does not require it. */
  predicate WellSized(g: Guid)
  {
    |g.prefix| == 12 && |g.entityId| == 4
  }

  /** The key of the participant that owns an entity: same prefix, participant entity id. */
  function ParticipantKeyOf(g: Guid): (r: Guid)
    ensures WellSized(r) <==> |g.prefix| == 12
  {
    Guid(g.prefix, ParticipantEntityId)
  }

  /** ValidationResult_t, the answer of every authentication plugin operation. */
  datatype ValidationResult =
    | ValidationOk
    | ValidationFailed
    | ValidationPendingRetry
    | ValidationPendingHandshakeRequest
    | ValidationPendingHandshakeMessage
    | ValidationOkWithFinalMessage

  /** An opaque handshake token; the manager only carries it. */
  datatype HandshakeMessageToken = HandshakeMessageToken(content: seq<Octet>)

  /** MessageIdentity: the sender and its per-sender sequence number. */
  datatype MessageIdentity = MessageIdentity(source: Guid, sequenceNumber: nat)

  /** The identity a message carries when it answers nothing. */
  const NoRelatedIdentity: MessageIdentity := MessageIdentity(UnknownGuid, 0)

  /** ParticipantGenericMessage, the envelope of every authentication message. */
  datatype ParticipantGenericMessage = ParticipantGenericMessage(
    messageIdentity: MessageIdentity,
    relatedMessageIdentity: MessageIdentity,
    destinationParticipantKey: Guid,
    messageClassId: string,
    messageData: seq<HandshakeMessageToken>)

  /** A change in the stateless writer history: its sequence number and the envelope it carries. */
  datatype CacheChange = CacheChange(sequenceNumber: nat, message: ParticipantGenericMessage)

  /** A change delivered by the stateless reader; `payload` is None when the envelope does not parse. */
  datatype InboundChange = InboundChange(instance: nat, payload: Option<ParticipantGenericMessage>)

  /** What the participant listener is told about a remote participant. */
  datatype AuthenticationStatus = AuthorizedParticipant | UnauthorizedParticipant

  datatype AuthenticationInfo = AuthenticationInfo(guid: Guid, status: AuthenticationStatus)

  /** The four builtin endpoints that carry authentication and key-exchange traffic. */
  datatype Endpoint =
    | StatelessMessageWriter
    | StatelessMessageReader
    | VolatileMessageWriter
    | VolatileMessageReader

  /** The order in which init creates them. */
  const EndpointCreationOrder: seq<Endpoint> :=
    [StatelessMessageWriter, StatelessMessageReader, VolatileMessageWriter, VolatileMessageReader]

  /** A call the manager makes on the stateless writer or its history. */
  datatype WriterCall =
    | NewChange(granted: bool)
    | AddChange(change: CacheChange, accepted: bool)
    | RemoveChange(sequenceNumber: nat)
    | RemoveChangeAndReuse(sequenceNumber: nat)

  /** A call the manager makes on the authentication plugin (handle returns are kept apart). */
  datatype PluginCall =
    | ValidateLocalIdentity
    | ValidateRemoteIdentity(remote: Guid)
    | BeginHandshakeRequest(remote: Guid)
    | BeginHandshakeReply(remote: Guid)
    | ProcessHandshake(remote: Guid)
}
