/** The runtime side of an envelope: its persistence status and owner, the
    envelopes derived from it (sends, responses, writer clones, pings) and
    the guard that lets it be sent at most once. */
module Envelopes {
  import opened Common

  /** Status according to the message persistence. */
  datatype EnvelopeStatus = Outgoing | Scheduled | Incoming

  /** The owner id meaning "no node owns this envelope". */
  const AnyNode: int := 0

  /** The message type name of the synthetic ping envelope. Its value is
      defined outside the modelled files; only its use as a marker matters. */
  const PingMessageType: string := "jasper-ping"

  const PingContentType: string := "jasper/ping"

  /** The payload of every ping envelope. */
  const PingData: seq<byte> := [1, 2, 3, 4]

  /** An envelope identifier, kept as its canonical text, so that
      `Id.ToString()` is `text`. */
  datatype Guid = Guid(text: string)

  /** A transport address, kept as its text. */
  type Uri = string

  /** A message object: only the message type name it resolves to matters
      here; `identity` tells two messages of one type apart. */
  datatype Message = Message(typeName: string, identity: nat)

  /** A message serializer (the envelope's Writer), known by its content type. */
  datatype Serializer = Serializer(identity: nat, contentType: string)

  /** A sending agent an envelope has been routed to. */
  type AgentRef = nat

  /** The hand-off a successful Send or QuickSend makes to the sending agent. */
  datatype Handoff = StoreAndForward(agent: AgentRef) | EnqueueOutgoing(agent: AgentRef)

  /** The InvalidOperationExceptions that Send and QuickSend throw. */
  datatype SendError = AlreadyEnqueued | NotRouted

  class Envelope {
    var Id: Guid
    var Status: EnvelopeStatus
    /** Node owner of this envelope; AnyNode (0) when no node owns it. */
    var OwnerId: int
    var Attempts: int
    var ExecutionTime: Option<int>
    var DeliverBy: Option<int>
    var Destination: Option<Uri>
    var ReplyUri: Option<Uri>
    /** The message type name a reply was requested for. */
    var ReplyRequested: Option<string>
    var AcceptedContentTypes: seq<string>
    var MessageType: Option<string>
    var Message: Option<Message>
    var Data: seq<byte>
    var ContentType: Option<string>
    var Headers: map<string, string>
    var CorrelationId: Option<string>
    var CausationId: Option<string>
    var SagaId: Option<string>
    var Writer: Option<Serializer>
    /** The sending agent this envelope was routed to, if any. */
    var Sender: Option<AgentRef>
    /** Set once Send or QuickSend has handed this envelope off. */
    var enqueued: bool
    /** The bytes `Serialize()` writes for this envelope. The wire format
        is not part of this model, so the bytes are carried as they are. */
    var Serialized: seq<byte>

    /** Every field that a new envelope starts with and that ForSend does
        not set. */
    ghost predicate Unrouted()
      reads this
    {
      && Status == Outgoing && OwnerId == AnyNode && Attempts == 0
      && ExecutionTime.None? && DeliverBy.None?
      && Destination.None? && ReplyUri.None? && ReplyRequested.None?
      && AcceptedContentTypes == [] && MessageType.None?
      && Data == [] && ContentType.None? && Headers == map[]
      && Writer.None? && Sender.None? && !enqueued && Serialized == []
    }

    /** A new envelope with identifier `id` and every other field at its
        default (the identifier generator is outside this model). */
    constructor Create(id: Guid)
      ensures Id == id && Unrouted()
      ensures Message.None? && CorrelationId.None? && CausationId.None? && SagaId.None?
    {
      Id := id;
      Status := Outgoing;
      OwnerId := AnyNode;
      Attempts := 0;
      ExecutionTime := None;
      DeliverBy := None;
      Destination := None;
      ReplyUri := None;
      ReplyRequested := None;
      AcceptedContentTypes := [];
      MessageType := None;
      Message := None;
      Data := [];
      ContentType := None;
      Headers := map[];
      CorrelationId := None;
      CausationId := None;
      SagaId := None;
      Writer := None;
      Sender := None;
      enqueued := false;
      Serialized := [];
    }

    /** The ping envelope for `destination`: the ping message type, the
        payload 1, 2, 3, 4 and the ping content type. */
    constructor ForPing(id: Guid, destination: Uri)
      ensures Id == id && IsPing()
      ensures MessageType == Some(PingMessageType) && Data == PingData
      ensures ContentType == Some(PingContentType) && Destination == Some(destination)
      ensures Status == Outgoing && OwnerId == AnyNode && Headers == map[] && !enqueued && Sender.None?
    {
      Id := id;
      Status := Outgoing;
      OwnerId := AnyNode;
      Attempts := 0;
      ExecutionTime := None;
      DeliverBy := None;
      Destination := Some(destination);
      ReplyUri := None;
      ReplyRequested := None;
      AcceptedContentTypes := [];
      MessageType := Some(PingMessageType);
      Message := None;
      Data := PingData;
      ContentType := Some(PingContentType);
      Headers := map[];
      CorrelationId := None;
      CausationId := None;
      SagaId := None;
      Writer := None;
      Sender := None;
      enqueued := false;
      Serialized := [];
    }

    /** Whether this envelope carries the ping message used to probe
        whether a sending endpoint can be restarted. */
    predicate IsPing()
      reads this
    {
      MessageType == Some(PingMessageType)
    }

    /** Whether execution is still in the future at `now`. `IsDelayed` is
        defined outside the modelled files; this is its meaning: an
        execution time is set and lies after `now`. */
    predicate IsDelayed(now: int)
      reads this
    {
      ExecutionTime.Some? && ExecutionTime.value > now
    }

    /** Receipt: a delayed envelope becomes Scheduled for any node, any
        other envelope becomes Incoming and owned by the receiving node.
        The receiving address plays no part. */
    method MarkReceived(uri: Uri, now: int, currentNodeId: int)
      modifies this`Status, this`OwnerId
      ensures IsDelayed(now) ==> Status == Scheduled && OwnerId == AnyNode
      ensures !IsDelayed(now) ==> Status == Incoming && OwnerId == currentNodeId
    {
      if IsDelayed(now) {
        Status := Scheduled;
        OwnerId := AnyNode;
      } else {
        Status := Incoming;
        OwnerId := currentNodeId;
      }
    }

    /** A new envelope for `message` in the same causal chain: its
        correlation and causation ids are this envelope's id as text, and it
        belongs to the same saga. Everything else is at its default. */
    method ForSend(message: Message, childId: Guid) returns (child: Envelope)
      ensures fresh(child)
      ensures child.Id == childId && child.Message == Some(message)
      ensures child.CorrelationId == Some(Id.text) && child.CausationId == Some(Id.text)
      ensures child.SagaId == SagaId
      ensures child.Unrouted()
    {
      child := new Envelope.Create(childId);
      child.Message := Some(message);
      child.CorrelationId := Some(Id.text);
      child.CausationId := Some(Id.text);
      child.SagaId := SagaId;
    }

    /** A response to this envelope: both its correlation and causation ids
        are this envelope's correlation id. Only when the response's message
        type is the one the reply was requested for does it go to the reply
        address with this envelope's accepted content types. */
    method CreateForResponse(message: Message, childId: Guid) returns (child: Envelope)
      ensures fresh(child)
      ensures child.Id == childId && child.Message == Some(message)
      ensures child.CorrelationId == CorrelationId && child.CausationId == CorrelationId
      ensures child.SagaId == SagaId
      ensures Some(message.typeName) == ReplyRequested ==>
                child.Destination == ReplyUri && child.AcceptedContentTypes == AcceptedContentTypes
      ensures Some(message.typeName) != ReplyRequested ==>
                child.Destination.None? && child.AcceptedContentTypes == []
      ensures child.Sender.None? && !child.enqueued && child.Headers == map[]
    {
      child := ForSend(message, childId);
      child.CorrelationId := CorrelationId;
      child.CausationId := CorrelationId;
      if Some(message.typeName) == ReplyRequested {
        child.Destination := ReplyUri;
        child.AcceptedContentTypes := AcceptedContentTypes;
      }
    }

    /** `MemberwiseClone()`: a new envelope whose every field equals
        `source`'s. */
    constructor MemberwiseClone(source: Envelope)
      ensures Id == source.Id && Status == source.Status && OwnerId == source.OwnerId
      ensures Attempts == source.Attempts && ExecutionTime == source.ExecutionTime
      ensures DeliverBy == source.DeliverBy && Destination == source.Destination
      ensures ReplyUri == source.ReplyUri && ReplyRequested == source.ReplyRequested
      ensures AcceptedContentTypes == source.AcceptedContentTypes
      ensures MessageType == source.MessageType && Message == source.Message && Data == source.Data
      ensures ContentType == source.ContentType && Headers == source.Headers
      ensures CorrelationId == source.CorrelationId && CausationId == source.CausationId
      ensures SagaId == source.SagaId && Writer == source.Writer && Sender == source.Sender
      ensures enqueued == source.enqueued && Serialized == source.Serialized
    {
      Id := source.Id;
      Status := source.Status;
      OwnerId := source.OwnerId;
      Attempts := source.Attempts;
      ExecutionTime := source.ExecutionTime;
      DeliverBy := source.DeliverBy;
      Destination := source.Destination;
      ReplyUri := source.ReplyUri;
      ReplyRequested := source.ReplyRequested;
      AcceptedContentTypes := source.AcceptedContentTypes;
      MessageType := source.MessageType;
      Message := source.Message;
      Data := source.Data;
      ContentType := source.ContentType;
      Headers := source.Headers;
      CorrelationId := source.CorrelationId;
      CausationId := source.CausationId;
      SagaId := source.SagaId;
      Writer := source.Writer;
      Sender := source.Sender;
      enqueued := source.enqueued;
      Serialized := source.Serialized;
    }

    /** A shallow copy of this envelope for another writer. The copy has its
        own headers, equal to these; being a fresh object, later changes to
        its headers leave this envelope's alone. Its writer is `writer` and
        its content type the writer's; every other field is copied. */
    method CloneForWriter(writer: Serializer) returns (clone: Envelope)
      ensures fresh(clone) && clone != this
      ensures clone.Headers == Headers
      ensures clone.Writer == Some(writer) && clone.ContentType == Some(writer.contentType)
      ensures clone.Id == Id && clone.Status == Status && clone.OwnerId == OwnerId
      ensures clone.Attempts == Attempts && clone.ExecutionTime == ExecutionTime
      ensures clone.DeliverBy == DeliverBy && clone.Destination == Destination
      ensures clone.ReplyUri == ReplyUri && clone.ReplyRequested == ReplyRequested
      ensures clone.AcceptedContentTypes == AcceptedContentTypes
      ensures clone.MessageType == MessageType && clone.Message == Message && clone.Data == Data
      ensures clone.CorrelationId == CorrelationId && clone.CausationId == CausationId
      ensures clone.SagaId == SagaId && clone.Sender == Sender && clone.enqueued == enqueued
      ensures clone.Serialized == Serialized
    {
      clone := new Envelope.MemberwiseClone(this);
      clone.Headers := Headers;
      clone.Writer := Some(writer);
      clone.ContentType := Some(writer.contentType);
    }

    /** Send: refused once the envelope has been enqueued, refused without
        marking it when it has not been routed, otherwise marks it enqueued
        and hands it to its agent for store-and-forward. */
    method Send() returns (r: Result<Handoff, SendError>)
      modifies this`enqueued
      ensures old(enqueued) ==> r == Failure(AlreadyEnqueued) && enqueued
      ensures !old(enqueued) && Sender.None? ==> r == Failure(NotRouted) && !enqueued
      ensures !old(enqueued) && Sender.Some? ==> r == Success(StoreAndForward(Sender.value)) && enqueued
    {
      if enqueued {
        return Failure(AlreadyEnqueued);
      }
      if Sender.None? {
        return Failure(NotRouted);
      }
      enqueued := true;
      r := Success(StoreAndForward(Sender.value));
    }

    /** QuickSend: the same guard as Send, handing off to the agent's
        outgoing queue instead. */
    method QuickSend() returns (r: Result<Handoff, SendError>)
      modifies this`enqueued
      ensures old(enqueued) ==> r == Failure(AlreadyEnqueued) && enqueued
      ensures !old(enqueued) && Sender.None? ==> r == Failure(NotRouted) && !enqueued
      ensures !old(enqueued) && Sender.Some? ==> r == Success(EnqueueOutgoing(Sender.value)) && enqueued
    {
      if enqueued {
        return Failure(AlreadyEnqueued);
      }
      if Sender.None? {
        return Failure(NotRouted);
      }
      enqueued := true;
      r := Success(EnqueueOutgoing(Sender.value));
    }
  }

  /** At most one hand-off per envelope: whichever of Send and QuickSend
      runs first, a second attempt never hands the envelope off again, and
      the envelope ends enqueued exactly when one attempt succeeded. */
  method SendTwice(e: Envelope, quickFirst: bool, quickSecond: bool)
    returns (first: Result<Handoff, SendError>, second: Result<Handoff, SendError>)
    modifies e`enqueued
    ensures !(first.Success? && second.Success?)
    ensures first.Success? ==> second == Failure(AlreadyEnqueued)
    ensures e.enqueued <==> old(e.enqueued) || first.Success? || second.Success?
  {
    if quickFirst {
      first := e.QuickSend();
    } else {
      first := e.Send();
    }
    if quickSecond {
      second := e.QuickSend();
    } else {
      second := e.Send();
    }
  }
}
