/** The Azure Service Bus sending agent: envelopes flow through a
    serialization stage and then a sending stage, each a FIFO block, and
    every send outcome is reported to the sender callback. A circuit breaker
    latches the agent (closing the connection and completing both stages)
    and unlatches it (starting afresh). Each stage is modelled as a queue
    with an explicit step; the SDK's send is an outcome supplied by the
    caller. */
module AzureServiceBus {
  import opened Common
  import opened Envelopes

  /** The identity of a sender callback object. */
  type CallbackRef = nat

  /** A call made on the sender callback. */
  datatype Notification =
    | Successful(callback: CallbackRef, envelope: Guid)
    | ProcessingFailure(callback: CallbackRef, envelope: Guid)

  /** What the transport logger is told. */
  datatype LogEntry =
    | SerializationFailure(envelope: Guid)
    | CallbackException
    | CircuitBroken(destination: Uri)
    | CircuitResumed(destination: Uri)

  /** The exception a failed ping send surfaces. */
  datatype PingError = SendFailed(envelope: Guid)

  class AzureServiceBusSender {
    const destination: Uri
    /** Latched: the circuit is broken. */
    var latched: bool
    /** Start has run, so the connection and both stages exist. */
    var started: bool
    /** The SDK sender connection is open; closing it makes sends fail. */
    var senderOpen: bool
    var callback: Option<CallbackRef>
    /** The serialization block's input queue, and whether it is completed
        (a completed block declines new posts). */
    var serialization: seq<Envelope>
    var serializationCompleted: bool
    /** The sending block's input queue, and whether it is completed. */
    var sending: seq<Envelope>
    var sendingCompleted: bool
    /** The calls made on callbacks, in order. */
    var notifications: seq<Notification>
    /** What was logged, in order. */
    var log: seq<LogEntry>
    /** The ids of the messages the SDK accepted, in order. */
    var transmitted: seq<Guid>

    /** Once started, there is a callback to report to. */
    ghost predicate Valid()
      reads this
    {
      started ==> callback.Some?
    }

    /** While latched, the connection is closed and both stages decline new
        envelopes. */
    ghost predicate LatchHolds()
      reads this
    {
      latched ==> !senderOpen && serializationCompleted && sendingCompleted
    }

    constructor (destination: Uri)
      ensures this.destination == destination && !latched && !started
      ensures serialization == [] && sending == [] && notifications == [] && log == [] && transmitted == []
      ensures Valid() && LatchHolds()
    {
      this.destination := destination;
      latched, started, senderOpen := false, false, false;
      callback := None;
      serialization, serializationCompleted := [], false;
      sending, sendingCompleted := [], false;
      notifications, log, transmitted := [], [], [];
    }

    /** QueuedCount: the envelopes waiting in the sending stage. Before
      `Start` there is no sending stage to count. */
    function QueuedCount(): nat
      requires started
      reads this
    {
      |sending|
    }

    /** Start: a new open connection and two new, empty, accepting stages,
      reporting to `callback`. The latch flag is not touched. */
    method Start(callback: CallbackRef)
      modifies this`started, this`senderOpen, this`callback, this`serialization, this`serializationCompleted,
               this`sending, this`sendingCompleted
      ensures started && senderOpen && this.callback == Some(callback)
      ensures serialization == [] && !serializationCompleted && sending == [] && !sendingCompleted
      ensures Valid()
    {
      started, senderOpen := true, true;
      this.callback := Some(callback);
      serialization, serializationCompleted := [], false;
      sending, sendingCompleted := [], false;
    }

    /** Enqueue: posts the envelope to the serialization stage and nothing
      else; a completed stage declines it. */
    method Enqueue(envelope: Envelope)
      requires started
      modifies this`serialization
      ensures !serializationCompleted ==> serialization == old(serialization) + [envelope]
      ensures serializationCompleted ==> serialization == old(serialization)
    {
      if !serializationCompleted {
        serialization := serialization + [envelope];
      }
    }

    /** One step of the serialization stage on its oldest envelope: when it
      serializes, it is posted to the sending stage behind those already
      there (declined if that stage is completed); when it does not, the
      failure is logged and the envelope is dropped. */
    method StepSerialization(serializes: bool)
      requires started && |serialization| > 0
      modifies this`serialization, this`sending, this`log
      ensures serialization == old(serialization)[1..]
      ensures serializes && !sendingCompleted ==> sending == old(sending) + [old(serialization)[0]]
      ensures !(serializes && !sendingCompleted) ==> sending == old(sending)
      ensures QueuedCount() == old(QueuedCount()) + (if serializes && !sendingCompleted then 1 else 0)
      ensures serializes ==> log == old(log)
      ensures !serializes ==> log == old(log) + [SerializationFailure(old(serialization)[0].Id)]
    {
      var envelope := serialization[0];
      serialization := serialization[1..];
      if serializes {
        if !sendingCompleted {
          sending := sending + [envelope];
        }
      } else {
        log := log + [SerializationFailure(envelope.Id)];
      }
    }

    /** One step of the sending stage on its oldest envelope. The send goes
      through when the SDK accepts it on an open connection; then the
      callback hears Successful. A failed send, or a Successful callback
      that throws, makes the callback hear ProcessingFailure; an exception
      from that callback is logged and goes no further. */
    method StepSend(delivered: bool, successThrows: bool, failureThrows: bool)
      requires Valid() && started && |sending| > 0
      modifies this`sending, this`notifications, this`log, this`transmitted
      ensures sending == old(sending)[1..]
      ensures QueuedCount() == old(QueuedCount()) - 1
      ensures var id := old(sending)[0].Id; var cb := callback.value;
        && (delivered && senderOpen ==> transmitted == old(transmitted) + [id])
        && (!(delivered && senderOpen) ==> transmitted == old(transmitted))
        && (delivered && senderOpen && !successThrows ==> notifications == old(notifications) + [Successful(cb, id)])
        && (delivered && senderOpen && successThrows ==>
              notifications == old(notifications) + [Successful(cb, id), ProcessingFailure(cb, id)])
        && (!(delivered && senderOpen) ==> notifications == old(notifications) + [ProcessingFailure(cb, id)])
      ensures var failed := !(delivered && senderOpen) || successThrows;
        log == if failed && failureThrows then old(log) + [CallbackException] else old(log)
    {
      var envelope := sending[0];
      sending := sending[1..];
      var thrown := false;
      if delivered && senderOpen {
        transmitted := transmitted + [envelope.Id];
        notifications := notifications + [Successful(callback.value, envelope.Id)];
        thrown := successThrows;
      } else {
        thrown := true;
      }
      if thrown {
        notifications := notifications + [ProcessingFailure(callback.value, envelope.Id)];
        if failureThrows {
          log := log + [CallbackException];
        }
      }
    }

    /** LatchAndDrain: latches, closes the connection, completes both
      stages (what they hold is still worked off) and reports the broken
      circuit. */
    method LatchAndDrain()
      requires started
      modifies this`latched, this`senderOpen, this`sendingCompleted, this`serializationCompleted, this`log
      ensures latched && !senderOpen && sendingCompleted && serializationCompleted
      ensures log == old(log) + [CircuitBroken(destination)]
      ensures LatchHolds()
    {
      latched := true;
      senderOpen := false;
      sendingCompleted := true;
      serializationCompleted := true;
      log := log + [CircuitBroken(destination)];
    }

    /** Unlatch: reports the resumed circuit, starts again with the same
      callback, and clears the latch. */
    method Unlatch()
      requires Valid() && started
      modifies this
      ensures log == old(log) + [CircuitResumed(destination)]
      ensures callback == old(callback) && started && senderOpen && !latched
      ensures serialization == [] && !serializationCompleted && sending == [] && !sendingCompleted
      ensures notifications == old(notifications) && transmitted == old(transmitted)
      ensures Valid() && LatchHolds()
    {
      log := log + [CircuitResumed(destination)];
      Start(callback.value);
      latched := false;
    }

    /** Ping: builds a ping envelope for this destination and sends it
      straight through the connection, bypassing both stages; it fails when
      the SDK does not accept it or the connection is closed. */
    method Ping(id: Guid, delivered: bool) returns (r: Outcome<PingError>)
      requires started
      modifies this`transmitted
      ensures r.Pass? <==> delivered && senderOpen
      ensures r.Pass? ==> transmitted == old(transmitted) + [id]
      ensures r.Fail? ==> transmitted == old(transmitted) && r.error == SendFailed(id)
    {
      var envelope := new Envelope.ForPing(id, destination);
      assert envelope.IsPing() && envelope.Destination == Some(destination);
      if delivered && senderOpen {
        transmitted := transmitted + [envelope.Id];
        r := Pass;
      } else {
        r := Fail(SendFailed(envelope.Id));
      }
    }
  }

  /** While the circuit is latched, nothing new gets through: an enqueued
      envelope is declined, a serialized one is not passed on, and no send
      reaches the service. */
  method LatchedSenderSendsNothing(sender: AzureServiceBusSender, envelope: Envelope, serializes: bool,
                                   delivered: bool, successThrows: bool, failureThrows: bool)
    requires sender.Valid() && sender.started && sender.latched && sender.LatchHolds()
    modifies sender
    ensures sender.transmitted == old(sender.transmitted)
    ensures |sender.sending| <= |old(sender.sending)|
  {
    sender.Enqueue(envelope);
    if |sender.serialization| > 0 {
      sender.StepSerialization(serializes);
    }
    if |sender.sending| > 0 {
      sender.StepSend(delivered, successThrows, failureThrows);
    }
  }
}
