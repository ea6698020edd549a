/** The handler graph: handler calls grouped, once, into one chain per
    concrete message type; a memoised message-type to handler lookup;
    forwarders that reuse an existing chain; and a registry of message
    type names. Types and handler methods are opaque ids; what reflection
    decides about types is given as a TypeSystem, and compiling a chain
    into a handler is taken to be a fixed function of the chain. */
module Handlers {
  import opened Common

  type MessageType = nat

  /** The message type id of Envelope itself. */
  const EnvelopeType: MessageType := 0

  /** What reflection answers about message types. */
  datatype TypeSystem = TypeSystem(
    isConcrete: MessageType -> bool,
    /** couldHandle(a, b): a handler for `a` can also handle `b`. */
    couldHandle: (MessageType, MessageType) -> bool,
    /** ToMessageTypeName. */
    nameOf: MessageType -> string)

  /** A discovered handler method for one message type. */
  datatype HandlerCall = HandlerCall(messageType: MessageType, handlerMethod: nat)

  /** The handler calls that run for one message type, in order. */
  datatype HandlerChain = HandlerChain(messageType: MessageType, handlers: seq<HandlerCall>)

  datatype MessageHandler =
    | ChainHandler(chain: HandlerChain)
    | ScheduledSendEnvelopeHandler
    | ForwardingHandler(source: MessageType, destination: MessageType, chain: HandlerChain)

  datatype GraphError = AlreadyGrouped

  /** The chain a handler carries, if any. */
  function ChainOf(handler: MessageHandler): Option<HandlerChain>
  {
    match handler
    case ChainHandler(chain) => Some(chain)
    case ScheduledSendEnvelopeHandler => None
    case ForwardingHandler(_, _, chain) => Some(chain)
  }

  /** The calls for message type `t`, in their order. */
  function CallsFor(calls: seq<HandlerCall>, t: MessageType): seq<HandlerCall>
    decreases |calls|
  {
    if |calls| == 0 then []
    else CallsFor(calls[..|calls| - 1], t) + (if calls[|calls| - 1].messageType == t then [calls[|calls| - 1]] else [])
  }

  /** A chain's calls for its type are exactly the calls of that type. */
  lemma {:induction false} CallsForMembers(calls: seq<HandlerCall>, t: MessageType)
    ensures forall c :: c in CallsFor(calls, t) <==> c in calls && c.messageType == t
    ensures (forall c :: c in calls ==> c.messageType != t) ==> CallsFor(calls, t) == []
    decreases |calls|
  {
    if |calls| > 0 {
      var init := calls[..|calls| - 1];
      CallsForMembers(init, t);
      assert calls == init + [calls[|calls| - 1]];
    }
  }

  /** The non-concrete calls that could handle message type `t`, in their
      order. */
  function AbstractFor(types: TypeSystem, calls: seq<HandlerCall>, t: MessageType): seq<HandlerCall>
    decreases |calls|
  {
    if |calls| == 0 then []
    else
      var last := calls[|calls| - 1];
      AbstractFor(types, calls[..|calls| - 1], t)
      + (if !types.isConcrete(last.messageType) && types.couldHandle(last.messageType, t) then [last] else [])
  }

  /** A chain receives exactly the non-concrete calls that could handle
      its message type, and never a concrete call. */
  lemma {:induction false} AbstractForMembers(types: TypeSystem, calls: seq<HandlerCall>, t: MessageType)
    ensures forall c :: c in AbstractFor(types, calls, t) <==>
              c in calls && !types.isConcrete(c.messageType) && types.couldHandle(c.messageType, t)
    decreases |calls|
  {
    if |calls| > 0 {
      var init := calls[..|calls| - 1];
      AbstractForMembers(types, init, t);
      assert calls == init + [calls[|calls| - 1]];
    }
  }

  /** The concrete message types among the calls. */
  function ConcreteTypes(types: TypeSystem, calls: seq<HandlerCall>): set<MessageType>
  {
    set c | c in calls && types.isConcrete(c.messageType) :: c.messageType
  }

  /** One non-concrete call attached to every chain whose message type it
      could handle. */
  function AttachAbstract(types: TypeSystem, chains: map<MessageType, HandlerChain>, call: HandlerCall): map<MessageType, HandlerChain>
  {
    map t | t in chains ::
      if types.couldHandle(call.messageType, chains[t].messageType)
      then chains[t].(handlers := chains[t].handlers + [call])
      else chains[t]
  }

  /** One forwarder: the source type takes the destination's chain and a
      forwarding handler, but only when the destination has a chain. */
  function Forward(chains: map<MessageType, HandlerChain>, handlers: map<MessageType, Option<MessageHandler>>,
                   pair: (MessageType, MessageType)): (map<MessageType, HandlerChain>, map<MessageType, Option<MessageHandler>>)
  {
    var (source, destination) := pair;
    if destination in chains
    then (chains[source := chains[destination]],
          handlers[source := Some(ForwardingHandler(source, destination, chains[destination]))])
    else (chains, handlers)
  }

  /** The forwarders applied in order. */
  function ApplyForwarders(chains: map<MessageType, HandlerChain>, handlers: map<MessageType, Option<MessageHandler>>,
                           pairs: seq<(MessageType, MessageType)>): (map<MessageType, HandlerChain>, map<MessageType, Option<MessageHandler>>)
    decreases |pairs|
  {
    if |pairs| == 0 then (chains, handlers)
    else
      var before := ApplyForwarders(chains, handlers, pairs[..|pairs| - 1]);
      Forward(before.0, before.1, pairs[|pairs| - 1])
  }

  /** No forwarder has `t` as its source. */
  predicate NotForwarded(pairs: seq<(MessageType, MessageType)>, t: MessageType)
  {
    forall i :: 0 <= i < |pairs| ==> pairs[i].0 != t
  }

  /** Forwarders only touch their source types: every other type keeps
      its chain and its handler, and no chain is removed. */
  lemma {:induction false} ForwardersTouchOnlySources(chains: map<MessageType, HandlerChain>,
                                                      handlers: map<MessageType, Option<MessageHandler>>,
                                                      pairs: seq<(MessageType, MessageType)>)
    ensures var r := ApplyForwarders(chains, handlers, pairs);
      && chains.Keys <= r.0.Keys
      && (forall t :: NotForwarded(pairs, t) ==>
            (t in r.0 <==> t in chains) && (t in chains ==> r.0[t] == chains[t])
            && (t in r.1 <==> t in handlers) && (t in handlers ==> r.1[t] == handlers[t]))
    decreases |pairs|
  {
    if |pairs| > 0 {
      var init := pairs[..|pairs| - 1];
      ForwardersTouchOnlySources(chains, handlers, init);
      forall t | NotForwarded(pairs, t) ensures NotForwarded(init, t) {
        forall i | 0 <= i < |init| ensures init[i].0 != t {
          assert init[i] == pairs[i];
        }
      }
    }
  }

  /** After forwarding, `pair`'s source holds the destination's chain and a
      forwarding handler when the destination had a chain at the start,
      and is as it was otherwise. */
  predicate Registered(chains: map<MessageType, HandlerChain>, handlers: map<MessageType, Option<MessageHandler>>,
                       r: (map<MessageType, HandlerChain>, map<MessageType, Option<MessageHandler>>),
                       pair: (MessageType, MessageType))
  {
    var (source, destination) := pair;
    && (destination in chains ==>
          source in r.0 && r.0[source] == chains[destination]
          && source in r.1 && r.1[source] == Some(ForwardingHandler(source, destination, chains[destination])))
    && (destination !in chains ==>
          (source in r.0 <==> source in chains) && (source in chains ==> r.0[source] == chains[source])
          && (source in r.1 <==> source in handlers) && (source in handlers ==> r.1[source] == handlers[source]))
  }

  /** When no forwarder's destination is itself a forwarded source and no
      source is forwarded twice, each forwarder whose destination already
      has a chain registers its source with that chain and a forwarding
      handler, and each other forwarder is ignored. */
  lemma {:induction false} ForwardersRegisterMatched(chains: map<MessageType, HandlerChain>,
                                                     handlers: map<MessageType, Option<MessageHandler>>,
                                                     pairs: seq<(MessageType, MessageType)>)
    requires forall i, j :: 0 <= i < |pairs| && 0 <= j < |pairs| ==> pairs[i].1 != pairs[j].0
    requires forall i, j :: 0 <= i < j < |pairs| ==> pairs[i].0 != pairs[j].0
    ensures forall i :: 0 <= i < |pairs| ==> Registered(chains, handlers, ApplyForwarders(chains, handlers, pairs), pairs[i])
    decreases |pairs|
  {
    if |pairs| > 0 {
      var init := pairs[..|pairs| - 1];
      var last := pairs[|pairs| - 1];
      ForwardersRegisterMatched(chains, handlers, init);
      ForwardersTouchOnlySources(chains, handlers, init);
      var before := ApplyForwarders(chains, handlers, init);
      var after := ApplyForwarders(chains, handlers, pairs);
      assert after == Forward(before.0, before.1, last);
      assert NotForwarded(init, last.1) by {
        forall i | 0 <= i < |init| ensures init[i].0 != last.1 {
          assert init[i] == pairs[i];
        }
      }
      assert NotForwarded(init, last.0) by {
        forall i | 0 <= i < |init| ensures init[i].0 != last.0 {
          assert init[i] == pairs[i];
        }
      }
      forall i | 0 <= i < |pairs| ensures Registered(chains, handlers, after, pairs[i]) {
        if i < |pairs| - 1 {
          assert pairs[i] == init[i];
          assert pairs[i].0 != last.0;
          assert Registered(chains, handlers, before, pairs[i]);
        }
      }
    }
  }

  /** The first pass of Group: the concrete calls grouped by message
      type, one chain per type holding that type's calls in order. */
  method GroupConcrete(types: TypeSystem, calls: seq<HandlerCall>) returns (grouped: map<MessageType, HandlerChain>)
    ensures grouped.Keys == ConcreteTypes(types, calls)
    ensures forall t :: t in grouped ==> grouped[t] == HandlerChain(t, CallsFor(calls, t))
  {
    grouped := map[];
    for i := 0 to |calls|
      invariant forall t :: t in grouped <==> t in ConcreteTypes(types, calls[..i])
      invariant forall t :: t in grouped ==> grouped[t] == HandlerChain(t, CallsFor(calls[..i], t))
    {
      var call := calls[i];
      assert calls[..i + 1] == calls[..i] + [call];
      assert calls[..i + 1][..i] == calls[..i];
      if types.isConcrete(call.messageType) {
        var t := call.messageType;
        if t in grouped {
          grouped := grouped[t := grouped[t].(handlers := grouped[t].handlers + [call])];
        } else {
          CallsForMembers(calls[..i], t);
          grouped := grouped[t := HandlerChain(t, [call])];
        }
      }
    }
    assert calls[..|calls|] == calls;
  }

  /** The second pass of Group: each non-concrete call, in order, appended
      to every chain whose message type it could handle. */
  method AttachAbstractCalls(types: TypeSystem, chains: map<MessageType, HandlerChain>, calls: seq<HandlerCall>)
    returns (r: map<MessageType, HandlerChain>)
    ensures r.Keys == chains.Keys
    ensures forall t :: t in r ==>
              r[t] == chains[t].(handlers := chains[t].handlers + AbstractFor(types, calls, chains[t].messageType))
  {
    r := chains;
    for i := 0 to |calls|
      invariant r.Keys == chains.Keys
      invariant forall t :: t in r ==>
                  r[t] == chains[t].(handlers := chains[t].handlers + AbstractFor(types, calls[..i], chains[t].messageType))
    {
      var call := calls[i];
      assert calls[..i + 1] == calls[..i] + [call];
      assert calls[..i + 1][..i] == calls[..i];
      if !types.isConcrete(call.messageType) {
        r := AttachAbstract(types, r, call);
      }
    }
    assert calls[..|calls|] == calls;
  }

  class HandlerGraph {
    const types: TypeSystem
    var calls: seq<HandlerCall>
    var chains: map<MessageType, HandlerChain>
    /** The memoised lookups: None records a miss. */
    var handlers: map<MessageType, Option<MessageHandler>>
    var hasGrouped: bool
    var messageTypes: map<string, MessageType>

    /** A new graph knows only the handler that schedules envelopes. */
    constructor (types: TypeSystem)
      ensures this.types == types && calls == [] && chains == map[] && !hasGrouped && messageTypes == map[]
      ensures handlers == map[EnvelopeType := Some(ScheduledSendEnvelopeHandler)]
    {
      this.types := types;
      calls := [];
      chains := map[];
      handlers := map[EnvelopeType := Some(ScheduledSendEnvelopeHandler)];
      hasGrouped := false;
      messageTypes := map[];
    }

    /** AddRange: refused once the graph is grouped, with the calls
      unchanged; otherwise the calls are appended. */
    method AddRange(newCalls: seq<HandlerCall>) returns (r: Outcome<GraphError>)
      modifies this`calls
      ensures r.Fail? <==> hasGrouped
      ensures r.Fail? ==> r.error == AlreadyGrouped && calls == old(calls)
      ensures r.Pass? ==> calls == old(calls) + newCalls
    {
      if hasGrouped {
        return Fail(AlreadyGrouped);
      }
      calls := calls + newCalls;
      r := Pass;
    }

    /** Group, once: one chain per concrete message type among the calls,
      holding that type's calls in order (replacing a chain already there);
      then each non-concrete call is appended, in order, to every chain
      whose message type it could handle. A later Group changes nothing. */
    method Group()
      modifies this`chains, this`hasGrouped
      ensures hasGrouped
      ensures old(hasGrouped) ==> chains == old(chains)
      ensures !old(hasGrouped) ==> forall t :: CanHandle(t) <==> old(CanHandle(t)) || t in ConcreteTypes(types, calls)
      ensures !old(hasGrouped) ==> chains.Keys == old(chains).Keys + ConcreteTypes(types, calls)
      ensures !old(hasGrouped) ==> forall t :: t in ConcreteTypes(types, calls) ==>
                chains[t] == HandlerChain(t, CallsFor(calls, t) + AbstractFor(types, calls, t))
      ensures !old(hasGrouped) ==> forall t :: t in old(chains) && t !in ConcreteTypes(types, calls) ==>
                chains[t] == old(chains)[t].(handlers := old(chains)[t].handlers
                                                         + AbstractFor(types, calls, old(chains)[t].messageType))
    {
      if hasGrouped {
        return;
      }
      var grouped := GroupConcrete(types, calls);
      chains := AttachAbstractCalls(types, chains + grouped, calls);
      hasGrouped := true;
    }

    /** HandlerFor: a memoised entry, hit or miss, is returned as it is and
      nothing changes; otherwise the type's chain, if it has one, gives its
      handler, and the answer (a handler or a miss) is memoised. */
    method HandlerFor(t: MessageType) returns (h: Option<MessageHandler>)
      modifies this`handlers
      ensures t in old(handlers) ==> h == old(handlers)[t] && handlers == old(handlers)
      ensures t !in old(handlers) && t in chains ==> h == Some(ChainHandler(chains[t]))
      ensures t !in old(handlers) && t !in chains ==> h.None?
      ensures handlers == old(handlers)[t := h]
    {
      if t in handlers {
        return handlers[t];
      }
      if t in chains {
        h := Some(ChainHandler(chains[t]));
      } else {
        h := None;
      }
      handlers := handlers[t := h];
    }

    /** ChainFor: the chain of the handler HandlerFor gives, if any. */
    method ChainFor(t: MessageType) returns (c: Option<HandlerChain>)
      modifies this`handlers
      ensures t in handlers && handlers == old(handlers)[t := handlers[t]]
      ensures c == if handlers[t].Some? then ChainOf(handlers[t].value) else None
      ensures t !in old(handlers) && t in chains ==> c == Some(chains[t])
    {
      var h := HandlerFor(t);
      c := if h.Some? then ChainOf(h.value) else None;
    }

    /** AddForwarders: for each forwarder in turn, a source whose
      destination has a chain takes that chain and a forwarding handler. */
    method AddForwarders(relationships: seq<(MessageType, MessageType)>)
      modifies this`chains, this`handlers
      ensures (chains, handlers) == ApplyForwarders(old(chains), old(handlers), relationships)
    {
      for i := 0 to |relationships|
        invariant (chains, handlers) == ApplyForwarders(old(chains), old(handlers), relationships[..i])
      {
        assert relationships[..i + 1][..i] == relationships[..i];
        var (source, destination) := relationships[i];
        if destination in chains {
          var forwarding := ForwardingHandler(source, destination, chains[destination]);
          chains := chains[source := chains[destination]];
          handlers := handlers[source := Some(forwarding)];
        }
      }
      assert relationships[..|relationships|] == relationships;
    }

    /** CanHandle: whether the type has a chain. */
    predicate CanHandle(t: MessageType)
      reads this
    {
      t in chains
    }

    /** TryFindMessageType: the type registered under that name, if any. */
    function TryFindMessageType(name: string): Option<MessageType>
      reads this
    {
      if name in messageTypes then Some(messageTypes[name]) else None
    }

    /** RegisterMessageType: the type becomes findable under its name; a
      type registered earlier under the same name is replaced, and every
      other name keeps its type. */
    method RegisterMessageType(t: MessageType)
      modifies this`messageTypes
      ensures TryFindMessageType(types.nameOf(t)) == Some(t)
      ensures forall name :: name != types.nameOf(t) ==> TryFindMessageType(name) == old(TryFindMessageType(name))
    {
      messageTypes := messageTypes[types.nameOf(t) := t];
    }
  }
}
