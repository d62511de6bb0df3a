/**
 * The collector: an event emitter with one listener list per event name and
 * typed `on*` / `emit*` pairs for the three relay events. Listeners are
 * values of `H`; emitting does not run them itself but yields the calls
 * `(listener, payload)` it makes, in order, for the caller to carry out.
 */
module EventBus {
  import opened Types

  /** One synchronous listener invocation made by an emit. */
  datatype Delivery<H> = Delivery(listener: H, payload: EventPayload)

  class Collector<H> {
    /** The emitter's listener table, keyed by event name. */
    var listeners: map<string, seq<H>>
    /** The listener ceiling set in the constructor (a soft limit: exceeding it only warns). */
    const maxListeners: nat

    constructor ()
      ensures listeners == map[] && maxListeners == 100
    {
      listeners := map[];
      maxListeners := 100;
    }

    /** The listeners registered for `event`, in registration order. */
    function Listeners(event: string): seq<H>
      reads this
    {
      if event in listeners then listeners[event] else []
    }

    /** `EventEmitter.on`: append one listener to the list of `event`. */
    method On(event: string, listener: H)
      modifies this
      ensures Listeners(event) == old(Listeners(event)) + [listener]
      ensures forall e :: e != event ==> Listeners(e) == old(Listeners(e))
    {
      listeners := listeners[event := Listeners(event) + [listener]];
    }

    method OnSocketMessage(listener: H)
      modifies this
      ensures Listeners(EventName(SocketMessageEvent)) == old(Listeners(EventName(SocketMessageEvent))) + [listener]
      ensures forall e :: e != EventName(SocketMessageEvent) ==> Listeners(e) == old(Listeners(e))
    {
      On(EventName(SocketMessageEvent), listener);
    }

    method OnBotMessage(listener: H)
      modifies this
      ensures Listeners(EventName(BotMessageEvent)) == old(Listeners(EventName(BotMessageEvent))) + [listener]
      ensures forall e :: e != EventName(BotMessageEvent) ==> Listeners(e) == old(Listeners(e))
    {
      On(EventName(BotMessageEvent), listener);
    }

    method OnDisconnection(listener: H)
      modifies this
      ensures Listeners(EventName(DisconnectEvent)) == old(Listeners(EventName(DisconnectEvent))) + [listener]
      ensures forall e :: e != EventName(DisconnectEvent) ==> Listeners(e) == old(Listeners(e))
    {
      On(EventName(DisconnectEvent), listener);
    }

    /** `EventEmitter.emit`: call every listener of `event` once, in registration order, with the payload as given. */
    method Emit(event: string, payload: EventPayload) returns (calls: seq<Delivery<H>>)
      ensures |calls| == |Listeners(event)|
      ensures forall i :: 0 <= i < |calls| ==> calls[i] == Delivery(Listeners(event)[i], payload)
    {
      var handlers := Listeners(event);
      calls := [];
      var i := 0;
      while i < |handlers|
        invariant 0 <= i <= |handlers|
        invariant |calls| == i
        invariant forall k :: 0 <= k < i ==> calls[k] == Delivery(handlers[k], payload)
      {
        calls := calls + [Delivery(handlers[i], payload)];
        i := i + 1;
      }
    }

    method EmitSocketMessage(payload: SocketMessagePayload) returns (calls: seq<Delivery<H>>)
      ensures |calls| == |Listeners(EventName(SocketMessageEvent))|
      ensures forall i :: 0 <= i < |calls| ==>
                calls[i] == Delivery(Listeners(EventName(SocketMessageEvent))[i], SocketMessage(payload))
    {
      calls := Emit(EventName(SocketMessageEvent), SocketMessage(payload));
    }

    method EmitBotMessage(payload: BotMessagePayload) returns (calls: seq<Delivery<H>>)
      ensures |calls| == |Listeners(EventName(BotMessageEvent))|
      ensures forall i :: 0 <= i < |calls| ==>
                calls[i] == Delivery(Listeners(EventName(BotMessageEvent))[i], BotMessage(payload))
    {
      calls := Emit(EventName(BotMessageEvent), BotMessage(payload));
    }

    /** `closeConnection`: the emit side of `onDisconnection`. */
    method CloseConnection(payload: DisconnectPayload) returns (calls: seq<Delivery<H>>)
      ensures |calls| == |Listeners(EventName(DisconnectEvent))|
      ensures forall i :: 0 <= i < |calls| ==>
                calls[i] == Delivery(Listeners(EventName(DisconnectEvent))[i], Disconnection(payload))
    {
      calls := Emit(EventName(DisconnectEvent), Disconnection(payload));
    }
  }
}
