/** Call sequences of the bus's own tests, replayed on a fresh bus: what the
    contracts of BusImpl and Connection let a caller conclude. */
module Scenarios {
  import opened Types
  import opened Classes
  import opened Observer
  import opened Dispatch
  import opened Registry

  /** connect, disconnect, disconnect: the first disconnect succeeds and the
      second is the NotConnected error. */
  method MultiplyDisconnection(handler: ConnectionHandler, context: Context) returns (first: Outcome, second: Outcome)
    modifies handler
    ensures first == Pass
    ensures second == Fail(NotConnected(context))
  {
    var bus := new BusImpl(handler);
    var connection := bus.Connect(context);
    first := bus.Disconnect(context);
    second := bus.Disconnect(context);
  }

  /** A fresh bus on `handler` where `context` has listened to `key` with
      `listener`: one plain entry, one recorded pair, one start. */
  method ListenOnce(handler: ConnectionHandler, context: Context, key: Key, listener: ListenerId) returns (bus: BusImpl)
    modifies handler
    ensures fresh(bus) && bus.handler == handler && fresh(bus.compounds)
    ensures bus.Valid() && bus.Coherent()
    ensures bus.view == map[key := One(listener)]
    ensures context in bus.connections && bus.connections[context].listeners == [ListenerWithType(key, listener)]
    ensures handler.calls == old(handler.calls) + [StartListen(key)]
  {
    bus := new BusImpl(handler);
    var connection := bus.Connect(context);
    var self := connection.Listen(key, listener);
  }

  /** Runtime classes of the test's events: String and Integer extend
      Object and Number directly, and Number extends Object. */
  const STRING: ClassId := 1
  const INTEGER: ClassId := 2
  const NUMBER: ClassId := 3

  /** The part of the JDK hierarchy that the test's events walk. */
  function TestHierarchy(): (h: Hierarchy)
    ensures h.Valid() && STRING !in h.interfaces && INTEGER !in h.interfaces
    ensures h.Chain(STRING) == [STRING] && h.Chain(INTEGER) == [INTEGER, NUMBER]
  {
    var h := Hierarchy(map[INTEGER := NUMBER, NUMBER := OBJECT], map[INTEGER := 1, NUMBER := 0], {});
    assert h.Chain(NUMBER) == [NUMBER] + h.Chain(OBJECT);
    h
  }

  /** One listener for a token key that never rejects. Posting a String and
      an Integer, whose classes nobody listens to, delivers nothing; posting
      to the token delivers; disconnecting ends the token; posting to it again
      delivers nothing. The observer hears exactly one start and one end. */
  method OneListenSimple(handler: ConnectionHandler, context: Context, token: nat, listener: ListenerId)
    returns (onString: Result<bool>, onInteger: Result<bool>, before: bool, after: bool)
    modifies handler
    ensures onString == Ok(false) && onInteger == Ok(false)
    ensures before && !after
    ensures handler.calls == old(handler.calls) + [StartListen(TokenKey(token)), EndListen(TokenKey(token))]
  {
    var key := TokenKey(token);
    var never := (l: ListenerId, e: Event) => false;
    var bus := ListenOnce(handler, context, key, listener);
    ghost var coherent, conns, c1 := bus.Coherent(), bus.connections, handler.calls;
    onString, onInteger := PostUnheard(bus, key, listener, never);
    assert bus.Coherent() == coherent && bus.connections == conns;
    var invoked;
    before, invoked := bus.Post(key, Event(STRING, 1), never);
    assert bus.Coherent() == coherent && bus.connections == conns;
    RejectionsNone(key, Event(STRING, 1), invoked, never);
    assert handler.calls == c1;
    TearDownOne(key, listener);
    var o := bus.Disconnect(context);
    assert bus.view == map[] && handler.calls == c1 + [EndListen(key)];
    ghost var c2 := handler.calls;
    after, invoked := bus.Post(key, Event(STRING, 2), never);
    assert invoked == [] && handler.calls == c2;
    SnocTwice(old(handler.calls), StartListen(key), EndListen(key));
  }

  /** post("test") and post(42) on a bus whose only entry is a token key:
      neither class of the walks has an entry, so both are false, and the
      observer and the bus are left as they were. */
  method PostUnheard(bus: BusImpl, key: Key, listener: ListenerId, rejects: (ListenerId, Event) -> bool)
    returns (onString: Result<bool>, onInteger: Result<bool>)
    requires bus.Valid() && key.TokenKey? && bus.view == map[key := One(listener)]
    modifies bus.handler
    ensures bus.Valid() && bus.view == old(bus.view)
    ensures onString == Ok(false) && onInteger == Ok(false)
    ensures bus.handler.calls == old(bus.handler.calls)
  {
    var h := TestHierarchy();
    var invoked; ghost var levels;
    onString, invoked, levels := bus.PostEvent(h, Event(STRING, 0), rejects);
    UnheardWalk(bus.view, h.Chain(STRING), levels, Event(STRING, 0), rejects);
    onInteger, invoked, levels := bus.PostEvent(h, Event(INTEGER, 42), rejects);
    UnheardWalk(bus.view, h.Chain(INTEGER), levels, Event(INTEGER, 42), rejects);
  }

  /** Closing a connection that recorded the only pair of a one-entry table
      empties the table and ends the key. */
  lemma TearDownOne(key: Key, listener: ListenerId)
    ensures RemoveAll(map[key := One(listener)], [ListenerWithType(key, listener)]) == Step(map[], [EndListen(key)])
  {
    assert [ListenerWithType(key, listener)][1..] == [];
  }
}
