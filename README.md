# plainbus: registration and dispatch, modelled in Dafny

plainbus is an in-process publish/subscribe bus. A caller connects a
context to the bus (`BusImpl.connect`) and gets a `Connection`. Through the
connection it listens for event-type keys: either a class, or any opaque
token. Posting an event hands it to the listener registered for a key.
`post(type, event)` looks at one key. `post(event)` walks the event's
superclass chain up to, but not including, `Object`. When a key has
several listeners, the one table entry is a `CompoundListener` holding
them all. A `ConnectionHandler` observer is told about three things:
- when a key gains its first listener (`onStartListen`);
- when it loses its last one (`onEndListen`);
- whenever a listener rejects an event (`onEventRejected`).
Disconnecting a context revokes every pair its connection recorded.

The model has seven modules, one file each:

- `Types` (types.dfy): keys, listener ids, contexts, events, observer
  notifications and errors.
- `Classes` (classes.dfy): a finite class hierarchy rooted at `OBJECT`,
  with interface descriptors. It replaces `getClass`, `getSuperclass` and
  `isInterface`. `Chain(c)` is the walk that `post(event)` performs.
- `Observer` (observer.dfy): the `ConnectionHandler` as a class that
  appends each call it receives to `calls`, plus counting functions.
- `Dispatch` (dispatch.dfy): the listener table as a value (`Table`, a map
  from key to `One(listener)` or `Many(members)`). It defines
  `addListener`, `removeListener`, `close` and one delivery as functions
  that return the new table and the observer calls made. It also holds the
  lemmas about them: registrations gained and lost, per-key state
  transitions, balanced starts and ends, rejection reports, and the
  hierarchy walk.
- `Compound` (compound.dfy): `CompoundListener` as a class whose `listeners`
  set is updated in place, with `wrap`, `add`, `remove` and `onEvent`.
- `Registry` (registry.dfy): `BusImpl` and `Connection` as classes.
  - `table` is `eventTypeToListenerMap`, holding plain listeners or
    compound objects.
  - `connections` is the strong `connectionsMap`.
  - `Connection.listeners` is the recorded list of `ListenerWithType`
    pairs.
  - Each method is proved against the `Dispatch` functions, through the
    ghost `view` of the table.
  - `Valid()` ties the table to its value and keeps starts and ends
    balanced per key.
  - `Coherent()` ties the table to the pairs that live connections recorded,
    via a ghost `owner` map.
- `Scenarios` (scenarios.dfy): two of the repository's test sequences,
  replayed against the contracts.

A listener is an id. What it does with an event is left out, except
whether it rejects the event, which is given as a predicate
`rejects(listener, event)`. A rejection (`Listener.Rejection`) becomes that
predicate's `true`.

## Model

| member | source | states |
|---|---|---|
| Classes.Hierarchy.Chain | src/main/java/plainbus/BusImpl.java:38-47 | the walk of post(event) is empty exactly for OBJECT and starts at the event's own class |
| Classes.ChainShape | src/main/java/plainbus/BusImpl.java:42-46 | each visited class is the superclass of the one before; OBJECT is never visited; the last visited class has OBJECT as superclass; starting from a class, no interface is ever visited |
| Classes.AncestorInChain | src/main/java/plainbus/BusImpl.java:42-46 | a class other than OBJECT that some number of getSuperclass steps reach from the event's class is visited by the walk |
| Classes.ChainIsAncestry | src/main/java/plainbus/BusImpl.java:38-47 | a class is visited exactly when it is not OBJECT and is the event's class or one of its superclasses; no other key is consulted |
| Observer.ConnectionHandler.OnStartListen | lib/src/main/java/plainbus/ConnectionHandler.java:5 | the observer's record gains exactly StartListen(key) |
| Observer.ConnectionHandler.OnEndListen | lib/src/main/java/plainbus/ConnectionHandler.java:7 | the observer's record gains exactly EndListen(key) |
| Observer.ConnectionHandler.OnEventRejected | lib/src/main/java/plainbus/ConnectionHandler.java:9 | the observer's record gains exactly Rejected(key, event, listener) |
| Dispatch.KeyPresentIffRegistered | src/main/java/plainbus/BusImpl.java:63-80 | in a table with no empty entry, a key is present iff some registration exists for it |
| Dispatch.NoPairsNoKeys | src/main/java/plainbus/BusImpl.java:86-88 | in such a table, the table is empty iff it holds no registration |
| Dispatch.Add | src/main/java/plainbus/BusImpl.java:63-71 | addListener makes the key present and keeps other keys; it announces onStartListen(key) iff the key was absent and otherwise announces nothing |
| Dispatch.AddRegistered | src/main/java/plainbus/BusImpl.java:63-71 | after addListener, a listener is registered for a key iff it was before or it is the pair just added |
| Dispatch.AddPairs | src/main/java/plainbus/BusImpl.java:63-71 | addListener adds exactly the new pair to the registrations and creates no empty entry |
| Dispatch.AddTransition | src/main/java/plainbus/BusImpl.java:63-71 | addListener moves the key Absent to Single, Single to Compound(2), and Compound(n) to Compound(n+1); other keys keep their state |
| Dispatch.AddBalanced | src/main/java/plainbus/BusImpl.java:63-71 | addListener keeps every key's start count equal to its end count plus one while present |
| Dispatch.Remove | src/main/java/plainbus/BusImpl.java:73-80 | removeListener only ever drops the given key; onEndListen(key) is announced iff the key leaves the table, and otherwise nothing is announced |
| Dispatch.RemoveRegistered | src/main/java/plainbus/BusImpl.java:73-80 | after removeListener, a listener is registered for a key iff it was before and it is not the pair removed; the other members of a compound stay |
| Dispatch.RemovePairs | src/main/java/plainbus/BusImpl.java:73-80 | removeListener removes exactly the given pair from the registrations and creates no empty entry |
| Dispatch.RemoveTransition | src/main/java/plainbus/BusImpl.java:73-80 | removing a registered listener moves the key Single to Absent, Compound(1) to Absent, and Compound(n) to Compound(n-1) for n >= 2; other keys keep their state; a registered pair is always removable |
| Dispatch.RemoveBalanced | src/main/java/plainbus/BusImpl.java:73-80 | removeListener keeps the start/end balance |
| Dispatch.RemoveAll | lib/src/main/java/plainbus/Connection.java:35-39 | removing a connection's distinct, registered pairs in order removes exactly those pairs from the registrations and leaves no empty entry |
| Dispatch.RemoveAllFirst | lib/src/main/java/plainbus/Connection.java:36-38 | one round of close(): the first recorded pair can be removed, and the rest of the teardown is the same teardown on the table that removal leaves |
| Dispatch.RemoveAllBalanced | lib/src/main/java/plainbus/Connection.java:35-39 | close() keeps the start/end balance |
| Dispatch.Rejections | lib/src/main/java/plainbus/Connection.java:78-87 | a delivery round reports no more rejections than it invoked listeners |
| Dispatch.RejectionsShape | lib/src/main/java/plainbus/Connection.java:78-87 | each report of a round is a Rejected for the round's key and event, naming an invoked listener that rejects |
| Dispatch.RejectionsNone | lib/src/main/java/plainbus/Connection.java:78-87 | a delivery round reports nothing iff no invoked listener rejects |
| Dispatch.RejectionsExactlyOnce | lib/src/main/java/plainbus/Connection.java:78-87 | with each member invoked once, each rejecting member is reported exactly once, and no other listener is reported |
| Dispatch.RejectionsBalanced | src/main/java/plainbus/BusImpl.java:49-61 | rejection reports never disturb the start/end balance |
| Dispatch.AnyDeliversIff | src/main/java/plainbus/BusImpl.java:41-46 | post(event) delivers iff some class of the walk delivers |
| Dispatch.WalkInvokesOnlyChainListeners | src/main/java/plainbus/BusImpl.java:38-47 | every listener a post(event) invokes is registered for a class on the event's superclass chain |
| Dispatch.ChainListenersInvoked | src/main/java/plainbus/BusImpl.java:42-46 | conversely, every listener registered for a class on the walk is invoked by post(event) |
| Dispatch.AncestorInvoked | src/main/java/plainbus/BusImpl.java:38-47 | a listener registered for the event's class or any superclass other than OBJECT receives the event: it is among the listeners post(event) invokes |
| Dispatch.UnheardWalk | src/main/java/plainbus/BusImpl.java:38-61 | when no class on the walk has an entry, every post(type, event) of the walk finds no listener: post(event) returns false, invokes no listener and reports nothing |
| Compound.CompoundListener.constructor | lib/src/main/java/plainbus/Connection.java:73-76 | a new compound serves the given key, reports to the given handler and has no member |
| Compound.CompoundListener.Wrap | lib/src/main/java/plainbus/Connection.java:57-67 | for a compound `current`, wrap adds `second` to that same compound and fails iff `second` was already a member. Otherwise it returns a fresh compound for the key and handler whose members are exactly {current, second}, and fails iff they are the same listener. The only error is DuplicateListener |
| Compound.CompoundListener.Add | lib/src/main/java/plainbus/Connection.java:89-91 | the member set gains the listener; the result is DuplicateListener iff the listener was already a member |
| Compound.CompoundListener.Remove | lib/src/main/java/plainbus/Connection.java:93-96 | exactly the listener leaves the member set; the result is true iff a member is left |
| Compound.CompoundListener.OnEvent | lib/src/main/java/plainbus/Connection.java:78-87 | every member is invoked exactly once, in some order; the handler gains one report per rejecting member, in invocation order; a rejection stops nothing |
| Registry.BusImpl.constructor | src/main/java/plainbus/BusImpl.java:13-19 | a new bus has no connection and no entry, reports to the given handler, and satisfies both invariants |
| Registry.BusImpl.Forget | src/main/java/plainbus/BusImpl.java:32 | removing a context together with its connection's pairs keeps the ownership invariant; all those pairs were owned |
| Registry.BusImpl.Connect | src/main/java/plainbus/BusImpl.java:21-28 | if the context is connected, its connection is returned and the map is unchanged, so connecting twice gives the same connection. Otherwise exactly one fresh, empty connection of this bus is added for the context |
| Registry.BusImpl.Disconnect | src/main/java/plainbus/BusImpl.java:30-36 | an unconnected context is the NotConnected error and changes nothing, so a second disconnect fails. Otherwise the context is removed, and the table and observer record are those of removing its recorded pairs in order. Exactly those pairs leave the registrations, and both invariants are kept |
| Registry.BusImpl.Post | src/main/java/plainbus/BusImpl.java:49-61 | the result is Delivers: false with no entry, true for a compound, and for a plain listener true unless it rejects. The listeners invoked are the entry's members, each once. The observer gains exactly the round's rejection reports |
| Registry.BusImpl.PostEvent | src/main/java/plainbus/BusImpl.java:38-47 | class OBJECT is UnsupportedType and does nothing. Otherwise post(type, event) runs once per class of Chain(event class), in order; the result is the OR of their results; the invoked listeners and reports are theirs, concatenated |
| Registry.BusImpl.AddListener | src/main/java/plainbus/BusImpl.java:63-71 | the table's value and the observer record become those of Dispatch.Add; any compound it installs is a new object; the table invariant holds |
| Registry.BusImpl.PutWrapped | src/main/java/plainbus/BusImpl.java:64-67 | when the key is present, its entry's value becomes the old members plus the new listener, backed by the wrapped compound, which is the existing compound or a new object |
| Registry.BusImpl.RemoveListener | src/main/java/plainbus/BusImpl.java:73-80 | the table's value and the observer record become those of Dispatch.Remove, and the table invariant holds |
| Registry.BusImpl.ConnectionsCount | src/main/java/plainbus/BusImpl.java:82-84 | the number of live contexts |
| Registry.BusImpl.EventListenersCount | src/main/java/plainbus/BusImpl.java:86-88 | the number of keys in the table, which is zero iff no live connection has recorded a pair |
| Registry.Connection.constructor | lib/src/main/java/plainbus/Connection.java:13-15 | a new connection belongs to the given bus and has recorded nothing |
| Registry.Connection.Record | lib/src/main/java/plainbus/Connection.java:18 | the recorded list gains exactly the new pair at its end, and the pair becomes owned by this connection's context |
| Registry.Connection.Listen | lib/src/main/java/plainbus/Connection.java:17-21 | returns this connection; appends exactly (key, listener) to the recorded list; the bus's table and observer record become those of Dispatch.Add; any compound installed is a new object; both invariants are kept |
| Registry.Connection.ListenClass | lib/src/main/java/plainbus/Connection.java:23-33 | an interface is UnsupportedInterface and OBJECT is UnsupportedType; either leaves the list, the table and the observer untouched. Any other class succeeds, returning this connection and behaving as Listen for the class key |
| Registry.Connection.Close | lib/src/main/java/plainbus/Connection.java:35-39 | removeListener once per recorded pair, in recorded order: the table and observer record become those of Dispatch.RemoveAll over the list |
| Registry.KeyPresentIffLiveRegistration | src/main/java/plainbus/BusImpl.java:63-88 | a key is in the table iff some live connection recorded a pair for it |
| Registry.QuietWhenAllDisconnected | lib/src/test/java/plainbus/test/ListenerTest.java:144-168 | once no context is connected, the table is empty and every key has had as many onEndListen calls as onStartListen calls |
| Scenarios.MultiplyDisconnection | lib/src/test/java/plainbus/test/ListenerTest.java:105-114 | on a fresh bus, connect then disconnect succeeds, and a second disconnect is the NotConnected error |
| Scenarios.ListenOnce | lib/src/test/java/plainbus/test/ListenerTest.java:47-49 | on a fresh bus, connect then listen leaves one plain entry, one recorded pair and exactly one onStartListen |
| Scenarios.PostUnheard | lib/src/test/java/plainbus/test/ListenerTest.java:50-51 | with only a token key registered, post of a String and post of an Integer (walking Integer then Number) both return false, leave the table as it was and notify the observer of nothing |
| Scenarios.OneListenSimple | lib/src/test/java/plainbus/test/ListenerTest.java:45-57 | with one listener for a token key that never rejects: post of a String and of an Integer return false; posting to the token delivers; after disconnect, posting to it delivers nothing; the observer hears exactly onStartListen then onEndListen for the token |

## Left out

- Concurrency: `synchronized` on connect, disconnect, addListener and removeListener, and the unsynchronized post, are not modelled. Calls are sequential, and a listener never calls back into the bus.
- Weak connections are not modelled: the `WeakHashMap`, `Connection.WeakConnection` and the builder's `withWeakConnections` (src/main/java/plainbus/Bus.java:27-38). They depend on the garbage collector, and `WeakConnection` is not part of the shown `Connection.java`. The bus is the three-argument `BusImpl` with a strong map, and its factory is always `new Connection(bus)`.
- `Bus.Builder` is configuration glue and is not modelled. The two-argument constructor call in lib/src/main/java/plainbus/Bus.java:27 matches no constructor of the shown `BusImpl` and is not modelled either.
- Reflection (`getClass`, `getSuperclass`, `isInterface`) is replaced by `Classes.Hierarchy`. The runtime class of an event is never an interface, which is a precondition of PostEvent.
- What a listener does with an event is not modelled. Only whether it rejects is modelled, as the parameter `rejects`. A ClassCastException from erased generics does not exist in the model.
- Registry.BusImpl.AddListener requires that the pair is not registered already; the source's behaviour on a duplicate is not modelled. When the entry is that same plain listener, the first `put` writes it back, `wrap` throws "try to compound same listeners", and the table is unchanged. The connection has already recorded the pair a second time, though. At disconnect, the second removal of that pair finds no entry and `close` throws a NullPointerException, which `disconnect` reports as "not connected". When the entry is a compound, the first `put` replaces it with the plain listener before `wrap` throws, so the other members are lost from the table. The model proves the error itself in Compound.CompoundListener.Add and Wrap, but not these partial updates. The intermediate `put` of addListener is therefore omitted: the entry is written once.
- Registry.Connection.Listen and Registry.Connection.ListenClass require a live connection that recorded no such pair. Listening on a connection after its context was disconnected would register a pair that no close ever removes. That path is not modelled.
- Registry.BusImpl.RemoveListener requires the key to be present, and a plain entry to be the listener being removed. Otherwise the source throws NullPointerException or ClassCastException. Under the invariants every pair that close removes meets this precondition. So the source's disconnect never turns an exception from close into "not connected".
- Observer.ConnectionHandler.OnEventRejected: the third argument is the listener's id, not `listener.getClass()`. A class cannot be told apart from its instances here, so the report is stated per listener.
- Compound.CompoundListener.OnEvent: the member set's iteration order is a nondeterministic choice. The contract holds for every order: each member is invoked once, and reports follow invocation order.
- A compound that shrinks to one member stays a compound and never goes back to a plain entry. This is what the code does, and RemoveTransition states it.
- Only two test sequences are replayed as scenarios (Scenarios.MultiplyDisconnection and Scenarios.OneListenSimple). The other tests are not replayed. For the complex test, QuietWhenAllDisconnected gives equal start and end counts per key, not the total of four.
