/** Values shared by every part of the bus: keys, listeners, contexts, events,
    the observer's notifications and the errors the bus raises. */
module Types {

  /** A class descriptor of the host's single-inheritance class hierarchy. */
  type ClassId = nat

  /** The root of the hierarchy (java.lang.Object). */
  const OBJECT: ClassId := 0

  /** An event-type key: either a class descriptor, which the hierarchy walk
      of post(event) produces, or an arbitrary opaque token such as "event1".
      Both kinds live in one table. */
  datatype Key = ClassKey(cls: ClassId) | TokenKey(token: nat)

  /** A listener, by identity. What a listener does with an event is outside
      the bus; only whether it rejects the event matters here. */
  type ListenerId = nat

  /** A context handle; the connections map compares contexts by equality. */
  type Context = nat

  /** An event value: its runtime class and an opaque payload. */
  datatype Event = Event(cls: ClassId, payload: int)

  /** One call the bus makes on its ConnectionHandler. */
  datatype Notification =
    | StartListen(key: Key)
    | EndListen(key: Key)
    | Rejected(key: Key, event: Event, listener: ListenerId)

  datatype Error =
    | UnsupportedType                    // IllegalArgumentException "unsupported type: java.lang.Object"
    | UnsupportedInterface(cls: ClassId) // IllegalArgumentException "unsupported type(interface): ..."
    | NotConnected(context: Context)     // IllegalStateException "<context> is not connected"
    | DuplicateListener                  // IllegalStateException "try to compound same listeners"

  datatype Result<T> = Ok(value: T) | Err(error: Error)

  datatype Outcome = Pass | Fail(error: Error)

  /** No element occurs twice. */
  ghost predicate Distinct<T>(s: seq<T>) {
    forall i, j :: 0 <= i < j < |s| ==> s[i] != s[j]
  }

  /** The elements of a sequence, as a set. */
  ghost function Elems<T>(s: seq<T>): set<T> {
    set x | x in s
  }

  lemma AppendAssoc<T>(a: seq<T>, b: seq<T>, c: seq<T>)
    ensures (a + b) + c == a + (b + c)
  {
  }

  lemma SnocTwice<T>(a: seq<T>, x: T, y: T)
    ensures (a + [x]) + [y] == a + [x, y]
  {
  }

  /** A non-empty sequence holds its first element. */
  lemma HeadIn<T>(s: seq<T>)
    ensures s == [] || s[0] in s
  {
  }

  lemma AppendFresh<T>(s: seq<T>, x: T)
    requires Distinct(s) && x !in s
    ensures Distinct(s + [x]) && Elems(s + [x]) == Elems(s) + {x}
  {
    assert forall y :: y in s + [x] <==> y in s || y == x;
  }
}
