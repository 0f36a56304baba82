/** The connection-lifecycle observer (ConnectionHandler). The model's
    handler records every call it receives, in order, as a recording test
    double would; the bus only ever appends to that record. */
module Observer {
  import opened Types

  class ConnectionHandler {
    var calls: seq<Notification>

    constructor ()
      ensures calls == []
    {
      calls := [];
    }

    method OnStartListen(key: Key)
      modifies this
      ensures calls == old(calls) + [StartListen(key)]
    {
      calls := calls + [StartListen(key)];
    }

    method OnEndListen(key: Key)
      modifies this
      ensures calls == old(calls) + [EndListen(key)]
    {
      calls := calls + [EndListen(key)];
    }

    method OnEventRejected(key: Key, event: Event, listener: ListenerId)
      modifies this
      ensures calls == old(calls) + [Rejected(key, event, listener)]
    {
      calls := calls + [Rejected(key, event, listener)];
    }
  }

  /** Number of times `n` occurs in a record. */
  function Count(calls: seq<Notification>, n: Notification): nat
    decreases |calls|
  {
    if calls == [] then 0
    else Count(calls[..|calls| - 1], n) + (if calls[|calls| - 1] == n then 1 else 0)
  }

  lemma {:induction false} CountAppend(a: seq<Notification>, b: seq<Notification>, n: Notification)
    ensures Count(a + b, n) == Count(a, n) + Count(b, n)
    decreases |b|
  {
    if b != [] {
      var init := b[..|b| - 1];
      CountAppend(a, init, n);
      assert (a + b)[..|a + b| - 1] == a + init;
    } else {
      assert a + b == a;
    }
  }

  lemma {:induction false} CountAbsent(calls: seq<Notification>, n: Notification)
    requires n !in calls
    ensures Count(calls, n) == 0
    decreases |calls|
  {
    if calls != [] {
      var init := calls[..|calls| - 1];
      assert forall x :: x in init ==> x in calls;
      CountAbsent(init, n);
    }
  }

  /** Number of onStartListen(key) calls in a record. */
  function Starts(calls: seq<Notification>, key: Key): nat {
    Count(calls, StartListen(key))
  }

  /** Number of onEndListen(key) calls in a record. */
  function Ends(calls: seq<Notification>, key: Key): nat {
    Count(calls, EndListen(key))
  }
}
