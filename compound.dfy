/** Connection.CompoundListener: the dispatch target that lets several
    listeners share one key, and the values the listener table stores. */
module Compound {
  import opened Types
  import opened Observer
  import opened Dispatch

  /** What the table maps a key to (a Listener in the source): a plain
      listener or a compound. */
  datatype Target = Plain(listener: ListenerId) | Composite(compound: CompoundListener)

  /** Loop state of an iteration over `all`: `visited` so far, each once,
      and `rest` still to come. */
  ghost predicate Enumerating<T>(all: set<T>, visited: seq<T>, rest: set<T>) {
    Distinct(visited) && Elems(visited) <= all && rest == all - Elems(visited)
  }

  lemma EnumerateStep<T>(all: set<T>, visited: seq<T>, rest: set<T>, x: T)
    requires Enumerating(all, visited, rest) && x in rest
    ensures Enumerating(all, visited + [x], rest - {x})
  {
    AppendFresh(visited, x);
  }

  lemma EnumerateDone<T>(all: set<T>, visited: seq<T>)
    requires Enumerating(all, visited, {})
    ensures Distinct(visited) && Elems(visited) == all
  {
    forall x | x in all ensures x in Elems(visited) {
      assert x !in all - Elems(visited);
    }
  }

  class CompoundListener {
    var listeners: set<ListenerId>
    const key: Key
    const handler: ConnectionHandler

    constructor (key: Key, handler: ConnectionHandler)
      ensures this.key == key && this.handler == handler && listeners == {}
    {
      this.key := key;
      this.handler := handler;
      listeners := {};
    }

    /** Extends `current` when it is already a compound; otherwise builds a
        fresh compound of {current, second}. Adding a member twice is the
        DuplicateListener error. */
    static method Wrap(key: Key, current: Target, second: ListenerId, handler: ConnectionHandler)
      returns (r: Result<CompoundListener>)
      modifies if current.Composite? then {current.compound} else {}
      ensures r.Err? ==> r.error == DuplicateListener
      ensures current.Composite? ==>
        && (r.Ok? <==> second !in old(current.compound.listeners))
        && current.compound.listeners == old(current.compound.listeners) + {second}
        && (r.Ok? ==> r.value == current.compound)
      ensures current.Plain? ==>
        && (r.Ok? <==> second != current.listener)
        && (r.Ok? ==> fresh(r.value) && r.value.key == key && r.value.handler == handler
                      && r.value.listeners == {current.listener, second})
    {
      var compound: CompoundListener;
      if current.Composite? {
        compound := current.compound;
      } else {
        compound := new CompoundListener(key, handler);
        var first := compound.Add(current.listener);
        assert first == Pass;
      }
      var added := compound.Add(second);
      if added.Fail? {
        return Err(added.error);
      }
      r := Ok(compound);
    }

    method Add(listener: ListenerId) returns (o: Outcome)
      modifies this`listeners
      ensures listeners == old(listeners) + {listener}
      ensures o == if listener in old(listeners) then Fail(DuplicateListener) else Pass
    {
      var isNew := listener !in listeners;
      listeners := listeners + {listener};
      o := if isNew then Pass else Fail(DuplicateListener);
    }

    /** Drops `listener`; the result says whether any member is left. */
    method Remove(listener: ListenerId) returns (nonEmpty: bool)
      modifies this`listeners
      ensures listeners == old(listeners) - {listener}
      ensures nonEmpty <==> listeners != {}
    {
      listeners := listeners - {listener};
      nonEmpty := listeners != {};
    }

    /** Delivers `event` to every member once, in the set's (unspecified)
        iteration order; each rejection is reported to the handler and does
        not stop the delivery. */
    method OnEvent(event: Event, rejects: (ListenerId, Event) -> bool) returns (invoked: seq<ListenerId>)
      modifies handler
      ensures Distinct(invoked) && Elems(invoked) == listeners
      ensures handler.calls == old(handler.calls) + Rejections(key, event, invoked, rejects)
    {
      invoked := [];
      var rest := listeners;
      ghost var all := listeners;
      ghost var reported: seq<Notification> := [];
      while rest != {}
        invariant listeners == all && Enumerating(all, invoked, rest)
        invariant reported == Rejections(key, event, invoked, rejects)
        invariant handler.calls == old(handler.calls) + reported
        decreases |rest|
      {
        var member :| member in rest;
        EnumerateStep(all, invoked, rest, member);
        RejectionsSnoc(key, event, invoked, member, rejects);
        ghost var added := if rejects(member, event) then [Rejected(key, event, member)] else [];
        if rejects(member, event) {
          handler.OnEventRejected(key, event, member);
        }
        AppendAssoc(old(handler.calls), reported, added);
        invoked, rest, reported := invoked + [member], rest - {member}, reported + added;
      }
      EnumerateDone(all, invoked);
    }
  }
}
