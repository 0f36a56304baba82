/** BusImpl and Connection: the registry of contexts and listeners, and the
    per-context handle that records and revokes registrations. They refer to
    each other, so they share one module. */
module Registry {
  import opened Types
  import opened Classes
  import opened Observer
  import opened Dispatch
  import opened Compound

  /** One table entry `t` for key `k` has the value `s`; a compound serves
      `k`, reports to `handler` and has a member. */
  ghost predicate EntryValid(k: Key, t: Target, s: Slot, handler: ConnectionHandler)
    reads if t.Composite? then {t.compound} else {}
  {
    match t
    case Plain(l) => s == One(l)
    case Composite(c) => s == Many(c.listeners) && c.key == k && c.handler == handler && c.listeners != {}
  }

  class BusImpl {
    /** eventTypeToListenerMap */
    var table: map<Key, Target>
    /** connectionsMap (the strong variant) */
    var connections: map<Context, Connection>
    const handler: ConnectionHandler
    /** The table as a value: each compound replaced by its member set. */
    ghost var view: Table
    /** Every compound the table holds, and perhaps some it no longer does. */
    ghost var compounds: set<CompoundListener>
    /** The context whose connection recorded each registration. */
    ghost var owner: map<ListenerWithType, Context>
    /** Length of the handler's record when this bus was built: the bus's own
        notifications are the ones after it. */
    ghost const callsStart: nat

    constructor (handler: ConnectionHandler)
      ensures this.handler == handler && table == map[] && connections == map[] && view == map[] && compounds == {}
      ensures callsStart == |handler.calls|
      ensures Valid() && Coherent()
    {
      this.handler := handler;
      table := map[];
      connections := map[];
      view := map[];
      compounds := {};
      owner := map[];
      callsStart := |handler.calls|;
      new;
      assert Pairs(view) == {};
      assert handler.calls[callsStart..] == [];
    }

    /** `view` is the value of `table`, and every compound the table holds is
        in `compounds`. */
    ghost predicate TableValid()
      reads this`table, this`view, this`compounds, compounds
    {
      && table.Keys == view.Keys
      && forall k :: k in table ==>
           (table[k].Composite? ==> table[k].compound in compounds) && EntryValid(k, table[k], view[k], handler)
    }

    /** The table invariant: TableValid, and starts and ends balance per key
        in this bus's notifications. */
    ghost predicate Valid()
      reads this`table, this`view, this`compounds, compounds, handler
    {
      && TableValid()
      && callsStart <= |handler.calls|
      && Balanced(handler.calls[callsStart..], view)
    }

    /** Each connection of `conns` belongs to this bus and to one context,
        and records no pair twice; `own` maps each recorded pair to the one
        context whose connection recorded it. */
    ghost predicate OwnedBy(conns: map<Context, Connection>, own: map<ListenerWithType, Context>)
      reads conns.Values
    {
      && (forall ctx :: ctx in conns ==> conns[ctx].bus == this && Distinct(conns[ctx].listeners))
      && (forall c1, c2 :: c1 in conns && c2 in conns && c1 != c2 ==> conns[c1] != conns[c2])
      && (forall p :: p in own ==> own[p] in conns && p in conns[own[p]].listeners)
      && (forall ctx, i :: ctx in conns && 0 <= i < |conns[ctx].listeners| ==>
            conns[ctx].listeners[i] in own && own[conns[ctx].listeners[i]] == ctx)
    }

    /** The live connections and the owner map satisfy OwnedBy. */
    ghost predicate Owned()
      reads this`connections, this`owner, connections.Values
    {
      OwnedBy(connections, owner)
    }

    /** Dropping a context and the pairs its connection recorded keeps the
        ownership invariant; those pairs were all owned. */
    lemma Forget(conns: map<Context, Connection>, own: map<ListenerWithType, Context>, context: Context)
      requires OwnedBy(conns, own) && context in conns
      ensures Elems(conns[context].listeners) <= own.Keys
      ensures OwnedBy(conns - {context}, own - Elems(conns[context].listeners))
    {
      var ps := conns[context].listeners;
      forall p | p in Elems(ps) ensures p in own {
        var i :| 0 <= i < |ps| && ps[i] == p;
      }
    }

    /** The connection invariant: the table holds exactly the recorded
        pairs, so a key is present iff a live connection recorded a pair for
        it. It reads neither the table's objects nor the handler, so posting
        preserves it. */
    ghost predicate Coherent()
      reads this`view, this`connections, this`owner, connections.Values
    {
      Owned() && owner.Keys == Pairs(view)
    }

    lemma TableWellFormed()
      requires TableValid()
      ensures WellFormed(view)
    {
    }

    /** TableValid after the entry for `key` became `x` with value `s`, when
        every other entry of `t0`/`v0` is still valid. */
    lemma EntrySet(t0: map<Key, Target>, v0: Table, key: Key, x: Target, s: Slot)
      requires table == t0[key := x] && view == v0[key := s] && t0.Keys == v0.Keys
      requires forall k :: k in t0 && k != key ==>
        (t0[k].Composite? ==> t0[k].compound in compounds) && EntryValid(k, t0[k], v0[k], handler)
      requires (x.Composite? ==> x.compound in compounds) && EntryValid(key, x, s, handler)
      ensures TableValid()
    {
    }

    /** TableValid after the entry for `key` was dropped, when every other
        entry of `t0`/`v0` is still valid. */
    lemma EntryDropped(t0: map<Key, Target>, v0: Table, key: Key)
      requires table == t0 - {key} && view == v0 - {key} && t0.Keys == v0.Keys
      requires forall k :: k in t0 && k != key ==>
        (t0[k].Composite? ==> t0[k].compound in compounds) && EntryValid(k, t0[k], v0[k], handler)
      ensures TableValid()
    {
    }

    /** The invariant after `added` was appended to the record `before`,
        when the appended calls keep the balance for the current table. */
    lemma Rebalanced(before: seq<Notification>, added: seq<Notification>)
      requires TableValid() && callsStart <= |before| && handler.calls == before + added
      requires Balanced(before[callsStart..] + added, view)
      ensures Valid()
    {
      assert handler.calls[callsStart..] == before[callsStart..] + added;
    }

    /** Returns the context's live connection, creating an empty one only
        when the context has none. */
    method Connect(context: Context) returns (connection: Connection)
      requires Coherent()
      modifies this`connections
      ensures Coherent()
      ensures context in connections && connections[context] == connection
      ensures context in old(connections) ==> connection == old(connections[context]) && connections == old(connections)
      ensures context !in old(connections) ==>
        && fresh(connection) && connection.listeners == [] && connection.bus == this
        && connections == old(connections)[context := connection]
    {
      if context in connections {
        connection := connections[context];
      } else {
        connection := new Connection(this);
        connections := connections[context := connection];
      }
    }

    /** Removes the context's connection and revokes every pair it recorded;
        a context without a live connection is the NotConnected error. */
    method Disconnect(context: Context) returns (o: Outcome)
      requires Valid() && Coherent()
      modifies this`connections, this`owner, this`table, this`view, handler, compounds
      ensures Valid() && Coherent()
      ensures context !in old(connections) ==>
        && o == Fail(NotConnected(context))
        && connections == old(connections) && table == old(table) && view == old(view)
        && handler.calls == old(handler.calls)
      ensures context in old(connections) ==>
        && o == Pass
        && connections == old(connections) - {context}
        && Pairs(view) == old(Pairs(view)) - Elems(old(connections[context].listeners))
        && view == RemoveAll(old(view), old(connections[context].listeners)).table
        && handler.calls == old(handler.calls) + RemoveAll(old(view), old(connections[context].listeners)).calls
    {
      if context !in connections {
        return Fail(NotConnected(context));
      }
      var connection := connections[context];
      ghost var ps := connection.listeners;
      Forget(connections, owner, context);
      connections := connections - {context};
      owner := owner - Elems(ps);
      ghost var owned, v0 := Owned(), view;
      connection.Close();
      assert Owned() == owned && connection.listeners == ps;
      assert view == RemoveAll(v0, ps).table;
      o := Pass;
    }

    /** post(type, event): one table lookup. A plain listener delivers unless
        it rejects, and a rejection is reported; a compound always delivers;
        no entry delivers nothing and reports nothing. */
    method Post(key: Key, event: Event, rejects: (ListenerId, Event) -> bool) returns (delivered: bool, invoked: seq<ListenerId>)
      requires Valid()
      modifies handler
      ensures Valid()
      ensures delivered == Delivers(view, key, event, rejects)
      ensures IsInvocation(view, key, invoked)
      ensures handler.calls == old(handler.calls) + Rejections(key, event, invoked, rejects)
    {
      if key in table {
        match table[key]
        case Plain(listener) =>
          invoked := [listener];
          assert Elems(invoked) == {listener};
          if rejects(listener, event) {
            handler.OnEventRejected(key, event, listener);
            delivered := false;
          } else {
            delivered := true;
          }
          assert Rejections(key, event, invoked, rejects) == Rejections(key, event, [], rejects) + (if rejects(listener, event) then [Rejected(key, event, listener)] else []);
        case Composite(compound) =>
          invoked := compound.OnEvent(event, rejects);
          delivered := true;
      } else {
        delivered, invoked := false, [];
      }
      RejectionsBalanced(old(handler.calls)[callsStart..], view, key, event, invoked, rejects);
      Rebalanced(old(handler.calls), Rejections(key, event, invoked, rejects));
    }

    /** post(event): the runtime class OBJECT is an error; otherwise
        post(type, event) for each class from the event's own up to but
        excluding OBJECT, OR-ing the results. */
    method PostEvent(h: Hierarchy, event: Event, rejects: (ListenerId, Event) -> bool)
      returns (r: Result<bool>, invoked: seq<ListenerId>, ghost levels: seq<seq<ListenerId>>)
      requires Valid() && h.Valid() && event.cls !in h.interfaces
      modifies handler
      ensures Valid()
      ensures event.cls == OBJECT ==> r == Err(UnsupportedType) && invoked == [] && handler.calls == old(handler.calls)
      ensures event.cls != OBJECT ==>
        && r == Ok(AnyDelivers(view, h.Chain(event.cls), event, rejects))
        && IsWalk(view, h.Chain(event.cls), levels)
        && invoked == Flatten(levels)
        && handler.calls == old(handler.calls) + WalkRejections(h.Chain(event.cls), event, levels, rejects)
    {
      if event.cls == OBJECT {
        return Err(UnsupportedType), [], [];
      }
      ghost var chain := h.Chain(event.cls);
      var t := event.cls;
      var delivered := false;
      ghost var done: seq<ClassId> := [];
      ghost var reported: seq<Notification> := [];
      invoked, levels := [], [];
      while t != OBJECT
        invariant Valid()
        invariant chain == done + h.Chain(t)
        invariant IsWalk(view, done, levels)
        invariant invoked == Flatten(levels)
        invariant delivered == AnyDelivers(view, done, event, rejects)
        invariant reported == WalkRejections(done, event, levels, rejects)
        invariant handler.calls == old(handler.calls) + reported
        decreases h.Rank(t)
      {
        var d, level := Post(ClassKey(t), event, rejects);
        WalkStep(view, done, levels, t, level, event, rejects);
        AppendAssoc(old(handler.calls), reported, Rejections(ClassKey(t), event, level, rejects));
        ChainStep(h, t);
        AppendAssoc(done, [t], h.Chain(h.Super(t)));
        delivered := d || delivered;
        done, levels, invoked := done + [t], levels + [level], invoked + level;
        reported := reported + Rejections(ClassKey(t), event, level, rejects);
        t := h.Super(t);
      }
      assert done == chain;
      r := Ok(delivered);
    }

    /** addListener: a first listener for a key is installed plainly and
        announced with onStartListen; a further one turns the entry into a
        compound, or joins the existing compound, silently. */
    method AddListener(key: Key, listener: ListenerId)
      requires Valid()
      requires !Registered(view, key, listener)
      modifies this`table, this`view, this`compounds, handler, compounds
      ensures Valid()
      ensures fresh(compounds - old(compounds))
      ensures view == Add(old(view), key, listener).table
      ensures handler.calls == old(handler.calls) + Add(old(view), key, listener).calls
    {
      ghost var step := Add(view, key, listener);
      ghost var t0, v0 := table, view;
      if key in table {
        PutWrapped(key, listener);
      } else {
        table, view := table[key := Plain(listener)], step.table;
        handler.OnStartListen(key);
        EntrySet(t0, v0, key, Plain(listener), view[key]);
      }
      AddBalanced(old(handler.calls)[callsStart..], old(view), key, listener);
      Rebalanced(old(handler.calls), step.calls);
    }

    /** The present-key branch of addListener: the entry becomes the wrap of
        the current entry and the new listener. */
    method PutWrapped(key: Key, listener: ListenerId)
      requires TableValid() && key in table && listener !in Members(view[key])
      modifies this`table, this`view, this`compounds, compounds
      ensures TableValid()
      ensures fresh(compounds - old(compounds))
      ensures view == old(view)[key := Many(Members(old(view)[key]) + {listener})]
    {
      ghost var t0, v0 := table, view;
      var current := table[key];
      var wrapped := CompoundListener.Wrap(key, current, listener, handler);
      assert wrapped.Ok?;
      forall k | k in t0 && k != key
        ensures (t0[k].Composite? ==> t0[k].compound in compounds) && EntryValid(k, t0[k], v0[k], handler)
      {
        assert old(EntryValid(k, t0[k], v0[k], handler));
      }
      table, view, compounds := table[key := Composite(wrapped.value)], view[key := Many(Members(view[key]) + {listener})], compounds + {wrapped.value};
      EntrySet(t0, v0, key, Composite(wrapped.value), view[key]);
    }

    /** removeListener: drops the key's entry; a compound that still has a
        member goes back in silently, otherwise onEndListen is announced. */
    method RemoveListener(key: Key, listener: ListenerId)
      requires Valid()
      requires Removable(view, key, listener)
      modifies this`table, this`view, handler, compounds
      ensures Valid()
      ensures view == Remove(old(view), key, listener).table
      ensures handler.calls == old(handler.calls) + Remove(old(view), key, listener).calls
    {
      ghost var step := Remove(view, key, listener);
      ghost var t0, v0 := table, view;
      var typeListener := table[key];
      var keep := false;
      if typeListener != Plain(listener) {
        keep := typeListener.compound.Remove(listener);
      }
      forall k | k in t0 && k != key
        ensures (t0[k].Composite? ==> t0[k].compound in compounds) && EntryValid(k, t0[k], v0[k], handler)
      {
        assert old(EntryValid(k, t0[k], v0[k], handler));
      }
      if keep {
        view := step.table;
        EntrySet(t0, v0, key, typeListener, view[key]);
      } else {
        table, view := table - {key}, step.table;
        handler.OnEndListen(key);
        EntryDropped(t0, v0, key);
      }
      RemoveBalanced(old(handler.calls)[callsStart..], old(view), key, listener);
      Rebalanced(old(handler.calls), step.calls);
    }

    /** connectionsCount(): the number of live contexts. */
    method ConnectionsCount() returns (n: nat)
      ensures n == |connections|
    {
      n := |connections|;
    }

    /** eventListenersCount(): the number of keys in the table, zero exactly
        when no live connection has recorded a pair. */
    method EventListenersCount() returns (n: nat)
      requires TableValid() && Coherent()
      ensures n == |table|
      ensures n == 0 <==> forall ctx :: ctx in connections ==> connections[ctx].listeners == []
    {
      n := |table|;
      TableWellFormed();
      NoPairsNoKeys(view);
      if n != 0 {
        ghost var p :| p in Pairs(view);
        assert connections[owner[p]].listeners != [];
      } else {
        assert view.Keys == {};
        assert owner.Keys == {};
        forall ctx | ctx in connections ensures connections[ctx].listeners == [] {
          HeadIn(connections[ctx].listeners);
        }
      }
    }
  }

  class Connection {
    var listeners: seq<ListenerWithType>
    const bus: BusImpl

    constructor (bus: BusImpl)
      ensures this.bus == bus && listeners == []
    {
      this.bus := bus;
      listeners := [];
    }

    /** listen(Object type, listener): records the pair, registers it with
        the bus and returns this connection for chaining. */
    method Listen(key: Key, listener: ListenerId) returns (self: Connection)
      requires bus.Valid() && bus.Coherent() && this in bus.connections.Values
      requires !Registered(bus.view, key, listener)
      modifies this`listeners, bus`owner, bus`table, bus`view, bus`compounds, bus.handler, bus.compounds
      ensures self == this
      ensures listeners == old(listeners) + [ListenerWithType(key, listener)]
      ensures bus.Valid() && bus.Coherent()
      ensures fresh(bus.compounds - old(bus.compounds))
      ensures bus.view == Add(old(bus.view), key, listener).table
      ensures bus.handler.calls == old(bus.handler.calls) + Add(old(bus.view), key, listener).calls
    {
      PairsMember(bus.view, key, listener);
      Record(ListenerWithType(key, listener));
      ghost var v0, owned := bus.view, bus.Owned();
      bus.AddListener(key, listener);
      assert bus.Owned() == owned;
      AddPairs(v0, key, listener);
      self := this;
    }

    /** listeners.add: appends a pair the bus does not hold and makes this
        connection's context its owner. */
    method Record(p: ListenerWithType)
      requires bus.Coherent() && this in bus.connections.Values && p !in Pairs(bus.view)
      modifies this`listeners, bus`owner
      ensures listeners == old(listeners) + [p]
      ensures bus.Owned() && bus.owner.Keys == old(bus.owner.Keys) + {p}
    {
      ghost var ctx0 :| ctx0 in bus.connections && bus.connections[ctx0] == this;
      assert p !in listeners;
      AppendFresh(listeners, p);
      ghost var conns, o0, l0 := bus.connections, bus.owner, listeners;
      listeners := listeners + [p];
      bus.owner := bus.owner[p := ctx0];
      forall ctx | ctx in conns && ctx != ctx0 ensures conns[ctx].listeners == old(conns[ctx].listeners) {
        assert conns[ctx] != this;
      }
      forall q | q in bus.owner ensures bus.owner[q] in conns && q in conns[bus.owner[q]].listeners {
        if q != p {
          assert q in o0 && o0[q] in conns;
        }
      }
      forall ctx, i | ctx in conns && 0 <= i < |conns[ctx].listeners|
        ensures conns[ctx].listeners[i] in bus.owner && bus.owner[conns[ctx].listeners[i]] == ctx
      {
        if ctx == ctx0 && i == |l0| {
          assert conns[ctx].listeners[i] == p;
        } else {
          assert conns[ctx].listeners[i] == old(conns[ctx].listeners)[i];
        }
      }
    }

    /** listen(Class type, listener): interfaces and OBJECT are refused
        before anything is recorded or registered. */
    method ListenClass(h: Hierarchy, cls: ClassId, listener: ListenerId) returns (r: Result<Connection>)
      requires bus.Valid() && bus.Coherent() && this in bus.connections.Values
      requires cls !in h.interfaces && cls != OBJECT ==> !Registered(bus.view, ClassKey(cls), listener)
      modifies this`listeners, bus`owner, bus`table, bus`view, bus`compounds, bus.handler, bus.compounds
      ensures bus.Valid() && bus.Coherent()
      ensures fresh(bus.compounds - old(bus.compounds))
      ensures cls in h.interfaces ==> r == Err(UnsupportedInterface(cls))
      ensures cls !in h.interfaces && cls == OBJECT ==> r == Err(UnsupportedType)
      ensures cls !in h.interfaces && cls != OBJECT ==> r == Ok(this)
      ensures r.Err? ==>
        listeners == old(listeners) && bus.table == old(bus.table) && bus.view == old(bus.view)
        && bus.handler.calls == old(bus.handler.calls)
      ensures r.Ok? ==>
        && r.value == this
        && listeners == old(listeners) + [ListenerWithType(ClassKey(cls), listener)]
        && bus.view == Add(old(bus.view), ClassKey(cls), listener).table
        && bus.handler.calls == old(bus.handler.calls) + Add(old(bus.view), ClassKey(cls), listener).calls
    {
      if cls in h.interfaces {
        return Err(UnsupportedInterface(cls));
      }
      if cls == OBJECT {
        return Err(UnsupportedType);
      }
      var self := Listen(ClassKey(cls), listener);
      r := Ok(self);
    }

    /** close(): removeListener for every recorded pair, in recorded order. */
    method Close()
      requires bus.Valid()
      requires Distinct(listeners) && Elems(listeners) <= Pairs(bus.view)
      modifies bus`table, bus`view, bus.handler, bus.compounds
      ensures bus.Valid()
      ensures bus.view == RemoveAll(old(bus.view), listeners).table
      ensures bus.handler.calls == old(bus.handler.calls) + RemoveAll(old(bus.view), listeners).calls
    {
      ghost var final := RemoveAll(bus.view, listeners);
      ghost var reported: seq<Notification> := [];
      for i := 0 to |listeners|
        invariant bus.Valid()
        invariant Distinct(listeners[i..]) && Elems(listeners[i..]) <= Pairs(bus.view)
        invariant RemoveAll(bus.view, listeners[i..]).table == final.table
        invariant reported + RemoveAll(bus.view, listeners[i..]).calls == final.calls
        invariant bus.handler.calls == old(bus.handler.calls) + reported
      {
        var p := listeners[i];
        ghost var rest := listeners[i..];
        ghost var v := bus.view;
        assert rest[0] == p && rest[1..] == listeners[i + 1..];
        RemoveAllFirst(v, rest);
        bus.RemoveListener(p.key, p.listener);
        AppendAssoc(reported, Remove(v, p.key, p.listener).calls, RemoveAll(bus.view, rest[1..]).calls);
        AppendAssoc(old(bus.handler.calls), reported, Remove(v, p.key, p.listener).calls);
        reported := reported + Remove(v, p.key, p.listener).calls;
      }
      assert listeners[|listeners|..] == [];
    }
  }

  /** A key is in the table exactly when some live connection recorded a pair
      for it. */
  lemma KeyPresentIffLiveRegistration(b: BusImpl, k: Key)
    requires b.TableValid() && b.Coherent()
    ensures k in b.table <==>
      exists ctx, i :: ctx in b.connections && 0 <= i < |b.connections[ctx].listeners| && b.connections[ctx].listeners[i].key == k
  {
    b.TableWellFormed();
    KeyPresentIffRegistered(b.view, k);
    if k in b.table {
      var l :| ListenerWithType(k, l) in Pairs(b.view);
      var ctx := b.owner[ListenerWithType(k, l)];
      var i :| 0 <= i < |b.connections[ctx].listeners| && b.connections[ctx].listeners[i] == ListenerWithType(k, l);
    }
    if exists ctx, i :: ctx in b.connections && 0 <= i < |b.connections[ctx].listeners| && b.connections[ctx].listeners[i].key == k {
      var ctx, i :| ctx in b.connections && 0 <= i < |b.connections[ctx].listeners| && b.connections[ctx].listeners[i].key == k;
      var p := b.connections[ctx].listeners[i];
      assert ListenerWithType(k, p.listener) in Pairs(b.view);
    }
  }

  /** Once every context is disconnected the table is empty and every key
      has had as many onEndListen calls as onStartListen calls. */
  lemma QuietWhenAllDisconnected(b: BusImpl)
    requires b.Valid() && b.Coherent() && b.connections == map[]
    ensures b.table == map[]
    ensures forall k :: Starts(b.handler.calls[b.callsStart..], k) == Ends(b.handler.calls[b.callsStart..], k)
  {
    b.TableWellFormed();
    assert b.owner == map[];
    NoPairsNoKeys(b.view);
  }
}
