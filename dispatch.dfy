/** The listener table seen as a value: what BusImpl does to it on
    addListener, removeListener, Connection.close and post(type, event),
    and what the observer hears about it. The classes in Registry are proved
    against these functions. */
module Dispatch {
  import opened Types
  import opened Observer
  import opened Classes

  /** A recorded registration (Connection.ListenerWithType). */
  datatype ListenerWithType = ListenerWithType(key: Key, listener: ListenerId)

  /** The abstract value of one table entry: a plain listener, or the member
      set of a CompoundListener. */
  datatype Slot = One(listener: ListenerId) | Many(members: set<ListenerId>)

  type Table = map<Key, Slot>

  function Members(s: Slot): set<ListenerId> {
    match s
    case One(l) => {l}
    case Many(ms) => ms
  }

  /** Every entry has at least one listener. */
  ghost predicate WellFormed(v: Table) {
    forall k :: k in v ==> Members(v[k]) != {}
  }

  /** The registrations a table holds. */
  ghost function Pairs(v: Table): set<ListenerWithType> {
    set k, l | k in v && l in Members(v[k]) :: ListenerWithType(k, l)
  }

  /** The table holds the registration of `l` for `k`. */
  predicate Registered(v: Table, k: Key, l: ListenerId) {
    k in v && l in Members(v[k])
  }

  lemma PairsMember(v: Table, k: Key, l: ListenerId)
    ensures ListenerWithType(k, l) in Pairs(v) <==> Registered(v, k, l)
  {
    if ListenerWithType(k, l) in Pairs(v) {
      var k', l' :| k' in v && l' in Members(v[k']) && ListenerWithType(k', l') == ListenerWithType(k, l);
    }
  }

  /** A table with no registrations has no keys: a key is present exactly
      while some registration for it exists. */
  lemma KeyPresentIffRegistered(v: Table, k: Key)
    requires WellFormed(v)
    ensures k in v <==> exists l :: ListenerWithType(k, l) in Pairs(v)
  {
    if k in v {
      var l :| l in Members(v[k]);
      PairsMember(v, k, l);
    }
    if exists l :: ListenerWithType(k, l) in Pairs(v) {
      var l :| ListenerWithType(k, l) in Pairs(v);
      PairsMember(v, k, l);
    }
  }

  lemma NoPairsNoKeys(v: Table)
    requires WellFormed(v)
    ensures Pairs(v) == {} <==> v == map[]
  {
    if Pairs(v) == {} && v != map[] {
      var k :| k in v;
      KeyPresentIffRegistered(v, k);
    }
  }

  /** A table after one operation, and the observer calls that operation made. */
  datatype Step = Step(table: Table, calls: seq<Notification>)

  /** BusImpl.addListener: an absent key gets the plain listener and
      onStartListen; a present key gets a compound of old and new members and
      no notification. */
  function Add(v: Table, k: Key, l: ListenerId): (r: Step)
    requires !Registered(v, k, l)
    ensures r.table.Keys == v.Keys + {k}
    ensures k !in v ==> r.calls == [StartListen(k)]
    ensures k in v ==> r.calls == []
  {
    if k in v then Step(v[k := Many(Members(v[k]) + {l})], [])
    else Step(v[k := One(l)], [StartListen(k)])
  }

  /** addListener registers `x` for `k2` exactly when it was registered
      already or is the new pair. */
  lemma AddRegistered(v: Table, k: Key, l: ListenerId, k2: Key, x: ListenerId)
    requires !Registered(v, k, l)
    ensures Registered(Add(v, k, l).table, k2, x) <==> Registered(v, k2, x) || (k2 == k && x == l)
  {
    var t := Add(v, k, l).table;
    if k2 == k && k in v {
      assert Members(t[k]) == Members(v[k]) + {l};
    }
  }

  /** addListener registers exactly the new pair and keeps every entry
      non-empty. */
  lemma AddPairs(v: Table, k: Key, l: ListenerId)
    requires !Registered(v, k, l)
    ensures Pairs(Add(v, k, l).table) == Pairs(v) + {ListenerWithType(k, l)}
    ensures WellFormed(v) ==> WellFormed(Add(v, k, l).table)
  {
    var r := Add(v, k, l);
    forall p: ListenerWithType
      ensures p in Pairs(r.table) <==> p in Pairs(v) + {ListenerWithType(k, l)}
    {
      PairsMember(r.table, p.key, p.listener);
      PairsMember(v, p.key, p.listener);
      AddRegistered(v, k, l, p.key, p.listener);
    }
  }

  /** The precondition of BusImpl.removeListener: the key is present, and a
      plain entry is the listener being removed. */
  predicate Removable(v: Table, k: Key, l: ListenerId) {
    k in v && (v[k].One? ==> v[k].listener == l)
  }

  /** BusImpl.removeListener: a plain entry, or a compound left empty, leaves
      the table with onEndListen; a compound that keeps a member stays. */
  function Remove(v: Table, k: Key, l: ListenerId): (r: Step)
    requires Removable(v, k, l)
    ensures r.table.Keys <= v.Keys && v.Keys - r.table.Keys <= {k}
    ensures k !in r.table ==> r.calls == [EndListen(k)]
    ensures k in r.table ==> r.calls == []
  {
    match v[k]
    case One(_) => Step(v - {k}, [EndListen(k)])
    case Many(ms) =>
      if ms - {l} == {} then Step(v - {k}, [EndListen(k)])
      else Step(v[k := Many(ms - {l})], [])
  }

  /** removeListener keeps `x` registered for `k2` exactly when it was
      registered and is not the removed pair. */
  lemma RemoveRegistered(v: Table, k: Key, l: ListenerId, k2: Key, x: ListenerId)
    requires Removable(v, k, l)
    ensures Registered(Remove(v, k, l).table, k2, x) <==> Registered(v, k2, x) && !(k2 == k && x == l)
  {
    var t := Remove(v, k, l).table;
    if k2 == k {
      match v[k]
      case One(_) =>
        assert k !in t;
      case Many(ms) =>
        if ms - {l} == {} {
          assert k !in t && x !in ms - {l};
        } else {
          assert Members(t[k]) == ms - {l};
        }
    }
  }

  /** removeListener drops exactly the given pair and keeps every entry
      non-empty. */
  lemma RemovePairs(v: Table, k: Key, l: ListenerId)
    requires Removable(v, k, l)
    ensures Pairs(Remove(v, k, l).table) == Pairs(v) - {ListenerWithType(k, l)}
    ensures WellFormed(v) ==> WellFormed(Remove(v, k, l).table)
  {
    var r := Remove(v, k, l);
    forall p: ListenerWithType
      ensures p in Pairs(r.table) <==> p in Pairs(v) - {ListenerWithType(k, l)}
    {
      PairsMember(r.table, p.key, p.listener);
      PairsMember(v, p.key, p.listener);
      RemoveRegistered(v, k, l, p.key, p.listener);
    }
  }

  lemma DistinctTail<T>(ps: seq<T>)
    requires ps != [] && Distinct(ps)
    ensures Elems(ps) == {ps[0]} + Elems(ps[1..])
    ensures ps[0] !in ps[1..] && Distinct(ps[1..])
  {
    assert forall x :: x in ps <==> x == ps[0] || x in ps[1..];
    forall i | 0 <= i < |ps[1..]| ensures ps[1..][i] != ps[0] {
      assert ps[1..][i] == ps[i + 1];
    }
  }

  /** Connection.close: removeListener for every recorded pair, in order. */
  function RemoveAll(v: Table, ps: seq<ListenerWithType>): (r: Step)
    requires Distinct(ps) && Elems(ps) <= Pairs(v)
    ensures Pairs(r.table) == Pairs(v) - Elems(ps)
    ensures WellFormed(v) ==> WellFormed(r.table)
    decreases |ps|
  {
    if ps == [] then Step(v, [])
    else
      var p := ps[0];
      PairsMember(v, p.key, p.listener);
      var s := Remove(v, p.key, p.listener);
      RemovePairs(v, p.key, p.listener);
      DistinctTail(ps);
      var rest := RemoveAll(s.table, ps[1..]);
      Step(rest.table, s.calls + rest.calls)
  }

  /** One step of close(): the first recorded pair can be removed, and the
      rest of the teardown runs on the table that removal leaves. */
  lemma RemoveAllFirst(v: Table, ps: seq<ListenerWithType>)
    requires ps != [] && Distinct(ps) && Elems(ps) <= Pairs(v)
    ensures Removable(v, ps[0].key, ps[0].listener)
    ensures var s := Remove(v, ps[0].key, ps[0].listener);
      && Distinct(ps[1..]) && Elems(ps[1..]) <= Pairs(s.table)
      && RemoveAll(v, ps) == Step(RemoveAll(s.table, ps[1..]).table, s.calls + RemoveAll(s.table, ps[1..]).calls)
  {
    PairsMember(v, ps[0].key, ps[0].listener);
    RemovePairs(v, ps[0].key, ps[0].listener);
    DistinctTail(ps);
  }

  /** Start and end notifications balance: per key, one more start than end
      exactly while the key is present. */
  ghost predicate Balanced(calls: seq<Notification>, v: Table) {
    forall k {:trigger Starts(calls, k)} {:trigger Ends(calls, k)} :: Starts(calls, k) == Ends(calls, k) + (if k in v then 1 else 0)
  }

  lemma AddBalanced(calls: seq<Notification>, v: Table, k: Key, l: ListenerId)
    requires !Registered(v, k, l)
    requires Balanced(calls, v)
    ensures Balanced(calls + Add(v, k, l).calls, Add(v, k, l).table)
  {
    var r := Add(v, k, l);
    forall k' ensures Starts(calls + r.calls, k') == Ends(calls + r.calls, k') + (if k' in r.table then 1 else 0) {
      CountAppend(calls, r.calls, StartListen(k'));
      CountAppend(calls, r.calls, EndListen(k'));
      assert Starts(calls, k') == Ends(calls, k') + (if k' in v then 1 else 0);
    }
  }

  lemma RemoveBalanced(calls: seq<Notification>, v: Table, k: Key, l: ListenerId)
    requires Removable(v, k, l)
    requires Balanced(calls, v)
    ensures Balanced(calls + Remove(v, k, l).calls, Remove(v, k, l).table)
  {
    var r := Remove(v, k, l);
    forall k' ensures Starts(calls + r.calls, k') == Ends(calls + r.calls, k') + (if k' in r.table then 1 else 0) {
      CountAppend(calls, r.calls, StartListen(k'));
      CountAppend(calls, r.calls, EndListen(k'));
      assert Starts(calls, k') == Ends(calls, k') + (if k' in v then 1 else 0);
    }
  }

  /** Tearing a connection down keeps the notifications balanced. */
  lemma {:induction false} RemoveAllBalanced(calls: seq<Notification>, v: Table, ps: seq<ListenerWithType>)
    requires Distinct(ps) && Elems(ps) <= Pairs(v)
    requires Balanced(calls, v)
    ensures Balanced(calls + RemoveAll(v, ps).calls, RemoveAll(v, ps).table)
    decreases |ps|
  {
    if ps != [] {
      var p := ps[0];
      PairsMember(v, p.key, p.listener);
      RemovePairs(v, p.key, p.listener);
      var s := Remove(v, p.key, p.listener);
      RemoveBalanced(calls, v, p.key, p.listener);
      DistinctTail(ps);
      RemoveAllBalanced(calls + s.calls, s.table, ps[1..]);
      var rest := RemoveAll(s.table, ps[1..]);
      assert RemoveAll(v, ps) == Step(rest.table, s.calls + rest.calls);
      assert calls + (s.calls + rest.calls) == (calls + s.calls) + rest.calls;
    } else {
      assert calls + RemoveAll(v, ps).calls == calls;
    }
  }

  /** The observer calls of one delivery round: one onEventRejected per
      rejecting listener, in invocation order. */
  function Rejections(k: Key, ev: Event, invoked: seq<ListenerId>, rejects: (ListenerId, Event) -> bool): (r: seq<Notification>)
    ensures |r| <= |invoked|
    decreases |invoked|
  {
    if invoked == [] then []
    else
      var last := invoked[|invoked| - 1];
      Rejections(k, ev, invoked[..|invoked| - 1], rejects) + (if rejects(last, ev) then [Rejected(k, ev, last)] else [])
  }

  /** Only rejections are reported, each for this key and event, and each
      for an invoked listener that rejects. */
  lemma {:induction false} RejectionsShape(k: Key, ev: Event, invoked: seq<ListenerId>, rejects: (ListenerId, Event) -> bool)
    ensures forall n :: n in Rejections(k, ev, invoked, rejects) ==>
      n.Rejected? && n.key == k && n.event == ev && n.listener in invoked && rejects(n.listener, ev)
    decreases |invoked|
  {
    if invoked != [] {
      RejectionsShape(k, ev, invoked[..|invoked| - 1], rejects);
      assert forall x :: x in invoked[..|invoked| - 1] ==> x in invoked;
    }
  }

  /** A round reports nothing exactly when no invoked listener rejects. */
  lemma {:induction false} RejectionsNone(k: Key, ev: Event, invoked: seq<ListenerId>, rejects: (ListenerId, Event) -> bool)
    ensures Rejections(k, ev, invoked, rejects) == [] <==> forall i :: 0 <= i < |invoked| ==> !rejects(invoked[i], ev)
    decreases |invoked|
  {
    if invoked != [] {
      var n := |invoked| - 1;
      RejectionsNone(k, ev, invoked[..n], rejects);
      assert forall i :: 0 <= i < n ==> invoked[..n][i] == invoked[i];
    }
  }

  lemma RejectionsSnoc(k: Key, ev: Event, invoked: seq<ListenerId>, m: ListenerId, rejects: (ListenerId, Event) -> bool)
    ensures Rejections(k, ev, invoked + [m], rejects)
      == Rejections(k, ev, invoked, rejects) + (if rejects(m, ev) then [Rejected(k, ev, m)] else [])
  {
    assert (invoked + [m])[..|invoked|] == invoked;
  }

  /** Each invoked listener that rejects is reported exactly once, and no
      other listener is reported. */
  lemma {:induction false} RejectionsExactlyOnce(k: Key, ev: Event, invoked: seq<ListenerId>, rejects: (ListenerId, Event) -> bool, m: ListenerId)
    requires Distinct(invoked)
    ensures Count(Rejections(k, ev, invoked, rejects), Rejected(k, ev, m)) == if m in invoked && rejects(m, ev) then 1 else 0
    decreases |invoked|
  {
    if invoked != [] {
      var init := invoked[..|invoked| - 1];
      var last := invoked[|invoked| - 1];
      RejectionsExactlyOnce(k, ev, init, rejects, m);
      CountAppend(Rejections(k, ev, init, rejects), if rejects(last, ev) then [Rejected(k, ev, last)] else [], Rejected(k, ev, m));
      assert invoked == init + [last];
      assert last !in init by {
        forall i | 0 <= i < |init| ensures init[i] != last {
          assert init[i] == invoked[i];
        }
      }
    }
  }

  /** Rejection reports never disturb the start/end balance. */
  lemma RejectionsBalanced(calls: seq<Notification>, v: Table, k: Key, ev: Event, invoked: seq<ListenerId>, rejects: (ListenerId, Event) -> bool)
    requires Balanced(calls, v)
    ensures Balanced(calls + Rejections(k, ev, invoked, rejects), v)
  {
    var r := Rejections(k, ev, invoked, rejects);
    RejectionsShape(k, ev, invoked, rejects);
    forall k' ensures Starts(calls + r, k') == Ends(calls + r, k') + (if k' in v then 1 else 0) {
      CountAppend(calls, r, StartListen(k'));
      CountAppend(calls, r, EndListen(k'));
      CountAbsent(r, StartListen(k'));
      CountAbsent(r, EndListen(k'));
      assert Starts(calls, k') == Ends(calls, k') + (if k' in v then 1 else 0);
    }
  }

  /** post(type, event)'s result: a plain listener delivers unless it
      rejects; a compound always delivers; no entry never delivers. */
  predicate Delivers(v: Table, k: Key, ev: Event, rejects: (ListenerId, Event) -> bool) {
    k in v && (v[k].Many? || !rejects(v[k].listener, ev))
  }

  /** The listeners that one post(type, event) invokes: none for an absent
      key, the plain listener, or every compound member exactly once in some
      order. */
  ghost predicate IsInvocation(v: Table, k: Key, invoked: seq<ListenerId>) {
    if k !in v then invoked == [] else Distinct(invoked) && Elems(invoked) == Members(v[k])
  }

  /** The per-key state of the table: Absent, Single, Compound(n). */
  datatype KeyState = Absent | Single | Compound(size: nat)

  function StateOf(v: Table, k: Key): KeyState {
    if k !in v then Absent
    else match v[k]
      case One(_) => Single
      case Many(ms) => Compound(|ms|)
  }

  /** addListener moves its key Absent -> Single -> Compound(2) -> Compound(3) ...
      and leaves every other key alone. */
  lemma AddTransition(v: Table, k: Key, l: ListenerId, other: Key)
    requires !Registered(v, k, l)
    ensures StateOf(Add(v, k, l).table, k) == match StateOf(v, k)
      case Absent => Single
      case Single => Compound(2)
      case Compound(n) => Compound(n + 1)
    ensures other != k ==> StateOf(Add(v, k, l).table, other) == StateOf(v, other)
  {
    if k in v && v[k].Many? {
      assert l !in v[k].members;
      assert |v[k].members + {l}| == |v[k].members| + 1;
    }
  }

  /** removeListener of a member moves its key Single -> Absent,
      Compound(1) -> Absent and Compound(n) -> Compound(n - 1) for n >= 2: a
      compound never falls back to a plain entry. */
  lemma RemoveTransition(v: Table, k: Key, l: ListenerId, other: Key)
    requires Registered(v, k, l)
    ensures Removable(v, k, l)
    ensures StateOf(Remove(v, k, l).table, k) == match StateOf(v, k)
      case Absent => Absent
      case Single => Absent
      case Compound(n) => if n <= 1 then Absent else Compound(n - 1)
    ensures other != k ==> StateOf(Remove(v, k, l).table, other) == StateOf(v, other)
  {
    if v[k].Many? {
      var ms := v[k].members;
      assert |ms - {l}| == |ms| - 1;
      if |ms| <= 1 {
        assert ms - {l} == {};
      } else {
        assert ms - {l} != {};
      }
    }
  }

  /** The listeners one post(event) invokes, level by level, in walk order. */
  function Flatten(levels: seq<seq<ListenerId>>): (r: seq<ListenerId>)
    decreases |levels|
  {
    if levels == [] then [] else Flatten(levels[..|levels| - 1]) + levels[|levels| - 1]
  }

  /** The rejection reports of a walk: per level, for that level's key. */
  function WalkRejections(chain: seq<ClassId>, ev: Event, levels: seq<seq<ListenerId>>, rejects: (ListenerId, Event) -> bool): seq<Notification>
    requires |chain| == |levels|
    decreases |levels|
  {
    if levels == [] then []
    else
      var n := |levels| - 1;
      WalkRejections(chain[..n], ev, levels[..n], rejects) + Rejections(ClassKey(chain[n]), ev, levels[n], rejects)
  }

  /** One post(type, event) per class of `chain`, in order. */
  ghost predicate IsWalk(v: Table, chain: seq<ClassId>, levels: seq<seq<ListenerId>>) {
    |levels| == |chain| && forall i :: 0 <= i < |chain| ==> IsInvocation(v, ClassKey(chain[i]), levels[i])
  }

  /** The OR that post(event) accumulates over the walk. */
  function AnyDelivers(v: Table, chain: seq<ClassId>, ev: Event, rejects: (ListenerId, Event) -> bool): bool
    decreases |chain|
  {
    chain != [] && (Delivers(v, ClassKey(chain[|chain| - 1]), ev, rejects) || AnyDelivers(v, chain[..|chain| - 1], ev, rejects))
  }

  /** Extending a walk by one more post(type, event). */
  lemma WalkStep(v: Table, chain: seq<ClassId>, levels: seq<seq<ListenerId>>, c: ClassId, level: seq<ListenerId>,
                 ev: Event, rejects: (ListenerId, Event) -> bool)
    requires IsWalk(v, chain, levels) && IsInvocation(v, ClassKey(c), level)
    ensures IsWalk(v, chain + [c], levels + [level])
    ensures Flatten(levels + [level]) == Flatten(levels) + level
    ensures AnyDelivers(v, chain + [c], ev, rejects) == (Delivers(v, ClassKey(c), ev, rejects) || AnyDelivers(v, chain, ev, rejects))
    ensures WalkRejections(chain + [c], ev, levels + [level], rejects)
      == WalkRejections(chain, ev, levels, rejects) + Rejections(ClassKey(c), ev, level, rejects)
  {
    assert (chain + [c])[..|chain|] == chain && (levels + [level])[..|levels|] == levels;
  }

  /** post(event) delivers exactly when some class on the walk delivers. */
  lemma {:induction false} AnyDeliversIff(v: Table, chain: seq<ClassId>, ev: Event, rejects: (ListenerId, Event) -> bool)
    ensures AnyDelivers(v, chain, ev, rejects) <==> exists i :: 0 <= i < |chain| && Delivers(v, ClassKey(chain[i]), ev, rejects)
    decreases |chain|
  {
    if chain != [] {
      var n := |chain| - 1;
      AnyDeliversIff(v, chain[..n], ev, rejects);
      if exists i :: 0 <= i < |chain| && Delivers(v, ClassKey(chain[i]), ev, rejects) {
        var i :| 0 <= i < |chain| && Delivers(v, ClassKey(chain[i]), ev, rejects);
        if i < n {
          assert chain[..n][i] == chain[i];
        }
      }
      if AnyDelivers(v, chain[..n], ev, rejects) {
        var i :| 0 <= i < n && Delivers(v, ClassKey(chain[..n][i]), ev, rejects);
        assert chain[..n][i] == chain[i];
      }
    }
  }

  /** post(event) for an event none of whose classes has an entry invokes
      nothing, delivers nothing and reports nothing. */
  lemma {:induction false} UnheardWalk(v: Table, chain: seq<ClassId>, levels: seq<seq<ListenerId>>,
                                       ev: Event, rejects: (ListenerId, Event) -> bool)
    requires IsWalk(v, chain, levels)
    requires forall i :: 0 <= i < |chain| ==> ClassKey(chain[i]) !in v
    ensures !AnyDelivers(v, chain, ev, rejects)
    ensures Flatten(levels) == [] && WalkRejections(chain, ev, levels, rejects) == []
    decreases |chain|
  {
    if chain != [] {
      var n := |chain| - 1;
      assert forall i :: 0 <= i < n ==> chain[..n][i] == chain[i] && levels[..n][i] == levels[i];
      UnheardWalk(v, chain[..n], levels[..n], ev, rejects);
      assert levels[n] == [];
    }
  }

  /** A listener that one post(event) invokes is registered for a class of
      the walk: keys off the superclass chain are never consulted. */
  lemma {:induction false} WalkInvokesOnlyChainListeners(v: Table, chain: seq<ClassId>, levels: seq<seq<ListenerId>>, l: ListenerId)
    requires IsWalk(v, chain, levels)
    requires l in Flatten(levels)
    ensures exists i :: 0 <= i < |chain| && ClassKey(chain[i]) in v && l in Members(v[ClassKey(chain[i])])
    decreases |levels|
  {
    var n := |levels| - 1;
    if l in levels[n] {
      assert l in Elems(levels[n]);
      assert ClassKey(chain[n]) in v;
    } else {
      assert IsWalk(v, chain[..n], levels[..n]) by {
        forall i | 0 <= i < n ensures IsInvocation(v, ClassKey(chain[..n][i]), levels[..n][i]) {
          assert chain[..n][i] == chain[i] && levels[..n][i] == levels[i];
        }
      }
      WalkInvokesOnlyChainListeners(v, chain[..n], levels[..n], l);
      var i :| 0 <= i < n && ClassKey(chain[..n][i]) in v && l in Members(v[ClassKey(chain[..n][i])]);
      assert chain[..n][i] == chain[i];
    }
  }

  /** A listener of any level is among those the walk invokes. */
  lemma {:induction false} FlattenHas(levels: seq<seq<ListenerId>>, i: nat, l: ListenerId)
    requires i < |levels| && l in levels[i]
    ensures l in Flatten(levels)
    decreases |levels|
  {
    var n := |levels| - 1;
    if i < n {
      assert levels[..n][i] == levels[i];
      FlattenHas(levels[..n], i, l);
    }
  }

  /** The converse of WalkInvokesOnlyChainListeners: a listener registered
      for a class of the walk is invoked by it. */
  lemma ChainListenersInvoked(v: Table, chain: seq<ClassId>, levels: seq<seq<ListenerId>>, i: nat, l: ListenerId)
    requires IsWalk(v, chain, levels)
    requires i < |chain| && ClassKey(chain[i]) in v && l in Members(v[ClassKey(chain[i])])
    ensures l in Flatten(levels)
  {
    assert IsInvocation(v, ClassKey(chain[i]), levels[i]);
    assert l in Elems(levels[i]);
    FlattenHas(levels, i, l);
  }

  /** post(event) invokes every listener registered for the event's class or
      one of its superclasses other than OBJECT. */
  lemma AncestorInvoked(h: Hierarchy, v: Table, c: ClassId, levels: seq<seq<ListenerId>>, a: ClassId, n: nat, l: ListenerId)
    requires h.Valid() && IsWalk(v, h.Chain(c), levels)
    requires a != OBJECT && h.SuperN(c, n) == a && ClassKey(a) in v && l in Members(v[ClassKey(a)])
    ensures l in Flatten(levels)
  {
    AncestorInChain(h, c, a, n);
    var i :| 0 <= i < |h.Chain(c)| && h.Chain(c)[i] == a;
    ChainListenersInvoked(v, h.Chain(c), levels, i, l);
  }
}
