/** The class hierarchy that post(event) walks: a finite superclass function
    rooted at OBJECT, standing in for getClass/getSuperclass/isInterface. */
module Classes {
  import opened Types

  /** `parent` maps a class to its direct superclass; a class that does not
      occur in it extends OBJECT directly. `depth` ranks the classes in
      `parent` so that every superclass step goes down (no cycles).
      `interfaces` are the interface descriptors: they have no superclass,
      are never a superclass, and no object has one as its runtime class. */
  datatype Hierarchy = Hierarchy(parent: map<ClassId, ClassId>, depth: map<ClassId, nat>, interfaces: set<ClassId>)
  {
    ghost predicate Valid() {
      && OBJECT !in parent
      && OBJECT !in interfaces
      && (forall c :: c in parent ==> c in depth && c !in interfaces && parent[c] !in interfaces)
      && (forall c :: c in parent && parent[c] != OBJECT ==> parent[c] in parent && depth[parent[c]] < depth[c])
    }

    /** getSuperclass() of a class. */
    function Super(c: ClassId): ClassId {
      if c in parent then parent[c] else OBJECT
    }

    /** Distance bound used for termination of the walk. */
    function Rank(c: ClassId): nat {
      if c == OBJECT then 0 else if c in depth then depth[c] + 1 else 1
    }

    /** The superclass chain of `c`, from `c` itself up to but excluding OBJECT:
        the classes post(event) visits, in visiting order. */
    function Chain(c: ClassId): (r: seq<ClassId>)
      requires Valid()
      ensures r == [] <==> c == OBJECT
      ensures r != [] ==> r[0] == c
      decreases Rank(c)
    {
      if c == OBJECT then [] else [c] + Chain(Super(c))
    }

    /** `c` after `n` superclass steps. */
    function SuperN(c: ClassId, n: nat): ClassId
      decreases n
    {
      if n == 0 then c else SuperN(Super(c), n - 1)
    }
  }

  /** One step of the walk: the chain of a class other than OBJECT is the
      class followed by its superclass's chain, and the step goes down. */
  lemma ChainStep(h: Hierarchy, c: ClassId)
    requires h.Valid() && c != OBJECT
    ensures h.Chain(c) == [c] + h.Chain(h.Super(c))
    ensures h.Rank(h.Super(c)) < h.Rank(c)
  {
  }

  /** The chain is the superclass walk itself: each element is the
      superclass of the one before, it ends at a class whose superclass is
      OBJECT, it never holds OBJECT, and from a class it never reaches an
      interface. */
  lemma {:induction false} ChainShape(h: Hierarchy, c: ClassId)
    requires h.Valid()
    ensures var r := h.Chain(c);
      && (r != [] ==> h.Super(r[|r| - 1]) == OBJECT)
      && (forall i :: 0 <= i < |r| ==> r[i] != OBJECT)
      && (forall i :: 0 <= i < |r| - 1 ==> r[i + 1] == h.Super(r[i]))
      && (c !in h.interfaces ==> forall i :: 0 <= i < |r| ==> r[i] !in h.interfaces)
    decreases h.Rank(c)
  {
    if c != OBJECT {
      var r := h.Chain(c);
      var tail := h.Chain(h.Super(c));
      ChainStep(h, c);
      ChainShape(h, h.Super(c));
      assert forall i :: 1 <= i < |r| ==> r[i] == tail[i - 1];
      if tail == [] {
        assert r == [c];
      }
    }
  }

  /** A class other than OBJECT that `n` superclass steps reach from `c` is
      visited by the walk from `c`. */
  lemma {:induction false} AncestorInChain(h: Hierarchy, c: ClassId, a: ClassId, n: nat)
    requires h.Valid() && a != OBJECT && h.SuperN(c, n) == a
    ensures a in h.Chain(c)
    decreases n
  {
    if n == 0 {
      assert h.Chain(c)[0] == a;
    } else {
      AncestorInChain(h, h.Super(c), a, n - 1);
      if c != OBJECT {
        ChainStep(h, c);
      }
    }
  }

  /** The chain holds exactly the proper ancestors-or-self of `c` other than
      OBJECT: a listener registered for `a` is consulted for every event whose
      class has `a` as a (reflexive) superclass, and for no other event. */
  lemma {:induction false} ChainIsAncestry(h: Hierarchy, c: ClassId, a: ClassId)
    requires h.Valid()
    ensures a in h.Chain(c) <==> a != OBJECT && exists n: nat :: h.SuperN(c, n) == a
    decreases h.Rank(c)
  {
    if a != OBJECT && exists n: nat :: h.SuperN(c, n) == a {
      var n: nat :| h.SuperN(c, n) == a;
      AncestorInChain(h, c, a, n);
    }
    if a in h.Chain(c) {
      ChainStep(h, c);
      if a == c {
        assert h.SuperN(c, 0) == a;
      } else {
        ChainIsAncestry(h, h.Super(c), a);
        var n: nat :| h.SuperN(h.Super(c), n) == a;
        assert h.SuperN(c, n + 1) == a;
      }
    }
  }
}
