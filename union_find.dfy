/**
 * The union-find forest the percolation grid relies on. Only its contract is modelled:
 * after a sequence of unions, `connected` is the equivalence closure of the pairs united
 * so far, over a fixed universe [0, size). The weighting and path compression of the
 * library implementation are left out; a quick-find label sequence realises the contract.
 */
module UnionFind {

  /**
   * Whether `a` and `b` lie in one set after the unions `U` were applied, in order, to
   * the singleton partition.
   */
  ghost function Joined(U: seq<(int, int)>, a: int, b: int): bool
    decreases |U|
  {
    if |U| == 0 then a == b
    else
      var V := U[..|U| - 1];
      var e := U[|U| - 1];
      Joined(V, a, b) || (Joined(V, a, e.0) && Joined(V, e.1, b)) || (Joined(V, a, e.1) && Joined(V, e.0, b))
  }

  lemma {:induction false} JoinedReflexive(U: seq<(int, int)>, a: int)
    ensures Joined(U, a, a)
    decreases |U|
  {
    if |U| > 0 {
      JoinedReflexive(U[..|U| - 1], a);
    }
  }

  lemma {:induction false} JoinedSymmetric(U: seq<(int, int)>)
    ensures forall a, b :: Joined(U, a, b) == Joined(U, b, a)
    decreases |U|
  {
    if |U| > 0 {
      JoinedSymmetric(U[..|U| - 1]);
    }
  }

  lemma {:induction false} JoinedTransitive(U: seq<(int, int)>)
    ensures forall a, b, c :: Joined(U, a, b) && Joined(U, b, c) ==> Joined(U, a, c)
    decreases |U|
  {
    if |U| > 0 {
      var V := U[..|U| - 1];
      JoinedSymmetric(V);
      JoinedTransitive(V);
    }
  }

  /** Every united pair ends up in one set. */
  lemma {:induction false} JoinedContainsUnions(U: seq<(int, int)>, k: nat)
    requires k < |U|
    ensures Joined(U, U[k].0, U[k].1)
    decreases |U|
  {
    var V := U[..|U| - 1];
    if k == |U| - 1 {
      JoinedReflexive(V, U[k].0);
      JoinedReflexive(V, U[k].1);
    } else {
      assert V[k] == U[k];
      JoinedContainsUnions(V, k);
    }
  }

  /**
   * Minimality of the closure: a property on which both ends of every united pair agree
   * is the same on both sides of every joined pair.
   */
  lemma {:induction false} JoinedRespects(U: seq<(int, int)>, P: int -> bool)
    requires forall k :: 0 <= k < |U| ==> P(U[k].0) == P(U[k].1)
    ensures forall a, b :: Joined(U, a, b) ==> P(a) == P(b)
    decreases |U|
  {
    if |U| > 0 {
      var V := U[..|U| - 1];
      assert forall k :: 0 <= k < |V| ==> V[k] == U[k];
      JoinedRespects(V, P);
    }
  }

  /** Labelling `after` merges sets of `before` but never splits one. */
  ghost predicate Coarser(before: seq<int>, after: seq<int>) {
    |before| == |after| &&
    forall a, b :: 0 <= a < |before| && 0 <= b < |before| && before[a] == before[b] ==> after[a] == after[b]
  }

  /** A disjoint-set forest over the elements [0, size). */
  class Forest {
    const size: nat
    var id: seq<int>               // quick-find label of each element
    ghost var unions: seq<(int, int)>  // the union calls made so far, oldest first

    ghost predicate Valid()
      reads this
    {
      && |id| == size
      && (forall k :: 0 <= k < |unions| ==> 0 <= unions[k].0 < size && 0 <= unions[k].1 < size)
      && (forall a, b {:trigger Joined(unions, a, b)} :: 0 <= a < size && 0 <= b < size ==> (id[a] == id[b] <==> Joined(unions, a, b)))
    }

    constructor (n: nat)
      ensures Valid() && size == n && unions == []
    {
      size := n;
      id := seq(n, k => k);
      unions := [];
    }

    /** Whether p and q are in the same set. */
    function Connected(p: int, q: int): (r: bool)
      reads this
      requires Valid() && 0 <= p < size && 0 <= q < size
      ensures r <==> Joined(unions, p, q)
    {
      id[p] == id[q]
    }

    /** Merges the sets of p and q. */
    method Union(p: int, q: int)
      requires Valid() && 0 <= p < size && 0 <= q < size
      modifies this
      ensures Valid() && unions == old(unions) + [(p, q)]
      ensures Connected(p, q) && Coarser(old(id), id)
      ensures forall a, b :: 0 <= a < size && 0 <= b < size ==>
        (Connected(a, b) <==>
           old(Connected(a, b)) || (old(Connected(a, p)) && old(Connected(q, b))) || (old(Connected(a, q)) && old(Connected(p, b))))
    {
      var labels, from, to := id, id[p], id[q];
      id := seq(size, k requires 0 <= k < size && |labels| == size => if labels[k] == from then to else labels[k]);
      unions := unions + [(p, q)];
      assert unions[..|unions| - 1] == old(unions);
    }
  }
}
