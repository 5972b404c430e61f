/**
  Element-wise dictionary lookup over a scalar, a list, or an arbitrarily
  nested list of keys. The result has the same nesting as the input, and each
  key is replaced by its value, or by the value given for unknown keys when the
  key is missing.
 */
module NestedLookup {
  import opened DefaultDicts

  /** A scalar (`Leaf`) or a list of nested values (`Node`). */
  datatype Nested<T> = Leaf(value: T) | Node(children: seq<Nested<T>>)

  /** The scalars of `x`, left to right. */
  function Leaves<T>(x: Nested<T>): seq<T>
    decreases x
  {
    match x
    case Leaf(v) => [v]
    case Node(xs) => LeavesOf(xs)
  }

  function LeavesOf<T>(xs: seq<Nested<T>>): seq<T>
    decreases xs
  {
    if xs == [] then [] else Leaves(xs[0]) + LeavesOf(xs[1..])
  }

  /** `x` and `y` nest alike: scalars where the other has scalars, and lists of
      the same length, pairwise alike, where the other has lists. */
  predicate SameShape<A, B>(x: Nested<A>, y: Nested<B>)
    decreases x
  {
    match x
    case Leaf(_) => y.Leaf?
    case Node(xs) =>
      y.Node? && |xs| == |y.children| &&
      forall i :: 0 <= i < |xs| ==> SameShape(xs[i], y.children[i])
  }

  /** `vs` is `ks` with every key looked up in `m`, `unknown` standing for a
      missing key. */
  ghost predicate PointwiseLookup<K, V>(m: map<K, V>, unknown: V, ks: seq<K>, vs: seq<V>)
  {
    |ks| == |vs| && forall i :: 0 <= i < |ks| ==> vs[i] == GetOr(m, ks[i], unknown)
  }

  /** Looks every scalar of `x` up in `m`; a missing key yields `unknown`. */
  function Lookup<K, V>(m: map<K, V>, x: Nested<K>, unknown: V): (r: Nested<V>)
    ensures SameShape(x, r)
    ensures PointwiseLookup(m, unknown, Leaves(x), Leaves(r))
    decreases x
  {
    match x
    case Leaf(k) => Leaf(GetOr(m, k, unknown))
    case Node(xs) => Node(LookupAll(m, xs, unknown))
  }

  function LookupAll<K, V>(m: map<K, V>, xs: seq<Nested<K>>, unknown: V): (rs: seq<Nested<V>>)
    ensures |rs| == |xs|
    ensures forall i :: 0 <= i < |xs| ==> SameShape(xs[i], rs[i])
    ensures PointwiseLookup(m, unknown, LeavesOf(xs), LeavesOf(rs))
    decreases xs
  {
    if xs == [] then []
    else
      var r0, rest := Lookup(m, xs[0], unknown), LookupAll(m, xs[1..], unknown);
      var rs := [r0] + rest;
      assert rs[0] == r0 && rs[1..] == rest;
      rs
  }

  /** Looking up in `m` and then in `back` gives `x` again when `back` undoes
      `m` on every scalar of `x`. */
  lemma {:induction false} LookupRoundTrip<K, V>(m: map<K, V>, unknown: V, back: map<V, K>, backUnknown: K, x: Nested<K>)
    requires forall k :: k in Leaves(x) ==> GetOr(back, GetOr(m, k, unknown), backUnknown) == k
    ensures Lookup(back, Lookup(m, x, unknown), backUnknown) == x
    decreases x
  {
    match x
    case Leaf(k) =>
    case Node(xs) => LookupAllRoundTrip(m, unknown, back, backUnknown, xs);
  }

  lemma {:induction false} LookupAllRoundTrip<K, V>(m: map<K, V>, unknown: V, back: map<V, K>, backUnknown: K, xs: seq<Nested<K>>)
    requires forall k :: k in LeavesOf(xs) ==> GetOr(back, GetOr(m, k, unknown), backUnknown) == k
    ensures LookupAll(back, LookupAll(m, xs, unknown), backUnknown) == xs
    decreases xs
  {
    if xs != [] {
      LookupRoundTrip(m, unknown, back, backUnknown, xs[0]);
      LookupAllRoundTrip(m, unknown, back, backUnknown, xs[1..]);
      var ys := LookupAll(m, xs, unknown);
      assert ys[0] == Lookup(m, xs[0], unknown) && ys[1..] == LookupAll(m, xs[1..], unknown);
      assert xs == [xs[0]] + xs[1..];
    }
  }
}
