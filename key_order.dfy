/**
 * The key order of the store's maps. A JavaScript `Map` remembers the order
 * in which its keys were first set; `set` on a present key keeps its place,
 * `delete` drops it, and `Array.from(map.values())` lists the values in that
 * order. The store only ever adds a key larger than every key it holds, so
 * this order is ascending.
 */
module KeyOrder {

  /** Strictly ascending, hence free of duplicates. */
  predicate Ascending(s: seq<nat>)
  {
    forall i, j :: 0 <= i < j < |s| ==> s[i] < s[j]
  }

  /** `order` is the key order of `m`: each key of `m` once, ascending. */
  ghost predicate IsKeyOrder<V>(order: seq<nat>, m: map<nat, V>)
  {
    Ascending(order) && forall k :: k in order <==> k in m
  }

  /** The key order after `Map.delete(x)`: `x` is gone and the rest keep their order. */
  function Remove(s: seq<nat>, x: int): (r: seq<nat>)
    ensures forall y :: y in r <==> y in s && y != x
    ensures Ascending(s) ==> Ascending(r)
    ensures x !in s ==> r == s
  {
    if s == [] then []
    else if s[0] == x then Remove(s[1..], x)
    else
      var rest := Remove(s[1..], x);
      assert Ascending(s) ==> Ascending([s[0]] + rest) by {
        if Ascending(s) {
          assert Ascending(s[1..]);
          forall y | y in rest
            ensures s[0] < y
          {
            var k :| 0 <= k < |s[1..]| && s[1..][k] == y;
            assert s[k + 1] == y;
          }
          PrependSmaller(s[0], rest);
        }
      }
      [s[0]] + rest
  }

  /** Putting a key smaller than every listed key in front keeps the order ascending. */
  lemma PrependSmaller(x: nat, s: seq<nat>)
    requires Ascending(s)
    requires forall y :: y in s ==> x < y
    ensures Ascending([x] + s)
  {
    forall i, j | 0 <= i < j < |[x] + s|
      ensures ([x] + s)[i] < ([x] + s)[j]
    {
      assert ([x] + s)[j] == s[j - 1] && s[j - 1] in s;
    }
  }

  /** Setting a key larger than every present key appends it and keeps the order ascending. */
  lemma AppendLarger(s: seq<nat>, x: nat)
    requires Ascending(s)
    requires forall y :: y in s ==> y < x
    ensures Ascending(s + [x])
  {
    forall i, j | 0 <= i < j < |s + [x]|
      ensures (s + [x])[i] < (s + [x])[j]
    {
      if j == |s| {
        assert (s + [x])[i] == s[i] && s[i] in s;
      }
    }
  }

  /**
   * A listing that takes the map's value at each key of a key order holds
   * exactly the map's values.
   */
  lemma ListingHoldsValues<V>(order: seq<nat>, m: map<nat, V>, vs: seq<V>)
    requires IsKeyOrder(order, m)
    requires |vs| == |order|
    requires forall i :: 0 <= i < |order| ==> vs[i] == m[order[i]]
    ensures forall v :: v in vs <==> v in m.Values
  {
    forall v | v in m.Values
      ensures v in vs
    {
      var k :| k in m && m[k] == v;
      var i :| 0 <= i < |order| && order[i] == k;
      assert vs[i] == v;
    }
  }

  /** A key order lists as many keys as the map has. */
  lemma KeyOrderSize<V>(order: seq<nat>, m: map<nat, V>)
    requires IsKeyOrder(order, m)
    ensures |order| == |m|
  {
    DistinctCount(order, m.Keys);
  }

  lemma {:induction false} DistinctCount(s: seq<nat>, keys: set<nat>)
    requires Ascending(s)
    requires forall k :: k in s <==> k in keys
    ensures |keys| == |s|
  {
    if s != [] {
      var rest, others := s[1..], keys - {s[0]};
      assert Ascending(rest);
      forall k
        ensures k in rest <==> k in others
      {
        if k in rest {
          var i :| 0 <= i < |rest| && rest[i] == k;
          assert s[i + 1] == k;
        }
        if k in others {
          assert k in s && k != s[0];
          var i :| 0 <= i < |s| && s[i] == k;
          assert rest[i - 1] == k;
        }
      }
      DistinctCount(rest, others);
    }
  }

  /** `Array.from(m.values())` for a map whose key order is `order`. */
  method Values<V>(order: seq<nat>, m: map<nat, V>) returns (vs: seq<V>)
    requires forall k :: k in order ==> k in m
    ensures |vs| == |order|
    ensures forall i :: 0 <= i < |order| ==> vs[i] == m[order[i]]
  {
    vs := [];
    for i := 0 to |order|
      invariant |vs| == i
      invariant forall j :: 0 <= j < i ==> vs[j] == m[order[j]]
    {
      vs := vs + [m[order[i]]];
    }
  }
}
