/** Rows in the order a query asks for: by a key, ties broken by id. */
module Ordering {
  type Id = nat
  type Key = Id -> (int, int)

  predicate Before(key: Key, a: Id, b: Id) {
    || key(a).0 < key(b).0
    || (key(a).0 == key(b).0 && (key(a).1 < key(b).1 || (key(a).1 == key(b).1 && a < b)))
  }

  predicate Least(key: Key, ids: set<Id>, m: Id) {
    m in ids && forall x | x in ids :: x == m || Before(key, m, x)
  }

  lemma {:induction false} HasLeast(key: Key, ids: set<Id>)
    requires ids != {}
    ensures exists m :: Least(key, ids, m)
  {
    var a :| a in ids;
    if ids == {a} {
      assert Least(key, ids, a);
    } else {
      HasLeast(key, ids - {a});
      var m :| Least(key, ids - {a}, m);
      var least := if Before(key, m, a) then m else a;
      forall x | x in ids ensures x == least || Before(key, least, x) {
        assert x == a || x in ids - {a};
      }
      assert Least(key, ids, least);
    }
  }

  function First(key: Key, ids: set<Id>): (m: Id)
    requires ids != {}
    ensures Least(key, ids, m)
  {
    HasLeast(key, ids);
    var m :| m in ids && Least(key, ids, m);
    m
  }

  predicate Ordered(key: Key, list: seq<Id>) {
    forall i, j | 0 <= i < j < |list| :: Before(key, list[i], list[j])
  }

  /** All ids of a set in order. */
  function Sorted(key: Key, ids: set<Id>): (list: seq<Id>)
    ensures |list| == |ids|
    ensures forall x :: x in list <==> x in ids
    ensures Ordered(key, list)
    decreases |ids|
  {
    if ids == {} then []
    else
      var m := First(key, ids);
      [m] + Sorted(key, ids - {m})
  }

  predicate Distinct(list: seq<Id>) {
    forall i, j | 0 <= i < j < |list| :: list[i] != list[j]
  }

  lemma {:induction false} OrderedDistinct(key: Key, list: seq<Id>)
    requires Ordered(key, list)
    ensures Distinct(list)
  {
  }

  /** A query with a limit takes what no other row precedes. */
  function Limited(list: seq<Id>, limit: nat): seq<Id> {
    if |list| <= limit then list else list[..limit]
  }

  /** A query with a limit takes a row exactly if fewer than so many come before it. */
  lemma {:induction false} LimitCounts(key: Key, ids: set<Id>, limit: nat, x: Id)
    ensures x in Limited(Sorted(key, ids), limit) <==>
            x in ids && |set y | y in ids && Before(key, y, x)| < limit
  {
    var list := Sorted(key, ids);
    if x in ids {
      var i :| 0 <= i < |list| && list[i] == x;
      OrderedDistinct(key, list);
      PrefixBefore(key, ids, list, i);
      InLimit(list, limit, i);
    }
  }

  lemma {:induction false} InLimit(list: seq<Id>, limit: nat, i: nat)
    requires Distinct(list) && i < |list|
    ensures list[i] in Limited(list, limit) <==> i < limit
  {
    var taken := Limited(list, limit);
    assert forall k | 0 <= k < |taken| :: taken[k] == list[k];
    if i < limit { assert taken[i] == list[i]; }
  }

  lemma {:induction false} PrefixBefore(key: Key, ids: set<Id>, list: seq<Id>, i: nat)
    requires Ordered(key, list) && i < |list| && forall x :: x in list <==> x in ids
    ensures |set y | y in ids && Before(key, y, list[i])| == i
  {
    var before := set y | y in ids && Before(key, y, list[i]);
    assert forall k | 0 <= k < |list| :: list[k] in list && (Before(key, list[k], list[i]) <==> k < i);
    assert forall k | 0 <= k < i :: list[..i][k] == list[k];
    assert forall y :: y in before <==> y in list[..i];
    OrderedDistinct(key, list);
    PrefixSize(list, i, before);
  }

  lemma {:induction false} PrefixSize(list: seq<Id>, i: nat, elements: set<Id>)
    requires Distinct(list) && i <= |list| && forall y :: y in elements <==> y in list[..i]
    ensures |elements| == i
  {
    if i == 0 {
      assert elements == {};
    } else {
      var last := list[i - 1];
      assert last in list[..i];
      assert list[..i] == list[..i - 1] + [last];
      assert forall k | 0 <= k < i - 1 :: list[..i - 1][k] == list[k] && list[k] != last;
      assert forall y :: y in elements - {last} <==> y in list[..i - 1];
      PrefixSize(list, i - 1, elements - {last});
    }
  }

  lemma {:induction false} LimitTakesFirst(key: Key, ids: set<Id>, limit: nat, a: Id, b: Id)
    requires a in ids && b in Limited(Sorted(key, ids), limit) && Before(key, a, b)
    ensures a in Limited(Sorted(key, ids), limit)
  {
    var list := Sorted(key, ids);
    var i :| 0 <= i < |list| && list[i] == a;
    var j :| 0 <= j < |Limited(list, limit)| && Limited(list, limit)[j] == b;
    assert list[j] == b;
    assert j < i ==> Before(key, list[j], list[i]);
    assert Limited(list, limit)[i] == a;
  }
}
