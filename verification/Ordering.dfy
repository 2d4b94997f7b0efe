/** What ORDER BY ... DESC fixes: two orderings of the same rows agree on the sort key at
    every position, and are equal when no two rows share a key. */
module Ordering {
  ghost predicate Distinct<K>(a: seq<K>) {
    forall i, j | 0 <= i < j < |a| :: a[i] != a[j]
  }

  ghost predicate Descending<K>(a: seq<K>, key: K -> int) {
    forall i, j | 0 <= i < j < |a| :: key(a[i]) >= key(a[j])
  }

  ghost predicate SameElements<K>(a: seq<K>, b: seq<K>) {
    (forall i | 0 <= i < |a| :: a[i] in b) && (forall i | 0 <= i < |b| :: b[i] in a)
  }

  /** `a` lists the elements of `rows`, each once, largest key first. */
  ghost predicate IsOrdering<K(!new)>(a: seq<K>, rows: set<K>, key: K -> int) {
    Distinct(a) && Descending(a, key) && (forall x :: x in rows <==> x in a)
  }

  function Without<K>(b: seq<K>, p: nat): seq<K>
    requires p < |b|
  {
    b[..p] + b[p + 1..]
  }

  lemma WithoutElements<K>(b: seq<K>, p: nat)
    requires p < |b| && Distinct(b)
    ensures Distinct(Without(b, p)) && b[p] !in Without(b, p)
    ensures forall y | y in b && y != b[p] :: y in Without(b, p)
    ensures forall y | y in Without(b, p) :: y in b
  {
    var b' := Without(b, p);
    forall y | y in b && y != b[p] ensures y in b' {
      var i :| 0 <= i < |b| && b[i] == y;
      assert b'[if i < p then i else i - 1] == y;
    }
  }

  lemma WithoutDescending<K>(b: seq<K>, p: nat, key: K -> int)
    requires p < |b| && Descending(b, key)
    ensures Descending(Without(b, p), key)
  {
    var b' := Without(b, p);
    forall i, j | 0 <= i < j < |b'| ensures key(b'[i]) >= key(b'[j]) {
      assert b'[i] == b[if i < p then i else i + 1] && b'[j] == b[if j < p then j else j + 1];
    }
  }

  /** Up to the place where the head of `a` stands in `b`, every key is that of the head. */
  lemma HeadKeys<K>(a: seq<K>, b: seq<K>, p: nat, key: K -> int)
    requires 0 < |a| && p < |b| && b[p] == a[0] && Descending(a, key) && Descending(b, key) && SameElements(a, b)
    ensures forall i | 0 <= i <= p :: key(b[i]) == key(a[0])
  {
    forall i | 0 <= i <= p ensures key(b[i]) == key(a[0]) {
      var q :| 0 <= q < |a| && a[q] == b[i];
      assert q > 0 ==> key(a[0]) >= key(a[q]);
      assert i < p ==> key(b[i]) >= key(b[p]);
    }
  }

  lemma WithoutSame<K>(a: seq<K>, b: seq<K>, p: nat)
    requires 0 < |a| && p < |b| && b[p] == a[0] && Distinct(a) && Distinct(b) && SameElements(a, b)
    ensures SameElements(Without(a, 0), Without(b, p))
  {
    WithoutElements(a, 0);
    WithoutElements(b, p);
  }

  /** Equal keys without the head give equal keys with it. */
  lemma KeysWithHead<K>(a: seq<K>, b: seq<K>, p: nat, key: K -> int)
    requires 0 < |a| && p < |b| && |a| == |b| && forall i | 0 <= i <= p :: key(b[i]) == key(a[0])
    requires forall i | 0 <= i < |a| - 1 :: key(Without(a, 0)[i]) == key(Without(b, p)[i])
    ensures forall i | 0 <= i < |a| :: key(a[i]) == key(b[i])
  {
    forall i | 0 < i < |a| ensures key(a[i]) == key(b[i]) {
      assert Without(a, 0)[i - 1] == a[i];
      assert Without(b, p)[i - 1] == b[if i - 1 < p then i - 1 else i];
    }
  }

  lemma SomeElement<K>(a: seq<K>, b: seq<K>)
    requires a != [] && SameElements(b, a)
    ensures b != []
  {
    assert a[0] in b;
  }

  lemma {:induction false} SameKeys<K>(a: seq<K>, b: seq<K>, key: K -> int)
    requires Distinct(a) && Distinct(b) && SameElements(a, b)
    requires Descending(a, key) && Descending(b, key)
    ensures |a| == |b| && forall i | 0 <= i < |a| :: key(a[i]) == key(b[i])
    decreases |a|
  {
    if a == [] {
      if b != [] { SomeElement(b, a); }
    } else {
      assert a[0] in b;
      var p :| 0 <= p < |b| && b[p] == a[0];
      var a', b' := Without(a, 0), Without(b, p);
      assert Distinct(a') && Distinct(b') by { WithoutElements(a, 0); WithoutElements(b, p); }
      assert Descending(a', key) by { WithoutDescending(a, 0, key); }
      assert Descending(b', key) by { WithoutDescending(b, p, key); }
      assert SameElements(a', b') by { WithoutSame(a, b, p); }
      SameKeys(a', b', key);
      HeadKeys(a, b, p, key);
      KeysWithHead(a, b, p, key);
    }
  }

  lemma Unique<K(!new)>(a: seq<K>, b: seq<K>, rows: set<K>, key: K -> int)
    requires IsOrdering(a, rows, key) && IsOrdering(b, rows, key)
    requires forall x, y | x in rows && y in rows && key(x) == key(y) :: x == y
    ensures a == b
  {
    SameKeys(a, b, key);
    forall i | 0 <= i < |a| ensures a[i] == b[i] {
      assert a[i] in rows && b[i] in rows;
    }
  }
}
