/** Insertion-ordered records, the shape of a JavaScript object used as a table,
    and the list operations the panel layout is made of. */
module Records {

  predicate Distinct<T(==)>(s: seq<T>) {
    forall i, j :: 0 <= i < j < |s| ==> s[i] != s[j]
  }

  datatype Record<K(==, !new), V> = Record(keys: seq<K>, values: map<K, V>)
  {
    ghost predicate Valid() {
      Distinct(keys) && forall k :: k in keys <==> k in values
    }

    function Set(k: K, v: V): Record<K, V> {
      Record(if k in values then keys else keys + [k], values[k := v])
    }

    function Delete(k: K): Record<K, V> {
      Record(Without(keys, k), values - {k})
    }

    lemma {:induction false} SetKeepsValid(k: K, v: V)
      requires Valid()
      ensures Set(k, v).Valid()
    {
    }

    lemma {:induction false} DeleteKeepsValid(k: K)
      requires Valid()
      ensures Delete(k).Valid()
    {
      WithoutElements(keys, k);
      WithoutDistinct(keys, k);
    }
  }

  function Empty<K(==, !new), V>(): Record<K, V> {
    Record([], map[])
  }

  /** The list without any occurrence of `x`. */
  function Without<T(==)>(s: seq<T>, x: T): seq<T> {
    if s == [] then []
    else Without(s[..|s| - 1], x) + if s[|s| - 1] == x then [] else [s[|s| - 1]]
  }

  lemma {:induction false} WithoutElements<T(!new)>(s: seq<T>, x: T)
    ensures forall y :: y in Without(s, x) <==> y in s && y != x
  {
    if s != [] {
      var last := |s| - 1;
      WithoutElements(s[..last], x);
      assert s == s[..last] + [s[last]];
    }
  }

  lemma {:induction false} WithoutDistinct<T(!new)>(s: seq<T>, x: T)
    requires Distinct(s)
    ensures Distinct(Without(s, x))
  {
    if s != [] {
      var last := |s| - 1;
      WithoutDistinct(s[..last], x);
      WithoutElements(s[..last], x);
      assert s[last] !in s[..last];
      assert s[last] !in Without(s[..last], x);
    }
  }

  lemma {:induction false} WithoutMultiset<T(!new)>(s: seq<T>, x: T)
    ensures multiset(Without(s, x)) == multiset(s)[x := 0]
  {
    if s != [] {
      var last := |s| - 1;
      WithoutMultiset(s[..last], x);
      assert s == s[..last] + [s[last]];
    }
  }

  lemma {:induction false} WithoutAbsent<T(!new)>(s: seq<T>, x: T)
    requires x !in s
    ensures Without(s, x) == s
  {
    if s != [] {
      WithoutAbsent(s[..|s| - 1], x);
    }
  }

  /** The list with `x` put in front of position `k`. */
  function Inserted<T>(s: seq<T>, k: nat, x: T): seq<T>
    requires k <= |s|
  {
    s[..k] + [x] + s[k..]
  }

  lemma {:induction false} InsertedMultiset<T>(s: seq<T>, k: nat, x: T)
    requires k <= |s|
    ensures multiset(Inserted(s, k, x)) == multiset(s) + multiset{x}
  {
    assert s == s[..k] + s[k..];
  }

  function Clamp(index: int, length: nat): (k: nat)
    ensures k <= length
  {
    if index < 0 then 0 else if index > length then length else index
  }

  /** Distinct lists are those in which nothing occurs twice. */
  lemma {:induction false} DistinctByCount<T(!new)>(s: seq<T>)
    ensures Distinct(s) <==> forall x :: multiset(s)[x] <= 1
  {
    if Distinct(s) {
      forall x
        ensures multiset(s)[x] <= 1
      {
        CountAtMostOne(s, x);
      }
    } else {
      var i, j :| 0 <= i < j < |s| && s[i] == s[j];
      assert s == s[..i] + [s[i]] + s[i + 1..j] + [s[j]] + s[j + 1..];
      assert multiset(s)[s[i]] >= 2;
    }
  }

  lemma {:induction false} CountAtMostOne<T(!new)>(s: seq<T>, x: T)
    requires Distinct(s)
    ensures multiset(s)[x] <= 1
  {
    if s != [] {
      var last := |s| - 1;
      CountAtMostOne(s[..last], x);
      assert s == s[..last] + [s[last]];
      assert multiset(s)[x] == multiset(s[..last])[x] + if s[last] == x then 1 else 0;
      if s[last] == x {
        assert x !in s[..last];
      }
    }
  }

  /** Only a list that is part of a list without repetitions is sure to have none. */
  lemma {:induction false} DistinctPart<T(!new)>(s: seq<T>, rest: multiset<T>, whole: seq<T>)
    requires multiset(s) + rest == multiset(whole) && Distinct(whole)
    ensures Distinct(s)
  {
    DistinctByCount(whole);
    forall x
      ensures multiset(s)[x] <= 1
    {
      assert multiset(s)[x] <= multiset(whole)[x];
    }
    DistinctByCount(s);
  }
}
