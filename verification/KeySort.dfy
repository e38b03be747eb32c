/** Python's stable `sorted(items, key=...)` for integer keys. */
module KeySort {

  predicate Ascending<T>(s: seq<(int, T)>) {
    forall i, j | 0 <= i < j < |s| :: s[i].0 <= s[j].0
  }

  function Insert<T>(x: (int, T), s: seq<(int, T)>): (r: seq<(int, T)>)
    ensures |r| == |s| + 1
  {
    if s == [] || x.0 <= s[0].0 then [x] + s else [s[0]] + Insert(x, s[1..])
  }

  function Sort<T>(s: seq<(int, T)>): (r: seq<(int, T)>)
    ensures |r| == |s|
  {
    if s == [] then [] else Insert(s[0], Sort(s[1..]))
  }

  /** The items with one key, in their order. */
  function WithKey<T>(s: seq<(int, T)>, key: int): seq<(int, T)> {
    if s == [] then []
    else if s[0].0 == key then [s[0]] + WithKey(s[1..], key)
    else WithKey(s[1..], key)
  }

  lemma {:induction false} InsertAdds<T>(x: (int, T), s: seq<(int, T)>)
    ensures multiset(Insert(x, s)) == multiset{x} + multiset(s)
  {
    if s != [] && s[0].0 < x.0 {
      InsertAdds(x, s[1..]);
      assert s == [s[0]] + s[1..];
    }
  }

  predicate AtLeastKey<T>(s: seq<(int, T)>, key: int) {
    forall j | 0 <= j < |s| :: key <= s[j].0
  }

  lemma {:induction false} InsertAbove<T>(x: (int, T), s: seq<(int, T)>, key: int)
    requires key <= x.0 && AtLeastKey(s, key)
    ensures AtLeastKey(Insert(x, s), key)
  {
    if s != [] && s[0].0 < x.0 {
      InsertAbove(x, s[1..], key);
    }
  }

  lemma {:induction false} InsertKeeps<T>(x: (int, T), s: seq<(int, T)>)
    requires Ascending(s)
    ensures Ascending(Insert(x, s))
  {
    if s != [] && s[0].0 < x.0 {
      InsertKeeps(x, s[1..]);
      InsertAbove(x, s[1..], s[0].0);
    }
  }

  lemma EmptyAscends<T>()
    ensures Ascending<T>([])
  {
  }

  /** Sorting gives an ascending permutation. */
  lemma {:induction false} SortIsSorted<T>(s: seq<(int, T)>)
    ensures Ascending(Sort(s))
    ensures multiset(Sort(s)) == multiset(s)
  {
    hide Ascending, Insert;
    if s == [] {
      EmptyAscends<T>();
    } else {
      SortIsSorted(s[1..]);
      InsertKeeps(s[0], Sort(s[1..]));
      InsertAdds(s[0], Sort(s[1..]));
      assert s == [s[0]] + s[1..];
    }
  }

  lemma {:induction false} InsertWithKey<T>(x: (int, T), s: seq<(int, T)>, key: int)
    requires Ascending(s)
    ensures WithKey(Insert(x, s), key) == if x.0 == key then [x] + WithKey(s, key) else WithKey(s, key)
  {
    if s == [] || x.0 <= s[0].0 {
      assert ([x] + s)[1..] == s;
    } else {
      InsertWithKey(x, s[1..], key);
      assert ([s[0]] + Insert(x, s[1..]))[1..] == Insert(x, s[1..]);
      assert s[0].0 < x.0;
      if x.0 == key {
        assert s[0].0 != key;
      }
    }
  }

  /** Items with equal keys keep their order. */
  lemma {:induction false} SortIsStable<T>(s: seq<(int, T)>, key: int)
    ensures WithKey(Sort(s), key) == WithKey(s, key)
  {
    if s != [] {
      SortIsStable(s[1..], key);
      SortIsSorted(s[1..]);
      InsertWithKey(s[0], Sort(s[1..]), key);
    }
  }

  ghost predicate DistinctKeys<T>(s: seq<(int, T)>) {
    forall i, j | 0 <= i < j < |s| :: s[i].0 != s[j].0
  }

  lemma SameMultisetDistinct<T>(s: seq<(int, T)>, t: seq<(int, T)>)
    requires multiset(s) == multiset(t) && DistinctKeys(s)
    ensures DistinctKeys(t)
  {
    DistinctMeansSingle(s);
    forall i, j | 0 <= i < j < |t| ensures t[i].0 != t[j].0 {
      assert t[i] in multiset(s) && t[j] in multiset(s);
      var p :| 0 <= p < |s| && s[p] == t[i];
      var q :| 0 <= q < |s| && s[q] == t[j];
      if p == q {
        TwiceInMultiset(t, i, j);
      }
    }
  }

  lemma TwiceInMultiset<T>(t: seq<T>, i: nat, j: nat)
    requires i < j < |t|
    ensures t[i] == t[j] ==> multiset(t)[t[i]] >= 2
  {
    assert t == t[..i] + [t[i]] + t[i + 1..j] + [t[j]] + t[j + 1..];
  }

  lemma {:induction false} DistinctMeansSingle<T>(s: seq<(int, T)>)
    requires DistinctKeys(s)
    ensures forall x :: multiset(s)[x] <= 1
  {
    if s != [] {
      assert s == [s[0]] + s[1..];
      assert s[0] !in s[1..];
      DistinctMeansSingle(s[1..]);
      assert s[0] !in multiset(s[1..]);
    }
  }

  /** Distinct keys in a range of the list's length, sorted, are that range. */
  lemma {:induction false} KeysAreRange<T>(t: seq<(int, T)>, base: int, k: nat)
    requires Ascending(t) && DistinctKeys(t) && k < |t|
    requires forall i | 0 <= i < |t| :: base <= t[i].0 < base + |t|
    ensures t[k].0 == base + k
  {
    AtLeast(t, base, k);
    AtMost(t, base, k);
  }

  lemma {:induction false} AtLeast<T>(t: seq<(int, T)>, base: int, k: nat)
    requires Ascending(t) && DistinctKeys(t) && k < |t| && t[0].0 >= base
    ensures t[k].0 >= base + k
  {
    if k > 0 {
      AtLeast(t, base, k - 1);
      assert t[k - 1].0 <= t[k].0;
    }
  }

  lemma {:induction false} AtMost<T>(t: seq<(int, T)>, base: int, k: nat)
    requires Ascending(t) && DistinctKeys(t) && k < |t| && t[|t| - 1].0 < base + |t|
    ensures t[k].0 <= base + k
    decreases |t| - k
  {
    if k + 1 < |t| {
      AtMost(t, base, k + 1);
      assert t[k].0 <= t[k + 1].0;
    }
  }

  /** Sorting leaves an ascending list alone. */
  lemma {:induction false} SortOfAscending<T>(s: seq<(int, T)>)
    requires Ascending(s)
    ensures Sort(s) == s
  {
    if s != [] {
      SortOfAscending(s[1..]);
      assert |s| > 1 ==> s[0].0 <= s[1].0;
    }
  }
}
