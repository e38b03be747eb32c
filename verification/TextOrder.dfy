/** Python's order on `str`: code point by code point, a proper prefix first. */
module TextOrder {

  predicate Leq(a: string, b: string) {
    a == "" || (b != "" && (a[0] < b[0] || (a[0] == b[0] && Leq(a[1..], b[1..]))))
  }

  predicate Less(a: string, b: string) {
    Leq(a, b) && a != b
  }

  /** `a` ends where they first differ, or has the smaller character there. */
  ghost predicate FirstDifference(a: string, b: string, p: nat) {
    && p <= |a| && p <= |b| && (forall i | 0 <= i < p :: a[i] == b[i])
    && (p == |a| || (p < |b| && a[p] < b[p]))
  }

  /** The order is decided at the first differing character. */
  lemma {:induction false} LeqMeans(a: string, b: string)
    ensures Leq(a, b) <==> exists p: nat :: FirstDifference(a, b, p)
  {
    if a == "" {
      assert FirstDifference(a, b, 0);
    } else if b != "" && a[0] == b[0] {
      LeqMeans(a[1..], b[1..]);
      if Leq(a, b) {
        var p: nat :| FirstDifference(a[1..], b[1..], p);
        forall i | 0 <= i < p + 1 ensures a[i] == b[i] {
          if i > 0 {
            assert a[1..][i - 1] == b[1..][i - 1];
          }
        }
        assert FirstDifference(a, b, p + 1);
      } else {
        forall p: nat | p > 0 && FirstDifference(a, b, p) ensures FirstDifference(a[1..], b[1..], p - 1) {
        }
      }
    } else {
      if Leq(a, b) {
        assert FirstDifference(a, b, 0);
      }
    }
  }

  lemma {:induction false} Total(a: string, b: string)
    ensures Leq(a, b) || Leq(b, a)
  {
    if a != "" && b != "" && a[0] == b[0] {
      Total(a[1..], b[1..]);
    }
  }

  lemma {:induction false} Antisymmetric(a: string, b: string)
    requires Leq(a, b) && Leq(b, a)
    ensures a == b
  {
    if a != "" {
      Antisymmetric(a[1..], b[1..]);
      assert a == [a[0]] + a[1..] && b == [b[0]] + b[1..];
    }
  }

  lemma {:induction false} Transitive(a: string, b: string, c: string)
    requires Leq(a, b) && Leq(b, c)
    ensures Leq(a, c)
  {
    if a != "" && a[0] == b[0] && b[0] == c[0] {
      Transitive(a[1..], b[1..], c[1..]);
    }
  }

  lemma LessTransitive(a: string, b: string, c: string)
    requires Less(a, b) && Less(b, c)
    ensures Less(a, c)
  {
    Transitive(a, b, c);
    if a == c {
      Antisymmetric(a, b);
    }
  }

  predicate Ascending(s: seq<string>) {
    forall i, j | 0 <= i < j < |s| :: Leq(s[i], s[j])
  }

  function Insert(x: string, s: seq<string>): seq<string> {
    if s == [] || Leq(x, s[0]) then [x] + s else [s[0]] + Insert(x, s[1..])
  }

  /** `sorted(ids)` */
  function Sorted(s: seq<string>): seq<string> {
    if s == [] then [] else Insert(s[0], Sorted(s[1..]))
  }

  lemma {:induction false} InsertKeepsOrder(x: string, s: seq<string>)
    requires Ascending(s)
    ensures Ascending(Insert(x, s))
    ensures multiset(Insert(x, s)) == multiset{x} + multiset(s)
  {
    if s == [] {
    } else if Leq(x, s[0]) {
      forall j | 0 <= j < |s| ensures Leq(x, s[j]) {
        if j > 0 { Transitive(x, s[0], s[j]); }
      }
    } else {
      Total(x, s[0]);
      InsertKeepsOrder(x, s[1..]);
      var t := Insert(x, s[1..]);
      assert s == [s[0]] + s[1..];
      forall j | 0 <= j < |t| ensures Leq(s[0], t[j]) {
        assert t[j] in multiset(t);
      }
    }
  }

  /** Sorting yields an ascending permutation. */
  lemma {:induction false} SortedIsSorted(s: seq<string>)
    ensures Ascending(Sorted(s))
    ensures multiset(Sorted(s)) == multiset(s)
  {
    if s != [] {
      SortedIsSorted(s[1..]);
      InsertKeepsOrder(s[0], Sorted(s[1..]));
      assert s == [s[0]] + s[1..];
    }
  }
}
