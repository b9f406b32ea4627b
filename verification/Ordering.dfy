/**
 String order and the library sorts the program calls: `slices.Sort`,
 `slices.SortStableFunc` and `sort.SliceStable` are modelled by one stable
 insertion sort, the unstable `slices.SortFunc` by a method whose contract only
 promises a sorted permutation.
 */
module Ordering {

  /** Lexicographic order on strings, as Go's `<=` on strings. */
  predicate StringLe(a: string, b: string)
  {
    |a| == 0 || (|b| > 0 && (a[0] < b[0] || (a[0] == b[0] && StringLe(a[1..], b[1..]))))
  }

  lemma {:induction false} StringLeTotal(a: string, b: string)
    ensures StringLe(a, b) || StringLe(b, a)
    ensures StringLe(a, b) && StringLe(b, a) ==> a == b
  {
    if |a| > 0 && |b| > 0 && a[0] == b[0] {
      StringLeTotal(a[1..], b[1..]);
      assert a == [a[0]] + a[1..] && b == [b[0]] + b[1..];
    }
  }

  lemma {:induction false} StringLeTransitive(a: string, b: string, c: string)
    requires StringLe(a, b) && StringLe(b, c)
    ensures StringLe(a, c)
  {
    if |a| > 0 && a[0] == b[0] && b[0] == c[0] {
      StringLeTransitive(a[1..], b[1..], c[1..]);
    }
  }

  /** A text comes before its continuations, and else the first character that differs decides. */
  lemma {:induction false} StringLeMeaning(a: string, b: string, k: nat)
    requires k <= |a| && k <= |b| && a[..k] == b[..k]
    ensures k == |a| ==> StringLe(a, b)
    ensures k == |b| < |a| ==> !StringLe(a, b)
    ensures k < |a| && k < |b| && a[k] != b[k] ==> (StringLe(a, b) <==> a[k] < b[k])
  {
    if k > 0 {
      assert a[..k][0] == b[..k][0];
      assert a[1..][..k - 1] == a[..k][1..] && b[1..][..k - 1] == b[..k][1..];
      StringLeMeaning(a[1..], b[1..], k - 1);
    }
  }

  /** `strings.Compare`: -1, 0 or 1. */
  function CompareStrings(a: string, b: string): int
  {
    if a == b then 0 else if StringLe(a, b) then -1 else 1
  }

  // ---------------------------------------------------------------------
  // Preorders and sortedness

  ghost predicate TotalPreorder<T(!new)>(le: (T, T) -> bool)
  {
    && (forall x, y :: le(x, y) || le(y, x))
    && (forall x, y, z :: le(x, y) && le(y, z) ==> le(x, z))
  }

  lemma StringLeIsTotalPreorder()
    ensures TotalPreorder(StringLe)
  {
    forall x, y ensures StringLe(x, y) || StringLe(y, x) {
      StringLeTotal(x, y);
    }
    forall x, y, z | StringLe(x, y) && StringLe(y, z) ensures StringLe(x, z) {
      StringLeTransitive(x, y, z);
    }
  }

  ghost predicate Sorted<T>(le: (T, T) -> bool, s: seq<T>)
  {
    forall i, j :: 0 <= i < j < |s| ==> le(s[i], s[j])
  }

  predicate Equivalent<T>(le: (T, T) -> bool, x: T, y: T)
  {
    le(x, y) && le(y, x)
  }

  /** The elements of `s` that tie with `x`, in the order `s` has them. */
  function Ties<T>(le: (T, T) -> bool, x: T, s: seq<T>): seq<T>
  {
    if s == [] then []
    else (if Equivalent(le, x, s[0]) then [s[0]] else []) + Ties(le, x, s[1..])
  }

  // ---------------------------------------------------------------------
  // The stable sort

  function Insert<T>(le: (T, T) -> bool, x: T, s: seq<T>): (r: seq<T>)
    ensures multiset(r) == multiset(s) + multiset{x}
    ensures |r| == |s| + 1
  {
    if s == [] || le(x, s[0]) then
      assert [x] + s == [x] + s;
      [x] + s
    else
      assert s == [s[0]] + s[1..];
      [s[0]] + Insert(le, x, s[1..])
  }

  function Sort<T>(le: (T, T) -> bool, s: seq<T>): (r: seq<T>)
    ensures multiset(r) == multiset(s)
    ensures |r| == |s|
  {
    if s == [] then []
    else
      assert s == [s[0]] + s[1..];
      Insert(le, s[0], Sort(le, s[1..]))
  }

  lemma InPermutation<T>(a: seq<T>, b: seq<T>, x: T)
    requires multiset(a) == multiset(b)
    ensures x in a <==> x in b
  {
    assert x in a <==> x in multiset(a);
    assert x in b <==> x in multiset(b);
  }

  lemma {:induction false} InsertSorted<T(!new)>(le: (T, T) -> bool, x: T, s: seq<T>)
    requires TotalPreorder(le) && Sorted(le, s)
    ensures Sorted(le, Insert(le, x, s))
  {
    if s == [] || le(x, s[0]) {
      forall j | 0 <= j < |s| ensures le(x, s[j]) {
        assert j == 0 || le(s[0], s[j]);
      }
    } else {
      InsertSorted(le, x, s[1..]);
      var rest := Insert(le, x, s[1..]);
      forall j | 0 <= j < |rest| ensures le(s[0], rest[j]) {
        assert rest[j] in multiset(rest);
        assert rest[j] in multiset(s[1..]) || rest[j] == x;
        if rest[j] in multiset(s[1..]) {
          var k :| 0 <= k < |s[1..]| && s[1..][k] == rest[j];
          assert s[k + 1] == rest[j];
        }
      }
    }
  }

  lemma {:induction false} SortSorted<T(!new)>(le: (T, T) -> bool, s: seq<T>)
    requires TotalPreorder(le)
    ensures Sorted(le, Sort(le, s))
  {
    if s != [] {
      SortSorted(le, s[1..]);
      InsertSorted(le, s[0], Sort(le, s[1..]));
    }
  }

  lemma {:induction false} InsertTies<T(!new)>(le: (T, T) -> bool, x: T, s: seq<T>, y: T)
    requires TotalPreorder(le)
    ensures Ties(le, y, Insert(le, x, s)) == Ties(le, y, [x] + s)
  {
    assert ([x] + s)[1..] == s;
    if s != [] && !le(x, s[0]) {
      InsertTies(le, x, s[1..], y);
      assert ([x] + s[1..])[1..] == s[1..];
      var r := Insert(le, x, s);
      assert r[1..] == Insert(le, x, s[1..]);
      assert !(Equivalent(le, y, x) && Equivalent(le, y, s[0]));
    }
  }

  /** Stability: elements that tie keep the order they came in. */
  lemma {:induction false} SortStable<T(!new)>(le: (T, T) -> bool, s: seq<T>, y: T)
    requires TotalPreorder(le)
    ensures Ties(le, y, Sort(le, s)) == Ties(le, y, s)
  {
    if s != [] {
      SortStable(le, s[1..], y);
      InsertTies(le, s[0], Sort(le, s[1..]), y);
      var t := [s[0]] + Sort(le, s[1..]);
      assert t[1..] == Sort(le, s[1..]);
    }
  }

  lemma FirstIsLeast<T(!new)>(le: (T, T) -> bool, s: seq<T>, x: T)
    requires TotalPreorder(le) && Sorted(le, s) && x in s
    ensures le(s[0], x)
  {
    var i :| 0 <= i < |s| && s[i] == x;
    if i == 0 {
      assert le(x, x) || le(x, x);
    }
  }

  lemma SplitFirst<T>(s: seq<T>)
    requires s != []
    ensures multiset(s) == multiset{s[0]} + multiset(s[1..])
  {
    assert s == [s[0]] + s[1..];
  }

  function WithoutAt<T>(s: seq<T>, j: nat): (r: seq<T>)
    requires j < |s|
    ensures |r| == |s| - 1
  {
    s[..j] + s[j+1..]
  }

  lemma SplitAt<T>(s: seq<T>, j: nat)
    requires j < |s|
    ensures multiset(s) == multiset{s[j]} + multiset(WithoutAt(s, j))
  {
    assert s == s[..j] + [s[j]] + s[j+1..];
  }

  lemma WithoutAtIndex<T>(s: seq<T>, j: nat, i: nat)
    requires j < |s| && i < |s| - 1
    ensures WithoutAt(s, j)[i] == s[if i < j then i else i + 1]
  {
  }

  lemma RemoveBoth<T>(a: seq<T>, b: seq<T>, j: nat)
    requires a != [] && j < |b| && a[0] == b[j] && multiset(a) == multiset(b)
    ensures multiset(WithoutAt(a, 0)) == multiset(WithoutAt(b, j))
  {
    SplitAt(a, 0);
    SplitAt(b, j);
    assert multiset(WithoutAt(a, 0)) == multiset(a) - multiset{a[0]};
    assert multiset(WithoutAt(b, j)) == multiset(b) - multiset{b[j]};
  }

  /** Two sorted arrangements of the same elements are one list when only equal elements tie. */
  lemma {:induction false} SortedUnique<T(!new)>(le: (T, T) -> bool, a: seq<T>, b: seq<T>)
    requires TotalPreorder(le)
    requires Sorted(le, a) && Sorted(le, b) && multiset(a) == multiset(b)
    requires forall x, y :: x in a && y in a && Equivalent(le, x, y) ==> x == y
    ensures a == b
    decreases |a|
  {
    assert |a| == |multiset(a)| == |multiset(b)| == |b|;
    if a != [] {
      InPermutation(a, b, b[0]);
      InPermutation(a, b, a[0]);
      FirstIsLeast(le, a, b[0]);
      FirstIsLeast(le, b, a[0]);
      assert Equivalent(le, a[0], b[0]);
      SplitFirst(a);
      SplitFirst(b);
      assert multiset(a[1..]) == multiset(a) - multiset{a[0]} == multiset(b[1..]);
      SortedUnique(le, a[1..], b[1..]);
    }
  }

  lemma SortedPermutation<T(!new)>(le: (T, T) -> bool, a: seq<T>, b: seq<T>)
    requires TotalPreorder(le)
    requires multiset(a) == multiset(b)
    requires forall x, y :: x in a && y in a && Equivalent(le, x, y) ==> x == y
    ensures Sort(le, a) == Sort(le, b)
  {
    SortSorted(le, a);
    SortSorted(le, b);
    forall x, y | x in Sort(le, a) && y in Sort(le, a) && Equivalent(le, x, y) ensures x == y {
      InPermutation(a, Sort(le, a), x);
      InPermutation(a, Sort(le, a), y);
    }
    SortedUnique(le, Sort(le, a), Sort(le, b));
  }

  /** Sorting strings depends only on which strings there are. */
  lemma SortStringsPermutation(a: seq<string>, b: seq<string>)
    requires multiset(a) == multiset(b)
    ensures Sort(StringLe, a) == Sort(StringLe, b)
  {
    StringLeIsTotalPreorder();
    forall x, y | Equivalent(StringLe, x, y) ensures x == y {
      StringLeTotal(x, y);
    }
    SortedPermutation(StringLe, a, b);
  }

  /** Sorting a sorted list changes nothing. */
  lemma {:induction false} SortOfSorted<T(!new)>(le: (T, T) -> bool, s: seq<T>)
    requires TotalPreorder(le) && Sorted(le, s)
    ensures Sort(le, s) == s
  {
    if s != [] {
      SortOfSorted(le, s[1..]);
      assert |s| > 1 ==> le(s[0], s[1]);
      assert s == [s[0]] + s[1..];
    }
  }

  /** `slices.SortFunc`: some sorted permutation, with no promise about ties. */
  method SortFunc<T(!new)>(le: (T, T) -> bool, s: seq<T>) returns (r: seq<T>)
    requires TotalPreorder(le)
    ensures Sorted(le, r) && multiset(r) == multiset(s)
  {
    r := Sort(le, s);
    SortSorted(le, s);
  }
}
