/**
 `canonicalEvaluates`: the deterministic order in which a plugin's evaluated
 catalogs are written into every config blob (internal/oci/index.go:196-228).
 */
module Canonical {
  import opened Ordering
  import opened Codec

  /** Order by catalog, then by catalog version. */
  predicate EvaluateLe(a: Evaluate, b: Evaluate)
  {
    if a.catalog == b.catalog then StringLe(a.catalogVersion, b.catalogVersion) else StringLe(a.catalog, b.catalog)
  }

  predicate SameKey(a: Evaluate, b: Evaluate)
  {
    a.catalog == b.catalog && a.catalogVersion == b.catalogVersion
  }

  lemma EvaluateLeIsTotalPreorder()
    ensures TotalPreorder(EvaluateLe)
    ensures forall x, y :: Equivalent(EvaluateLe, x, y) <==> SameKey(x, y)
  {
    StringLeIsTotalPreorder();
    forall x, y ensures Equivalent(EvaluateLe, x, y) <==> SameKey(x, y) {
      StringLeTotal(x.catalog, y.catalog);
      StringLeTotal(x.catalogVersion, y.catalogVersion);
    }
    forall x, y ensures EvaluateLe(x, y) || EvaluateLe(y, x) {
      StringLeTotal(x.catalog, y.catalog);
      StringLeTotal(x.catalogVersion, y.catalogVersion);
    }
    forall x, y, z | EvaluateLe(x, y) && EvaluateLe(y, z) ensures EvaluateLe(x, z) {
      StringLeTotal(x.catalog, y.catalog);
      assert StringLe(x.catalog, z.catalog) by {
        if x.catalog == y.catalog || y.catalog == z.catalog {
          StringLeTotal(x.catalog, x.catalog);
        }
      }
    }
  }

  function WithSortedIds(e: Evaluate): Evaluate
  {
    e.(requirementIds := Sort(StringLe, e.requirementIds))
  }

  function Cleaned(xs: seq<Evaluate>): (r: seq<Evaluate>)
    ensures |r| == |xs|
    ensures forall i :: 0 <= i < |xs| ==> r[i] == WithSortedIds(xs[i])
  {
    seq(|xs|, i requires 0 <= i < |xs| => WithSortedIds(xs[i]))
  }

  function Canonical(xs: seq<Evaluate>): seq<Evaluate>
  {
    Sort(EvaluateLe, Cleaned(xs))
  }

  /** The program's loop copies each entry with its requirement ids sorted. */
  method CleanEach(xs: seq<Evaluate>) returns (out: seq<Evaluate>)
    ensures out == Cleaned(xs)
  {
    out := [];
    for i := 0 to |xs|
      invariant |out| == i && forall k :: 0 <= k < i ==> out[k] == WithSortedIds(xs[k])
    {
      var reqs := Sort(StringLe, xs[i].requirementIds);
      out := out + [Evaluate(xs[i].catalog, xs[i].catalogVersion, reqs)];
    }
    SameCleaned(xs, out);
  }

  lemma SameCleaned(xs: seq<Evaluate>, out: seq<Evaluate>)
    requires |out| == |xs| && forall k :: 0 <= k < |xs| ==> out[k] == WithSortedIds(xs[k])
    ensures out == Cleaned(xs)
  {
  }

  /** The program's loop and sort compute the canonical list. */
  method CanonicalEvaluates(xs: seq<Evaluate>) returns (out: seq<Evaluate>)
    ensures out == Canonical(xs)
  {
    if |xs| == 0 {
      return [];
    }
    out := CleanEach(xs);
    out := Sort(EvaluateLe, out);
  }

  /**
   The canonical list is a sorted rearrangement of the input's entries, and
   the requirement ids of each entry are a sorted rearrangement too.
   */
  lemma CanonicalIsSortedPermutation(xs: seq<Evaluate>)
    ensures Sorted(EvaluateLe, Canonical(xs))
    ensures forall i, j :: 0 <= i < j < |Canonical(xs)| ==>
      && StringLe(Canonical(xs)[i].catalog, Canonical(xs)[j].catalog)
      && (Canonical(xs)[i].catalog == Canonical(xs)[j].catalog ==>
            StringLe(Canonical(xs)[i].catalogVersion, Canonical(xs)[j].catalogVersion))
    ensures multiset(Canonical(xs)) == multiset(Cleaned(xs))
    ensures forall e :: e in Canonical(xs) ==> Sorted(StringLe, e.requirementIds)
    ensures forall i :: 0 <= i < |xs| ==>
      && SameKey(Cleaned(xs)[i], xs[i])
      && multiset(Cleaned(xs)[i].requirementIds) == multiset(xs[i].requirementIds)
  {
    EvaluateLeIsTotalPreorder();
    SortSorted(EvaluateLe, Cleaned(xs));
    CatalogsFirst(Canonical(xs));
    forall e | e in Canonical(xs) ensures Sorted(StringLe, e.requirementIds) {
      InPermutation(Canonical(xs), Cleaned(xs), e);
      var i :| 0 <= i < |xs| && Cleaned(xs)[i] == e;
      StringLeIsTotalPreorder();
      SortSorted(StringLe, xs[i].requirementIds);
    }
  }

  /** Sorted by catalog, and by version within a catalog. */
  lemma CatalogsFirst(c: seq<Evaluate>)
    requires Sorted(EvaluateLe, c)
    ensures forall i, j :: 0 <= i < j < |c| ==>
      && StringLe(c[i].catalog, c[j].catalog)
      && (c[i].catalog == c[j].catalog ==> StringLe(c[i].catalogVersion, c[j].catalogVersion))
  {
    forall i, j | 0 <= i < j < |c| ensures StringLe(c[i].catalog, c[j].catalog) {
      StringLeTotal(c[i].catalog, c[i].catalog);
      assert EvaluateLe(c[i], c[j]);
    }
  }

  lemma CanonicalIdempotent(xs: seq<Evaluate>)
    ensures Canonical(Canonical(xs)) == Canonical(xs)
  {
    var c := Canonical(xs);
    CanonicalIsSortedPermutation(xs);
    forall i | 0 <= i < |c| ensures Cleaned(c)[i] == c[i] {
      assert c[i] in c;
      StringLeIsTotalPreorder();
      SortOfSorted(StringLe, c[i].requirementIds);
    }
    assert Cleaned(c) == c;
    EvaluateLeIsTotalPreorder();
    SortOfSorted(EvaluateLe, c);
  }

  lemma {:induction false} CleanedPermutation(a: seq<Evaluate>, b: seq<Evaluate>)
    requires multiset(a) == multiset(b)
    ensures multiset(Cleaned(a)) == multiset(Cleaned(b))
    decreases |a|
  {
    assert |a| == |multiset(a)| == |multiset(b)| == |b|;
    if a == [] {
      assert b == [];
    } else {
      InPermutation(a, b, a[0]);
      var j :| 0 <= j < |b| && b[j] == a[0];
      CleanedSplit(a, 0);
      CleanedSplit(b, j);
      RemoveBoth(a, b, j);
      CleanedPermutation(WithoutAt(a, 0), WithoutAt(b, j));
    }
  }

  lemma CleanedSplit(s: seq<Evaluate>, j: nat)
    requires j < |s|
    ensures multiset(Cleaned(s)) == multiset{WithSortedIds(s[j])} + multiset(Cleaned(WithoutAt(s, j)))
  {
    SplitAt(Cleaned(s), j);
    CleanedWithoutAt(s, j);
  }

  lemma CleanedWithoutAt(s: seq<Evaluate>, j: nat)
    requires j < |s|
    ensures WithoutAt(Cleaned(s), j) == Cleaned(WithoutAt(s, j))
  {
    var a, b := WithoutAt(Cleaned(s), j), Cleaned(WithoutAt(s, j));
    forall i | 0 <= i < |a| ensures a[i] == b[i] {
      WithoutAtIndex(Cleaned(s), j, i);
      WithoutAtIndex(s, j, i);
    }
  }

  /** Entries that share catalog and version list the same requirements. */
  ghost predicate Consistent(xs: seq<Evaluate>)
  {
    forall x, y :: x in xs && y in xs && SameKey(x, y) ==> WithSortedIds(x) == WithSortedIds(y)
  }

  ghost predicate OrderIndependent(xs: seq<Evaluate>)
  {
    forall ys :: multiset(ys) == multiset(xs) ==> Canonical(ys) == Canonical(xs)
  }

  lemma ConsistentIsOrderIndependent(xs: seq<Evaluate>, ys: seq<Evaluate>)
    requires Consistent(xs) && multiset(ys) == multiset(xs)
    ensures Canonical(ys) == Canonical(xs)
  {
    EvaluateLeIsTotalPreorder();
    CleanedPermutation(xs, ys);
    forall x, y | x in Cleaned(xs) && y in Cleaned(xs) && Equivalent(EvaluateLe, x, y) ensures x == y {
      var i :| 0 <= i < |xs| && Cleaned(xs)[i] == x;
      var j :| 0 <= j < |xs| && Cleaned(xs)[j] == y;
      assert xs[i] in xs && xs[j] in xs && SameKey(xs[i], xs[j]);
    }
    SortedPermutation(EvaluateLe, Cleaned(xs), Cleaned(ys));
  }

  /** An entry moved to the front is the first of those it ties with. */
  lemma FrontComesFirst(xs: seq<Evaluate>, i: nat) returns (ys: seq<Evaluate>)
    requires i < |xs|
    ensures multiset(ys) == multiset(xs)
    ensures |Ties(EvaluateLe, WithSortedIds(xs[i]), Canonical(ys))| > 0
    ensures Ties(EvaluateLe, WithSortedIds(xs[i]), Canonical(ys))[0] == WithSortedIds(xs[i])
  {
    ys := [xs[i]] + WithoutAt(xs, i);
    SplitAt(xs, i);
    EvaluateLeIsTotalPreorder();
    SortStable(EvaluateLe, Cleaned(ys), WithSortedIds(xs[i]));
    assert Cleaned(ys)[0] == WithSortedIds(xs[i]);
    assert SameKey(WithSortedIds(xs[i]), WithSortedIds(xs[i]));
  }

  /**
   The list does not depend on declaration order exactly when entries with the
   same catalog and version list the same requirements; distinct pairs are the usual case.
   */
  lemma OrderIndependentIff(xs: seq<Evaluate>)
    ensures OrderIndependent(xs) <==> Consistent(xs)
  {
    if Consistent(xs) {
      forall ys | multiset(ys) == multiset(xs) ensures Canonical(ys) == Canonical(xs) {
        ConsistentIsOrderIndependent(xs, ys);
      }
    }
    if OrderIndependent(xs) {
      forall x, y | x in xs && y in xs && SameKey(x, y) ensures WithSortedIds(x) == WithSortedIds(y) {
        var i :| 0 <= i < |xs| && xs[i] == x;
        var j :| 0 <= j < |xs| && xs[j] == y;
        var a := FrontComesFirst(xs, i);
        var b := FrontComesFirst(xs, j);
        SameTies(WithSortedIds(x), WithSortedIds(y), Canonical(xs));
      }
    }
  }

  lemma {:induction false} SameTies(x: Evaluate, y: Evaluate, s: seq<Evaluate>)
    requires SameKey(x, y)
    ensures Ties(EvaluateLe, x, s) == Ties(EvaluateLe, y, s)
  {
    EvaluateLeIsTotalPreorder();
    if s != [] {
      SameTies(x, y, s[1..]);
      assert SameKey(x, s[0]) <==> SameKey(y, s[0]);
    }
  }

  /** The order of the requirement ids inside the entries never matters. */
  lemma RequirementOrderIrrelevant(xs: seq<Evaluate>, ys: seq<Evaluate>)
    requires |xs| == |ys|
    requires forall i :: 0 <= i < |xs| ==>
      SameKey(xs[i], ys[i]) && multiset(xs[i].requirementIds) == multiset(ys[i].requirementIds)
    ensures Canonical(xs) == Canonical(ys)
  {
    forall i | 0 <= i < |xs| ensures Cleaned(xs)[i] == Cleaned(ys)[i] {
      SortStringsPermutation(xs[i].requirementIds, ys[i].requirementIds);
    }
    assert Cleaned(xs) == Cleaned(ys);
  }
}
