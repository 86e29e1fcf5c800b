/** Byte order of strings and sorting by a strict total order. */
module Ordering {

  // Lexicographic order, as Go compares strings.
  predicate Less(a: string, b: string) {
    b != [] && (a == [] || a[0] < b[0] || (a[0] == b[0] && Less(a[1..], b[1..])))
  }

  lemma {:induction false} LessTotal(a: string, b: string)
    ensures Less(a, b) || Less(b, a) || a == b
    ensures !(Less(a, b) && Less(b, a)) && !(a == b && Less(a, b))
  {
    if a != [] && b != [] {
      LessTotal(a[1..], b[1..]);
      assert a == [a[0]] + a[1..] && b == [b[0]] + b[1..];
    }
  }

  lemma {:induction false} LessTransitive(a: string, b: string, c: string)
    requires Less(a, b) && Less(b, c)
    ensures Less(a, c)
  {
    if a != [] && a[0] == b[0] == c[0] {
      LessTransitive(a[1..], b[1..], c[1..]);
    }
  }

  // The first difference decides, and a proper prefix comes first.
  lemma {:induction false} LessMeans(a: string, b: string)
    ensures Less(a, b) <==>
            exists n :: 0 <= n <= |a| && n < |b| && a[..n] == b[..n] && (n == |a| || a[n] < b[n])
  {
    if a == [] || b == [] {
      if b != [] { assert a[..0] == b[..0]; }
    } else {
      LessMeans(a[1..], b[1..]);
      if Less(a[1..], b[1..]) && a[0] == b[0] {
        var n :| 0 <= n <= |a[1..]| && n < |b[1..]| && a[1..][..n] == b[1..][..n]
                 && (n == |a[1..]| || a[1..][n] < b[1..][n]);
        assert a[..n + 1] == [a[0]] + a[1..][..n] && b[..n + 1] == [b[0]] + b[1..][..n];
      } else if a[0] < b[0] {
        assert a[..0] == b[..0];
      }
      if n :| 0 <= n <= |a| && n < |b| && a[..n] == b[..n] && (n == |a| || a[n] < b[n]) {
        if n > 0 {
          assert a[0] == a[..n][0] == b[..n][0] == b[0];
          assert a[1..][..n - 1] == a[..n][1..] && b[1..][..n - 1] == b[..n][1..];
        }
      }
    }
  }

  // Strictly ascending: sorted and free of duplicates.
  ghost predicate Ascending<T(!new)>(less: (T, T) -> bool, xs: seq<T>) {
    forall i, j :: 0 <= i < j < |xs| ==> less(xs[i], xs[j])
  }

  ghost predicate StrictTotal<T(!new)>(less: (T, T) -> bool) {
    && (forall a, b :: less(a, b) || less(b, a) || a == b)
    && (forall a, b :: !(less(a, b) && less(b, a)))
    && (forall a, b, c :: less(a, b) && less(b, c) ==> less(a, c))
  }

  ghost function Elements<T>(xs: seq<T>): set<T> {
    set x | x in xs
  }

  // Insertion sort of distinct values.
  method Sort<T(==,!new)>(less: (T, T) -> bool, xs: seq<T>) returns (r: seq<T>)
    requires StrictTotal(less) && forall i, j :: 0 <= i < j < |xs| ==> xs[i] != xs[j]
    ensures Ascending(less, r) && |r| == |xs|
    ensures forall x :: x in r <==> x in xs
  {
    r := [];
    for n := 0 to |xs|
      invariant Ascending(less, r) && |r| == n
      invariant forall x :: x in r <==> x in xs[..n]
    {
      var k := 0;
      while k < |r| && less(r[k], xs[n])
        invariant k <= |r| && forall i :: 0 <= i < k ==> less(r[i], xs[n])
      {
        k := k + 1;
      }
      ghost var before := r;
      r := r[..k] + [xs[n]] + r[k..];
      Inserted(less, before, xs, n, k);
    }
    assert xs[..|xs|] == xs;
  }

  lemma Inserted<T(!new)>(less: (T, T) -> bool, r: seq<T>, xs: seq<T>, n: nat, k: nat)
    requires StrictTotal(less) && Ascending(less, r) && n < |xs| && k <= |r|
    requires forall i, j :: 0 <= i < j < |xs| ==> xs[i] != xs[j]
    requires forall x :: x in r <==> x in xs[..n]
    requires forall i :: 0 <= i < k ==> less(r[i], xs[n])
    requires k < |r| ==> !less(r[k], xs[n])
    ensures Ascending(less, r[..k] + [xs[n]] + r[k..])
    ensures forall x :: x in r[..k] + [xs[n]] + r[k..] <==> x in xs[..n + 1]
  {
    var r' := r[..k] + [xs[n]] + r[k..];
    forall i | k <= i < |r| ensures less(xs[n], r[i]) {
      assert r[i] in xs[..n];
      assert r[k] in xs[..n];
    }
    assert r == r[..k] + r[k..];
    assert xs[..n + 1] == xs[..n] + [xs[n]];
    forall i, j | 0 <= i < j < |r'| ensures less(r'[i], r'[j]) {
      assert r'[i] == if i < k then r[i] else if i == k then xs[n] else r[i - 1];
      assert r'[j] == if j < k then r[j] else if j == k then xs[n] else r[j - 1];
    }
  }

  // A set has one ascending listing.
  lemma {:induction false} AscendingUnique<T(!new)>(less: (T, T) -> bool, a: seq<T>, b: seq<T>)
    requires StrictTotal(less) && Ascending(less, a) && Ascending(less, b)
    requires forall x :: x in a <==> x in b
    ensures a == b
  {
    assert b != [] ==> b[0] in a;
    if a != [] {
      assert a[0] in b;
      var j :| 0 <= j < |b| && b[j] == a[0];
      var i :| 0 <= i < |a| && a[i] == b[0];
      assert i == 0 && j == 0;
      forall x | x in a[1..] ensures x in b[1..] {
        assert x in b;
      }
      forall x | x in b[1..] ensures x in a[1..] {
        assert x in a;
      }
      AscendingUnique(less, a[1..], b[1..]);
    }
  }

  lemma LessStrictTotal()
    ensures StrictTotal(Less)
  {
    forall a: string, b: string ensures (Less(a, b) || Less(b, a) || a == b) && !(Less(a, b) && Less(b, a)) {
      LessTotal(a, b);
    }
    forall a: string, b: string, c: string | Less(a, b) && Less(b, c) ensures Less(a, c) {
      LessTransitive(a, b, c);
    }
  }

  // The ids of a set in ascending order.
  predicate SortedIds(ids: seq<string>) {
    forall i, j :: 0 <= i < j < |ids| ==> Less(ids[i], ids[j])
  }

  method SortStrings(xs: seq<string>) returns (r: seq<string>)
    requires forall i, j :: 0 <= i < j < |xs| ==> xs[i] != xs[j]
    ensures SortedIds(r) && Elements(r) == Elements(xs)
  {
    LessStrictTotal();
    r := Sort(Less, xs);
  }

  lemma SortedIdsUnique(a: seq<string>, b: seq<string>)
    requires SortedIds(a) && SortedIds(b) && Elements(a) == Elements(b)
    ensures a == b
  {
    LessStrictTotal();
    assert forall x :: x in a <==> x in Elements(a);
    assert forall x :: x in b <==> x in Elements(b);
    AscendingUnique(Less, a, b);
  }

  lemma {:induction false} ListingExists<T(!new)>(less: (T, T) -> bool, xs: set<T>) returns (r: seq<T>)
    requires StrictTotal(less)
    ensures Ascending(less, r) && Elements(r) == xs && |r| == |xs|
  {
    if xs == {} {
      r := [];
    } else {
      var least := Least(less, xs);
      var rest := ListingExists(less, xs - {least});
      assert forall x :: x in rest ==> x in Elements(rest);
      r := [least] + rest;
      assert Elements(r) == {least} + Elements(rest);
    }
  }

  lemma {:induction false} Least<T(!new)>(less: (T, T) -> bool, xs: set<T>) returns (least: T)
    requires StrictTotal(less) && xs != {}
    ensures least in xs && forall x :: x in xs && x != least ==> less(least, x)
    decreases |xs|
  {
    var x :| x in xs;
    least := x;
    if xs != {x} {
      var rest := xs - {x};
      assert xs == rest + {x};
      var y := Least(less, rest);
      if less(y, x) { least := y; }
    }
  }

  // The only sorted, duplicate-free listing of a set.
  ghost function Listing(ids: set<string>): (r: seq<string>)
    ensures SortedIds(r) && Elements(r) == ids
  {
    assert exists r :: SortedIds(r) && Elements(r) == ids by {
      LessStrictTotal();
      var r := ListingExists(Less, ids);
    }
    var r :| SortedIds(r) && Elements(r) == ids;
    r
  }

  // First occurrences only.
  function Distinct(xs: seq<string>): (r: seq<string>)
    ensures forall i, j :: 0 <= i < j < |r| ==> r[i] != r[j]
    ensures forall x :: x in r <==> x in xs
    ensures (forall i, j :: 0 <= i < j < |xs| ==> xs[i] != xs[j]) ==> r == xs
  {
    if xs == [] then []
    else
      var before := Distinct(xs[..|xs| - 1]);
      var x := xs[|xs| - 1];
      if x in before then before else before + [x]
  }

  method SortedDistinct(xs: seq<string>) returns (r: seq<string>)
    ensures r == Listing(Elements(xs))
  {
    r := SortStrings(Distinct(xs));
    assert Elements(Distinct(xs)) == Elements(xs);
    SortedIdsUnique(r, Listing(Elements(xs)));
  }
}
