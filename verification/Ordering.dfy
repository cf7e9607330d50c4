/** Comparing and sorting by a string key, as `Array.prototype.sort` does it with the
    estate scripts' comparator. */
module Ordering {
  /** `a < b` on strings. */
  predicate Less(a: string, b: string) {
    b != "" && (a == "" || a[0] < b[0] || (a[0] == b[0] && Less(a[1..], b[1..])))
  }

  lemma {:induction false} LessTotal(a: string, b: string)
    ensures a == b || Less(a, b) || Less(b, a)
    ensures !(Less(a, b) && Less(b, a)) && !Less(a, a)
  {
    if a != "" {
      LessTotal(a[1..], a[1..]);
      if b != "" {
        LessTotal(a[1..], b[1..]);
        assert a == [a[0]] + a[1..] && b == [b[0]] + b[1..];
      }
    }
  }

  lemma {:induction false} LessTransitive(a: string, b: string, c: string)
    requires Less(a, b) && Less(b, c)
    ensures Less(a, c)
  {
    if a != "" && a[0] == b[0] && b[0] == c[0] {
      LessTransitive(a[1..], b[1..], c[1..]);
    }
  }

  function Insert<T>(xs: seq<T>, x: T, key: T -> string): seq<T> {
    if xs == [] then [x]
    else
      var last := xs[|xs| - 1];
      if Less(key(x), key(last)) then Insert(xs[..|xs| - 1], x, key) + [last] else xs + [x]
  }

  /** A stable sort by key: `[...xs].sort((a, b) => a.path < b.path ? -1 : a.path > b.path ? 1 : 0)`. */
  function SortBy<T>(xs: seq<T>, key: T -> string): seq<T> {
    if xs == [] then [] else Insert(SortBy(xs[..|xs| - 1], key), xs[|xs| - 1], key)
  }

  ghost predicate Increasing<T>(xs: seq<T>, key: T -> string) {
    forall i, j | 0 <= i < j < |xs| :: Less(key(xs[i]), key(xs[j]))
  }

  ghost predicate DistinctKeys<T>(xs: seq<T>, key: T -> string) {
    forall i, j | 0 <= i < j < |xs| :: key(xs[i]) != key(xs[j])
  }

  ghost predicate SameMembers<T(!new)>(xs: seq<T>, ys: seq<T>) {
    forall x :: x in xs <==> x in ys
  }

  lemma {:induction false} InsertKeepsMembers<T(!new)>(xs: seq<T>, x: T, key: T -> string)
    ensures |Insert(xs, x, key)| == |xs| + 1
    ensures forall y :: y in Insert(xs, x, key) <==> y in xs || y == x
  {
    if xs != [] {
      InsertKeepsMembers(xs[..|xs| - 1], x, key);
      assert xs == xs[..|xs| - 1] + [xs[|xs| - 1]];
    }
  }

  /** Sorting keeps the members of any list. */
  lemma {:induction false} SortKeepsMembers<T(!new)>(xs: seq<T>, key: T -> string)
    ensures |SortBy(xs, key)| == |xs| && SameMembers(SortBy(xs, key), xs)
  {
    if xs != [] {
      var init := xs[..|xs| - 1];
      SortKeepsMembers(init, key);
      InsertKeepsMembers(SortBy(init, key), xs[|xs| - 1], key);
      assert xs == init + [xs[|xs| - 1]];
    }
  }

  lemma MemberBelow<T>(init: seq<T>, y: T, xs: seq<T>, key: T -> string)
    requires Increasing(xs, key) && |xs| >= 1 && init == xs[..|xs| - 1] && y in init
    ensures Less(key(y), key(xs[|xs| - 1]))
  {
    var k :| 0 <= k < |init| && init[k] == y;
    assert xs[k] == y;
  }

  lemma {:induction false} InsertSorts<T(!new)>(xs: seq<T>, x: T, key: T -> string)
    requires Increasing(xs, key) && forall k | 0 <= k < |xs| :: key(xs[k]) != key(x)
    ensures Increasing(Insert(xs, x, key), key)
  {
    if xs != [] {
      var init, last := xs[..|xs| - 1], xs[|xs| - 1];
      assert xs == init + [last];
      LessTotal(key(x), key(last));
      if Less(key(x), key(last)) {
        InsertSorts(init, x, key);
        InsertKeepsMembers(init, x, key);
        var r := Insert(init, x, key);
        forall i | 0 <= i < |r| ensures Less(key(r[i]), key(last)) {
          assert r[i] in r;
          if r[i] != x { MemberBelow(init, r[i], xs, key); }
        }
        assert Insert(xs, x, key) == r + [last];
      } else {
        forall i | 0 <= i < |xs| ensures Less(key(xs[i]), key(x)) {
          if i < |xs| - 1 { LessTransitive(key(xs[i]), key(last), key(x)); }
        }
      }
    }
  }

  lemma {:induction false} SortSorts<T(!new)>(xs: seq<T>, key: T -> string)
    requires DistinctKeys(xs, key)
    ensures Increasing(SortBy(xs, key), key)
  {
    if xs != [] {
      var init, last := xs[..|xs| - 1], xs[|xs| - 1];
      SortSorts(init, key);
      SortKeepsMembers(init, key);
      var sorted := SortBy(init, key);
      forall k | 0 <= k < |sorted| ensures key(sorted[k]) != key(last) {
        assert sorted[k] in init;
        var i :| 0 <= i < |init| && init[i] == sorted[k];
        assert xs[i] == sorted[k];
      }
      InsertSorts(sorted, last, key);
      assert xs == init + [last];
    }
  }

  /** There is one increasing list with given members. */
  lemma {:induction false} IncreasingIsUnique<T(!new)>(xs: seq<T>, ys: seq<T>, key: T -> string)
    requires Increasing(xs, key) && Increasing(ys, key) && SameMembers(xs, ys)
    ensures xs == ys
    decreases |xs|
  {
    if xs == [] {
      NoMembers(ys, xs);
    } else if ys == [] {
      NoMembers(xs, ys);
    } else {
      var x, y := xs[|xs| - 1], ys[|ys| - 1];
      assert x in ys && y in xs;
      LastIsGreatest(xs, y, key);
      LastIsGreatest(ys, x, key);
      LessTotal(key(x), key(y));
      assert x == y;
      DropLastMembers(xs, ys, key);
      IncreasingIsUnique(xs[..|xs| - 1], ys[..|ys| - 1], key);
      assert xs == xs[..|xs| - 1] + [x] && ys == ys[..|ys| - 1] + [y];
    }
  }

  lemma NoMembers<T(!new)>(xs: seq<T>, empty: seq<T>)
    requires SameMembers(xs, empty) && empty == []
    ensures xs == []
  {
    FirstIsMember(xs);
  }

  lemma FirstIsMember<T>(xs: seq<T>)
    ensures xs == [] || xs[0] in xs
  {
  }

  lemma LastIsGreatest<T(!new)>(xs: seq<T>, y: T, key: T -> string)
    requires Increasing(xs, key) && y in xs
    ensures y == xs[|xs| - 1] || Less(key(y), key(xs[|xs| - 1]))
  {
  }

  lemma DropLastMembers<T(!new)>(xs: seq<T>, ys: seq<T>, key: T -> string)
    requires Increasing(xs, key) && Increasing(ys, key) && SameMembers(xs, ys)
    requires xs != [] && ys != [] && xs[|xs| - 1] == ys[|ys| - 1]
    ensures Increasing(xs[..|xs| - 1], key) && Increasing(ys[..|ys| - 1], key)
    ensures SameMembers(xs[..|xs| - 1], ys[..|ys| - 1])
  {
    LastOnlyOnce(xs, key);
    LastOnlyOnce(ys, key);
    var a, b := xs[..|xs| - 1], ys[..|ys| - 1];
    forall z ensures z in a <==> z in b {
      assert z in xs <==> z in ys;
    }
  }

  lemma LastOnlyOnce<T(!new)>(xs: seq<T>, key: T -> string)
    requires Increasing(xs, key) && xs != []
    ensures forall z :: z in xs[..|xs| - 1] <==> z in xs && z != xs[|xs| - 1]
  {
    assert xs == xs[..|xs| - 1] + [xs[|xs| - 1]];
    LessTotal(key(xs[|xs| - 1]), key(xs[|xs| - 1]));
  }

  /** Sorting forgets the order of any list with distinct keys. */
  lemma SortForgetsOrder<T(!new)>(xs: seq<T>, ys: seq<T>, key: T -> string)
    requires DistinctKeys(xs, key) && DistinctKeys(ys, key)
    ensures SortBy(xs, key) == SortBy(ys, key) <==> SameMembers(xs, ys)
  {
    SortSorts(xs, key);
    SortSorts(ys, key);
    SortKeepsMembers(xs, key);
    SortKeepsMembers(ys, key);
    if SameMembers(xs, ys) {
      IncreasingIsUnique(SortBy(xs, key), SortBy(ys, key), key);
    }
  }
}
