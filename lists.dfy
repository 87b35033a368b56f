/** Generic facts about finite lists used by several views: ascending
    number lists, sorting by insertion, removing repeats and filtering. */
module Lists {

  /** No element occurs twice. */
  predicate Distinct<T(==)>(s: seq<T>) {
    forall i, j :: 0 <= i < j < |s| ==> s[i] != s[j]
  }

  /** Strictly ascending, hence also without repeats. */
  predicate StrictlyIncreasing(s: seq<int>) {
    forall i, j :: 0 <= i < j < |s| ==> s[i] < s[j]
  }

  /** Inserting `x` into an ascending list, before the first element not
      smaller than it. */
  function Insert(s: seq<int>, x: int): (r: seq<int>)
    ensures multiset(r) == multiset(s) + multiset{x}
    decreases |s|
  {
    if s == [] || x <= s[0] then [x] + s
    else
      assert s == [s[0]] + s[1..];
      [s[0]] + Insert(s[1..], x)
  }

  /** Numbers in ascending order, by insertion. This is `.sort((a, b) => a - b)`,
      and also the default `.sort()` on numbers whose numerals have equal
      length, for which string order is numeric order. */
  function SortNumbers(s: seq<int>): (r: seq<int>)
    ensures multiset(r) == multiset(s)
    decreases |s|
  {
    if s == [] then []
    else
      assert s == s[..|s| - 1] + [s[|s| - 1]];
      Insert(SortNumbers(s[..|s| - 1]), s[|s| - 1])
  }

  lemma {:induction false} InsertIncreasing(s: seq<int>, x: int)
    requires StrictlyIncreasing(s) && x !in s
    ensures StrictlyIncreasing(Insert(s, x))
    decreases |s|
  {
    if s != [] && x > s[0] {
      InsertIncreasing(s[1..], x);
      var r := Insert(s[1..], x);
      forall j | 0 <= j < |r| ensures s[0] < r[j] {
        assert r[j] in multiset(s[1..]) + multiset{x};
      }
    }
  }

  lemma {:induction false} InsertAtEnd(s: seq<int>, x: int)
    requires forall i :: 0 <= i < |s| ==> s[i] < x
    ensures Insert(s, x) == s + [x]
    decreases |s|
  {
    if s != [] {
      InsertAtEnd(s[1..], x);
      assert s == [s[0]] + s[1..];
    }
  }

  /** Sorting an ascending list leaves it unchanged. */
  lemma {:induction false} SortIncreasing(s: seq<int>)
    requires StrictlyIncreasing(s)
    ensures SortNumbers(s) == s
    decreases |s|
  {
    if s != [] {
      var init := s[..|s| - 1];
      SortIncreasing(init);
      InsertAtEnd(init, s[|s| - 1]);
    }
  }

  lemma HeadIsMember(b: seq<int>)
    ensures |b| > 0 ==> b[0] in b
  {
  }

  /** Two ascending lists with the same members are the same list. */
  lemma {:induction false} IncreasingUnique(a: seq<int>, b: seq<int>)
    requires StrictlyIncreasing(a) && StrictlyIncreasing(b)
    requires forall y :: y in a <==> y in b
    ensures a == b
    decreases |a|
  {
    if a == [] {
      HeadIsMember(b);
    } else {
      assert a[0] in b && b != [];
      assert b[0] in a;
      assert a[0] == b[0];
      forall y ensures y in a[1..] <==> y in b[1..] {
        assert y in a[1..] <==> y in a && y != a[0];
        assert y in b[1..] <==> y in b && y != b[0];
      }
      IncreasingUnique(a[1..], b[1..]);
      assert a == [a[0]] + a[1..] && b == [b[0]] + b[1..];
    }
  }


  /** Sorting a list without repeats gives an ascending list of the same
      numbers. */
  lemma {:induction false} SortDistinctIncreasing(s: seq<int>)
    requires Distinct(s)
    ensures StrictlyIncreasing(SortNumbers(s))
    ensures forall y :: y in SortNumbers(s) <==> y in s
    decreases |s|
  {
    if s != [] {
      var init, x := s[..|s| - 1], s[|s| - 1];
      SortDistinctIncreasing(init);
      assert x !in init by {
        forall i | 0 <= i < |init| ensures init[i] != x {
          assert init[i] == s[i];
        }
      }
      InsertIncreasing(SortNumbers(init), x);
      forall y ensures y in SortNumbers(s) <==> y in s {
        assert y in SortNumbers(s) <==> y in multiset(SortNumbers(s));
        assert y in s <==> y in multiset(s);
      }
    }
  }

  // ---------------------------------------------------------------------
  // Subsequences, filters and `[...new Set(xs)]`
  // ---------------------------------------------------------------------

  /** `r` is `s` with some elements dropped and the rest kept in order. */
  predicate IsSubsequence<T(==)>(r: seq<T>, s: seq<T>)
    decreases |s|
  {
    if s == [] then r == []
    else
      (r != [] && r[|r| - 1] == s[|s| - 1] && IsSubsequence(r[..|r| - 1], s[..|s| - 1]))
      || IsSubsequence(r, s[..|s| - 1])
  }

  /** `s.filter(p)`. */
  function Filter<T(==,!new)>(s: seq<T>, p: T -> bool): (r: seq<T>)
    ensures IsSubsequence(r, s)
    ensures forall x :: x in r <==> x in s && p(x)
    decreases |s|
  {
    if s == [] then []
    else
      var init, x := s[..|s| - 1], s[|s| - 1];
      var r := Filter(init, p) + (if p(x) then [x] else []);
      assert s[..|s| - 1] == init;
      assert p(x) ==> r[..|r| - 1] == Filter(init, p);
      assert !p(x) ==> r == Filter(init, p);
      r
  }

  /** Filtering with a test every element passes keeps the list. */
  lemma {:induction false} FilterAll<T(!new)>(s: seq<T>, p: T -> bool)
    requires forall i :: 0 <= i < |s| ==> p(s[i])
    ensures Filter(s, p) == s
    decreases |s|
  {
    if s != [] {
      var init, x := s[..|s| - 1], s[|s| - 1];
      assert s == init + [x];
      assert forall i :: 0 <= i < |init| ==> init[i] == s[i];
      FilterAll(init, p);
      FilterSnoc(init, x, p);
    }
  }

  /** Filtering a list with one more element filters the element last. */
  lemma FilterSnoc<T(!new)>(init: seq<T>, x: T, p: T -> bool)
    ensures Filter(init + [x], p) == Filter(init, p) + (if p(x) then [x] else [])
  {
    assert (init + [x])[..|init|] == init;
  }

  /** `[...new Set(s)]`: the distinct elements in order of first occurrence. */
  function Dedup<T(==,!new)>(s: seq<T>): (r: seq<T>)
    ensures Distinct(r)
    ensures IsSubsequence(r, s)
    ensures forall x :: x in r <==> x in s
    decreases |s|
  {
    if s == [] then []
    else
      var init, x := s[..|s| - 1], s[|s| - 1];
      var d := Dedup(init);
      var r := d + (if x in init then [] else [x]);
      assert s[..|s| - 1] == init;
      assert x !in init ==> r[..|r| - 1] == d;
      assert x in init ==> r == d;
      r
  }

  /** `r` lists elements in the order they are first seen in `s`: whatever
      `r` lists before `r[j]` occurs in `s` before every occurrence of
      `r[j]`. */
  ghost predicate FirstSeen<T>(r: seq<T>, s: seq<T>) {
    forall i, j, k :: 0 <= i < j < |r| && 0 <= k < |s| && s[k] == r[j] ==> r[i] in s[..k]
  }

  /** `Dedup` keeps first-seen order. */
  lemma {:induction false} DedupFirstSeen<T(!new)>(s: seq<T>)
    ensures FirstSeen(Dedup(s), s)
    decreases |s|
  {
    if s != [] {
      var init, x := s[..|s| - 1], s[|s| - 1];
      DedupFirstSeen(init);
      assert s == init + [x];
      FirstSeenSnoc(Dedup(init), init, x);
    }
  }

  /** One step of `Dedup`: appending an element not seen before, or nothing
      for one seen before, keeps first-seen order. */
  lemma FirstSeenSnoc<T>(d: seq<T>, init: seq<T>, x: T)
    requires FirstSeen(d, init)
    requires forall y :: y in d ==> y in init
    ensures FirstSeen(d + (if x in init then [] else [x]), init + [x])
  {
    var s := init + [x];
    if x in init {
      forall i, j, k | 0 <= i < j < |d| && 0 <= k < |s| && s[k] == d[j] ensures d[i] in s[..k] {
        if k == |init| {
          assert s[..k] == init;
        } else {
          assert s[k] == init[k];
          assert s[..k] == init[..k];
        }
      }
    } else {
      var r := d + [x];
      forall i, j, k | 0 <= i < j < |r| && 0 <= k < |s| && s[k] == r[j] ensures r[i] in s[..k] {
        assert r[i] == d[i] && d[i] in init;
        if k == |init| {
          assert s[..k] == init;
        } else {
          assert s[k] == init[k];
          assert s[..k] == init[..k];
        }
      }
    }
  }

  /** `[...new Set(rows.map(key))]`: the keys of the rows, each once, as
      the profile queries ask for the authors of the rows fetched. */
  function KeysOnce<T, K(==,!new)>(rows: seq<T>, key: T -> K): (r: seq<K>)
    ensures Distinct(r)
    ensures forall i :: 0 <= i < |rows| ==> key(rows[i]) in r
    ensures forall k :: k in r ==> exists i :: 0 <= i < |rows| && key(rows[i]) == k
  {
    var keys := seq(|rows|, i requires 0 <= i < |rows| => key(rows[i]));
    var r := Dedup(keys);
    assert forall i :: 0 <= i < |rows| ==> keys[i] == key(rows[i]) && keys[i] in keys;
    assert forall k :: k in r ==> k in keys;
    r
  }

  // ---------------------------------------------------------------------
  // A lookup object filled by `forEach(x => m[key(x)] = x)`
  // ---------------------------------------------------------------------

  /** The object the loop builds: later elements overwrite earlier ones
      with the same key. */
  function IndexBy<T, K(==)>(s: seq<T>, key: T -> K): map<K, T>
    decreases |s|
  {
    if s == [] then map[]
    else IndexBy(s[..|s| - 1], key)[key(s[|s| - 1]) := s[|s| - 1]]
  }

  /** The `forEach` loop itself. */
  method BuildIndex<T, K(==)>(s: seq<T>, key: T -> K) returns (m: map<K, T>)
    ensures m == IndexBy(s, key)
  {
    m := map[];
    var i := 0;
    while i < |s|
      invariant 0 <= i <= |s|
      invariant m == IndexBy(s[..i], key)
    {
      assert s[..i + 1][..i] == s[..i];
      m := m[key(s[i]) := s[i]];
      i := i + 1;
    }
    assert s[..i] == s;
  }

  /** The object has an entry for exactly the keys of the elements. */
  lemma {:induction false} IndexByKeys<T, K>(s: seq<T>, key: T -> K, k: K)
    ensures k in IndexBy(s, key) <==> exists i :: 0 <= i < |s| && key(s[i]) == k
    decreases |s|
  {
    if s != [] {
      var init := s[..|s| - 1];
      IndexByKeys(init, key, k);
      if exists i :: 0 <= i < |init| && key(init[i]) == k {
        var i :| 0 <= i < |init| && key(init[i]) == k;
        assert s[i] == init[i];
      }
      if exists i :: 0 <= i < |s| && key(s[i]) == k {
        var i :| 0 <= i < |s| && key(s[i]) == k;
        if i < |init| {
          assert init[i] == s[i];
        }
      }
    }
  }

  /** Each entry is the last element with its key. */
  lemma {:induction false} IndexByLast<T, K>(s: seq<T>, key: T -> K, i: int)
    requires 0 <= i < |s|
    requires forall j :: i < j < |s| ==> key(s[j]) != key(s[i])
    ensures key(s[i]) in IndexBy(s, key) && IndexBy(s, key)[key(s[i])] == s[i]
    decreases |s|
  {
    var init := s[..|s| - 1];
    if i < |init| {
      assert init[i] == s[i];
      forall j | i < j < |init| ensures key(init[j]) != key(init[i]) {
        assert init[j] == s[j];
      }
      IndexByLast(init, key, i);
    }
  }
}
