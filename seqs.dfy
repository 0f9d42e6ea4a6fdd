/** Sequence operations that model what the SQL statements of the store do to a table:
    a WHERE clause selecting or deleting rows is a Filter, a lookup that reads one row is
    FindFirst. */
module Seqs {
  import opened Errors

  /** The rows of `s` that satisfy `keep`, in their original order. */
  function Filter<T>(s: seq<T>, keep: T -> bool): (r: seq<T>)
    ensures |r| <= |s|
    ensures forall x :: x in r ==> x in s && keep(x)
    ensures forall x :: x in s && keep(x) ==> x in r
  {
    if s == [] then []
    else if keep(s[0]) then [s[0]] + Filter(s[1..], keep)
    else Filter(s[1..], keep)
  }

  /** Nothing is removed exactly when every row is kept, and then the table is unchanged:
      this is how "zero rows affected" is recognised. */
  lemma {:induction false} FilterKeepsAll<T>(s: seq<T>, keep: T -> bool)
    ensures |Filter(s, keep)| == |s| <==> forall x :: x in s ==> keep(x)
    ensures (forall x :: x in s ==> keep(x)) ==> Filter(s, keep) == s
  {
    if s != [] {
      FilterKeepsAll(s[1..], keep);
      assert forall x :: x in s[1..] ==> x in s;
      if !keep(s[0]) {
        assert |Filter(s, keep)| <= |s[1..]|;
      }
    }
  }

  /** Nothing is kept when no row satisfies `keep`. */
  lemma {:induction false} FilterKeepsNone<T>(s: seq<T>, keep: T -> bool)
    requires forall x :: x in s ==> !keep(x)
    ensures Filter(s, keep) == []
  {
    if s != [] {
      assert forall x :: x in s[1..] ==> x in s;
      FilterKeepsNone(s[1..], keep);
    }
  }

  /** Filtering twice is filtering once by the conjunction. */
  lemma {:induction false} FilterTwice<T>(s: seq<T>, p: T -> bool, q: T -> bool, both: T -> bool)
    requires forall x :: both(x) == (p(x) && q(x))
    ensures Filter(Filter(s, p), q) == Filter(s, both)
  {
    if s != [] {
      FilterTwice(s[1..], p, q, both);
    }
  }

  /** Filters by predicates that agree on every element of `s` select the same rows. */
  lemma {:induction false} FilterAgrees<T>(s: seq<T>, p: T -> bool, q: T -> bool)
    requires forall x :: x in s ==> p(x) == q(x)
    ensures Filter(s, p) == Filter(s, q)
  {
    if s != [] {
      assert forall x :: x in s[1..] ==> x in s;
      FilterAgrees(s[1..], p, q);
    }
  }

  /** Filtering a table extended by one row. */
  lemma {:induction false} FilterAppend<T>(s: seq<T>, x: T, keep: T -> bool)
    ensures Filter(s + [x], keep) == Filter(s, keep) + (if keep(x) then [x] else [])
  {
    if s == [] {
      assert [x][1..] == [];
    } else {
      assert (s + [x])[1..] == s[1..] + [x];
      FilterAppend(s[1..], x, keep);
    }
  }

  /** The first row satisfying `p`, if any. */
  function FindFirst<T>(s: seq<T>, p: T -> bool): (r: Option<T>)
    ensures r.Some? ==> r.value in s && p(r.value)
    ensures r.None? ==> forall x :: x in s ==> !p(x)
    ensures (exists x :: x in s && p(x)) ==> r.Some?
  {
    if s == [] then None
    else if p(s[0]) then Some(s[0])
    else FindFirst(s[1..], p)
  }

  /** Row keys strictly increase along the table: rows are appended with fresh, larger ids. */
  ghost predicate KeysIncreasing<T>(s: seq<T>, key: T -> nat)
  {
    forall i, j :: 0 <= i < j < |s| ==> key(s[i]) < key(s[j])
  }

  /** Deleting rows keeps the remaining ones in key order. */
  lemma {:induction false} FilterKeepsKeysIncreasing<T>(s: seq<T>, keep: T -> bool, key: T -> nat)
    requires KeysIncreasing(s, key)
    ensures KeysIncreasing(Filter(s, keep), key)
  {
    if s != [] {
      FilterKeepsKeysIncreasing(s[1..], keep, key);
      if keep(s[0]) {
        HeadBelowTail(s, key);
        ConsIncreasing(s[0], Filter(s[1..], keep), key);
      }
    }
  }

  lemma HeadBelowTail<T>(s: seq<T>, key: T -> nat)
    requires s != [] && KeysIncreasing(s, key)
    ensures forall y :: y in s[1..] ==> key(s[0]) < key(y)
  {
    forall y | y in s[1..] ensures key(s[0]) < key(y) {
      var k :| 0 <= k < |s[1..]| && s[1..][k] == y;
      assert s[k + 1] == y;
    }
  }

  lemma ConsIncreasing<T>(x: T, rest: seq<T>, key: T -> nat)
    requires KeysIncreasing(rest, key)
    requires forall y :: y in rest ==> key(x) < key(y)
    ensures KeysIncreasing([x] + rest, key)
  {
    var r := [x] + rest;
    forall i, j | 0 <= i < j < |r| ensures key(r[i]) < key(r[j]) {
      assert r[j] == rest[j - 1];
      if i == 0 {
        assert r[j] in rest;
      } else {
        assert r[i] == rest[i - 1];
      }
    }
  }

  /** In a table whose keys increase, a key identifies its row. */
  lemma KeyIdentifies<T>(s: seq<T>, key: T -> nat, x: T, y: T)
    requires KeysIncreasing(s, key) && x in s && y in s && key(x) == key(y)
    ensures x == y
  {
    var i :| 0 <= i < |s| && s[i] == x;
    var j :| 0 <= j < |s| && s[j] == y;
    assert !(i < j) && !(j < i);
  }

  /** At most one row per value of `key` (a uniqueness the code enforces by counting first). */
  ghost predicate UniqueBy<T, K>(s: seq<T>, key: T -> K)
  {
    forall x, y :: x in s && y in s && key(x) == key(y) ==> x == y
  }

  /** In a table whose ids increase, uniqueness by `key` means no two positions share a key:
      the table holds no duplicate in the sense of a SQL COUNT. */
  lemma DistinctPositions<T, K>(s: seq<T>, id: T -> nat, key: T -> K)
    requires KeysIncreasing(s, id) && UniqueBy(s, key)
    ensures forall i, j :: 0 <= i < j < |s| ==> key(s[i]) != key(s[j])
  {
    forall i, j | 0 <= i < j < |s| ensures key(s[i]) != key(s[j]) {
      assert s[i] in s && s[j] in s;
      assert id(s[i]) < id(s[j]);
    }
  }
}
