/** `Array.prototype.sort` with a descending numeric comparator
    (`(a, b) => key(b) - key(a)`), modelled as a stable insertion sort on
    a key that may be `NaN`: a comparison involving `NaN` is false, so such
    an element never moves ahead of another one. */
module Sorting {
  import opened Wrappers

  /** Both keys are numbers and the first is the smaller. */
  predicate Below(a: Option<real>, b: Option<real>) {
    a.Some? && b.Some? && a.value < b.value
  }

  /** Inserts `x` after every element whose key it does not exceed. */
  function Insert<T>(x: T, s: seq<T>, key: T -> Option<real>): (r: seq<T>)
    ensures |r| == |s| + 1
    ensures multiset(r) == multiset(s) + multiset{x}
  {
    if s == [] then [x]
    else if Below(key(s[0]), key(x)) then [x] + s
    else
      assert s == [s[0]] + s[1..];
      [s[0]] + Insert(x, s[1..], key)
  }

  /** Inserts each element in turn, first to last. */
  function SortDesc<T>(s: seq<T>, key: T -> Option<real>): (r: seq<T>)
    ensures |r| == |s|
    ensures multiset(r) == multiset(s)
    decreases |s|
  {
    if s == [] then []
    else
      assert s == s[..|s| - 1] + [s[|s| - 1]];
      Insert(s[|s| - 1], SortDesc(s[..|s| - 1], key), key)
  }

  /** No numeric key is below a numeric key that comes after it. */
  predicate Descending<T>(s: seq<T>, key: T -> Option<real>) {
    forall i, j :: 0 <= i < j < |s| ==> !Below(key(s[i]), key(s[j]))
  }

  lemma {:induction false} InsertKeepsDescending<T>(x: T, s: seq<T>, key: T -> Option<real>)
    requires Descending(s, key)
    ensures Descending(Insert(x, s, key), key)
    decreases |s|
  {
    if s != [] && !Below(key(s[0]), key(x)) {
      var rest := Insert(x, s[1..], key);
      InsertKeepsDescending(x, s[1..], key);
      forall y | y in rest
        ensures !Below(key(s[0]), key(y))
      {
        assert y in multiset(rest);
        if y != x {
          assert y in multiset(s[1..]);
          var j :| 0 <= j < |s[1..]| && s[1..][j] == y;
          assert s[j + 1] == y;
        }
      }
      var r := [s[0]] + rest;
      forall i, j | 0 <= i < j < |r|
        ensures !Below(key(r[i]), key(r[j]))
      {
        if i == 0 {
          assert r[j] == rest[j - 1] && rest[j - 1] in rest;
        } else {
          assert r[i] == rest[i - 1] && r[j] == rest[j - 1];
        }
      }
    } else if s != [] {
      var r := [x] + s;
      forall i, j | 0 <= i < j < |r|
        ensures !Below(key(r[i]), key(r[j]))
      {
        if i == 0 {
          assert r[j] == s[j - 1];
          assert !Below(key(s[0]), key(s[j - 1])) || j - 1 == 0;
        } else {
          assert r[i] == s[i - 1] && r[j] == s[j - 1];
        }
      }
    }
  }

  /** The sorted sequence is descending on its numeric keys. */
  lemma {:induction false} SortDescIsDescending<T>(s: seq<T>, key: T -> Option<real>)
    ensures Descending(SortDesc(s, key), key)
    decreases |s|
  {
    if s != [] {
      SortDescIsDescending(s[..|s| - 1], key);
      InsertKeepsDescending(s[|s| - 1], SortDesc(s[..|s| - 1], key), key);
    }
  }

  /** `slice(0, n)`: the first `min(n, |s|)` elements. */
  function Take<T>(s: seq<T>, n: nat): (r: seq<T>)
    ensures |r| == if |s| <= n then |s| else n
    ensures r == s[..|r|]
    ensures |s| <= n ==> r == s
  {
    if |s| <= n then s else s[..n]
  }

  /** The first `n` elements of a descending sequence are descending, and
      none of them is below an element left out. */
  lemma TakeKeepsLargest<T>(s: seq<T>, n: nat, key: T -> Option<real>)
    requires Descending(s, key)
    ensures Descending(Take(s, n), key)
    ensures forall i, j :: 0 <= i < |Take(s, n)| <= j < |s| ==> !Below(key(s[i]), key(s[j]))
  {
  }
}
