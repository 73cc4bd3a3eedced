/**
 * The array built-ins the case builder relies on: `indexOf`, and the
 * de-duplicating `filter((v, i, a) => a.indexOf(v) === i)`.
 */
module Sequences {

  /** No value occurs twice. */
  predicate Distinct<T(==)>(s: seq<T>) {
    forall i, j :: 0 <= i < j < |s| ==> s[i] != s[j]
  }

  /** `s.indexOf(v)`: the first position holding `v`, or -1. */
  function IndexOf<T(==)>(s: seq<T>, v: T): (i: int)
    ensures -1 <= i < |s|
    ensures i == -1 <==> v !in s
    ensures 0 <= i ==> s[i] == v && v !in s[..i]
  {
    if |s| == 0 then -1
    else if s[0] == v then 0
    else
      var j := IndexOf(s[1..], v);
      assert s[1..][..if j < 0 then 0 else j] == s[1..1 + if j < 0 then 0 else j];
      if j < 0 then -1 else j + 1
  }

  /** The elements of `s` from position `k` on that are the first occurrence of their value. */
  function KeepFirstFrom<T(==)>(s: seq<T>, k: nat): seq<T>
    requires k <= |s|
    decreases |s| - k
  {
    if k == |s| then []
    else (if IndexOf(s, s[k]) == k then [s[k]] else []) + KeepFirstFrom(s, k + 1)
  }

  /** What `KeepFirstFrom(s, k)` holds: exactly the values whose first occurrence is at `k` or later. */
  lemma {:induction false} KeepFirstFromMembers<T>(s: seq<T>, k: nat)
    requires k <= |s|
    ensures forall x :: x in KeepFirstFrom(s, k) ==> x in s && IndexOf(s, x) >= k
    ensures forall x :: x in s && IndexOf(s, x) >= k ==> x in KeepFirstFrom(s, k)
    ensures |KeepFirstFrom(s, k)| <= |s| - k
    decreases |s| - k
  {
    if k < |s| {
      KeepFirstFromMembers(s, k + 1);
      var rest := KeepFirstFrom(s, k + 1);
      var head: seq<T> := if IndexOf(s, s[k]) == k then [s[k]] else [];
      assert KeepFirstFrom(s, k) == head + rest;
      forall x | x in s && IndexOf(s, x) >= k ensures x in head + rest {
        if IndexOf(s, x) == k {
          assert x == s[k];
        }
      }
    }
  }

  lemma {:induction false} KeepFirstFromNoRepeats<T>(s: seq<T>, k: nat)
    requires k <= |s|
    ensures Distinct(KeepFirstFrom(s, k))
    decreases |s| - k
  {
    if k < |s| {
      KeepFirstFromNoRepeats(s, k + 1);
      KeepFirstFromMembers(s, k + 1);
      var rest := KeepFirstFrom(s, k + 1);
      if IndexOf(s, s[k]) == k {
        var r := [s[k]] + rest;
        assert s[k] !in rest;
        assert KeepFirstFrom(s, k) == r;
        forall i, j | 0 <= i < j < |r| ensures r[i] != r[j] {
          assert r[j] == rest[j - 1];
          if i > 0 {
            assert r[i] == rest[i - 1];
          }
        }
      } else {
        assert KeepFirstFrom(s, k) == [] + rest;
      }
    }
  }

  /** The kept values come in the order of their first occurrences. */
  lemma {:induction false} KeepFirstFromOrdered<T>(s: seq<T>, k: nat)
    requires k <= |s|
    ensures forall i, j :: 0 <= i < j < |KeepFirstFrom(s, k)| ==>
      IndexOf(s, KeepFirstFrom(s, k)[i]) < IndexOf(s, KeepFirstFrom(s, k)[j])
    decreases |s| - k
  {
    if k < |s| {
      KeepFirstFromOrdered(s, k + 1);
      var rest := KeepFirstFrom(s, k + 1);
      if IndexOf(s, s[k]) == k {
        KeepFirstFromLater(s, k + 1);
        var r := [s[k]] + rest;
        assert KeepFirstFrom(s, k) == r;
        forall i, j | 0 <= i < j < |r| ensures IndexOf(s, r[i]) < IndexOf(s, r[j]) {
          assert r[j] == rest[j - 1];
          if i > 0 {
            assert r[i] == rest[i - 1];
          }
        }
      } else {
        assert KeepFirstFrom(s, k) == rest;
      }
    }
  }

  /** Every value kept from position `k` on first occurs at `k` or later. */
  lemma KeepFirstFromLater<T>(s: seq<T>, k: nat)
    requires k <= |s|
    ensures forall j :: 0 <= j < |KeepFirstFrom(s, k)| ==> IndexOf(s, KeepFirstFrom(s, k)[j]) >= k
  {
    KeepFirstFromMembers(s, k);
    var r := KeepFirstFrom(s, k);
    forall j | 0 <= j < |r| ensures IndexOf(s, r[j]) >= k {
      assert r[j] in r;
    }
  }

  /** On a sequence without repeats every element is its value's first occurrence. */
  lemma {:induction false} KeepFirstFromDistinct<T>(s: seq<T>, k: nat)
    requires k <= |s| && Distinct(s)
    ensures KeepFirstFrom(s, k) == s[k..]
    decreases |s| - k
  {
    if k < |s| {
      KeepFirstFromDistinct(s, k + 1);
      assert s[k..] == [s[k]] + s[k + 1..];
    }
  }

  lemma KeepFirstElements<T>(s: seq<T>)
    ensures forall i :: 0 <= i < |KeepFirstFrom(s, 0)| ==> KeepFirstFrom(s, 0)[i] in s
    ensures forall i :: 0 <= i < |s| ==> s[i] in KeepFirstFrom(s, 0)
  {
    KeepFirstFromMembers(s, 0);
    var r := KeepFirstFrom(s, 0);
    forall i | 0 <= i < |r| ensures r[i] in s {
      assert r[i] in r;
    }
    forall i | 0 <= i < |s| ensures s[i] in r {
      assert s[i] in s;
    }
  }

  /**
   * `s.filter((v, i, a) => a.indexOf(v) === i)`: keeps the first occurrence
   * of every value, in order.
   */
  function Dedup<T(==)>(s: seq<T>): (r: seq<T>)
    ensures Distinct(r)
    ensures forall i :: 0 <= i < |r| ==> r[i] in s
    ensures forall i :: 0 <= i < |s| ==> s[i] in r
    ensures |r| <= |s|
    ensures forall i, j :: 0 <= i < j < |r| ==> IndexOf(s, r[i]) < IndexOf(s, r[j])
    ensures Distinct(s) ==> r == s
  {
    KeepFirstFromMembers(s, 0);
    KeepFirstFromOrdered(s, 0);
    KeepFirstFromNoRepeats(s, 0);
    KeepFirstElements(s);
    if Distinct(s) then KeepFirstFromDistinct(s, 0); KeepFirstFrom(s, 0)
    else KeepFirstFrom(s, 0)
  }
}
