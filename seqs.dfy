/** Sequence operations that mirror Python list operations used by the core. */
module Seqs {

  /** No element occurs twice. */
  predicate Distinct<T(==)>(s: seq<T>)
  {
    forall i, j :: 0 <= i < j < |s| ==> s[i] != s[j]
  }

  /** `s` back to front. */
  function Reverse<T>(s: seq<T>): (r: seq<T>)
    ensures |r| == |s|
    ensures forall i :: 0 <= i < |s| ==> r[i] == s[|s| - 1 - i]
  {
    if s == [] then [] else [s[|s| - 1]] + Reverse(s[..|s| - 1])
  }

  /** Python's `list.remove(x)` guarded by `x in list`: the first occurrence
      of `x` goes, and a list without `x` is left as it is. */
  function RemoveFirst<T(==)>(s: seq<T>, x: T): (r: seq<T>)
    ensures x !in s ==> r == s
    ensures x in s ==> |r| == |s| - 1
  {
    if s == [] then []
    else if s[0] == x then s[1..]
    else
      assert s == [s[0]] + s[1..];
      [s[0]] + RemoveFirst(s[1..], x)
  }

  /** Index of the first occurrence of `x`. */
  function FirstIndex<T(==)>(s: seq<T>, x: T): (k: nat)
    requires x in s
    ensures k < |s| && s[k] == x
    ensures forall j :: 0 <= j < k ==> s[j] != x
  {
    if s[0] == x then 0 else 1 + FirstIndex(s[1..], x)
  }

  /** RemoveFirst deletes exactly the element at the first index of `x`. */
  lemma {:induction false} RemoveFirstAtIndex<T>(s: seq<T>, x: T, k: nat)
    requires k < |s| && s[k] == x
    requires forall j :: 0 <= j < k ==> s[j] != x
    ensures RemoveFirst(s, x) == s[..k] + s[k + 1..]
  {
    if k == 0 {
      assert s[..0] + s[1..] == s[1..];
    } else {
      var t := s[1..];
      RemoveFirstAtIndex(t, x, k - 1);
      assert RemoveFirst(s, x) == [s[0]] + (t[..k - 1] + t[k..]);
      assert s[..k] == [s[0]] + t[..k - 1];
      assert s[k + 1..] == t[k..];
    }
  }

  /** In a list without duplicates, removing `x` leaves no `x` behind, so a
      second removal changes nothing. */
  lemma RemoveFirstDistinct<T>(s: seq<T>, x: T)
    requires Distinct(s)
    ensures x !in RemoveFirst(s, x)
    ensures Distinct(RemoveFirst(s, x))
    ensures RemoveFirst(RemoveFirst(s, x), x) == RemoveFirst(s, x)
  {
    if x in s {
      var k := FirstIndex(s, x);
      RemoveFirstAtIndex(s, x, k);
      var r := s[..k] + s[k + 1..];
      assert forall i :: 0 <= i < |r| ==> r[i] == s[if i < k then i else i + 1];
      assert x !in r by {
        forall i | 0 <= i < |r| ensures r[i] != x {
          assert r[i] == s[if i < k then i else i + 1];
        }
      }
    }
  }

  /** Removal never introduces an element: what is left was there before. */
  lemma RemoveFirstMembers<T>(s: seq<T>, x: T)
    ensures forall i :: 0 <= i < |RemoveFirst(s, x)| ==> RemoveFirst(s, x)[i] in s
  {
    if x in s {
      var k := FirstIndex(s, x);
      RemoveFirstAtIndex(s, x, k);
      var r := s[..k] + s[k + 1..];
      forall i | 0 <= i < |r| ensures r[i] in s {
        if i < k {
          assert r[i] == s[i];
        } else {
          assert r[i] == s[i + 1];
        }
      }
    }
  }

  /** Removing `x` from a list whose prefix `a` lacks it cuts exactly the
      occurrence that follows `a`. */
  lemma RemoveFirstAfter<T>(a: seq<T>, x: T, b: seq<T>)
    requires x !in a
    ensures RemoveFirst(a + [x] + b, x) == a + b
  {
    var s := a + [x] + b;
    assert forall j :: 0 <= j < |a| ==> s[j] == a[j];
    RemoveFirstAtIndex(s, x, |a|);
    assert s[..|a|] == a && s[|a| + 1..] == b;
  }
}
