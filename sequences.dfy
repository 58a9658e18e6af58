/** The JavaScript array operations the route handlers build on: `indexOf`
    (also `find`, which the handlers use for its first match) and `splice(start, 1)`. */
module Sequences {

  /** `s.indexOf(x)`: the position of the first element equal to x, or -1 when there is none. */
  function IndexOf<T(==)>(s: seq<T>, x: T): (r: int)
    ensures -1 <= r < |s|
    ensures r == -1 <==> x !in s
    ensures 0 <= r ==> s[r] == x && x !in s[..r]
  {
    if s == [] then -1
    else if s[0] == x then 0
    else
      var k := IndexOf(s[1..], x);
      if k == -1 then -1
      else
        assert s[..k + 1] == [s[0]] + s[1..][..k];
        k + 1
  }

  /** The scan behind `indexOf`, run element by element from the front. */
  method FindIndex<T(==)>(s: seq<T>, x: T) returns (r: int)
    ensures r == IndexOf(s, x)
  {
    var i := 0;
    while i < |s|
      invariant 0 <= i <= |s|
      invariant x !in s[..i]
    {
      if s[i] == x {
        return i;
      }
      assert s[..i + 1] == s[..i] + [s[i]];
      i := i + 1;
    }
    assert s[..i] == s;
    return -1;
  }

  /** What `s.splice(start, 1)` leaves in the array: a negative start counts back from the end
      (and is clamped at 0), a start at or past the end removes nothing. */
  function SpliceOne<T>(s: seq<T>, start: int): seq<T>
  {
    var k := if start >= 0 then start else if |s| + start >= 0 then |s| + start else 0;
    if k < |s| then s[..k] + s[k + 1..] else s
  }

  /** Splicing at a valid index removes exactly that element; the rest keep their order. */
  lemma SpliceOneAt<T>(s: seq<T>, i: int)
    requires 0 <= i < |s|
    ensures |SpliceOne(s, i)| == |s| - 1
    ensures SpliceOne(s, i) == s[..i] + s[i + 1..]
    ensures forall j :: 0 <= j < i ==> SpliceOne(s, i)[j] == s[j]
    ensures forall j :: i <= j < |s| - 1 ==> SpliceOne(s, i)[j] == s[j + 1]
  {
  }

  /** `splice(-1, 1)` removes the LAST element, not the first. */
  lemma SpliceMinusOne<T>(s: seq<T>)
    requires s != []
    ensures SpliceOne(s, -1) == s[..|s| - 1]
  {
  }

  /** Removing the first element whose key (in the parallel key list) equals `key`,
      and leaving the list as it is when no key matches: the guarded lookup-then-splice. */
  function RemoveFirst<T, K(==)>(s: seq<T>, keys: seq<K>, key: K): seq<T>
    requires |keys| == |s|
  {
    var k := IndexOf(keys, key);
    if k != -1 then SpliceOne(s, k) else s
  }

  /** A key that is not there: nothing is removed. */
  lemma RemoveFirstMiss<T, K>(s: seq<T>, keys: seq<K>, key: K)
    requires |keys| == |s|
    requires key !in keys
    ensures RemoveFirst(s, keys, key) == s
  {
  }

  /** A key that is there: exactly the element at its first position goes, the others keep their order. */
  lemma RemoveFirstHit<T, K>(s: seq<T>, keys: seq<K>, key: K)
    requires |keys| == |s|
    requires key in keys
    ensures var k := IndexOf(keys, key);
      0 <= k < |s| && keys[k] == key && key !in keys[..k] &&
      RemoveFirst(s, keys, key) == s[..k] + s[k + 1..]
    ensures |RemoveFirst(s, keys, key)| == |s| - 1
  {
  }

  /** What the guard in front of the splice prevents: with a key that is not there,
      `splice(indexOf(key), 1)` is `splice(-1, 1)`, which drops the last element. */
  lemma UnguardedSpliceDropsLast<T, K>(s: seq<T>, keys: seq<K>, key: K)
    requires |keys| == |s|
    requires s != [] && key !in keys
    ensures SpliceOne(s, IndexOf(keys, key)) == s[..|s| - 1]
    ensures SpliceOne(s, IndexOf(keys, key)) != RemoveFirst(s, keys, key)
  {
    assert |s[..|s| - 1]| != |s|;
  }

  /** No value occurs twice. */
  ghost predicate Distinct<T>(s: seq<T>)
  {
    forall i, j :: 0 <= i < j < |s| ==> s[i] != s[j]
  }

  /** Putting a value that is not there yet in front keeps the values distinct. */
  lemma DistinctPrepend<T>(x: T, s: seq<T>)
    requires Distinct(s) && x !in s
    ensures Distinct([x] + s)
  {
    var t := [x] + s;
    forall i, j | 0 <= i < j < |t| ensures t[i] != t[j] {
      assert t[j] == s[j - 1];
      if i > 0 { assert t[i] == s[i - 1]; }
    }
  }

  /** Removing one element keeps the values distinct. */
  lemma DistinctSpliceOne<T>(s: seq<T>, k: int)
    requires Distinct(s) && 0 <= k < |s|
    ensures Distinct(SpliceOne(s, k))
  {
    var t := SpliceOne(s, k);
    SpliceOneAt(s, k);
    forall i, j | 0 <= i < j < |t| ensures t[i] != t[j] {
      var i' := if i < k then i else i + 1;
      var j' := if j < k then j else j + 1;
      assert t[i] == s[i'] && t[j] == s[j'];
    }
  }
}
