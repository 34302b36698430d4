/** Small shared vocabulary: an optional value, used for JavaScript's
    `undefined`/`NaN`/`null` outcomes throughout the model. */
module Base {

  /** `None` plays the role of a missing or not-a-number result. */
  datatype Option<+T> = None | Some(value: T)

  /** True when no two positions of `s` hold the same element. */
  predicate Distinct<T(==)>(s: seq<T>)
  {
    forall i, j :: 0 <= i < j < |s| ==> s[i] != s[j]
  }

  /** A value occurring at least twice occupies two distinct positions. */
  lemma {:induction false} TwoOccurrences<T>(keys: seq<T>, d: T)
    requires multiset(keys)[d] >= 2
    ensures !Distinct(keys)
    decreases |keys|
  {
    var last := keys[|keys| - 1];
    var prefix := keys[..|keys| - 1];
    assert keys == prefix + [last];
    if last == d {
      assert d in prefix;
      var i :| 0 <= i < |prefix| && prefix[i] == d;
      assert keys[i] == keys[|keys| - 1];
    } else {
      TwoOccurrences(prefix, d);
      var i, j :| 0 <= i < j < |prefix| && prefix[i] == prefix[j];
      assert keys[i] == keys[j];
    }
  }

  /** `s.filter(p)`: the elements satisfying `p`, each kept as often as it
      occurs and in the original order. */
  function Filter<T(==,!new)>(s: seq<T>, p: T -> bool): (r: seq<T>)
    ensures |r| <= |s|
    ensures forall x :: x in r <==> x in s && p(x)
    ensures forall x :: multiset(r)[x] == if p(x) then multiset(s)[x] else 0
    ensures (forall x :: x in s ==> p(x)) ==> r == s
  {
    if s == [] then []
    else
      assert s == [s[0]] + s[1..];
      (if p(s[0]) then [s[0]] else []) + Filter(s[1..], p)
  }

  /** Filtering keeps the order of what it keeps: filtering a concatenation
      concatenates the filtered parts. */
  lemma {:induction false} FilterConcat<T(!new)>(a: seq<T>, b: seq<T>, p: T -> bool)
    ensures Filter(a + b, p) == Filter(a, p) + Filter(b, p)
    decreases |a|
  {
    if a == [] {
      assert a + b == b;
    } else {
      var ab := a + b;
      assert ab != [] && ab[0] == a[0] && ab[1..] == a[1..] + b;
      FilterConcat(a[1..], b, p);
      var head := if p(a[0]) then [a[0]] else [];
      assert Filter(ab, p) == head + Filter(a[1..] + b, p);
      assert Filter(a, p) == head + Filter(a[1..], p);
      AppendAssoc(head, Filter(a[1..], p), Filter(b, p));
    }
  }

  lemma AppendAssoc<T>(x: seq<T>, y: seq<T>, z: seq<T>)
    ensures x + (y + z) == (x + y) + z
  {
  }
}
