/** The two array edits every rule builder performs, written with
    JavaScript's `slice`, which clamps its bounds instead of failing. */
module ListEdit {

  function Min(a: nat, b: nat): nat
  {
    if a <= b then a else b
  }

  /** `[...s.slice(0, i), x, ...s.slice(i + 1)]`. An index past the end,
      which a stale editing index can be, appends `x`. */
  function ReplaceAt<T>(s: seq<T>, i: nat, x: T): (r: seq<T>)
    ensures i < |s| ==> r == s[i := x]
    ensures i >= |s| ==> r == s + [x]
  {
    s[..Min(i, |s|)] + [x] + s[Min(i + 1, |s|)..]
  }

  /** `[...s.slice(0, i), ...s.slice(i + 1)]`: element `i` leaves and the
      rest keep their order; an index past the end removes nothing. */
  function RemoveAt<T>(s: seq<T>, i: nat): (r: seq<T>)
    ensures i < |s| ==> |r| == |s| - 1
    ensures i < |s| ==> forall j :: 0 <= j < i ==> r[j] == s[j]
    ensures i < |s| ==> forall j :: i <= j < |r| ==> r[j] == s[j + 1]
    ensures i >= |s| ==> r == s
  {
    s[..Min(i, |s|)] + s[Min(i + 1, |s|)..]
  }

  /** Removal takes away exactly one copy of the removed element. */
  lemma RemoveAtMultiset<T>(s: seq<T>, i: nat)
    requires i < |s|
    ensures multiset(RemoveAt(s, i)) == multiset(s) - multiset{s[i]}
  {
    assert s == s[..i] + [s[i]] + s[i + 1..];
    assert RemoveAt(s, i) == s[..i] + s[i + 1..];
  }

  /** Removing what was just appended gives back the original list. */
  lemma RemoveAppended<T>(s: seq<T>, x: T)
    ensures RemoveAt(ReplaceAt(s, |s|, x), |s|) == s
  {
  }

  /** Removing a replaced position forgets the replacement. */
  lemma RemoveReplaced<T>(s: seq<T>, i: nat, x: T)
    requires i < |s|
    ensures RemoveAt(ReplaceAt(s, i, x), i) == RemoveAt(s, i)
  {
    var r := ReplaceAt(s, i, x);
    assert RemoveAt(r, i) == r[..i] + r[i + 1..];
    assert r[..i] == s[..i];
    assert r[i + 1..] == s[i + 1..];
  }
}
