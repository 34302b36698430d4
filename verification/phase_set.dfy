/** The allowed-phases list of a restriction draft, edited one phase at a
    time: a phase present is filtered out, an absent one is appended and
    the list re-sorted ascending with `sort((a, b) => a - b)`. */
module PhaseSet {
  import opened Base

  predicate Sorted(s: seq<real>)
  {
    forall i, j :: 0 <= i < j < |s| ==> s[i] <= s[j]
  }

  /** A list is sorted when its head is below everything after it and
      its tail is sorted. */
  lemma SortedCons(h: real, t: seq<real>)
    ensures Sorted([h] + t) <==> (forall y :: y in t ==> h <= y) && Sorted(t)
  {
    var s := [h] + t;
    if Sorted(s) {
      forall y | y in t ensures h <= y {
        var k :| 0 <= k < |t| && t[k] == y;
        assert s[0] <= s[k + 1];
      }
      forall i, j | 0 <= i < j < |t| ensures t[i] <= t[j] {
        assert s[i + 1] <= s[j + 1];
      }
    }
    if (forall y :: y in t ==> h <= y) && Sorted(t) {
      forall i, j | 0 <= i < j < |s| ensures s[i] <= s[j] {
        if i == 0 {
          assert s[j] == t[j - 1] && t[j - 1] in t;
        } else {
          assert s[i] == t[i - 1] && s[j] == t[j - 1];
        }
      }
    }
  }

  /** Insertion of `x` before the first element not below it. */
  function Insert(s: seq<real>, x: real): (r: seq<real>)
    ensures multiset(r) == multiset(s) + multiset{x}
  {
    if s == [] then [x]
    else if x <= s[0] then [x] + s
    else
      assert s == [s[0]] + s[1..];
      [s[0]] + Insert(s[1..], x)
  }

  /** Inserting into a sorted list keeps it sorted. */
  lemma {:induction false} InsertSorted(s: seq<real>, x: real)
    requires Sorted(s)
    ensures Sorted(Insert(s, x))
    decreases |s|
  {
    if s != [] {
      assert s == [s[0]] + s[1..];
      SortedCons(s[0], s[1..]);
      if x <= s[0] {
        SortedCons(x, s);
      } else {
        var t := Insert(s[1..], x);
        InsertSorted(s[1..], x);
        forall y | y in t ensures s[0] <= y {
          assert y in multiset(t);
          if y != x {
            assert y in multiset(s[1..]);
          }
        }
        SortedCons(s[0], t);
      }
    }
  }

  /** An ascending sort; since ties are equal numbers, every stable or
      unstable ascending sort gives this same list (`SortedUnique`). */
  function SortAscending(s: seq<real>): (r: seq<real>)
    ensures Sorted(r) && multiset(r) == multiset(s)
  {
    if s == [] then []
    else
      var init := s[..|s| - 1];
      assert s == init + [s[|s| - 1]];
      InsertSorted(SortAscending(init), s[|s| - 1]);
      Insert(SortAscending(init), s[|s| - 1])
  }

  /** A sorted list is determined by its elements. */
  lemma {:induction false} SortedUnique(a: seq<real>, b: seq<real>)
    requires Sorted(a) && Sorted(b) && multiset(a) == multiset(b)
    ensures a == b
    decreases |a|
  {
    assert |a| == |multiset(a)| == |multiset(b)| == |b|;
    if a != [] {
      SameHead(a, b);
      assert a == [a[0]] + a[1..] && b == [b[0]] + b[1..];
      assert multiset(a[1..]) == multiset(a) - multiset{a[0]};
      assert multiset(b[1..]) == multiset(b) - multiset{b[0]};
      SortedTail(a);
      SortedTail(b);
      SortedUnique(a[1..], b[1..]);
    }
  }

  /** Two sorted lists with the same elements start with the same one:
      each head is at most every element of the other list. */
  lemma SameHead(a: seq<real>, b: seq<real>)
    requires a != [] && b != []
    requires Sorted(a) && Sorted(b) && multiset(a) == multiset(b)
    ensures a[0] == b[0]
  {
    assert a[0] in multiset(b);
    assert b[0] in multiset(a);
    var i :| 0 <= i < |b| && b[i] == a[0];
    var j :| 0 <= j < |a| && a[j] == b[0];
    assert b[0] <= b[i] && a[0] <= a[j];
  }

  /** The tail of a sorted list is sorted. */
  lemma SortedTail(s: seq<real>)
    requires s != [] && Sorted(s)
    ensures Sorted(s[1..])
  {
    forall i, j | 0 <= i < j < |s| - 1 ensures s[1..][i] <= s[1..][j] {
      assert s[i + 1] <= s[j + 1];
    }
  }

  /** Filtering keeps the order of what is kept. */
  lemma {:induction false} FilterSorted(s: seq<real>, p: real -> bool)
    requires Sorted(s)
    ensures Sorted(Filter(s, p))
    decreases |s|
  {
    if s != [] {
      assert s == [s[0]] + s[1..];
      SortedCons(s[0], s[1..]);
      FilterSorted(s[1..], p);
      var rest := Filter(s[1..], p);
      if p(s[0]) {
        SortedCons(s[0], rest);
      }
    }
  }

  /** `handlePhaseToggle(phase)` on the draft's phases. */
  function Toggle(phases: seq<real>, phase: real): (r: seq<real>)
    ensures phase in r <==> phase !in phases
    ensures forall q :: q != phase ==> (q in r <==> q in phases)
  {
    if phase in phases then Filter(phases, (q: real) => q != phase)
    else
      var r := SortAscending(phases + [phase]);
      assert forall q :: q in r <==> q in multiset(phases + [phase]);
      r
  }

  /** A sorted list without repeats stays so. */
  lemma ToggleKeepsSortedDistinct(phases: seq<real>, phase: real)
    requires Sorted(phases) && Distinct(phases)
    ensures Sorted(Toggle(phases, phase)) && Distinct(Toggle(phases, phase))
  {
    DistinctCounts(phases);
    DistinctCounts(Toggle(phases, phase));
    if phase in phases {
      FilterSorted(phases, (q: real) => q != phase);
    } else {
      assert multiset(phases)[phase] == 0;
    }
  }

  /** Putting back a phase that was taken out restores the list. */
  lemma ReAddRemoved(phases: seq<real>, phase: real)
    requires Sorted(phases) && Distinct(phases) && phase in phases
    ensures Toggle(Toggle(phases, phase), phase) == phases
  {
    DistinctCounts(phases);
    var once := Filter(phases, (q: real) => q != phase);
    assert multiset(phases)[phase] == 1;
    var back := SortAscending(once + [phase]);
    forall q ensures multiset(back)[q] == multiset(phases)[q] {
      assert multiset(once)[q] == if q != phase then multiset(phases)[q] else 0;
    }
    assert multiset(back) == multiset(phases);
    SortedUnique(back, phases);
  }

  /** Taking out a phase that was just added restores the list. */
  lemma RemoveAdded(phases: seq<real>, phase: real)
    requires Sorted(phases) && phase !in phases
    ensures Toggle(Toggle(phases, phase), phase) == phases
  {
    var once := SortAscending(phases + [phase]);
    var back := Filter(once, (q: real) => q != phase);
    FilterSorted(once, (q: real) => q != phase);
    assert multiset(phases)[phase] == 0;
    forall q ensures multiset(back)[q] == multiset(phases)[q] {
      assert multiset(back)[q] == if q != phase then multiset(once)[q] else 0;
    }
    assert multiset(back) == multiset(phases);
    SortedUnique(back, phases);
  }

  /** Toggling the same phase twice restores a sorted list without repeats. */
  lemma ToggleTwice(phases: seq<real>, phase: real)
    requires Sorted(phases) && Distinct(phases)
    ensures Toggle(Toggle(phases, phase), phase) == phases
  {
    if phase in phases {
      ReAddRemoved(phases, phase);
    } else {
      RemoveAdded(phases, phase);
    }
  }

  /** Pairwise distinctness is "no value occurs twice". */
  lemma DistinctCounts(s: seq<real>)
    ensures Distinct(s) <==> forall x :: x in s ==> multiset(s)[x] <= 1
  {
    if !Distinct(s) {
      var i, j :| 0 <= i < j < |s| && s[i] == s[j];
      assert s == s[..i] + [s[i]] + s[i + 1..j] + [s[j]] + s[j + 1..];
      assert multiset(s)[s[i]] >= 2;
    }
    if !(forall x :: x in s ==> multiset(s)[x] <= 1) {
      var x :| x in s && multiset(s)[x] > 1;
      TwoOccurrences(s, x);
    }
  }
}
