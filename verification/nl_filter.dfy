/** The natural-language row filter, recast as a classifier from a query
    and an entity kind to a `Query` descriptor, and an evaluator of a
    descriptor on one row. The classifier follows the source's chain of
    `includes` tests: priority forms first, then duration forms (tasks
    only), then name search, and otherwise every row passes. */
module NlFilter {
  import opened Base
  import opened JsText
  import opened JsNumber
  import opened Cells
  import opened Validators

  datatype Cmp = AtLeast | AtMost | Above | Below | EqualTo

  datatype Query =
    | PriorityCmp(op: Cmp, value: nat)
    | PriorityBetween(low: nat, high: nat)
    | DurationCmp(op: Cmp, value: nat)
    | NameSearch(field: string, terms: seq<string>)
    | PassAll

  /** `nlQuery.toLowerCase().trim()`. */
  function Normalize(q: string): string
  {
    Trim(Lower(q))
  }

  predicate HasAny(q: string, words: seq<string>)
  {
    exists w :: w in words && Contains(q, w)
  }

  const AtLeastWords: seq<string> := [">=", "greater than or equal", "at least"]
  const AtMostWords: seq<string> := ["<=", "less than or equal", "at most"]
  const AboveWords: seq<string> := [">", "greater than", "more than"]
  const BelowWords: seq<string> := ["<", "less than"]
  const EqualWords: seq<string> := ["=", "equal", "is"]

  // ---------------------------------------------------------------------
  // The number in a query
  // ---------------------------------------------------------------------

  /** The longest prefix made of ASCII digits. */
  function DigitRun(s: string): (r: string)
    ensures |r| <= |s| && r == s[..|r|]
    ensures forall k :: 0 <= k < |r| ==> IsDigit(r[k])
    ensures |r| < |s| ==> !IsDigit(s[|r|])
  {
    if s != [] && IsDigit(s[0]) then [s[0]] + DigitRun(s[1..]) else []
  }

  /** `parseInt(query.match(/(\d+)/)[1])`: the first run of digits, read in
      decimal; `None` when the query has no digit. */
  function FirstNumber(s: string): (r: Option<nat>)
    ensures r.None? <==> forall k :: 0 <= k < |s| ==> !IsDigit(s[k])
  {
    if s == [] then None
    else if IsDigit(s[0]) then Some(RadixValue(DigitRun(s), 10))
    else FirstNumber(s[1..])
  }

  /** The number read is the run starting at the first digit. */
  lemma {:induction false} FirstNumberAt(s: string, i: nat)
    requires i < |s| && IsDigit(s[i])
    requires forall k :: 0 <= k < i ==> !IsDigit(s[k])
    ensures FirstNumber(s) == Some(RadixValue(DigitRun(s[i..]), 10))
  {
    if i > 0 {
      FirstNumberAt(s[1..], i - 1);
      assert s[1..][i - 1..] == s[i..];
    }
  }

  // ---------------------------------------------------------------------
  // Classification
  // ---------------------------------------------------------------------

  /** Which of the four shared comparison branches the `if`/`else if` chain
      enters, testing `>=` forms, then `<=`, `>` and `<` forms. */
  function Relation(q: string): (r: Option<Cmp>)
    ensures r.Some? ==> r.value != EqualTo
    ensures r.None? <==>
      !HasAny(q, AtLeastWords) && !HasAny(q, AtMostWords) && !HasAny(q, AboveWords) && !HasAny(q, BelowWords)
    ensures r == Some(AtLeast) <==> HasAny(q, AtLeastWords)
    ensures r == Some(AtMost) <==> !HasAny(q, AtLeastWords) && HasAny(q, AtMostWords)
    ensures r == Some(Above) <==> !HasAny(q, AtLeastWords) && !HasAny(q, AtMostWords) && HasAny(q, AboveWords)
  {
    if HasAny(q, AtLeastWords) then Some(AtLeast)
    else if HasAny(q, AtMostWords) then Some(AtMost)
    else if HasAny(q, AboveWords) then Some(Above)
    else if HasAny(q, BelowWords) then Some(Below)
    else None
  }

  /** A comparison branch returns only when the query has a number;
      otherwise control leaves the whole block. */
  function WithNumber(q: string, mk: nat -> Query): Option<Query>
  {
    match FirstNumber(q)
    case Some(v) => Some(mk(v))
    case None => None
  }

  /** The priority block: comparisons, then equality, then the words
      `high`, `medium` and `low`. */
  function PriorityQuery(q: string): (r: Option<Query>)
    ensures r.Some? ==> r.value.PriorityCmp? || r.value.PriorityBetween?
    ensures Relation(q).Some? ==>
      r == (if FirstNumber(q).Some? then Some(PriorityCmp(Relation(q).value, FirstNumber(q).value)) else None)
    ensures r.Some? && r.value.PriorityCmp? && r.value.op == EqualTo ==>
      Relation(q).None? && HasAny(q, EqualWords) && FirstNumber(q) == Some(r.value.value)
    ensures r.Some? && FirstNumber(q).None? ==> Relation(q).None? && !HasAny(q, EqualWords)
    ensures r.Some? && r.value.PriorityBetween? ==> r.value == PriorityBetween(2, 3) && Contains(q, "medium")
  {
    match Relation(q)
    case Some(op) => WithNumber(q, (v: nat) => PriorityCmp(op, v))
    case None =>
      if HasAny(q, EqualWords) then WithNumber(q, (v: nat) => PriorityCmp(EqualTo, v))
      else if Contains(q, "high") then Some(PriorityCmp(AtLeast, 4))
      else if Contains(q, "medium") then Some(PriorityBetween(2, 3))
      else if Contains(q, "low") then Some(PriorityCmp(AtMost, 1))
      else None
  }

  /** The duration block: comparisons, then `long` and `short`. */
  function DurationQuery(q: string): (r: Option<Query>)
    ensures r.Some? ==> r.value.DurationCmp? && r.value.op != EqualTo
    ensures Relation(q).Some? ==>
      r == (if FirstNumber(q).Some? then Some(DurationCmp(Relation(q).value, FirstNumber(q).value)) else None)
    ensures Relation(q).None? ==> (r.Some? <==> Contains(q, "long") || Contains(q, "short"))
  {
    match Relation(q)
    case Some(op) => WithNumber(q, (v: nat) => DurationCmp(op, v))
    case None =>
      if Contains(q, "long") then Some(DurationCmp(AtLeast, 4))
      else if Contains(q, "short") then Some(DurationCmp(AtMost, 2))
      else None
  }

  function NameField(entity: Entity): string
  {
    match entity
    case Clients => "ClientName"
    case Tasks => "TaskName"
    case Workers => "WorkerName"
  }

  /** The alternatives of `/name|called|contains|is|with|having/g`, in order. */
  const Keywords: seq<string> := ["name", "called", "contains", "is", "with", "having"]

  /** `keywords[i]` is the first non-empty keyword, in list order, that
      `s` starts with: the alternative a regular expression tries first. */
  predicate FirstMatch(s: string, keywords: seq<string>, i: int)
  {
    && 0 <= i < |keywords|
    && keywords[i] != "" && StartsWith(s, keywords[i])
    && forall j :: 0 <= j < i ==> keywords[j] == "" || !StartsWith(s, keywords[j])
  }

  /** The length of the first keyword `s` starts with, or 0. */
  function KeywordAt(s: string, keywords: seq<string>): (n: nat)
    ensures n <= |s|
    ensures n > 0 ==> exists w :: w in keywords && StartsWith(s, w) && |w| == n
    ensures n > 0 ==> exists i :: FirstMatch(s, keywords, i) && n == |keywords[i]|
    ensures n == 0 <==> forall w :: w in keywords && w != "" ==> !StartsWith(s, w)
  {
    if keywords == [] then 0
    else if keywords[0] != "" && StartsWith(s, keywords[0]) then
      assert FirstMatch(s, keywords, 0);
      |keywords[0]|
    else
      var n := KeywordAt(s, keywords[1..]);
      FirstMatchTail(s, keywords);
      assert forall w :: w in keywords <==> w == keywords[0] || w in keywords[1..];
      n
  }

  /** When the head keyword does not match, a first match in the tail is a
      first match in the whole list, one position later. */
  lemma FirstMatchTail(s: string, keywords: seq<string>)
    requires keywords != [] && (keywords[0] == "" || !StartsWith(s, keywords[0]))
    ensures forall i :: FirstMatch(s, keywords[1..], i) ==> FirstMatch(s, keywords, i + 1)
  {
  }

  /** Each keyword is recognised at the start of a text, as itself: no
      earlier alternative matches in its place. */
  lemma KeywordAtLeading(w: string, t: string)
    requires w in Keywords
    ensures KeywordAt(w + t, Keywords) == |w|
  {
    var s := w + t;
    assert s[..|w|] == w;
    var k :| 0 <= k < |Keywords| && Keywords[k] == w;
    assert Keywords[k] != "" && StartsWith(s, Keywords[k]);
    forall j | 0 <= j < k ensures !StartsWith(s, Keywords[j]) {
      if Keywords[j][0] != w[0] {
        DiffersAt(s, Keywords[j], 0);
      } else {
        DiffersAt(s, Keywords[j], 1);
      }
    }
    assert FirstMatch(s, Keywords, k);
    FirstMatchUnique(s, Keywords, k);
  }

  /** A text differing from `w` at some position within both does not start
      with `w`. */
  lemma DiffersAt(s: string, w: string, k: nat)
    requires k < |w| && k < |s| && s[k] != w[k]
    ensures !StartsWith(s, w)
  {
    if |w| <= |s| {
      assert s[..|w|][k] == s[k];
    }
  }

  /** The first match decides the length `KeywordAt` reports. */
  lemma {:induction false} FirstMatchUnique(s: string, keywords: seq<string>, i: int)
    requires FirstMatch(s, keywords, i)
    ensures KeywordAt(s, keywords) == |keywords[i]|
    decreases |keywords|
  {
    if i > 0 {
      assert FirstMatch(s, keywords[1..], i - 1);
      FirstMatchUnique(s, keywords[1..], i - 1);
    }
  }

  /** `.replace(/name|called|contains|is|with|having/g, '')`: scanning left
      to right, each keyword occurrence found is cut out. */
  function StripKeywords(s: string): (r: string)
    ensures |r| <= |s|
    ensures KeywordFree(s) ==> r == s
    decreases |s|
  {
    if s == [] then []
    else
      var n := KeywordAt(s, Keywords);
      KeywordFreeTail(s);
      if n > 0 then StripKeywords(s[n..]) else [s[0]] + StripKeywords(s[1..])
  }

  /** No keyword starts at any position of `s`. */
  predicate KeywordFree(s: string)
  {
    forall i :: 0 <= i < |s| ==> KeywordAt(s[i..], Keywords) == 0
  }

  lemma KeywordFreeTail(s: string)
    requires s != []
    ensures KeywordFree(s) ==> KeywordAt(s, Keywords) == 0 && KeywordFree(s[1..])
  {
    if KeywordFree(s) {
      assert s[0..] == s;
      forall i | 0 <= i < |s| - 1 ensures KeywordAt(s[1..][i..], Keywords) == 0 {
        assert s[1..][i..] == s[i + 1..];
      }
    }
  }

  /** A keyword at the front is cut out whole, and the scan resumes right
      after it. */
  lemma StripLeadingKeyword(w: string, t: string)
    requires w in Keywords
    ensures StripKeywords(w + t) == StripKeywords(t)
  {
    KeywordAtLeading(w, t);
    assert (w + t)[|w|..] == t;
  }

  predicate IsSpace(c: char)
  {
    c == ' '
  }

  /** The `t => t.length > 2` of the name search, in UTF-16 code units. */
  predicate LongTerm(t: string)
  {
    Utf16Length(t) > 2
  }

  /** `.trim().split(' ').filter(t => t.length > 2)` on the query with its
      keywords removed: the words left, in order and with repeats, that
      are longer than two characters. */
  function NameTerms(q: string): (r: seq<string>)
    ensures forall t :: t in r <==> t in Split(Trim(StripKeywords(q)), IsSpace) && LongTerm(t)
    ensures forall t :: multiset(r)[t] == if LongTerm(t) then multiset(Split(Trim(StripKeywords(q)), IsSpace))[t] else 0
    ensures forall t :: t in r ==> LongTerm(t) && forall k :: 0 <= k < |t| ==> t[k] != ' '
  {
    var pieces := Split(Trim(StripKeywords(q)), IsSpace);
    SplitHasNoSpace(Trim(StripKeywords(q)));
    LongTerms(pieces);
    Filter(pieces, LongTerm)
  }

  /** Keeping the long pieces keeps exactly those, each as often as it
      occurs, and adds no space. */
  lemma LongTerms(pieces: seq<string>)
    requires forall t :: t in pieces ==> forall k :: 0 <= k < |t| ==> t[k] != ' '
    ensures forall t :: t in Filter(pieces, LongTerm) <==> t in pieces && LongTerm(t)
    ensures forall t :: multiset(Filter(pieces, LongTerm))[t] == if LongTerm(t) then multiset(pieces)[t] else 0
    ensures forall t :: t in Filter(pieces, LongTerm) ==> LongTerm(t) && forall k :: 0 <= k < |t| ==> t[k] != ' '
  {
  }

  /** The pieces of a split on spaces hold no space. */
  lemma SplitHasNoSpace(s: string)
    ensures forall t :: t in Split(s, IsSpace) ==> forall k :: 0 <= k < |t| ==> t[k] != ' '
  {
    var pieces := Split(s, IsSpace);
    forall t | t in pieces ensures forall k :: 0 <= k < |t| ==> t[k] != ' ' {
      var i :| 0 <= i < |pieces| && pieces[i] == t;
      assert forall k :: 0 <= k < |t| ==> !IsSpace(pieces[i][k]);
    }
  }

  /** The first letters of the keywords. */
  predicate KeywordInitial(c: char)
  {
    c == 'n' || c == 'c' || c == 'i' || c == 'w' || c == 'h'
  }

  /** A text in which no character could begin a keyword is keyword-free. */
  lemma NoKeywordInitial(s: string)
    requires forall k :: 0 <= k < |s| ==> !KeywordInitial(s[k])
    ensures KeywordFree(s)
  {
    forall i | 0 <= i < |s| ensures KeywordAt(s[i..], Keywords) == 0 {
      var rest := s[i..];
      forall w | w in Keywords && w != "" ensures !StartsWith(rest, w) {
        assert KeywordInitial(w[0]);
        DiffersAt(rest, w, 0);
      }
    }
  }

  /** "called w" searches for the word `w` alone, when `w` is long enough,
      has no white space and no letter that could begin a keyword: the
      keyword goes, the space is trimmed, and `w` is the one term left. */
  lemma CalledWordTerms(w: string)
    requires LongTerm(w)
    requires forall k :: 0 <= k < |w| ==> !KeywordInitial(w[k]) && !IsWhite(w[k])
    ensures NameTerms("called" + " " + w) == [w]
  {
    StripCalled(w);
    TrimDropsLeadingWhite(' ', w);
    SplitNoSeparator(w, IsSpace);
  }

  /** Length is counted as `t.length` counts it: after "called", a term of
      one emoji and one letter is kept, since the emoji is two UTF-16 code
      units although it is one character. */
  lemma AstralTermKept()
    ensures Utf16Length("\U{1F600}x") == 3 && |"\U{1F600}x"| == 2
    ensures NameTerms("called" + " " + "\U{1F600}x") == ["\U{1F600}x"]
  {
    var w := "\U{1F600}x";
    assert IsAstral(w[0]) && !IsAstral(w[1]);
    assert Utf16Length(w) == 3;
    CalledWordTerms(w);
  }

  /** Stripping "called" followed by a space and `w` leaves the space
      and `w`. */
  lemma StripCalled(w: string)
    requires forall k :: 0 <= k < |w| ==> !KeywordInitial(w[k])
    ensures StripKeywords("called" + " " + w) == " " + w
  {
    var spaced := " " + w;
    AppendAssoc("called", " ", w);
    StripLeadingKeyword("called", spaced);
    SpacedKeywordFree(w);
  }

  lemma SpacedKeywordFree(w: string)
    requires forall k :: 0 <= k < |w| ==> !KeywordInitial(w[k])
    ensures KeywordFree(" " + w)
  {
    var spaced := " " + w;
    forall k | 0 <= k < |spaced| ensures !KeywordInitial(spaced[k]) {
      if k > 0 {
        assert spaced[k] == w[k - 1];
      }
    }
    NoKeywordInitial(spaced);
  }

  /** The priority block, entered when the query mentions `priority`. */
  function PriorityPart(q: string): (r: Option<Query>)
    ensures r.Some? ==> Contains(q, "priority") && (r.value.PriorityCmp? || r.value.PriorityBetween?)
  {
    if Contains(q, "priority") then PriorityQuery(q) else None
  }

  /** The duration block, entered for the tasks sheet when the query
      mentions `duration`. */
  function DurationPart(q: string, entity: Entity): (r: Option<Query>)
    ensures r.Some? ==> entity == Tasks && Contains(q, "duration") && r.value.DurationCmp?
  {
    if Contains(q, "duration") && entity == Tasks then DurationQuery(q) else None
  }

  /** The name search, entered when the query mentions `name` or `called`
      and some term survives. */
  function NamePart(q: string, entity: Entity): (r: Option<Query>)
    ensures r.Some? <==> (Contains(q, "name") || Contains(q, "called")) && NameTerms(q) != []
    ensures r.Some? ==> r.value == NameSearch(NameField(entity), NameTerms(q))
  {
    if (Contains(q, "name") || Contains(q, "called")) && NameTerms(q) != [] then
      Some(NameSearch(NameField(entity), NameTerms(q)))
    else None
  }

  /** The chain of blocks on a lowered, trimmed query: the first block
      that returns decides. */
  function Pick(q: string, entity: Entity): Query
  {
    var p := PriorityPart(q);
    if p.Some? then p.value
    else
      var d := DurationPart(q, entity);
      if d.Some? then d.value
      else
        var n := NamePart(q, entity);
        if n.Some? then n.value else PassAll
  }

  /** `createFilterFromNL(nlQuery, entity)`. */
  function Classify(nlQuery: string, entity: Entity): (r: Query)
    ensures r.DurationCmp? ==> entity == Tasks && Contains(Normalize(nlQuery), "duration")
    ensures (r.PriorityCmp? || r.PriorityBetween?) ==> Contains(Normalize(nlQuery), "priority")
    ensures r.NameSearch? ==> r.field == NameField(entity) && r.terms == NameTerms(Normalize(nlQuery)) && r.terms != []
  {
    PickShape(Normalize(nlQuery), entity);
    Pick(Normalize(nlQuery), entity)
  }

  /** Each kind of descriptor comes from its own block. */
  lemma PickShape(q: string, entity: Entity)
    ensures var r := Pick(q, entity);
      && (r.DurationCmp? ==> entity == Tasks && Contains(q, "duration"))
      && ((r.PriorityCmp? || r.PriorityBetween?) ==> Contains(q, "priority"))
      && (r.NameSearch? ==> r.field == NameField(entity) && r.terms == NameTerms(q) && r.terms != [])
  {
    var p := PriorityPart(q);
    var d := DurationPart(q, entity);
    var n := NamePart(q, entity);
    if p.None? && d.None? && n.Some? {
      assert Pick(q, entity) == NameSearch(NameField(entity), NameTerms(q));
    }
  }

  // ---------------------------------------------------------------------
  // Evaluation
  // ---------------------------------------------------------------------

  /** `row.F`, converted by a relational comparison: `undefined` is `NaN`. */
  function NumberOf(cell: Option<Value>): Option<real>
  {
    match cell
    case None => None
    case Some(v) => ToNumber(v)
  }

  /** `row.F op value` for the four relational operators; `NaN` compares
      false. */
  predicate Relates(cell: Option<Value>, op: Cmp, value: nat)
  {
    match NumberOf(cell)
    case None => false
    case Some(x) =>
      match op
      case AtLeast => x >= value as real
      case AtMost => x <= value as real
      case Above => x > value as real
      case Below => x < value as real
      case EqualTo => x == value as real
  }

  /** `row.F === value`: only a numeric cell can be strictly equal. */
  predicate StrictEquals(cell: Option<Value>, value: nat)
  {
    cell.Some? && cell.value.VNum? && cell.value.num == value as real
  }

  /** A descriptor applied to a row with the given equality test; `None`
      is the `TypeError` of calling `toLowerCase` on a numeric name. */
  function EvalWith(f: Query, row: Row, equals: (Option<Value>, nat) -> bool): (r: Option<bool>)
    ensures r.None? <==> f.NameSearch? && f.field in row && row[f.field].VNum? && row[f.field].num != 0.0
    ensures f.PassAll? ==> r == Some(true)
  {
    match f
    case PriorityCmp(op, v) =>
      var cell := Lookup(row, "PriorityLevel");
      Some(if op == EqualTo then equals(cell, v) else Relates(cell, op, v))
    case PriorityBetween(lo, hi) =>
      var cell := Lookup(row, "PriorityLevel");
      Some(Relates(cell, AtLeast, lo) && Relates(cell, AtMost, hi))
    case DurationCmp(op, v) =>
      var cell := Lookup(row, "Duration");
      Some(if op == EqualTo then equals(cell, v) else Relates(cell, op, v))
    case NameSearch(field, terms) =>
      var cell := Lookup(row, field);
      if cell.None? || !Truthy(cell.value) then Some(false)
      else if cell.value.VStr? then Some(exists t :: t in terms && Contains(Lower(cell.value.s), t))
      else None
    case PassAll => Some(true)
  }

  /** The filter as written: the equality branch compares with `===`. */
  function EvalAsWritten(f: Query, row: Row): (r: Option<bool>)
    ensures r.None? <==> f.NameSearch? && f.field in row && row[f.field].VNum? && row[f.field].num != 0.0
    ensures !(f.PriorityCmp? && f.op == EqualTo) && !(f.DurationCmp? && f.op == EqualTo) ==> r == Eval(f, row)
  {
    EvalWith(f, row, StrictEquals)
  }

  /** The filter with the equality branch comparing numbers, as the other
      comparisons do. */
  function Eval(f: Query, row: Row): (r: Option<bool>)
    ensures r.None? <==> f.NameSearch? && f.field in row && row[f.field].VNum? && row[f.field].num != 0.0
    ensures f.PassAll? ==> r == Some(true)
  {
    EvalWith(f, row, (cell: Option<Value>, v: nat) => Relates(cell, EqualTo, v))
  }

  // ---------------------------------------------------------------------
  // Properties of the classifier
  // ---------------------------------------------------------------------

  /** Lowering and trimming are done once and for all: a query already in
      that form classifies the same way. */
  lemma NormalizeIdempotent(q: string)
    ensures Normalize(Normalize(q)) == Normalize(q)
  {
    var t := Normalize(q);
    NormalizedIsLower(q);
    LowerKeeps(t);
  }

  /** No upper-case letter survives normalisation. */
  lemma NormalizedIsLower(q: string)
    ensures forall k :: 0 <= k < |Normalize(q)| ==> !('A' <= Normalize(q)[k] <= 'Z')
  {
    var l := Lower(q);
    assert forall j :: 0 <= j < |l| ==> !('A' <= l[j] <= 'Z');
    TrimKeepsNoUpper(l);
  }

  /** Trimming only drops characters, so it adds no upper-case letter. */
  lemma TrimKeepsNoUpper(l: string)
    requires forall j :: 0 <= j < |l| ==> !('A' <= l[j] <= 'Z')
    ensures forall k :: 0 <= k < |Trim(l)| ==> !('A' <= Trim(l)[k] <= 'Z')
  {
    var t := Trim(l);
    forall k | 0 <= k < |t| ensures !('A' <= t[k] <= 'Z') {
      assert t[k] in l;
    }
  }

  lemma ClassifyNormalized(q: string, entity: Entity)
    ensures Classify(Normalize(q), entity) == Classify(q, entity)
  {
    NormalizeIdempotent(q);
  }

  /** `>=` is tested before `>`: a priority query containing `>=` and a
      number asks for at least that number, although it also contains `>`. */
  lemma AtLeastBeforeAbove(nlQuery: string, entity: Entity, v: nat)
    requires var q := Normalize(nlQuery);
      Contains(q, "priority") && Contains(q, ">=") && FirstNumber(q) == Some(v)
    ensures HasAny(Normalize(nlQuery), AboveWords)
    ensures Classify(nlQuery, entity) == PriorityCmp(AtLeast, v)
  {
    var q := Normalize(nlQuery);
    GreaterOrEqualMatchesBoth(q);
    assert PriorityQuery(q) == Some(PriorityCmp(AtLeast, v));
  }

  /** `<=` is tested before `<`: a priority query containing `<=` (and no
      `>=` form) and a number asks for at most that number, although it
      also contains `<`. */
  lemma AtMostBeforeBelow(nlQuery: string, entity: Entity, v: nat)
    requires var q := Normalize(nlQuery);
      Contains(q, "priority") && Contains(q, "<=") && !HasAny(q, AtLeastWords) && FirstNumber(q) == Some(v)
    ensures HasAny(Normalize(nlQuery), BelowWords)
    ensures Classify(nlQuery, entity) == PriorityCmp(AtMost, v)
  {
    var q := Normalize(nlQuery);
    LessOrEqualMatchesBoth(q);
    assert PriorityQuery(q) == Some(PriorityCmp(AtMost, v));
  }

  /** Without a `>=` form, a query with `<=` enters the second branch and
      matches the fourth list of comparison words too. */
  lemma LessOrEqualMatchesBoth(q: string)
    requires Contains(q, "<=") && !HasAny(q, AtLeastWords)
    ensures Relation(q) == Some(AtMost) && HasAny(q, BelowWords)
  {
    assert AtMostWords[0] == "<=";
    ContainsPrefix(q, "<=", "<");
    assert BelowWords[0] == "<";
  }

  /** A query with `>=` matches both the first and the third list of
      comparison words. */
  lemma GreaterOrEqualMatchesBoth(q: string)
    requires Contains(q, ">=")
    ensures Relation(q) == Some(AtLeast) && HasAny(q, AboveWords)
  {
    assert AtLeastWords[0] == ">=";
    ContainsPrefix(q, ">=", ">");
    assert AboveWords[0] == ">";
  }

  /** A substring of a prefix of `t` occurs wherever `t` does. */
  lemma {:induction false} ContainsPrefix(s: string, t: string, u: string)
    requires Contains(s, t) && |u| <= |t| && t[..|u|] == u
    ensures Contains(s, u)
    decreases |s|
  {
    if !StartsWith(s, t) {
      ContainsPrefix(s[1..], t, u);
    } else {
      assert s[..|u|] == t[..|u|];
    }
  }

  /** A priority query with `is`, `=` or `equal` but no comparison word
      enters the equality branch; without a number it leaves the priority
      block, so `high`, `medium` and `low` are never consulted. */
  lemma EqualityShadowsConcepts(nlQuery: string, entity: Entity)
    requires var q := Normalize(nlQuery);
      Contains(q, "priority") && Relation(q).None? && HasAny(q, EqualWords) && FirstNumber(q).None?
    ensures !Classify(nlQuery, entity).PriorityCmp? && !Classify(nlQuery, entity).PriorityBetween?
  {
    var q := Normalize(nlQuery);
    EqualityWithoutNumber(q);
    PickWithoutPriority(q, entity);
  }

  /** Once the priority block has not returned, no priority descriptor can
      come out. */
  lemma PickWithoutPriority(q: string, entity: Entity)
    requires PriorityPart(q).None?
    ensures !Pick(q, entity).PriorityCmp? && !Pick(q, entity).PriorityBetween?
  {
    var d := DurationPart(q, entity);
    var n := NamePart(q, entity);
    assert d.Some? ==> d.value.DurationCmp?;
    assert n.Some? ==> n.value.NameSearch?;
  }

  lemma EqualityWithoutNumber(q: string)
    requires Relation(q).None? && HasAny(q, EqualWords) && FirstNumber(q).None?
    ensures PriorityQuery(q).None?
  {
  }

  /** Duration descriptors arise only for the tasks sheet. */
  lemma DurationOnlyForTasks(nlQuery: string, entity: Entity)
    requires entity != Tasks
    ensures !Classify(nlQuery, entity).DurationCmp?
  {
  }

  /** A query naming none of the topics passes every row. */
  lemma NoTopicPassesAll(nlQuery: string, entity: Entity)
    requires var q := Normalize(nlQuery);
      !Contains(q, "priority") && !Contains(q, "duration") && !Contains(q, "name") && !Contains(q, "called")
    ensures Classify(nlQuery, entity) == PassAll
  {
  }

  /** A name search looks in the entity's name column, with at least one
      term, each longer than two characters and free of spaces. */
  lemma NameSearchShape(nlQuery: string, entity: Entity)
    requires Classify(nlQuery, entity).NameSearch?
    ensures var f := Classify(nlQuery, entity);
      && f.field == NameField(entity) && f.terms != []
      && forall t :: t in f.terms ==> LongTerm(t) && forall k :: 0 <= k < |t| ==> t[k] != ' '
  {
    var f := Classify(nlQuery, entity);
    assert f.terms == NameTerms(Normalize(nlQuery));
  }

  /** The number of a comparison is the first run of digits in the query. */
  lemma ComparisonNumber(nlQuery: string, entity: Entity, i: nat)
    requires var q := Normalize(nlQuery);
      Contains(q, "priority") && Relation(q).Some?
      && i < |q| && IsDigit(q[i]) && forall k :: 0 <= k < i ==> !IsDigit(q[k])
    ensures var q := Normalize(nlQuery);
      Classify(nlQuery, entity) == PriorityCmp(Relation(q).value, RadixValue(DigitRun(q[i..]), 10))
  {
    FirstNumberAt(Normalize(nlQuery), i);
  }

  // ---------------------------------------------------------------------
  // Properties of evaluation
  // ---------------------------------------------------------------------

  /** A name search accepts a row exactly when its name is a non-empty
      string containing some term after lowering; an absent or empty name
      is rejected, and a numeric name makes the filter throw. */
  lemma NameSearchEval(field: string, terms: seq<string>, row: Row)
    ensures Eval(NameSearch(field, terms), row) == Some(true) <==>
      field in row && row[field].VStr? && row[field].s != ""
      && exists t :: t in terms && Contains(Lower(row[field].s), t)
    ensures Eval(NameSearch(field, terms), row).None? <==>
      field in row && row[field].VNum? && row[field].num != 0.0
  {
  }

  /** The pass-all filter keeps every row. */
  lemma PassAllEval(row: Row)
    ensures Eval(PassAll, row) == Some(true) && EvalAsWritten(PassAll, row) == Some(true)
  {
  }

  /** With the corrected test, "equal to v" holds exactly when both "at
      least v" and "at most v" hold. */
  lemma EqualityIsBothBounds(v: nat, row: Row)
    ensures Eval(PriorityCmp(EqualTo, v), row) == Some(true) <==>
      Eval(PriorityCmp(AtLeast, v), row) == Some(true) && Eval(PriorityCmp(AtMost, v), row) == Some(true)
  {
  }

  /** As written, a text cell `"3"`, which is what a CSV upload delivers,
      is at least 3 and at most 3 but never equal to 3. */
  lemma StrictEqualityMissesTextCell()
    ensures var row: Row := map["PriorityLevel" := VStr("3")];
      && EvalAsWritten(PriorityCmp(AtLeast, 3), row) == Some(true)
      && EvalAsWritten(PriorityCmp(AtMost, 3), row) == Some(true)
      && EvalAsWritten(PriorityCmp(EqualTo, 3), row) == Some(false)
      && Eval(PriorityCmp(EqualTo, 3), row) == Some(true)
  {
    ThreeIsThree();
    NumberOfDigits("3");
  }

  // ---------------------------------------------------------------------
  // A worked query
  // ---------------------------------------------------------------------

  /** A string without the first character of `t` does not contain `t`. */
  lemma {:induction false} MissingFirstChar(s: string, t: string)
    requires |t| > 0 && t[0] !in s
    ensures !Contains(s, t)
    decreases |s|
  {
    if |s| > 0 {
      MissingFirstChar(s[1..], t);
    }
  }

  /** `t` occurring at position `i` is contained. */
  lemma {:induction false} ContainsAt(s: string, t: string, i: nat)
    requires i + |t| <= |s| && s[i..i + |t|] == t
    ensures Contains(s, t)
    decreases i
  {
    if i > 0 {
      ContainsAt(s[1..], t, i - 1);
      assert s[1..][i - 1..i - 1 + |t|] == s[i..i + |t|];
    }
  }

  /** A string without upper-case ASCII letters is its own lower case. */
  lemma LowerKeeps(s: string)
    requires forall k :: 0 <= k < |s| ==> !('A' <= s[k] <= 'Z')
    ensures Lower(s) == s
  {
  }

  lemma QueryIsLower()
    ensures Lower("priority is 3") == "priority is 3"
  {
    LowerKeeps("priority is 3");
  }

  lemma QueryIsTrimmed()
    ensures Trim("priority is 3") == "priority is 3"
  {
    var q := "priority is 3";
    assert q[0] == 'p' && q[|q| - 1] == '3';
    assert !IsWhite('p') && !IsWhite('3');
  }

  lemma QueryIsNormal()
    ensures Normalize("priority is 3") == "priority is 3"
  {
    QueryIsLower();
    QueryIsTrimmed();
  }

  lemma QueryHasNoRelation()
    ensures Relation("priority is 3").None?
  {
    var q := "priority is 3";
    assert !('>' in q) && !('<' in q) && !('g' in q) && !('a' in q) && !('l' in q) && !('m' in q);
    forall w | w in AtLeastWords + AtMostWords + AboveWords + BelowWords ensures !Contains(q, w) {
      MissingFirstChar(q, w);
    }
  }

  lemma QueryIsEquality()
    ensures HasAny("priority is 3", EqualWords) && Contains("priority is 3", "priority")
  {
    var q := "priority is 3";
    ContainsAt(q, "is", 9);
    assert EqualWords[2] == "is";
    ContainsAt(q, "priority", 0);
  }

  lemma ThreeIsThree()
    ensures DigitRun("3") == "3" && RadixValue("3", 10) == 3
  {
    assert "3"[..0] == [];
  }

  lemma QueryNumber()
    ensures FirstNumber("priority is 3") == Some(3)
  {
    var q := "priority is 3";
    assert forall k :: 0 <= k < 12 ==> !IsDigit(q[k]);
    FirstNumberAt(q, 12);
    assert q[12..] == "3";
    ThreeIsThree();
  }

  /** "priority is 3" asks for rows whose priority equals 3, which the
      filter as written never finds in a CSV upload. */
  lemma PriorityIsThreeExample(entity: Entity)
    ensures Classify("priority is 3", entity) == PriorityCmp(EqualTo, 3)
    ensures EvalAsWritten(Classify("priority is 3", entity), map["PriorityLevel" := VStr("3")]) == Some(false)
    ensures Eval(Classify("priority is 3", entity), map["PriorityLevel" := VStr("3")]) == Some(true)
  {
    QueryIsNormal();
    QueryHasNoRelation();
    QueryIsEquality();
    QueryNumber();
    StrictEqualityMissesTextCell();
  }
}
