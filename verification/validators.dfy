/** The dataset validation engine: independent checks over one sheet (or,
    for cross-references, two), each producing a list of row-tagged errors,
    and `ValidateData`, which joins them per entity kind in a fixed order.
    Row 0 is a sheet-level error; row `i + 1` reports sheet index `i`. */
module Validators {
  import opened Base
  import opened JsText
  import opened JsNumber
  import opened Cells

  datatype Entity = Clients | Tasks | Workers

  datatype ValidationError = ValidationError(row: nat, column: Option<string>, message: string)

  function EntityName(kind: Entity): string
  {
    match kind
    case Clients => "clients"
    case Tasks => "tasks"
    case Workers => "workers"
  }

  function RequiredColumns(kind: Entity): seq<string>
  {
    match kind
    case Clients => ["ClientID", "ClientName", "PriorityLevel", "RequestedTaskIDs", "AttributesJSON"]
    case Tasks => ["TaskID", "TaskName", "Category", "Duration", "RequiredSkills", "PreferredPhases", "MaxConcurrent"]
    case Workers => ["WorkerID", "WorkerName", "Skills", "AvailableSlots", "MaxLoadPerPhase", "WorkerGroup", "QualificationLevel"]
  }

  function IdColumn(kind: Entity): string
  {
    match kind
    case Clients => "ClientID"
    case Tasks => "TaskID"
    case Workers => "WorkerID"
  }

  function MandatoryFields(kind: Entity): seq<string>
  {
    match kind
    case Clients => ["ClientName"]
    case Tasks => ["TaskName"]
    case Workers => ["WorkerName"]
  }

  // ---------------------------------------------------------------------
  // Row-wise folding
  // ---------------------------------------------------------------------

  /** `sheet.forEach((row, index) => ...)`: the errors of every row, in sheet
      order, the check being given the display row number `index + 1`. */
  function ForEachRow(sheet: Sheet, check: (Row, nat) -> seq<ValidationError>): seq<ValidationError>
    decreases |sheet|
  {
    if |sheet| == 0 then []
    else ForEachRow(sheet[..|sheet| - 1], check) + check(sheet[|sheet| - 1], |sheet|)
  }

  /** A per-row check that only ever tags errors with the row it was given,
      and always names a column. */
  ghost predicate ReportsOwnRow(check: (Row, nat) -> seq<ValidationError>)
  {
    forall row: Row, n: nat, e: ValidationError :: e in check(row, n) ==> e.row == n && e.column.Some?
  }

  /** One error per listed name, made by `mk`, in list order. */
  function ErrorsFor(names: seq<string>, mk: string -> ValidationError): (r: seq<ValidationError>)
    ensures |r| == |names|
    ensures forall i :: 0 <= i < |names| ==> r[i] == mk(names[i])
    ensures forall t :: t in names ==> mk(t) in r
    ensures forall e :: e in r ==> exists t :: t in names && e == mk(t)
  {
    var r := seq(|names|, i requires 0 <= i < |names| => mk(names[i]));
    assert forall t :: t in names ==> mk(t) in r by {
      forall t | t in names ensures mk(t) in r {
        var i :| 0 <= i < |names| && names[i] == t;
        assert r[i] == mk(t);
      }
    }
    r
  }

  /** The errors reported for display row `n`, in order. */
  function ErrorsAt(errs: seq<ValidationError>, n: nat): (r: seq<ValidationError>)
    ensures forall e :: e in r <==> e in errs && e.row == n
    ensures |r| <= |errs|
  {
    if errs == [] then []
    else (if errs[0].row == n then [errs[0]] else []) + ErrorsAt(errs[1..], n)
  }

  lemma {:induction false} ErrorsAtConcat(a: seq<ValidationError>, b: seq<ValidationError>, n: nat)
    ensures ErrorsAt(a + b, n) == ErrorsAt(a, n) + ErrorsAt(b, n)
  {
    if a != [] {
      assert (a + b)[1..] == a[1..] + b;
      ErrorsAtConcat(a[1..], b, n);
    } else {
      assert a + b == b;
    }
  }

  lemma {:induction false} ErrorsAtUniform(errs: seq<ValidationError>, m: nat, n: nat)
    requires forall e :: e in errs ==> e.row == m
    ensures ErrorsAt(errs, n) == if m == n then errs else []
  {
    if errs != [] {
      ErrorsAtUniform(errs[1..], m, n);
      assert [errs[0]] + errs[1..] == errs;
    }
  }

  /** No error of a list tagged with other rows is reported at row `n`. */
  lemma {:induction false} ErrorsAtNone(errs: seq<ValidationError>, n: nat)
    requires forall e :: e in errs ==> e.row != n
    ensures ErrorsAt(errs, n) == []
  {
    if errs != [] {
      ErrorsAtNone(errs[1..], n);
    }
  }

  /** The errors a row-wise validator reports at row `n` are exactly those its
      per-row check reports for sheet index `n - 1`; rows outside the sheet,
      and row 0, get none. */
  lemma {:induction false} ForEachRowAt(sheet: Sheet, check: (Row, nat) -> seq<ValidationError>, n: nat)
    requires ReportsOwnRow(check)
    ensures ErrorsAt(ForEachRow(sheet, check), n) == if 1 <= n <= |sheet| then check(sheet[n - 1], n) else []
    decreases |sheet|
  {
    if |sheet| > 0 {
      var prefix := sheet[..|sheet| - 1];
      var last := check(sheet[|sheet| - 1], |sheet|);
      ErrorsAtConcat(ForEachRow(prefix, check), last, n);
      ForEachRowAt(prefix, check, n);
      ErrorsAtUniform(last, |sheet|, n);
      if 1 <= n < |sheet| {
        assert prefix[n - 1] == sheet[n - 1];
      }
    }
  }

  /** Every error of a row-wise validator names a row of the sheet and a column. */
  lemma {:induction false} ForEachRowRows(sheet: Sheet, check: (Row, nat) -> seq<ValidationError>)
    requires ReportsOwnRow(check)
    ensures forall e :: e in ForEachRow(sheet, check) ==> 1 <= e.row <= |sheet| && e.column.Some?
    decreases |sheet|
  {
    if |sheet| > 0 {
      ForEachRowRows(sheet[..|sheet| - 1], check);
    }
  }

  /** A row-wise validator is silent exactly when every row passes its check. */
  lemma {:induction false} ForEachRowEmpty(sheet: Sheet, check: (Row, nat) -> seq<ValidationError>)
    ensures ForEachRow(sheet, check) == [] <==> forall i :: 0 <= i < |sheet| ==> check(sheet[i], i + 1) == []
    decreases |sheet|
  {
    if |sheet| > 0 {
      var prefix := sheet[..|sheet| - 1];
      ForEachRowEmpty(prefix, check);
      assert forall i :: 0 <= i < |prefix| ==> prefix[i] == sheet[i];
    }
  }

  // ---------------------------------------------------------------------
  // 1. Required columns
  // ---------------------------------------------------------------------

  /** The required columns the row has no key for, in list order. */
  function MissingColumns(cols: seq<string>, row: Row): (m: seq<string>)
    ensures forall c :: c in m <==> c in cols && c !in row
    ensures |m| <= |cols|
  {
    if cols == [] then []
    else (if cols[0] in row then [] else [cols[0]]) + MissingColumns(cols[1..], row)
  }

  function NoDataError(kind: Entity): ValidationError
  {
    ValidationError(0, None, "No data found for " + EntityName(kind) + " sheet")
  }

  /** An empty sheet gets the single "no data" error; otherwise the keys of
      the first row are compared against the kind's required columns and all
      missing ones are named in one sheet-level error. */
  function ValidateRequiredColumns(sheet: Sheet, kind: Entity): (r: seq<ValidationError>)
    ensures |sheet| == 0 ==> r == [NoDataError(kind)]
    ensures |sheet| > 0 ==> (r == [] <==> forall c :: c in RequiredColumns(kind) ==> c in sheet[0])
    ensures |r| <= 1
    ensures forall e :: e in r ==> e.row == 0 && e.column == None
    ensures |sheet| > 0 && r != [] ==>
      r[0].message == "Missing required columns: " + Join(MissingColumns(RequiredColumns(kind), sheet[0]), ", ")
  {
    if |sheet| == 0 then [NoDataError(kind)]
    else
      var missing := MissingColumns(RequiredColumns(kind), sheet[0]);
      assert |missing| > 0 ==> missing[0] in missing;
      if |missing| > 0 then [ValidationError(0, None, "Missing required columns: " + Join(missing, ", "))]
      else []
  }

  /** Only the first row's keys matter: later rows never change the outcome. */
  lemma RequiredColumnsFirstRowOnly(sheet: Sheet, rest: Sheet, kind: Entity)
    requires |sheet| > 0
    ensures ValidateRequiredColumns(sheet, kind) == ValidateRequiredColumns([sheet[0]] + rest, kind)
  {
  }

  // ---------------------------------------------------------------------
  // 2. Unique identifiers
  // ---------------------------------------------------------------------

  /** The texts of the truthy identifiers of the sheet. */
  function SeenIds(sheet: Sheet, col: string): (ids: set<string>)
    ensures forall t :: t in ids <==> exists i :: 0 <= i < |sheet| && TruthyText(sheet[i], col) == Some(t)
    decreases |sheet|
  {
    if |sheet| == 0 then {}
    else
      var prefix := sheet[..|sheet| - 1];
      assert forall i :: 0 <= i < |prefix| ==> prefix[i] == sheet[i];
      SeenIds(prefix, col) +
        (match TruthyText(sheet[|sheet| - 1], col) case Some(t) => {t} case None => {})
  }

  /** Row `i` repeats, as text, a truthy identifier of an earlier row. */
  predicate IsDuplicateAt(sheet: Sheet, col: string, i: nat)
    requires i < |sheet|
  {
    match TruthyText(sheet[i], col)
    case Some(t) => t in SeenIds(sheet[..i], col)
    case None => false
  }

  function DuplicateError(col: string, row: Row, n: nat): ValidationError
    requires col in row
  {
    ValidationError(n, Some(col), "Duplicate " + col + " found: " + Text(row[col]))
  }

  /** One error for every row whose identifier already occurred. */
  function UniqueIdErrors(sheet: Sheet, col: string): seq<ValidationError>
    decreases |sheet|
  {
    if |sheet| == 0 then []
    else
      UniqueIdErrors(sheet[..|sheet| - 1], col) +
        (if IsDuplicateAt(sheet, col, |sheet| - 1) then [DuplicateError(col, sheet[|sheet| - 1], |sheet|)] else [])
  }

  /** `validateUniqueIds`: every error names a sheet row and the kind's
      identifier column, and there is none iff no row repeats an earlier
      identifier. */
  function ValidateUniqueIds(sheet: Sheet, kind: Entity): (r: seq<ValidationError>)
    ensures forall e :: e in r ==> 1 <= e.row <= |sheet| && e.column == Some(IdColumn(kind))
    ensures r == [] <==> forall i :: 0 <= i < |sheet| ==> !IsDuplicateAt(sheet, IdColumn(kind), i)
  {
    UniqueIdErrorsRows(sheet, IdColumn(kind));
    UniqueIdErrorsEmpty(sheet, IdColumn(kind));
    UniqueIdErrors(sheet, IdColumn(kind))
  }

  /** The source's scan: one pass with a set of identifier texts already met. */
  method ScanUniqueIds(sheet: Sheet, kind: Entity) returns (errors: seq<ValidationError>)
    ensures errors == ValidateUniqueIds(sheet, kind)
  {
    var col := IdColumn(kind);
    var ids: set<string> := {};
    errors := [];
    var i := 0;
    while i < |sheet|
      invariant 0 <= i <= |sheet|
      invariant ids == SeenIds(sheet[..i], col)
      invariant errors == UniqueIdErrors(sheet[..i], col)
    {
      var row := sheet[i];
      assert sheet[..i + 1][..i] == sheet[..i];
      if col in row && Truthy(row[col]) {
        var id := Text(row[col]);
        if id in ids {
          errors := errors + [DuplicateError(col, row, i + 1)];
        } else {
          ids := ids + {id};
        }
      }
      i := i + 1;
    }
    assert sheet[..|sheet|] == sheet;
  }

  /** Whether index `i` is a duplicate does not depend on rows after it. */
  lemma DuplicateAtPrefix(sheet: Sheet, col: string, k: nat, i: nat)
    requires i < k <= |sheet|
    ensures IsDuplicateAt(sheet[..k], col, i) == IsDuplicateAt(sheet, col, i)
  {
    assert sheet[..k][..i] == sheet[..i];
  }

  /** The uniqueness check reports row `n` exactly once when sheet index
      `n - 1` is a later occurrence of an identifier, and never otherwise. */
  lemma {:induction false} UniqueIdErrorsAt(sheet: Sheet, col: string, n: nat)
    ensures ErrorsAt(UniqueIdErrors(sheet, col), n) ==
      if 1 <= n <= |sheet| && IsDuplicateAt(sheet, col, n - 1)
      then [DuplicateError(col, sheet[n - 1], n)] else []
    decreases |sheet|, 1
  {
    if |sheet| == 0 {
      assert UniqueIdErrors(sheet, col) == [];
    } else if n == |sheet| {
      LastRowErrors(sheet, col);
    } else {
      EarlierRowErrors(sheet, col, n);
    }
  }

  /** Any other display row collects what the sheet without its last row
      reports there. */
  lemma {:induction false} EarlierRowErrors(sheet: Sheet, col: string, n: nat)
    requires |sheet| > 0 && n != |sheet|
    ensures ErrorsAt(UniqueIdErrors(sheet, col), n) ==
      if 1 <= n <= |sheet| && IsDuplicateAt(sheet, col, n - 1)
      then [DuplicateError(col, sheet[n - 1], n)] else []
    decreases |sheet|, 0
  {
    var k := |sheet| - 1;
    var prefix := sheet[..k];
    var last := LastRowError(sheet, col);
    assert UniqueIdErrors(sheet, col) == UniqueIdErrors(prefix, col) + last;
    ErrorsAtConcat(UniqueIdErrors(prefix, col), last, n);
    ErrorsAtUniform(last, |sheet|, n);
    assert ErrorsAt(UniqueIdErrors(sheet, col), n) == ErrorsAt(UniqueIdErrors(prefix, col), n) + [];
    UniqueIdErrorsAt(prefix, col, n);
    if 1 <= n <= k {
      DuplicateAtPrefix(sheet, col, k, n - 1);
      assert prefix[n - 1] == sheet[n - 1];
    }
  }

  /** What the uniqueness check adds for the last row of a sheet. */
  function LastRowError(sheet: Sheet, col: string): (r: seq<ValidationError>)
    requires |sheet| > 0
    ensures forall e :: e in r ==> e.row == |sheet|
  {
    if IsDuplicateAt(sheet, col, |sheet| - 1) then [DuplicateError(col, sheet[|sheet| - 1], |sheet|)] else []
  }

  /** The last row's display number collects only the last row's error. */
  lemma LastRowErrors(sheet: Sheet, col: string)
    requires |sheet| > 0
    ensures ErrorsAt(UniqueIdErrors(sheet, col), |sheet|) == LastRowError(sheet, col)
  {
    var prefix := sheet[..|sheet| - 1];
    var last := LastRowError(sheet, col);
    assert UniqueIdErrors(sheet, col) == UniqueIdErrors(prefix, col) + last;
    ErrorsAtConcat(UniqueIdErrors(prefix, col), last, |sheet|);
    ErrorsAtUniform(last, |sheet|, |sheet|);
    UniqueIdErrorsRows(prefix, col);
    ErrorsAtNone(UniqueIdErrors(prefix, col), |sheet|);
    assert [] + last == last;
  }

  /** Every uniqueness error names a row of the sheet and the identifier column. */
  lemma {:induction false} UniqueIdErrorsRows(sheet: Sheet, col: string)
    ensures forall e :: e in UniqueIdErrors(sheet, col) ==> 1 <= e.row <= |sheet| && e.column == Some(col)
    decreases |sheet|
  {
    if |sheet| > 0 {
      UniqueIdErrorsRows(sheet[..|sheet| - 1], col);
    }
  }

  /** The uniqueness check is silent exactly when no row repeats an identifier. */
  lemma {:induction false} UniqueIdErrorsEmpty(sheet: Sheet, col: string)
    ensures UniqueIdErrors(sheet, col) == [] <==> forall i :: 0 <= i < |sheet| ==> !IsDuplicateAt(sheet, col, i)
    decreases |sheet|
  {
    if |sheet| > 0 {
      var k := |sheet| - 1;
      UniqueIdErrorsEmpty(sheet[..k], col);
      forall i | 0 <= i < k ensures IsDuplicateAt(sheet[..k], col, i) == IsDuplicateAt(sheet, col, i) {
        DuplicateAtPrefix(sheet, col, k, i);
      }
    }
  }

  // ---------------------------------------------------------------------
  // 3. Mandatory fields
  // ---------------------------------------------------------------------

  /** The listed fields the row holds no value for, in list order. */
  function MissingFields(fields: seq<string>, row: Row): seq<string>
  {
    Filter(fields, (f: string) => !FieldExists(row, f))
  }

  function MissingFieldError(field: string, n: nat): ValidationError
  {
    ValidationError(n, Some(field), field + " cannot be empty")
  }

  /** One error per listed field the row does not hold a value for, in the
      order of the field list. */
  function MissingFieldErrors(fields: seq<string>, row: Row, n: nat): (r: seq<ValidationError>)
    ensures |r| == |MissingFields(fields, row)|
    ensures forall i :: 0 <= i < |r| ==> r[i] == MissingFieldError(MissingFields(fields, row)[i], n)
    ensures forall f :: MissingFieldError(f, n) in r <==> f in fields && !FieldExists(row, f)
    ensures forall e :: e in r ==> e.row == n && e.column.Some? && e.column.value in fields
    ensures r == [] <==> forall f :: f in fields ==> FieldExists(row, f)
  {
    ErrorsFor(MissingFields(fields, row), (f: string) => MissingFieldError(f, n))
  }

  function MandatoryRow(kind: Entity, row: Row, n: nat): (r: seq<ValidationError>)
    ensures forall e :: e in r ==> e.row == n && e.column == Some(MandatoryFields(kind)[0])
    ensures |r| <= 1
    ensures r == [] <==> FieldExists(row, MandatoryFields(kind)[0])
  {
    var field := MandatoryFields(kind)[0];
    assert MandatoryFields(kind) == [field];
    MissingFieldErrorsSingle(field, row, n);
    MissingFieldErrors(MandatoryFields(kind), row, n)
  }

  /** A one-field list yields its error exactly when the field is missing. */
  lemma MissingFieldErrorsSingle(field: string, row: Row, n: nat)
    ensures MissingFieldErrors([field], row, n) ==
      if FieldExists(row, field) then [] else [MissingFieldError(field, n)]
  {
    assert [field][1..] == [];
    assert MissingFields([field], row) == if FieldExists(row, field) then [] else [field];
  }

  /** `validateMandatoryFields`: errors only at sheet rows, and none iff
      every row holds the kind's name field. */
  function ValidateMandatoryFields(sheet: Sheet, kind: Entity): (r: seq<ValidationError>)
    ensures forall e :: e in r ==> 1 <= e.row <= |sheet|
    ensures r == [] <==> forall i :: 0 <= i < |sheet| ==> FieldExists(sheet[i], MandatoryFields(kind)[0])
  {
    var check := (row: Row, n: nat) => MandatoryRow(kind, row, n);
    ForEachRowRows(sheet, check);
    ForEachRowEmpty(sheet, check);
    ForEachRow(sheet, check)
  }

  // ---------------------------------------------------------------------
  // 4. Numeric ranges
  // ---------------------------------------------------------------------

  /** PriorityLevel: a number, integral, between 1 and 5 inclusive. */
  predicate PriorityOk(x: Option<real>)
  {
    x.Some? && 1.0 <= x.value <= 5.0 && IsIntegral(x.value)
  }

  /** Duration: a number of at least 1, fractions allowed. */
  predicate DurationOk(x: Option<real>)
  {
    x.Some? && x.value >= 1.0
  }

  /** What the range check demands of one row of the given kind. */
  predicate RangesOk(kind: Entity, row: Row)
  {
    && (kind == Clients && FieldExists(row, "PriorityLevel") ==> PriorityOk(CellNumber(row, "PriorityLevel")))
    && (kind == Tasks && FieldExists(row, "Duration") ==> DurationOk(CellNumber(row, "Duration")))
  }

  const PriorityRangeMessage := "PriorityLevel must be an integer between 1 and 5"
  const DurationRangeMessage := "Duration must be a number greater than or equal to 1"

  function RangeRow(kind: Entity, row: Row, n: nat): (r: seq<ValidationError>)
    ensures forall e :: e in r ==> e.row == n && (e.column == Some("PriorityLevel") || e.column == Some("Duration"))
    ensures |r| <= 1
    ensures r == [] <==> RangesOk(kind, row)
    ensures r != [] && kind == Clients ==> r[0].column == Some("PriorityLevel")
    ensures r != [] && kind == Tasks ==> r[0].column == Some("Duration")
  {
    (if kind == Clients && FieldExists(row, "PriorityLevel") && !PriorityOk(CellNumber(row, "PriorityLevel"))
     then [ValidationError(n, Some("PriorityLevel"), PriorityRangeMessage)]
     else [])
    +
    (if kind == Tasks && FieldExists(row, "Duration") && !DurationOk(CellNumber(row, "Duration"))
     then [ValidationError(n, Some("Duration"), DurationRangeMessage)]
     else [])
  }

  /** `validateNumericRanges`: errors only at sheet rows, and none iff
      every row meets the range demands of its kind. */
  function ValidateNumericRanges(sheet: Sheet, kind: Entity): (r: seq<ValidationError>)
    ensures forall e :: e in r ==> 1 <= e.row <= |sheet|
    ensures r == [] <==> forall i :: 0 <= i < |sheet| ==> RangesOk(kind, sheet[i])
  {
    var check := (row: Row, n: nat) => RangeRow(kind, row, n);
    ForEachRowRows(sheet, check);
    ForEachRowEmpty(sheet, check);
    ForEachRow(sheet, check)
  }

  // ---------------------------------------------------------------------
  // 5. Non-negative integers (workers)
  // ---------------------------------------------------------------------

  predicate NonNegativeIntegerOk(x: Option<real>)
  {
    x.Some? && x.value >= 0.0 && IsIntegral(x.value)
  }

  /** A present field that is not a non-negative integer. */
  predicate BadCount(row: Row, field: string)
  {
    FieldExists(row, field) && !NonNegativeIntegerOk(CellNumber(row, field))
  }

  const NonNegativeSuffix := " must be a non-negative integer"

  function NonNegativeRow(row: Row, n: nat): (r: seq<ValidationError>)
    ensures forall e :: e in r ==> e.row == n
    ensures |r| == (if BadCount(row, "AvailableSlots") then 1 else 0) + (if BadCount(row, "MaxLoadPerPhase") then 1 else 0)
    ensures forall e :: e in r ==> e.column == Some("AvailableSlots") || e.column == Some("MaxLoadPerPhase")
    ensures BadCount(row, "AvailableSlots") ==> r[0].column == Some("AvailableSlots")
    ensures BadCount(row, "MaxLoadPerPhase") ==> r[|r| - 1].column == Some("MaxLoadPerPhase")
    ensures (exists e :: e in r && e.column == Some("AvailableSlots")) <==> BadCount(row, "AvailableSlots")
    ensures (exists e :: e in r && e.column == Some("MaxLoadPerPhase")) <==> BadCount(row, "MaxLoadPerPhase")
    ensures forall e :: e in r ==> e.column.Some? && e.message == e.column.value + NonNegativeSuffix
  {
    var slots := BadCount(row, "AvailableSlots");
    var load := BadCount(row, "MaxLoadPerPhase");
    var slotsError := ValidationError(n, Some("AvailableSlots"), "AvailableSlots" + NonNegativeSuffix);
    var loadError := ValidationError(n, Some("MaxLoadPerPhase"), "MaxLoadPerPhase" + NonNegativeSuffix);
    OptionalPair(slots, slotsError, load, loadError);
    (if slots then [slotsError] else []) + (if load then [loadError] else [])
  }

  /** Two optional errors for different columns, kept in order: each
      column is named exactly when its error is present. */
  lemma OptionalPair(a: bool, x: ValidationError, b: bool, y: ValidationError)
    requires x.column != y.column
    ensures var r := (if a then [x] else []) + (if b then [y] else []);
      && |r| == (if a then 1 else 0) + (if b then 1 else 0)
      && (forall e :: e in r ==> e == x || e == y)
      && (a ==> r[0] == x) && (b ==> r[|r| - 1] == y)
      && ((exists e :: e in r && e.column == x.column) <==> a)
      && ((exists e :: e in r && e.column == y.column) <==> b)
  {
    var r := (if a then [x] else []) + (if b then [y] else []);
    if a { assert r[0] == x; }
    if b { assert r[|r| - 1] == y; }
  }

  /** Runs only for the workers sheet. */
  function ValidateNonNegativeIntegers(sheet: Sheet, kind: Entity): (r: seq<ValidationError>)
    ensures kind != Workers ==> r == []
  {
    if kind == Workers then ForEachRow(sheet, NonNegativeRow) else []
  }

  // ---------------------------------------------------------------------
  // 6. JSON syntax (clients)
  // ---------------------------------------------------------------------

  /** `isJson(text)` stands for `JSON.parse(text)` returning without an
      exception, i.e. `text` is a JSON text in the sense of RFC 8259. */
  function JsonRow(row: Row, n: nat, isJson: string -> bool): (r: seq<ValidationError>)
    ensures forall e :: e in r ==> e.row == n && e.column == Some("AttributesJSON")
    ensures |r| <= 1
    ensures r == [] <==> (FieldExists(row, "AttributesJSON") ==> isJson(Text(row["AttributesJSON"])))
  {
    if FieldExists(row, "AttributesJSON") && !isJson(Text(row["AttributesJSON"])) then
      [ValidationError(n, Some("AttributesJSON"), "Invalid JSON syntax in AttributesJSON")]
    else []
  }

  function ValidateJsonSyntax(sheet: Sheet, kind: Entity, isJson: string -> bool): (r: seq<ValidationError>)
    ensures kind != Clients ==> r == []
  {
    if kind == Clients then ForEachRow(sheet, (row: Row, n: nat) => JsonRow(row, n, isJson)) else []
  }

  // ---------------------------------------------------------------------
  // 7. Cross-references (clients -> tasks)
  // ---------------------------------------------------------------------

  predicate IsListSeparator(c: char)
  {
    c == ',' || c == ';'
  }

  function TrimAll(pieces: seq<string>): (r: seq<string>)
    ensures |r| == |pieces|
    ensures forall i :: 0 <= i < |r| ==> r[i] == Trim(pieces[i])
  {
    if pieces == [] then [] else [Trim(pieces[0])] + TrimAll(pieces[1..])
  }

  /** `Boolean(t)` on a string: only the empty string is falsy. */
  predicate TruthyString(t: string)
  {
    t != ""
  }

  /** `parseList`: split on `,` or `;`, trim every piece, drop empty ones. */
  function ParseList(value: string): (r: seq<string>)
    ensures forall t :: t in r ==> t != "" && IsTrimmed(t)
    ensures forall t, k :: t in r && 0 <= k < |t| ==> !IsListSeparator(t[k])
  {
    if value == "" then []
    else
      var pieces := Split(value, IsListSeparator);
      var trimmed := TrimAll(pieces);
      TrimAllClean(pieces);
      Filter(trimmed, TruthyString)
  }

  /** Trimming separator-free pieces leaves trimmed, separator-free pieces. */
  lemma TrimAllClean(pieces: seq<string>)
    requires forall i, k :: 0 <= i < |pieces| && 0 <= k < |pieces[i]| ==> !IsListSeparator(pieces[i][k])
    ensures forall t :: t in TrimAll(pieces) ==> IsTrimmed(t)
    ensures forall t, k :: t in TrimAll(pieces) && 0 <= k < |t| ==> !IsListSeparator(t[k])
  {
    var trimmed := TrimAll(pieces);
    forall t | t in trimmed ensures forall k :: 0 <= k < |t| ==> !IsListSeparator(t[k]) {
      var i :| 0 <= i < |trimmed| && trimmed[i] == t;
      TrimKeepsSeparatorFree(pieces[i]);
    }
  }

  /** Trimming only drops characters, so it adds no separator. */
  lemma TrimKeepsSeparatorFree(p: string)
    requires forall k :: 0 <= k < |p| ==> !IsListSeparator(p[k])
    ensures forall k :: 0 <= k < |Trim(p)| ==> !IsListSeparator(Trim(p)[k])
  {
    var t := Trim(p);
    forall k | 0 <= k < |t| ensures !IsListSeparator(t[k]) {
      assert t[k] in p;
    }
  }

  /** A token list whose tokens are non-empty, trimmed and separator-free
      survives being written out with commas and read back. */
  lemma ParseListOfJoin(tokens: seq<string>)
    requires forall t :: t in tokens ==> t != "" && IsTrimmed(t)
    requires forall t, k :: t in tokens && 0 <= k < |t| ==> !IsListSeparator(t[k])
    ensures ParseList(Join(tokens, ",")) == tokens
  {
    if tokens != [] {
      var text := Join(tokens, ",");
      assert text != "" by {
        assert tokens[0] in tokens;
        assert |tokens| > 1 ==> text == tokens[0] + "," + Join(tokens[1..], ",");
      }
      assert Split(text, IsListSeparator) == tokens by {
        SplitOfJoin(tokens);
      }
      assert TrimAll(tokens) == tokens by {
        forall i | 0 <= i < |tokens| ensures TrimAll(tokens)[i] == tokens[i] {
          assert tokens[i] in tokens;
        }
      }
      assert Filter(tokens, TruthyString) == tokens by {
        assert forall t :: t in tokens ==> TruthyString(t);
      }
    }
  }

  lemma {:induction false} SplitOfJoin(tokens: seq<string>)
    requires |tokens| >= 1
    requires forall t, k :: t in tokens && 0 <= k < |t| ==> !IsListSeparator(t[k])
    ensures Split(Join(tokens, ","), IsListSeparator) == tokens
  {
    assert tokens[0] in tokens;
    if |tokens| == 1 {
      SplitNoSeparator(tokens[0], IsListSeparator);
    } else {
      assert forall t :: t in tokens[1..] ==> t in tokens;
      SplitOfJoin(tokens[1..]);
      assert Join(tokens, ",") == tokens[0] + [','] + Join(tokens[1..], ",");
      SplitAtSeparator(tokens[0], ',', Join(tokens[1..], ","), IsListSeparator);
      assert [tokens[0]] + tokens[1..] == tokens;
    }
  }

  /** The identifier set of the tasks sheet: texts of its truthy TaskIDs. */
  function KnownTaskIds(tasks: Sheet): set<string>
  {
    SeenIds(tasks, "TaskID")
  }

  const UnknownReferencePrefix := "TaskID '"
  const UnknownReferenceSuffix := "' referenced in RequestedTaskIDs does not exist in tasks sheet"

  function UnknownReferenceError(taskId: string, n: nat): ValidationError
  {
    ValidationError(n, Some("RequestedTaskIDs"), UnknownReferencePrefix + taskId + UnknownReferenceSuffix)
  }

  /** Distinct identifiers give distinct reference errors. */
  lemma UnknownReferenceErrorInjective(a: string, b: string, n: nat)
    requires UnknownReferenceError(a, n) == UnknownReferenceError(b, n)
    ensures a == b
  {
    var prefix := UnknownReferencePrefix;
    var suffix := UnknownReferenceSuffix;
    var ma := prefix + a + suffix;
    var mb := prefix + b + suffix;
    assert |ma| == |mb|;
    assert a == ma[|prefix|..|prefix| + |a|];
    assert b == mb[|prefix|..|prefix| + |b|];
  }

  /** The requested identifiers that are not task identifiers, in request
      order and with their repeats. */
  function UnknownIds(tokens: seq<string>, known: set<string>): seq<string>
  {
    Filter(tokens, (t: string) => t !in known)
  }

  /** One error per token occurrence that is not a known task identifier. */
  function UnknownReferences(tokens: seq<string>, n: nat, known: set<string>): (r: seq<ValidationError>)
    ensures |r| == |UnknownIds(tokens, known)|
    ensures forall i :: 0 <= i < |r| ==> r[i] == UnknownReferenceError(UnknownIds(tokens, known)[i], n)
    ensures forall e :: e in r ==> e.row == n && e.column == Some("RequestedTaskIDs")
    ensures forall t :: UnknownReferenceError(t, n) in r <==> t in tokens && t !in known
    ensures |r| <= |tokens|
    ensures r == [] <==> forall t :: t in tokens ==> t in known
  {
    var unknown := UnknownIds(tokens, known);
    var r := ErrorsFor(unknown, (t: string) => UnknownReferenceError(t, n));
    assert forall t :: UnknownReferenceError(t, n) in r ==> t in unknown by {
      forall t | UnknownReferenceError(t, n) in r ensures t in unknown {
        var u :| u in unknown && UnknownReferenceError(t, n) == UnknownReferenceError(u, n);
        UnknownReferenceErrorInjective(t, u, n);
      }
    }
    r
  }

  /** `parseList` applied to a cell, as evidently intended: a falsy cell
      gives no identifiers, any other cell is read from its text, so a
      number is never handed to `.split`. */
  function ParseCell(v: Value): (r: seq<string>)
    ensures !Truthy(v) ==> r == []
    ensures Truthy(v) ==> r == ParseList(Text(v))
    ensures forall t :: t in r ==> t != "" && IsTrimmed(t)
  {
    if Truthy(v) then ParseList(Text(v)) else []
  }

  /** The requested task list of a client row. */
  function RequestedTaskIds(row: Row): (r: seq<string>)
    requires "RequestedTaskIDs" in row
    ensures r == ParseCell(row["RequestedTaskIDs"])
    ensures row["RequestedTaskIDs"].VStr? ==> r == ParseList(row["RequestedTaskIDs"].s)
  {
    ParseCell(row["RequestedTaskIDs"])
  }

  function CrossReferenceRow(row: Row, n: nat, known: set<string>): (r: seq<ValidationError>)
    ensures forall e :: e in r ==> e.row == n && e.column == Some("RequestedTaskIDs")
    ensures r == [] <==> (FieldExists(row, "RequestedTaskIDs") ==> forall t :: t in RequestedTaskIds(row) ==> t in known)
  {
    if FieldExists(row, "RequestedTaskIDs") then UnknownReferences(RequestedTaskIds(row), n, known) else []
  }

  /** `validateCrossReferences`: errors only at client rows, and none iff
      every present request list names only task identifiers. */
  function ValidateCrossReferences(clients: Sheet, tasks: Sheet): (r: seq<ValidationError>)
    ensures forall e :: e in r ==> 1 <= e.row <= |clients|
    ensures r == [] <==> forall i :: 0 <= i < |clients| ==>
      (FieldExists(clients[i], "RequestedTaskIDs") ==>
        forall t :: t in RequestedTaskIds(clients[i]) ==> t in KnownTaskIds(tasks))
  {
    var check := (row: Row, n: nat) => CrossReferenceRow(row, n, KnownTaskIds(tasks));
    ForEachRowRows(clients, check);
    ForEachRowEmpty(clients, check);
    ForEachRow(clients, check)
  }

  /** `parseList(client.RequestedTaskIDs)` exactly as written: a falsy cell
      (`null`, `""`, the number 0) returns `[]` before anything else; on
      any other cell `.split` exists only for strings, so a non-zero number
      raises a TypeError (`None`). */
  function ParseListAsWritten(v: Value): Option<seq<string>>
  {
    match v
    case VStr(s) => Some(ParseList(s))
    case VNum(x, _) => if x == 0.0 then Some([]) else None
    case VNull => Some([])
  }

  /** The written code throws exactly on a non-zero numeric cell, and
      wherever it returns, the corrected reading returns the same list. */
  lemma ParseCellAgrees(v: Value)
    ensures ParseListAsWritten(v).None? <==> v.VNum? && v.num != 0.0
    ensures ParseListAsWritten(v).Some? ==> ParseListAsWritten(v).value == ParseCell(v)
  {
    if v.VStr? && v.s == "" {
      assert ParseList(v.s) == [];
    }
  }

  /** A spreadsheet client row whose RequestedTaskIDs cell holds the number 5
      makes the written code throw, while the corrected reading gives the
      single token "5"; the cell 0 is falsy and gives no token either way. */
  lemma NumericRequestListThrows()
    ensures ParseListAsWritten(VNum(5.0, "5")) == None
    ensures RequestedTaskIds(map["RequestedTaskIDs" := VNum(5.0, "5")]) == ["5"]
    ensures ParseListAsWritten(VNum(0.0, "0")) == Some([])
    ensures RequestedTaskIds(map["RequestedTaskIDs" := VNum(0.0, "0")]) == []
  {
    ParseListOfJoin(["5"]);
  }

  // ---------------------------------------------------------------------
  // 8. MaxConcurrent (tasks)
  // ---------------------------------------------------------------------

  predicate MaxConcurrentOk(x: Option<real>)
  {
    x.Some? && x.value >= 1.0 && IsIntegral(x.value)
  }

  function MaxConcurrentRequired(n: nat): ValidationError
  {
    ValidationError(n, Some("MaxConcurrent"), "MaxConcurrent is required")
  }

  function MaxConcurrentInvalid(n: nat): ValidationError
  {
    ValidationError(n, Some("MaxConcurrent"), "MaxConcurrent must be an integer greater than or equal to 1")
  }

  function MaxConcurrentRow(row: Row, n: nat): (r: seq<ValidationError>)
    ensures forall e :: e in r ==> e.row == n && e.column == Some("MaxConcurrent")
    ensures !FieldExists(row, "MaxConcurrent") ==> r == [MaxConcurrentRequired(n)]
    ensures FieldExists(row, "MaxConcurrent") ==>
      r == (if MaxConcurrentOk(CellNumber(row, "MaxConcurrent")) then [] else [MaxConcurrentInvalid(n)])
  {
    if FieldExists(row, "MaxConcurrent") then
      if !MaxConcurrentOk(CellNumber(row, "MaxConcurrent")) then [MaxConcurrentInvalid(n)] else []
    else [MaxConcurrentRequired(n)]
  }

  /** Runs only for the tasks sheet. */
  function ValidateMaxConcurrent(sheet: Sheet, kind: Entity): (r: seq<ValidationError>)
    ensures kind != Tasks ==> r == []
  {
    if kind == Tasks then ForEachRow(sheet, MaxConcurrentRow) else []
  }

  // ---------------------------------------------------------------------
  // The orchestrator
  // ---------------------------------------------------------------------

  datatype SheetErrors = SheetErrors(clients: seq<ValidationError>, tasks: seq<ValidationError>, workers: seq<ValidationError>)

  /** The clients list: an empty sheet gets only its "no data" error. */
  function ClientErrors(clients: Sheet, tasks: Sheet, isJson: string -> bool): (r: seq<ValidationError>)
    ensures |clients| == 0 ==> r == [NoDataError(Clients)]
  {
    ValidateRequiredColumns(clients, Clients)
    + ValidateUniqueIds(clients, Clients)
    + ValidateMandatoryFields(clients, Clients)
    + ValidateNumericRanges(clients, Clients)
    + ValidateJsonSyntax(clients, Clients, isJson)
    + (if |clients| > 0 && |tasks| > 0 then ValidateCrossReferences(clients, tasks) else [])
  }

  function TaskErrors(tasks: Sheet): (r: seq<ValidationError>)
    ensures |tasks| == 0 ==> r == [NoDataError(Tasks)]
  {
    ValidateRequiredColumns(tasks, Tasks)
    + ValidateUniqueIds(tasks, Tasks)
    + ValidateMandatoryFields(tasks, Tasks)
    + ValidateNumericRanges(tasks, Tasks)
    + ValidateMaxConcurrent(tasks, Tasks)
  }

  function WorkerErrors(workers: Sheet): (r: seq<ValidationError>)
    ensures |workers| == 0 ==> r == [NoDataError(Workers)]
  {
    ValidateRequiredColumns(workers, Workers)
    + ValidateUniqueIds(workers, Workers)
    + ValidateMandatoryFields(workers, Workers)
    + ValidateNonNegativeIntegers(workers, Workers)
  }

  /** `validateData`: the per-kind error lists; cross-reference errors come
      last in the clients list and only when both sheets have rows. */
  function ValidateData(clients: Sheet, tasks: Sheet, workers: Sheet, isJson: string -> bool): (r: SheetErrors)
    ensures |clients| == 0 ==> r.clients == [NoDataError(Clients)]
    ensures |tasks| == 0 ==> r.tasks == [NoDataError(Tasks)]
    ensures |workers| == 0 ==> r.workers == [NoDataError(Workers)]
  {
    SheetErrors(ClientErrors(clients, tasks, isJson), TaskErrors(tasks), WorkerErrors(workers))
  }
}
