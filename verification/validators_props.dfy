/** Whole-sheet properties of the validation engine: where errors can
    appear, how many a row can get, and exactly which sheets pass. */
module ValidatorProps {
  import opened Base
  import opened JsText
  import opened JsNumber
  import opened Cells
  import opened Validators

  // ---------------------------------------------------------------------
  // The per-row checks tag their own rows
  // ---------------------------------------------------------------------

  lemma RowChecksReportOwnRow(kind: Entity, isJson: string -> bool, known: set<string>)
    ensures ReportsOwnRow((row: Row, n: nat) => MandatoryRow(kind, row, n))
    ensures ReportsOwnRow((row: Row, n: nat) => RangeRow(kind, row, n))
    ensures ReportsOwnRow(NonNegativeRow)
    ensures ReportsOwnRow((row: Row, n: nat) => JsonRow(row, n, isJson))
    ensures ReportsOwnRow(MaxConcurrentRow)
    ensures ReportsOwnRow((row: Row, n: nat) => CrossReferenceRow(row, n, known))
  {
    RangeRowReportsOwnRow(kind);
  }

  lemma RangeRowReportsOwnRow(kind: Entity)
    ensures ReportsOwnRow((row: Row, n: nat) => RangeRow(kind, row, n))
  {
    forall row: Row, n: nat, e | e in RangeRow(kind, row, n) ensures e.row == n && e.column.Some? {
    }
  }

  // ---------------------------------------------------------------------
  // Empty sheets
  // ---------------------------------------------------------------------

  /** An empty sheet gets exactly the row-0 "no data" error, whatever the
      other sheets hold; in particular no cross-reference check runs. */
  lemma EmptySheetSingleError(clients: Sheet, tasks: Sheet, workers: Sheet, isJson: string -> bool)
    ensures |clients| == 0 ==> ValidateData(clients, tasks, workers, isJson).clients == [NoDataError(Clients)]
    ensures |tasks| == 0 ==> ValidateData(clients, tasks, workers, isJson).tasks == [NoDataError(Tasks)]
    ensures |workers| == 0 ==> ValidateData(clients, tasks, workers, isJson).workers == [NoDataError(Workers)]
  {
    var v := ValidateData(clients, tasks, workers, isJson);
    assert v.clients == ClientErrors(clients, tasks, isJson);
    assert v.tasks == TaskErrors(tasks);
    assert v.workers == WorkerErrors(workers);
    if |clients| == 0 {
      EmptyClients(clients, tasks, isJson);
    }
    if |tasks| == 0 {
      EmptyTasks(tasks);
    }
    if |workers| == 0 {
      EmptyWorkers(workers);
    }
  }

  lemma EmptyClients(clients: Sheet, tasks: Sheet, isJson: string -> bool)
    requires |clients| == 0
    ensures ClientErrors(clients, tasks, isJson) == [NoDataError(Clients)]
  {
    EmptySheetParts(clients, Clients, isJson);
  }

  lemma EmptyTasks(tasks: Sheet)
    requires |tasks| == 0
    ensures TaskErrors(tasks) == [NoDataError(Tasks)]
  {
    EmptySheetParts(tasks, Tasks, x => true);
  }

  lemma EmptyWorkers(workers: Sheet)
    requires |workers| == 0
    ensures WorkerErrors(workers) == [NoDataError(Workers)]
  {
    EmptySheetParts(workers, Workers, x => true);
  }

  /** Every check after the column check is silent on an empty sheet. */
  lemma EmptySheetParts(sheet: Sheet, kind: Entity, isJson: string -> bool)
    requires |sheet| == 0
    ensures ValidateUniqueIds(sheet, kind) == [] && ValidateMandatoryFields(sheet, kind) == []
    ensures ValidateNumericRanges(sheet, kind) == [] && ValidateJsonSyntax(sheet, kind, isJson) == []
    ensures ValidateMaxConcurrent(sheet, kind) == [] && ValidateNonNegativeIntegers(sheet, kind) == []
  {
  }

  // ---------------------------------------------------------------------
  // Row numbers
  // ---------------------------------------------------------------------

  ghost predicate RowsWithin(errs: seq<ValidationError>, sheet: Sheet)
  {
    forall e :: e in errs ==> e.row <= |sheet| && (e.row == 0 <==> e.column.None?)
  }

  lemma RowsWithinConcat(a: seq<ValidationError>, b: seq<ValidationError>, sheet: Sheet)
    requires RowsWithin(a, sheet) && RowsWithin(b, sheet)
    ensures RowsWithin(a + b, sheet)
  {
  }

  lemma RowWiseRowsWithin(sheet: Sheet, check: (Row, nat) -> seq<ValidationError>)
    requires ReportsOwnRow(check)
    ensures RowsWithin(ForEachRow(sheet, check), sheet)
  {
    ForEachRowRows(sheet, check);
  }

  /** Sheet-level errors carry row 0 and no column; every other error names
      a column and a display row between 1 and the sheet length. */
  lemma ErrorRowsInRange(clients: Sheet, tasks: Sheet, workers: Sheet, isJson: string -> bool)
    ensures RowsWithin(ValidateData(clients, tasks, workers, isJson).clients, clients)
    ensures RowsWithin(ValidateData(clients, tasks, workers, isJson).tasks, tasks)
    ensures RowsWithin(ValidateData(clients, tasks, workers, isJson).workers, workers)
  {
    assert RowsWithin(ValidateData(clients, tasks, workers, isJson).clients, clients) by {
      RowChecksReportOwnRow(Clients, isJson, KnownTaskIds(tasks));
      UniqueIdErrorsRows(clients, "ClientID");
      RowWiseRowsWithin(clients, (row: Row, n: nat) => MandatoryRow(Clients, row, n));
      RowWiseRowsWithin(clients, (row: Row, n: nat) => RangeRow(Clients, row, n));
      RowWiseRowsWithin(clients, (row: Row, n: nat) => JsonRow(row, n, isJson));
      RowWiseRowsWithin(clients, (row: Row, n: nat) => CrossReferenceRow(row, n, KnownTaskIds(tasks)));
    }
    assert RowsWithin(ValidateData(clients, tasks, workers, isJson).tasks, tasks) by {
      RowChecksReportOwnRow(Tasks, isJson, {});
      UniqueIdErrorsRows(tasks, "TaskID");
      RowWiseRowsWithin(tasks, (row: Row, n: nat) => MandatoryRow(Tasks, row, n));
      RowWiseRowsWithin(tasks, (row: Row, n: nat) => RangeRow(Tasks, row, n));
      RowWiseRowsWithin(tasks, MaxConcurrentRow);
    }
    assert RowsWithin(ValidateData(clients, tasks, workers, isJson).workers, workers) by {
      RowChecksReportOwnRow(Workers, isJson, {});
      UniqueIdErrorsRows(workers, "WorkerID");
      RowWiseRowsWithin(workers, (row: Row, n: nat) => MandatoryRow(Workers, row, n));
      RowWiseRowsWithin(workers, NonNegativeRow);
    }
  }

  // ---------------------------------------------------------------------
  // Errors per row
  // ---------------------------------------------------------------------

  /** MaxConcurrent: each task row gets at most one error, "is required" when
      the field is absent or empty and "must be an integer >= 1" when it is
      present but not a whole number of at least 1. */
  lemma MaxConcurrentPerRow(tasks: Sheet, n: nat)
    requires 1 <= n <= |tasks|
    ensures var here := ErrorsAt(ValidateMaxConcurrent(tasks, Tasks), n);
      && |here| <= 1
      && (!FieldExists(tasks[n - 1], "MaxConcurrent") ==> here == [MaxConcurrentRequired(n)])
      && (FieldExists(tasks[n - 1], "MaxConcurrent") && !MaxConcurrentOk(CellNumber(tasks[n - 1], "MaxConcurrent"))
          ==> here == [MaxConcurrentInvalid(n)])
      && (FieldExists(tasks[n - 1], "MaxConcurrent") && MaxConcurrentOk(CellNumber(tasks[n - 1], "MaxConcurrent"))
          ==> here == [])
  {
    RowChecksReportOwnRow(Tasks, x => true, {});
    ForEachRowAt(tasks, MaxConcurrentRow, n);
  }

  /** Non-negative integers: only the workers sheet is checked, and a row gets
      one error per offending field, so never more than two. */
  lemma NonNegativePerRow(sheet: Sheet, kind: Entity, n: nat)
    requires 1 <= n <= |sheet|
    ensures var here := ErrorsAt(ValidateNonNegativeIntegers(sheet, kind), n);
      && (kind != Workers ==> here == [])
      && (kind == Workers ==>
            && |here| == (if BadCount(sheet[n - 1], "AvailableSlots") then 1 else 0)
                         + (if BadCount(sheet[n - 1], "MaxLoadPerPhase") then 1 else 0)
            && ((exists e :: e in here && e.column == Some("AvailableSlots")) <==> BadCount(sheet[n - 1], "AvailableSlots"))
            && ((exists e :: e in here && e.column == Some("MaxLoadPerPhase")) <==> BadCount(sheet[n - 1], "MaxLoadPerPhase")))
  {
    RowChecksReportOwnRow(Workers, x => true, {});
    if kind == Workers {
      ForEachRowAt(sheet, NonNegativeRow, n);
    }
  }

  /** Numeric ranges: a client row is flagged at most once, exactly when its
      PriorityLevel is present and not an integer in [1, 5]; a task row
      exactly when its Duration is present and below 1 or not a number. */
  lemma NumericRangesPerRow(sheet: Sheet, kind: Entity, n: nat)
    requires 1 <= n <= |sheet|
    ensures var here := ErrorsAt(ValidateNumericRanges(sheet, kind), n);
      && |here| <= 1
      && (kind == Clients ==>
            (here == [] <==> (FieldExists(sheet[n - 1], "PriorityLevel") ==> PriorityOk(CellNumber(sheet[n - 1], "PriorityLevel")))))
      && (kind == Tasks ==>
            (here == [] <==> (FieldExists(sheet[n - 1], "Duration") ==> DurationOk(CellNumber(sheet[n - 1], "Duration")))))
      && (kind == Workers ==> here == [])
  {
    RowChecksReportOwnRow(kind, x => true, {});
    ForEachRowAt(sheet, (row: Row, m: nat) => RangeRow(kind, row, m), n);
  }

  // ---------------------------------------------------------------------
  // Cross-references come last
  // ---------------------------------------------------------------------

  function CrossReferencesPart(clients: Sheet, tasks: Sheet): seq<ValidationError>
  {
    if |clients| > 0 && |tasks| > 0 then ValidateCrossReferences(clients, tasks) else []
  }

  /** The clients list ends with the cross-reference errors, which run only
      when both sheets have rows; no earlier check reports the
      RequestedTaskIDs column. */
  lemma CrossReferencesLast(clients: Sheet, tasks: Sheet, workers: Sheet, isJson: string -> bool)
    ensures var r := ValidateData(clients, tasks, workers, isJson).clients;
      var refs := CrossReferencesPart(clients, tasks);
      && |refs| <= |r|
      && r[|r| - |refs|..] == refs
      && (forall e :: e in r[..|r| - |refs|] ==> e.column != Some("RequestedTaskIDs"))
      && (forall e :: e in refs ==> e.column == Some("RequestedTaskIDs"))
      && (|clients| == 0 || |tasks| == 0 ==> refs == [])
  {
    var front := ClientChecksBeforeReferences(clients, isJson);
    var refs := CrossReferencesPart(clients, tasks);
    var r := ValidateData(clients, tasks, workers, isJson).clients;
    assert r == ClientErrors(clients, tasks, isJson);
    assert r == front + refs;
    FrontColumns(clients, isJson);
    ReferenceColumns(clients, tasks);
    assert |r| - |refs| == |front|;
    assert r[|front|..] == refs;
    assert r[..|front|] == front;
  }

  function ClientChecksBeforeReferences(clients: Sheet, isJson: string -> bool): seq<ValidationError>
  {
    ValidateRequiredColumns(clients, Clients)
    + ValidateUniqueIds(clients, Clients)
    + ValidateMandatoryFields(clients, Clients)
    + ValidateNumericRanges(clients, Clients)
    + ValidateJsonSyntax(clients, Clients, isJson)
  }

  lemma FrontColumns(clients: Sheet, isJson: string -> bool)
    ensures forall e :: e in ClientChecksBeforeReferences(clients, isJson) ==> e.column != Some("RequestedTaskIDs")
  {
    var required := ValidateRequiredColumns(clients, Clients);
    var unique := ValidateUniqueIds(clients, Clients);
    var mandatory := ValidateMandatoryFields(clients, Clients);
    var ranges := ValidateNumericRanges(clients, Clients);
    var json := ValidateJsonSyntax(clients, Clients, isJson);
    assert forall e :: e in required ==> e.column != Some("RequestedTaskIDs");
    assert forall e :: e in unique ==> e.column != Some("RequestedTaskIDs") by {
      assert IdColumn(Clients) == "ClientID";
    }
    assert forall e :: e in mandatory ==> e.column != Some("RequestedTaskIDs") by {
      MandatoryColumns(clients);
    }
    assert forall e :: e in ranges ==> e.column != Some("RequestedTaskIDs") by {
      RangeColumns(clients);
    }
    assert forall e :: e in json ==> e.column != Some("RequestedTaskIDs") by {
      JsonColumns(clients, isJson);
    }
    assert ClientChecksBeforeReferences(clients, isJson) == required + unique + mandatory + ranges + json;
  }

  lemma MandatoryColumns(clients: Sheet)
    ensures forall e :: e in ValidateMandatoryFields(clients, Clients) ==> e.column == Some("ClientName")
  {
    ForEachRowColumns(clients, (row: Row, n: nat) => MandatoryRow(Clients, row, n), {"ClientName"});
  }

  lemma RangeColumns(clients: Sheet)
    ensures forall e :: e in ValidateNumericRanges(clients, Clients) ==>
      e.column == Some("PriorityLevel") || e.column == Some("Duration")
    ensures forall e :: e in ValidateNumericRanges(clients, Clients) ==> e.column != Some("RequestedTaskIDs")
  {
    ForEachRowColumns(clients, (row: Row, n: nat) => RangeRow(Clients, row, n), {"PriorityLevel", "Duration"});
  }

  lemma JsonColumns(clients: Sheet, isJson: string -> bool)
    ensures forall e :: e in ValidateJsonSyntax(clients, Clients, isJson) ==> e.column == Some("AttributesJSON")
  {
    ForEachRowColumns(clients, (row: Row, n: nat) => JsonRow(row, n, isJson), {"AttributesJSON"});
  }

  lemma ReferenceColumns(clients: Sheet, tasks: Sheet)
    ensures forall e :: e in CrossReferencesPart(clients, tasks) ==> e.column == Some("RequestedTaskIDs")
  {
    ForEachRowColumns(clients, (row: Row, n: nat) => CrossReferenceRow(row, n, KnownTaskIds(tasks)), {"RequestedTaskIDs"});
  }

  /** Columns a row-wise validator can name are those its check can name. */
  lemma {:induction false} ForEachRowColumns(sheet: Sheet, check: (Row, nat) -> seq<ValidationError>, cols: set<string>)
    requires forall row: Row, n: nat, e :: e in check(row, n) ==> e.column.Some? && e.column.value in cols
    ensures forall e :: e in ForEachRow(sheet, check) ==> e.column.Some? && e.column.value in cols
    decreases |sheet|
  {
    if |sheet| > 0 {
      ForEachRowColumns(sheet[..|sheet| - 1], check, cols);
    }
  }

  // ---------------------------------------------------------------------
  // Which sheets pass
  // ---------------------------------------------------------------------

  predicate HasRequiredColumns(sheet: Sheet, kind: Entity)
  {
    |sheet| > 0 && forall c :: c in RequiredColumns(kind) ==> c in sheet[0]
  }

  predicate NoDuplicateIds(sheet: Sheet, col: string)
  {
    forall i :: 0 <= i < |sheet| ==> !IsDuplicateAt(sheet, col, i)
  }

  /** What one client row must satisfy, cross-references aside. */
  predicate ClientRowOk(row: Row, isJson: string -> bool)
  {
    && FieldExists(row, "ClientName")
    && (FieldExists(row, "PriorityLevel") ==> PriorityOk(CellNumber(row, "PriorityLevel")))
    && (FieldExists(row, "AttributesJSON") ==> isJson(Text(row["AttributesJSON"])))
  }

  predicate ReferencesKnown(row: Row, known: set<string>)
  {
    FieldExists(row, "RequestedTaskIDs") ==> forall t :: t in RequestedTaskIds(row) ==> t in known
  }

  predicate ClientsSheetValid(clients: Sheet, tasks: Sheet, isJson: string -> bool)
  {
    && HasRequiredColumns(clients, Clients)
    && NoDuplicateIds(clients, "ClientID")
    && (forall i :: 0 <= i < |clients| ==> ClientRowOk(clients[i], isJson))
    && (|tasks| > 0 ==> forall i :: 0 <= i < |clients| ==> ReferencesKnown(clients[i], KnownTaskIds(tasks)))
  }

  predicate TaskRowOk(row: Row)
  {
    && FieldExists(row, "TaskName")
    && (FieldExists(row, "Duration") ==> DurationOk(CellNumber(row, "Duration")))
    && FieldExists(row, "MaxConcurrent") && MaxConcurrentOk(CellNumber(row, "MaxConcurrent"))
  }

  predicate TasksSheetValid(tasks: Sheet)
  {
    && HasRequiredColumns(tasks, Tasks)
    && NoDuplicateIds(tasks, "TaskID")
    && (forall i :: 0 <= i < |tasks| ==> TaskRowOk(tasks[i]))
  }

  predicate WorkerRowOk(row: Row)
  {
    && FieldExists(row, "WorkerName")
    && !BadCount(row, "AvailableSlots")
    && !BadCount(row, "MaxLoadPerPhase")
  }

  predicate WorkersSheetValid(workers: Sheet)
  {
    && HasRequiredColumns(workers, Workers)
    && NoDuplicateIds(workers, "WorkerID")
    && (forall i :: 0 <= i < |workers| ==> WorkerRowOk(workers[i]))
  }

  lemma MandatoryEmpty(sheet: Sheet, kind: Entity)
    ensures ValidateMandatoryFields(sheet, kind) == [] <==>
      forall i :: 0 <= i < |sheet| ==> FieldExists(sheet[i], MandatoryFields(kind)[0])
  {
    ForEachRowEmpty(sheet, (row: Row, n: nat) => MandatoryRow(kind, row, n));
  }

  lemma RangesEmpty(sheet: Sheet, kind: Entity)
    ensures ValidateNumericRanges(sheet, kind) == [] <==> forall i :: 0 <= i < |sheet| ==> RangesOk(kind, sheet[i])
  {
    ForEachRowEmpty(sheet, (row: Row, n: nat) => RangeRow(kind, row, n));
  }

  lemma JsonEmpty(sheet: Sheet, isJson: string -> bool)
    ensures ValidateJsonSyntax(sheet, Clients, isJson) == [] <==>
      forall i :: 0 <= i < |sheet| ==>
        (FieldExists(sheet[i], "AttributesJSON") ==> isJson(Text(sheet[i]["AttributesJSON"])))
  {
    ForEachRowEmpty(sheet, (row: Row, n: nat) => JsonRow(row, n, isJson));
  }

  lemma ReferencesEmpty(clients: Sheet, tasks: Sheet)
    ensures ValidateCrossReferences(clients, tasks) == [] <==>
      forall i :: 0 <= i < |clients| ==> ReferencesKnown(clients[i], KnownTaskIds(tasks))
  {
    ForEachRowEmpty(clients, (row: Row, n: nat) => CrossReferenceRow(row, n, KnownTaskIds(tasks)));
  }

  lemma MaxConcurrentEmpty(tasks: Sheet)
    ensures ValidateMaxConcurrent(tasks, Tasks) == [] <==>
      forall i :: 0 <= i < |tasks| ==>
        FieldExists(tasks[i], "MaxConcurrent") && MaxConcurrentOk(CellNumber(tasks[i], "MaxConcurrent"))
  {
    ForEachRowEmpty(tasks, MaxConcurrentRow);
  }

  lemma NonNegativeEmpty(workers: Sheet)
    ensures ValidateNonNegativeIntegers(workers, Workers) == [] <==>
      forall i :: 0 <= i < |workers| ==> !BadCount(workers[i], "AvailableSlots") && !BadCount(workers[i], "MaxLoadPerPhase")
  {
    ForEachRowEmpty(workers, NonNegativeRow);
  }

  lemma RequiredEmpty(sheet: Sheet, kind: Entity)
    ensures ValidateRequiredColumns(sheet, kind) == [] <==> HasRequiredColumns(sheet, kind)
  {
  }

  lemma UniqueEmpty(sheet: Sheet, kind: Entity)
    ensures ValidateUniqueIds(sheet, kind) == [] <==> NoDuplicateIds(sheet, IdColumn(kind))
  {
    UniqueIdErrorsEmpty(sheet, IdColumn(kind));
  }

  lemma FrontEmpty(clients: Sheet, isJson: string -> bool)
    ensures ClientChecksBeforeReferences(clients, isJson) == [] <==>
      (&& HasRequiredColumns(clients, Clients) && NoDuplicateIds(clients, "ClientID")
       && (forall i :: 0 <= i < |clients| ==> ClientRowOk(clients[i], isJson)))
  {
    var mandatory := ValidateMandatoryFields(clients, Clients);
    var ranges := ValidateNumericRanges(clients, Clients);
    var json := ValidateJsonSyntax(clients, Clients, isJson);
    assert ClientChecksBeforeReferences(clients, isJson) ==
      ValidateRequiredColumns(clients, Clients) + ValidateUniqueIds(clients, Clients) + mandatory + ranges + json;
    RequiredEmpty(clients, Clients);
    UniqueEmpty(clients, Clients);
    ClientRowsOk(clients, isJson);
  }

  /** The three row-wise client checks are silent exactly when every client row is fine. */
  lemma ClientRowsOk(clients: Sheet, isJson: string -> bool)
    ensures (&& ValidateMandatoryFields(clients, Clients) == []
             && ValidateNumericRanges(clients, Clients) == []
             && ValidateJsonSyntax(clients, Clients, isJson) == [])
      <==> forall i :: 0 <= i < |clients| ==> ClientRowOk(clients[i], isJson)
  {
    MandatoryEmpty(clients, Clients);
    RangesEmpty(clients, Clients);
    JsonEmpty(clients, isJson);
    assert MandatoryFields(Clients)[0] == "ClientName";
  }

  /** The clients list is empty exactly when the clients sheet is valid. */
  lemma ClientsValidIff(clients: Sheet, tasks: Sheet, workers: Sheet, isJson: string -> bool)
    ensures ValidateData(clients, tasks, workers, isJson).clients == [] <==> ClientsSheetValid(clients, tasks, isJson)
  {
    var front := ClientChecksBeforeReferences(clients, isJson);
    var refs := CrossReferencesPart(clients, tasks);
    assert ValidateData(clients, tasks, workers, isJson).clients == front + refs;
    FrontEmpty(clients, isJson);
    ReferencesEmpty(clients, tasks);
  }

  /** The tasks list is empty exactly when the tasks sheet is valid. */
  lemma TasksValidIff(clients: Sheet, tasks: Sheet, workers: Sheet, isJson: string -> bool)
    ensures ValidateData(clients, tasks, workers, isJson).tasks == [] <==> TasksSheetValid(tasks)
  {
    assert ValidateData(clients, tasks, workers, isJson).tasks == TaskErrors(tasks);
    TaskErrorsEmpty(tasks);
  }

  /** The task checks are silent exactly when the tasks sheet is valid. */
  lemma TaskErrorsEmpty(tasks: Sheet)
    ensures TaskErrors(tasks) == [] <==> TasksSheetValid(tasks)
  {
    var mandatory := ValidateMandatoryFields(tasks, Tasks);
    var ranges := ValidateNumericRanges(tasks, Tasks);
    var concurrency := ValidateMaxConcurrent(tasks, Tasks);
    assert TaskErrors(tasks) == ValidateRequiredColumns(tasks, Tasks) + ValidateUniqueIds(tasks, Tasks)
      + mandatory + ranges + concurrency;
    RequiredEmpty(tasks, Tasks);
    UniqueEmpty(tasks, Tasks);
    TaskRowsOk(tasks);
  }

  /** The three row-wise task checks are silent exactly when every task row is fine. */
  lemma TaskRowsOk(tasks: Sheet)
    ensures (&& ValidateMandatoryFields(tasks, Tasks) == []
             && ValidateNumericRanges(tasks, Tasks) == []
             && ValidateMaxConcurrent(tasks, Tasks) == [])
      <==> forall i :: 0 <= i < |tasks| ==> TaskRowOk(tasks[i])
  {
    MandatoryEmpty(tasks, Tasks);
    RangesEmpty(tasks, Tasks);
    MaxConcurrentEmpty(tasks);
    assert MandatoryFields(Tasks)[0] == "TaskName";
  }

  /** The workers list is empty exactly when the workers sheet is valid. */
  lemma WorkersValidIff(clients: Sheet, tasks: Sheet, workers: Sheet, isJson: string -> bool)
    ensures ValidateData(clients, tasks, workers, isJson).workers == [] <==> WorkersSheetValid(workers)
  {
    assert ValidateData(clients, tasks, workers, isJson).workers == WorkerErrors(workers);
    RequiredEmpty(workers, Workers);
    UniqueEmpty(workers, Workers);
    MandatoryEmpty(workers, Workers);
    NonNegativeEmpty(workers);
  }

  // ---------------------------------------------------------------------
  // Worked examples
  // ---------------------------------------------------------------------

  function IdRow(id: string): Row
  {
    map["ClientID" := VStr(id)]
  }

  /** IDs A, A, B, A: the second and fourth rows are reported, and the
      first occurrence never is. */
  lemma RepeatedIdsExample()
    ensures var sheet := [IdRow("A"), IdRow("A"), IdRow("B"), IdRow("A")];
      ValidateUniqueIds(sheet, Clients) ==
        [DuplicateError("ClientID", IdRow("A"), 2), DuplicateError("ClientID", IdRow("A"), 4)]
  {
    var sheet := [IdRow("A"), IdRow("A"), IdRow("B"), IdRow("A")];
    var first := DuplicateError("ClientID", IdRow("A"), 2);
    var second := DuplicateError("ClientID", IdRow("A"), 4);
    RepeatedIdsFirstHalf(sheet);
    assert sheet[..3][..2] == sheet[..2];
    assert SeenIds(sheet[..3], "ClientID") == {"A", "B"};
    assert !IsDuplicateAt(sheet[..3], "ClientID", 2);
    assert UniqueIdErrors(sheet[..3], "ClientID") == [first];
    assert IsDuplicateAt(sheet, "ClientID", 3);
    assert UniqueIdErrors(sheet, "ClientID") == UniqueIdErrors(sheet[..3], "ClientID") + [second];
  }

  /** The first two rows of the example: only the second is reported. */
  lemma RepeatedIdsFirstHalf(sheet: Sheet)
    requires sheet == [IdRow("A"), IdRow("A"), IdRow("B"), IdRow("A")]
    ensures UniqueIdErrors(sheet[..2], "ClientID") == [DuplicateError("ClientID", IdRow("A"), 2)]
    ensures SeenIds(sheet[..2], "ClientID") == {"A"}
  {
    assert SeenIds(sheet[..1], "ClientID") == {"A"};
    assert sheet[..2][..1] == sheet[..1];
    assert sheet[..1][..0] == [];
    assert !IsDuplicateAt(sheet[..1], "ClientID", 0);
    assert UniqueIdErrors(sheet[..1], "ClientID") == [];
    assert IsDuplicateAt(sheet[..2], "ClientID", 1);
  }

  lemma SplitMixedSeparators()
    ensures Split("T1;T2, T9", IsListSeparator) == ["T1", "T2", " T9"]
  {
    var tail := "T2" + [','] + " T9";
    SplitCommaTail();
    SplitAtSeparator("T1", ';', tail, IsListSeparator);
    assert Split("T1" + [';'] + tail, IsListSeparator) == ["T1", "T2", " T9"];
    assert "T1;T2, T9" == "T1" + [';'] + tail;
  }

  lemma SplitCommaTail()
    ensures Split("T2" + [','] + " T9", IsListSeparator) == ["T2", " T9"]
  {
    SplitNoSeparator(" T9", IsListSeparator);
    SplitAtSeparator("T2", ',', " T9", IsListSeparator);
  }

  lemma TrimLeadingBlank()
    ensures Trim(" T9") == "T9"
  {
    var clean := "T9";
    assert |clean| == 2 && clean[0] == 'T' && clean[1] == '9';
    assert !IsWhite('T') && !IsWhite('9');
    assert Trim(clean) == clean;
    assert " T9" == [' '] + clean;
    TrimDropsLeadingWhite(' ', clean);
  }

  lemma ParseListUnfold(value: string)
    requires value != ""
    ensures ParseList(value) == Filter(TrimAll(Split(value, IsListSeparator)), TruthyString)
  {
  }

  lemma TrimIdentifiers()
    ensures Trim("T1") == "T1" && Trim("T2") == "T2"
  {
    assert !IsWhite('T') && !IsWhite('1') && !IsWhite('2');
  }

  lemma TrimAllExample()
    ensures TrimAll(["T1", "T2", " T9"]) == ["T1", "T2", "T9"]
  {
    var pieces: seq<string> := ["T1", "T2", " T9"];
    var r := TrimAll(pieces);
    assert r[0] == Trim("T1") && r[1] == Trim("T2") && r[2] == Trim(" T9");
    TrimLeadingBlank();
    TrimIdentifiers();
  }

  lemma ParseMixedSeparators()
    ensures ParseList("T1;T2, T9") == ["T1", "T2", "T9"]
  {
    SplitMixedSeparators();
    ParseListUnfold("T1;T2, T9");
    TrimAllExample();
    var trimmed: seq<string> := ["T1", "T2", "T9"];
    assert forall t :: t in trimmed ==> t != "";
  }

  lemma UnknownIdsT9()
    ensures UnknownIds(["T1", "T2", "T9"], {"T1", "T2"}) == ["T9"]
  {
    var known: set<string> := {"T1", "T2"};
    var tokens: seq<string> := ["T1", "T2", "T9"];
    assert "T9" !in known;
    assert tokens[2..][1..] == [] && tokens[1..][1..] == tokens[2..];
    assert UnknownIds(tokens[2..], known) == ["T9"];
    assert UnknownIds(tokens[1..], known) == UnknownIds(tokens[2..], known);
  }

  lemma UnknownT9()
    ensures UnknownReferences(["T1", "T2", "T9"], 1, {"T1", "T2"}) == [UnknownReferenceError("T9", 1)]
  {
    UnknownIdsT9();
    SingleUnknownReference(["T1", "T2", "T9"], 1, {"T1", "T2"}, "T9");
  }

  /** A request list with a single unknown token gets a single error. */
  lemma SingleUnknownReference(tokens: seq<string>, n: nat, known: set<string>, t: string)
    requires UnknownIds(tokens, known) == [t]
    ensures UnknownReferences(tokens, n, known) == [UnknownReferenceError(t, n)]
  {
    var r := UnknownReferences(tokens, n, known);
    assert |r| == 1 && r[0] == UnknownReferenceError(t, n);
  }

  /** A client requesting "T1;T2, T9" against tasks T1 and T2: both
      separators are honoured, the blank is trimmed, and only T9 is
      reported. */
  lemma MixedSeparatorsExample()
    ensures var row := map["RequestedTaskIDs" := VStr("T1;T2, T9")];
      && RequestedTaskIds(row) == ["T1", "T2", "T9"]
      && CrossReferenceRow(row, 1, {"T1", "T2"}) == [UnknownReferenceError("T9", 1)]
  {
    var row := map["RequestedTaskIDs" := VStr("T1;T2, T9")];
    ParseMixedSeparators();
    assert Text(row["RequestedTaskIDs"]) == "T1;T2, T9";
    assert FieldExists(row, "RequestedTaskIDs");
    UnknownT9();
  }
}
