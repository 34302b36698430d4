/** Checks of single business rules against the uploaded sheets, and of a
    whole ruleset: every invalid entry, then every repeated key. Identifiers
    are compared with strict equality, so a rule's TaskID matches only a
    string cell holding exactly that text. */
module RuleValidators {
  import opened Base
  import opened JsText
  import opened JsNumber
  import opened Cells
  import opened RuleTypes

  /** One complaint about one rule. Each constructor stands for the message
      written beside it. */
  datatype RuleIssue =
    | GroupNameEmpty                      // "Group name cannot be empty"
    | GroupHasNoTasks                     // "Group must contain at least one task"
    | TaskIdsNotFound(ids: seq<string>)   // "Task IDs not found: <ids joined by ', '>"
    | TaskIdEmpty                         // "Task ID cannot be empty"
    | TaskIdNotFound(id: string)          // "Task ID \"<id>\" not found"
    | NoPhaseAllowed                      // "At least one phase must be allowed"
    | PhasesNotPositive(phases: seq<real>) // "Phases must be positive integers: <phases joined by ', '>"
    | WorkerIdEmpty                       // "Worker ID cannot be empty"
    | WorkerIdNotFound(id: string)        // "Worker ID \"<id>\" not found"
    | LoadNotPositive                     // "Maximum load per phase must be greater than 0"

  /** One complaint about a ruleset. */
  datatype RuleMessage =
    | InvalidGroup(groupName: string, issues: seq<RuleIssue>)       // "Co-run group \"<name>\": <issues joined by ', '>"
    | InvalidRestriction(taskId: string, issues: seq<RuleIssue>)    // "Phase restriction for task \"<id>\": ..."
    | InvalidLimit(workerId: string, issues: seq<RuleIssue>)        // "Load limit for worker \"<id>\": ..."
    | DuplicateGroupName(name: string)                              // "Duplicate co-run group name: \"<name>\""
    | DuplicateRestriction(taskId: string)                          // "Duplicate phase restriction for task: \"<id>\""
    | DuplicateLimit(workerId: string)                              // "Duplicate load limit for worker: \"<id>\""

  datatype ValidationResult<E> = ValidationResult(isValid: bool, errors: seq<E>)

  /** The string identifiers of a column: `new Set(sheet.map(r => r[col]))`
      as queried with a string key. */
  function RawIds(sheet: Sheet, col: string): (ids: set<string>)
    ensures forall t :: t in ids <==> exists i :: 0 <= i < |sheet| && CellIs(sheet[i], col, t)
    decreases |sheet|
  {
    if |sheet| == 0 then {}
    else
      var prefix := sheet[..|sheet| - 1];
      assert forall i :: 0 <= i < |prefix| ==> prefix[i] == sheet[i];
      var last := sheet[|sheet| - 1];
      RawIds(prefix, col) + (if col in last && last[col].VStr? then {last[col].s} else {})
  }

  /** `!s || s.trim() === ''`. */
  predicate Blank(s: string)
  {
    Trim(s) == ""
  }

  lemma BlankMeansWhite(s: string)
    ensures Blank(s) <==> forall k :: 0 <= k < |s| ==> IsWhite(s[k])
  {
  }

  // ---------------------------------------------------------------------
  // Co-run groups
  // ---------------------------------------------------------------------

  function MissingIds(ids: seq<string>, known: set<string>): seq<string>
  {
    Filter(ids, (t: string) => t !in known)
  }

  /** The issue list of a group, from the three conditions it is built on. */
  function GroupIssues(blank: bool, noTasks: bool, missing: seq<string>): (r: seq<RuleIssue>)
    ensures |r| <= 3
    ensures GroupNameEmpty in r <==> blank
    ensures GroupHasNoTasks in r <==> noTasks
    ensures forall e :: e in r && e.TaskIdsNotFound? ==> e.ids == missing
    ensures TaskIdsNotFound(missing) in r <==> missing != []
    ensures r == [] <==> !blank && !noTasks && missing == []
  {
    (if blank then [GroupNameEmpty] else [])
    + (if noTasks then [GroupHasNoTasks] else [])
    + (if |missing| > 0 then [TaskIdsNotFound(missing)] else [])
  }

  /** `validateCoRunGroup`: a blank name, an empty task list and the unknown
      task IDs (all of them, in one message) are reported in that order. */
  function ValidateCoRunGroup(group: CoRunGroup, tasks: Sheet): (r: ValidationResult<RuleIssue>)
    ensures r.isValid <==> r.errors == []
    ensures |r.errors| <= 3
  {
    var missing := MissingIds(group.taskIds, RawIds(tasks, "TaskID"));
    var errors := GroupIssues(Blank(group.groupName), group.taskIds == [], missing);
    ValidationResult(errors == [], errors)
  }

  /** What each issue of a group means, and when a group passes. */
  lemma CoRunGroupIssues(group: CoRunGroup, tasks: Sheet)
    ensures var r := ValidateCoRunGroup(group, tasks);
      var known := RawIds(tasks, "TaskID");
      && (GroupNameEmpty in r.errors <==> Blank(group.groupName))
      && (GroupHasNoTasks in r.errors <==> group.taskIds == [])
      && (forall e :: e in r.errors && e.TaskIdsNotFound? ==>
            && e.ids != []
            && forall t :: multiset(e.ids)[t] == if t in known then 0 else multiset(group.taskIds)[t])
      && ((exists t :: t in group.taskIds && t !in known) ==>
            TaskIdsNotFound(MissingIds(group.taskIds, known)) in r.errors)
      && (r.isValid <==> !Blank(group.groupName) && group.taskIds != [] && forall t :: t in group.taskIds ==> t in known)
  {
    var known := RawIds(tasks, "TaskID");
    var missing := MissingIds(group.taskIds, known);
    assert missing != [] <==> exists t :: t in group.taskIds && t !in known by {
      if missing != [] {
        assert missing[0] in missing;
      }
    }
    assert forall t :: multiset(missing)[t] == if t in known then 0 else multiset(group.taskIds)[t];
  }

  // ---------------------------------------------------------------------
  // Phase restrictions
  // ---------------------------------------------------------------------

  /** A phase `Number.isInteger(p) && p > 0` rejects. */
  predicate BadPhase(p: real)
  {
    !IsIntegral(p) || p <= 0.0
  }

  function BadPhases(phases: seq<real>): seq<real>
  {
    Filter(phases, BadPhase)
  }

  /** The issue list of a phase restriction, from the conditions it is built on. */
  function RestrictionIssues(taskId: string, blank: bool, unknown: bool, noPhases: bool, bad: seq<real>): (r: seq<RuleIssue>)
    ensures |r| <= 3
    ensures TaskIdEmpty in r <==> blank
    ensures forall e :: e in r && e.TaskIdNotFound? ==> e.id == taskId
    ensures TaskIdNotFound(taskId) in r <==> !blank && unknown
    ensures NoPhaseAllowed in r <==> noPhases
    ensures forall e :: e in r && e.PhasesNotPositive? ==> e.phases == bad
    ensures PhasesNotPositive(bad) in r <==> bad != []
    ensures r == [] <==> !blank && !unknown && !noPhases && bad == []
  {
    (if blank then [TaskIdEmpty] else if unknown then [TaskIdNotFound(taskId)] else [])
    + (if noPhases then [NoPhaseAllowed] else [])
    + (if |bad| > 0 then [PhasesNotPositive(bad)] else [])
  }

  /** `validatePhaseRestriction`: a blank task ID, or else an unknown one;
      then an empty phase list; then all offending phases in one message. */
  function ValidatePhaseRestriction(restriction: PhaseRestriction, tasks: Sheet): (r: ValidationResult<RuleIssue>)
    ensures r.isValid <==> r.errors == []
    ensures |r.errors| <= 3
  {
    var errors := RestrictionIssues(restriction.taskId, Blank(restriction.taskId),
      restriction.taskId !in RawIds(tasks, "TaskID"), restriction.allowedPhases == [],
      BadPhases(restriction.allowedPhases));
    ValidationResult(errors == [], errors)
  }

  /** What each issue of a phase restriction means, and when one passes. */
  lemma PhaseRestrictionIssues(restriction: PhaseRestriction, tasks: Sheet)
    ensures var r := ValidatePhaseRestriction(restriction, tasks);
      var id := restriction.taskId;
      var phases := restriction.allowedPhases;
      && (TaskIdEmpty in r.errors <==> Blank(id))
      && (forall e :: e in r.errors && e.TaskIdNotFound? ==> e.id == id)
      && (TaskIdNotFound(id) in r.errors <==> !Blank(id) && id !in RawIds(tasks, "TaskID"))
      && (NoPhaseAllowed in r.errors <==> phases == [])
      && (forall e :: e in r.errors && e.PhasesNotPositive? ==>
            && e.phases != []
            && forall p :: multiset(e.phases)[p] == if BadPhase(p) then multiset(phases)[p] else 0)
      && ((exists p :: p in phases && BadPhase(p)) ==> PhasesNotPositive(BadPhases(phases)) in r.errors)
      && (r.isValid <==>
            && !Blank(id) && id in RawIds(tasks, "TaskID")
            && phases != []
            && forall p :: p in phases ==> !BadPhase(p))
  {
    var id := restriction.taskId;
    var r := ValidatePhaseRestriction(restriction, tasks);
    assert r.errors == RestrictionIssues(id, Blank(id), id !in RawIds(tasks, "TaskID"),
      restriction.allowedPhases == [], BadPhases(restriction.allowedPhases));
    BadPhasesMeaning(restriction.allowedPhases);
  }

  /** The offending phases are exactly the bad ones, with their multiplicity,
      and there are some iff some phase is bad. */
  lemma BadPhasesMeaning(phases: seq<real>)
    ensures forall p :: multiset(BadPhases(phases))[p] == if BadPhase(p) then multiset(phases)[p] else 0
    ensures BadPhases(phases) != [] <==> exists p :: p in phases && BadPhase(p)
  {
    var bad := BadPhases(phases);
    if bad != [] {
      assert bad[0] in bad;
    }
  }

  // ---------------------------------------------------------------------
  // Load limits
  // ---------------------------------------------------------------------

  /** The issue list of a load limit, from the conditions it is built on. */
  function LimitIssues(workerId: string, blank: bool, unknown: bool, notPositive: bool): (r: seq<RuleIssue>)
    ensures |r| <= 2
    ensures WorkerIdEmpty in r <==> blank
    ensures forall e :: e in r && e.WorkerIdNotFound? ==> e.id == workerId
    ensures WorkerIdNotFound(workerId) in r <==> !blank && unknown
    ensures LoadNotPositive in r <==> notPositive
    ensures r == [] <==> !blank && !unknown && !notPositive
  {
    (if blank then [WorkerIdEmpty] else if unknown then [WorkerIdNotFound(workerId)] else [])
    + (if notPositive then [LoadNotPositive] else [])
  }

  /** `validateLoadLimit`: a blank worker ID, or else an unknown one; then a
      limit that is not above zero. */
  function ValidateLoadLimit(limit: LoadLimit, workers: Sheet): (r: ValidationResult<RuleIssue>)
    ensures r.isValid <==> r.errors == []
    ensures |r.errors| <= 2
  {
    var errors := LimitIssues(limit.workerId, Blank(limit.workerId),
      limit.workerId !in RawIds(workers, "WorkerID"), limit.maxLoadPerPhase <= 0.0);
    ValidationResult(errors == [], errors)
  }

  /** What each issue of a load limit means, and when one passes. */
  lemma LoadLimitIssues(limit: LoadLimit, workers: Sheet)
    ensures var r := ValidateLoadLimit(limit, workers);
      var id := limit.workerId;
      && (WorkerIdEmpty in r.errors <==> Blank(id))
      && (forall e :: e in r.errors && e.WorkerIdNotFound? ==> e.id == id)
      && (WorkerIdNotFound(id) in r.errors <==> !Blank(id) && id !in RawIds(workers, "WorkerID"))
      && (LoadNotPositive in r.errors <==> limit.maxLoadPerPhase <= 0.0)
      && (r.isValid <==> !Blank(id) && id in RawIds(workers, "WorkerID") && limit.maxLoadPerPhase > 0.0)
  {
  }

  // ---------------------------------------------------------------------
  // Whole rulesets
  // ---------------------------------------------------------------------

  /** `for (const x of entries) { if (!valid(x)) errors.push(msg(x)) }`:
      one message per rejected entry, in list order. */
  function EntryMessages<T(==,!new)>(entries: seq<T>, verdict: T -> Option<RuleMessage>): (r: seq<RuleMessage>)
    ensures |r| <= |entries|
    ensures r == [] <==> forall x :: x in entries ==> verdict(x).None?
    ensures forall x :: x in entries && verdict(x).Some? ==> verdict(x).value in r
    ensures forall m :: m in r ==> exists x :: x in entries && verdict(x) == Some(m)
  {
    if entries == [] then []
    else
      assert forall x :: x in entries <==> x == entries[0] || x in entries[1..];
      (match verdict(entries[0]) case Some(m) => [m] case None => [])
      + EntryMessages(entries[1..], verdict)
  }

  function GroupVerdict(group: CoRunGroup, tasks: Sheet): Option<RuleMessage>
  {
    var v := ValidateCoRunGroup(group, tasks);
    if v.isValid then None else Some(InvalidGroup(group.groupName, v.errors))
  }

  function RestrictionVerdict(restriction: PhaseRestriction, tasks: Sheet): Option<RuleMessage>
  {
    var v := ValidatePhaseRestriction(restriction, tasks);
    if v.isValid then None else Some(InvalidRestriction(restriction.taskId, v.errors))
  }

  function LimitVerdict(limit: LoadLimit, workers: Sheet): Option<RuleMessage>
  {
    var v := ValidateLoadLimit(limit, workers);
    if v.isValid then None else Some(InvalidLimit(limit.workerId, v.errors))
  }

  function GroupMessages(groups: seq<CoRunGroup>, tasks: Sheet): seq<RuleMessage>
  {
    EntryMessages(groups, (g: CoRunGroup) => GroupVerdict(g, tasks))
  }

  function RestrictionMessages(restrictions: seq<PhaseRestriction>, tasks: Sheet): seq<RuleMessage>
  {
    EntryMessages(restrictions, (x: PhaseRestriction) => RestrictionVerdict(x, tasks))
  }

  function LimitMessages(limits: seq<LoadLimit>, workers: Sheet): seq<RuleMessage>
  {
    EntryMessages(limits, (x: LoadLimit) => LimitVerdict(x, workers))
  }

  /** Every occurrence of a key after its first, in list order. */
  function Duplicates(keys: seq<string>): seq<string>
    decreases |keys|
  {
    if |keys| == 0 then []
    else
      var prefix := keys[..|keys| - 1];
      Duplicates(prefix) + (if keys[|keys| - 1] in prefix then [keys[|keys| - 1]] else [])
  }

  /** The source's scan: one pass with the set of keys met so far. */
  method FindDuplicates(keys: seq<string>) returns (dups: seq<string>)
    ensures dups == Duplicates(keys)
  {
    var seen: set<string> := {};
    dups := [];
    var i := 0;
    while i < |keys|
      invariant 0 <= i <= |keys|
      invariant seen == set k | k in keys[..i]
      invariant dups == Duplicates(keys[..i])
    {
      assert keys[..i + 1][..i] == keys[..i];
      if keys[i] in seen {
        dups := dups + [keys[i]];
      }
      seen := seen + {keys[i]};
      i := i + 1;
    }
    assert keys[..|keys|] == keys;
  }

  /** A key occurring `c` times is reported `c - 1` times. */
  lemma {:induction false} DuplicatesCount(keys: seq<string>, k: string)
    ensures multiset(Duplicates(keys))[k] == if k in keys then multiset(keys)[k] - 1 else 0
    decreases |keys|
  {
    if |keys| > 0 {
      var prefix := keys[..|keys| - 1];
      var last := keys[|keys| - 1];
      assert keys == prefix + [last];
      DuplicatesCount(prefix, k);
      if k == last {
        assert k in keys;
        if last !in prefix {
          assert multiset(prefix)[k] == 0;
        }
      } else {
        assert k in keys <==> k in prefix;
      }
    }
  }

  /** No duplicate is reported exactly when the keys are pairwise distinct. */
  lemma DuplicatesEmpty(keys: seq<string>)
    ensures Duplicates(keys) == [] <==> Distinct(keys)
  {
    if !Distinct(keys) {
      var i, j :| 0 <= i < j < |keys| && keys[i] == keys[j];
      var k := keys[i];
      assert keys == keys[..i] + [k] + keys[i + 1..j] + [k] + keys[j + 1..];
      assert multiset(keys)[k] >= 2;
      DuplicatesCount(keys, k);
      assert k in multiset(Duplicates(keys));
    }
    if Duplicates(keys) != [] {
      var d := Duplicates(keys)[0];
      assert d in multiset(Duplicates(keys));
      DuplicatesCount(keys, d);
      TwoOccurrences(keys, d);
    }
  }

  function GroupNames(groups: seq<CoRunGroup>): (r: seq<string>)
    ensures |r| == |groups| && forall i :: 0 <= i < |r| ==> r[i] == groups[i].groupName
  {
    if groups == [] then [] else [groups[0].groupName] + GroupNames(groups[1..])
  }

  function RestrictedTaskIds(restrictions: seq<PhaseRestriction>): (r: seq<string>)
    ensures |r| == |restrictions| && forall i :: 0 <= i < |r| ==> r[i] == restrictions[i].taskId
  {
    if restrictions == [] then [] else [restrictions[0].taskId] + RestrictedTaskIds(restrictions[1..])
  }

  function LimitedWorkerIds(limits: seq<LoadLimit>): (r: seq<string>)
    ensures |r| == |limits| && forall i :: 0 <= i < |r| ==> r[i] == limits[i].workerId
  {
    if limits == [] then [] else [limits[0].workerId] + LimitedWorkerIds(limits[1..])
  }

  function Wrap(keys: seq<string>, mk: string -> RuleMessage): (r: seq<RuleMessage>)
    ensures |r| == |keys| && forall i :: 0 <= i < |r| ==> r[i] == mk(keys[i])
  {
    if keys == [] then [] else [mk(keys[0])] + Wrap(keys[1..], mk)
  }

  /** The messages of the three per-entry loops, in source order. */
  function EntryErrors(rules: BusinessRules, tasks: Sheet, workers: Sheet): seq<RuleMessage>
  {
    GroupMessages(rules.coRunGroups, tasks)
    + RestrictionMessages(rules.phaseRestrictions, tasks)
    + LimitMessages(rules.loadLimits, workers)
  }

  function DuplicateMessages(rules: BusinessRules): seq<RuleMessage>
  {
    Wrap(Duplicates(GroupNames(rules.coRunGroups)), (k: string) => DuplicateGroupName(k))
    + Wrap(Duplicates(RestrictedTaskIds(rules.phaseRestrictions)), (k: string) => DuplicateRestriction(k))
    + Wrap(Duplicates(LimitedWorkerIds(rules.loadLimits)), (k: string) => DuplicateLimit(k))
  }

  /** `validateRules`: the entry messages of groups, restrictions and limits,
      then the duplicate-key messages. The clients sheet and the priority
      weights are never consulted. */
  function ValidateRules(rules: BusinessRules, clients: Sheet, tasks: Sheet, workers: Sheet): (r: ValidationResult<RuleMessage>)
    ensures r.isValid <==> r.errors == []
  {
    var errors := EntryErrors(rules, tasks, workers) + DuplicateMessages(rules);
    ValidationResult(|errors| == 0, errors)
  }
}
