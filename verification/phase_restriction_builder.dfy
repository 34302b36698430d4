/** The phase-restriction editor: the shared panel with the blank draft
    `{taskId: "", allowedPhases: []}` and `validatePhaseRestriction`, a task
    picker that hides tasks other entries already restrict, and a row of
    phase toggles. */
module PhaseRestrictionBuilder {
  import opened Base
  import opened JsText
  import opened Cells
  import opened RuleTypes
  import opened RuleValidators
  import opened Editor
  import opened PhaseSet

  type RestrictionPanel = Panel<PhaseRestriction, RuleIssue>

  function BlankRestriction(): PhaseRestriction
  {
    PhaseRestriction("", [])
  }

  /** `availableTasks`: the task rows whose `TaskID` no other restriction
      names. */
  function AvailableTasks(tasks: Sheet, restrictions: seq<PhaseRestriction>, editingIndex: Option<nat>): (r: Sheet)
    ensures forall row :: row in r <==>
      (row in tasks && !exists j :: 0 <= j < |restrictions| && editingIndex != Some(j) && CellIs(row, "TaskID", restrictions[j].taskId))
  {
    var keys := RestrictedTaskIds(restrictions);
    assert forall j :: 0 <= j < |restrictions| ==> keys[j] == restrictions[j].taskId;
    Available(tasks, "TaskID", keys, editingIndex)
  }

  /** `handleSaveRestriction`. */
  function SaveRestriction(p: RestrictionPanel, restrictions: seq<PhaseRestriction>, tasks: Sheet): (r: Step<PhaseRestriction, RuleIssue>)
    ensures r.update.Some? <==> ValidatePhaseRestriction(p.draft, tasks).isValid
    ensures r.update.None? ==> r.panel.draft == p.draft && r.panel.errors == ValidatePhaseRestriction(p.draft, tasks).errors
    ensures r.update.Some? ==> p.draft in r.update.value && Idle(r.panel, BlankRestriction())
  {
    var validate := (x: PhaseRestriction) => ValidatePhaseRestriction(x, tasks);
    SaveCommitsDraft(p, restrictions, BlankRestriction(), validate);
    Save(p, restrictions, BlankRestriction(), validate)
  }

  /** The task select. */
  function SetRestrictionTask(p: RestrictionPanel, taskId: string): (r: RestrictionPanel)
    ensures r.draft.taskId == taskId && r.draft.allowedPhases == p.draft.allowedPhases
    ensures r.errors == p.errors && Shown(r) == Shown(p)
  {
    SetDraft(p, p.draft.(taskId := taskId))
  }

  /** `handlePhaseToggle(phase)`: only the phase's own membership flips. */
  function TogglePhase(p: RestrictionPanel, phase: real): (r: RestrictionPanel)
    ensures phase in r.draft.allowedPhases <==> phase !in p.draft.allowedPhases
    ensures forall q :: q != phase ==> (q in r.draft.allowedPhases <==> q in p.draft.allowedPhases)
    ensures r.draft.taskId == p.draft.taskId && r.errors == p.errors && Shown(r) == Shown(p)
  {
    SetDraft(p, p.draft.(allowedPhases := Toggle(p.draft.allowedPhases, phase)))
  }

  /** The draft's phases, sorted and free of repeats from the blank draft
      on, stay so under toggling, and a second toggle undoes the first. */
  lemma TogglePhaseKeepsOrder(p: RestrictionPanel, phase: real)
    requires Sorted(p.draft.allowedPhases) && Distinct(p.draft.allowedPhases)
    ensures Sorted(TogglePhase(p, phase).draft.allowedPhases)
    ensures Distinct(TogglePhase(p, phase).draft.allowedPhases)
    ensures TogglePhase(TogglePhase(p, phase), phase) == p
  {
    ToggleKeepsSortedDistinct(p.draft.allowedPhases, phase);
    ToggleTwice(p.draft.allowedPhases, phase);
  }

  /** `Distinct(RestrictedTaskIds(l))`, entry by entry. */
  lemma RestrictedTaskIdsDistinct(l: seq<PhaseRestriction>)
    ensures Distinct(RestrictedTaskIds(l)) <==> forall j, k :: 0 <= j < k < |l| ==> l[j].taskId != l[k].taskId
  {
  }

  /** Saving a draft whose task was picked from the offered rows keeps the
      restricted task IDs pairwise distinct, both when adding and when
      editing (even with an index a delete has made stale). */
  lemma SaveFromAvailableKeepsTaskIdsDistinct(p: RestrictionPanel, restrictions: seq<PhaseRestriction>, tasks: Sheet, row: Row)
    requires Distinct(RestrictedTaskIds(restrictions))
    requires row in AvailableTasks(tasks, restrictions, p.editingIndex) && CellIs(row, "TaskID", p.draft.taskId)
    requires SaveRestriction(p, restrictions, tasks).update.Some?
    ensures Distinct(RestrictedTaskIds(SaveRestriction(p, restrictions, tasks).update.value))
  {
    var keys := RestrictedTaskIds(restrictions);
    AvailableKeyFree(tasks, "TaskID", keys, p.editingIndex, row, p.draft.taskId);
    RestrictedTaskIdsDistinct(restrictions);
    var key := (x: PhaseRestriction) => x.taskId;
    CommitKeepsKeysDistinct(restrictions, p.editingIndex, p.draft, key);
    var u := SaveRestriction(p, restrictions, tasks).update.value;
    assert u == Commit(restrictions, p.editingIndex, p.draft);
    RestrictedTaskIdsDistinct(u);
  }

  /** A restriction that reaches the list names a task of the sheet and
      at least one phase, all whole numbers above zero. */
  lemma SavedRestrictionWellFormed(p: RestrictionPanel, restrictions: seq<PhaseRestriction>, tasks: Sheet)
    requires SaveRestriction(p, restrictions, tasks).update.Some?
    ensures !Blank(p.draft.taskId) && p.draft.taskId in RawIds(tasks, "TaskID")
    ensures p.draft.allowedPhases != [] && forall q :: q in p.draft.allowedPhases ==> !BadPhase(q)
  {
    PhaseRestrictionIssues(p.draft, tasks);
  }
}
