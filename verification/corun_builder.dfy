/** The co-run group editor: the shared panel, instantiated with the blank
    group `{groupName: "", taskIds: []}` and `validateCoRunGroup` against
    the tasks sheet. */
module CoRunBuilder {
  import opened Base
  import opened JsText
  import opened Cells
  import opened RuleTypes
  import opened RuleValidators
  import opened Editor

  type GroupPanel = Panel<CoRunGroup, RuleIssue>

  function BlankGroup(): CoRunGroup
  {
    CoRunGroup("", [])
  }

  /** `handleSaveGroup`. */
  function SaveGroup(p: GroupPanel, groups: seq<CoRunGroup>, tasks: Sheet): (r: Step<CoRunGroup, RuleIssue>)
    ensures r.update.Some? <==> ValidateCoRunGroup(p.draft, tasks).isValid
    ensures r.update.None? ==> r.panel.draft == p.draft && r.panel.errors == ValidateCoRunGroup(p.draft, tasks).errors
    ensures r.update.Some? ==> p.draft in r.update.value && Idle(r.panel, BlankGroup())
  {
    var validate := (g: CoRunGroup) => ValidateCoRunGroup(g, tasks);
    SaveCommitsDraft(p, groups, BlankGroup(), validate);
    Save(p, groups, BlankGroup(), validate)
  }

  /** The name input: `setNewGroup({...newGroup, groupName})`. */
  function SetGroupName(p: GroupPanel, name: string): (r: GroupPanel)
    ensures r.draft.groupName == name && r.draft.taskIds == p.draft.taskIds
    ensures r.errors == p.errors && Shown(r) == Shown(p)
  {
    SetDraft(p, p.draft.(groupName := name))
  }

  /** The multi-select: the selected option values replace the task list. */
  function SetGroupTasks(p: GroupPanel, selected: seq<string>): (r: GroupPanel)
    ensures r.draft.taskIds == selected && r.draft.groupName == p.draft.groupName
    ensures r.errors == p.errors && Shown(r) == Shown(p)
  {
    SetDraft(p, p.draft.(taskIds := selected))
  }

  /** A group that reaches the list has a name that is not blank and at
      least one task, every one of them a task ID of the sheet. */
  lemma SavedGroupWellFormed(p: GroupPanel, groups: seq<CoRunGroup>, tasks: Sheet)
    requires SaveGroup(p, groups, tasks).update.Some?
    ensures !Blank(p.draft.groupName) && p.draft.taskIds != []
    ensures forall t :: t in p.draft.taskIds ==> t in RawIds(tasks, "TaskID")
  {
    CoRunGroupIssues(p.draft, tasks);
  }

  /** A blank draft is never accepted: the editor cannot commit an
      untouched group. */
  lemma BlankGroupRejected(tasks: Sheet)
    ensures !ValidateCoRunGroup(BlankGroup(), tasks).isValid
  {
    CoRunGroupIssues(BlankGroup(), tasks);
  }
}
