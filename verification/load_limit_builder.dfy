/** The load-limit editor: the shared panel with the default draft
    `{workerId: "", maxLoadPerPhase: 8}` and `validateLoadLimit`, and a
    worker picker that hides workers other entries already limit. */
module LoadLimitBuilder {
  import opened Base
  import opened JsText
  import opened Cells
  import opened RuleTypes
  import opened RuleValidators
  import opened Editor

  type LimitPanel = Panel<LoadLimit, RuleIssue>

  /** The slider's starting value. */
  const DefaultMaxLoad: real := 8.0

  function BlankLimit(): LoadLimit
  {
    LoadLimit("", DefaultMaxLoad)
  }

  /** `availableWorkers`: the worker rows whose `WorkerID` no other limit
      names. */
  function AvailableWorkers(workers: Sheet, limits: seq<LoadLimit>, editingIndex: Option<nat>): (r: Sheet)
    ensures forall row :: row in r <==>
      (row in workers && !exists j :: 0 <= j < |limits| && editingIndex != Some(j) && CellIs(row, "WorkerID", limits[j].workerId))
  {
    var keys := LimitedWorkerIds(limits);
    assert forall j :: 0 <= j < |limits| ==> keys[j] == limits[j].workerId;
    Available(workers, "WorkerID", keys, editingIndex)
  }

  /** `handleSaveLimit`. */
  function SaveLimit(p: LimitPanel, limits: seq<LoadLimit>, workers: Sheet): (r: Step<LoadLimit, RuleIssue>)
    ensures r.update.Some? <==> ValidateLoadLimit(p.draft, workers).isValid
    ensures r.update.None? ==> r.panel.draft == p.draft && r.panel.errors == ValidateLoadLimit(p.draft, workers).errors
    ensures r.update.Some? ==> p.draft in r.update.value && Idle(r.panel, BlankLimit())
  {
    var validate := (x: LoadLimit) => ValidateLoadLimit(x, workers);
    SaveCommitsDraft(p, limits, BlankLimit(), validate);
    Save(p, limits, BlankLimit(), validate)
  }

  /** The worker select. */
  function SetLimitWorker(p: LimitPanel, workerId: string): (r: LimitPanel)
    ensures r.draft.workerId == workerId && r.draft.maxLoadPerPhase == p.draft.maxLoadPerPhase
    ensures r.errors == p.errors && Shown(r) == Shown(p)
  {
    SetDraft(p, p.draft.(workerId := workerId))
  }

  /** The slider, whose value arrives through `parseFloat`. */
  function SetMaxLoad(p: LimitPanel, value: real): (r: LimitPanel)
    ensures r.draft.maxLoadPerPhase == value && r.draft.workerId == p.draft.workerId
    ensures r.errors == p.errors && Shown(r) == Shown(p)
  {
    SetDraft(p, p.draft.(maxLoadPerPhase := value))
  }

  /** Opening for a new limit, an accepted save and a cancel all leave the
      draft at no worker and a load of 8. */
  lemma DraftResetsToDefault(p: LimitPanel, limits: seq<LoadLimit>, workers: Sheet)
    ensures StartAdd(p, BlankLimit()).draft == LoadLimit("", 8.0)
    ensures Cancel(p, BlankLimit()).draft == LoadLimit("", 8.0)
    ensures SaveLimit(p, limits, workers).update.Some? ==> SaveLimit(p, limits, workers).panel.draft == LoadLimit("", 8.0)
  {
  }

  /** Every limit committed by a save passes `validateLoadLimit` against
      the workers sheet of that moment: a known, non-blank worker and a
      load above zero. A list of such limits stays so. */
  lemma SavedLimitValid(p: LimitPanel, limits: seq<LoadLimit>, workers: Sheet)
    requires SaveLimit(p, limits, workers).update.Some?
    ensures ValidateLoadLimit(p.draft, workers).isValid
    ensures !Blank(p.draft.workerId) && p.draft.workerId in RawIds(workers, "WorkerID") && p.draft.maxLoadPerPhase > 0.0
    ensures (forall x :: x in limits ==> ValidateLoadLimit(x, workers).isValid) ==>
      forall x :: x in SaveLimit(p, limits, workers).update.value ==> ValidateLoadLimit(x, workers).isValid
  {
    LoadLimitIssues(p.draft, workers);
    var validate := (x: LoadLimit) => ValidateLoadLimit(x, workers);
    if forall x :: x in limits ==> ValidateLoadLimit(x, workers).isValid {
      SaveKeepsEntriesValid(p, limits, BlankLimit(), validate);
    }
  }

  /** `Distinct(LimitedWorkerIds(l))`, entry by entry. */
  lemma LimitedWorkerIdsDistinct(l: seq<LoadLimit>)
    ensures Distinct(LimitedWorkerIds(l)) <==> forall j, k :: 0 <= j < k < |l| ==> l[j].workerId != l[k].workerId
  {
  }

  /** Saving a draft whose worker was picked from the offered rows keeps
      the limited worker IDs pairwise distinct. */
  lemma SaveFromAvailableKeepsWorkerIdsDistinct(p: LimitPanel, limits: seq<LoadLimit>, workers: Sheet, row: Row)
    requires Distinct(LimitedWorkerIds(limits))
    requires row in AvailableWorkers(workers, limits, p.editingIndex) && CellIs(row, "WorkerID", p.draft.workerId)
    requires SaveLimit(p, limits, workers).update.Some?
    ensures Distinct(LimitedWorkerIds(SaveLimit(p, limits, workers).update.value))
  {
    var keys := LimitedWorkerIds(limits);
    AvailableKeyFree(workers, "WorkerID", keys, p.editingIndex, row, p.draft.workerId);
    LimitedWorkerIdsDistinct(limits);
    var key := (x: LoadLimit) => x.workerId;
    CommitKeepsKeysDistinct(limits, p.editingIndex, p.draft, key);
    var u := SaveLimit(p, limits, workers).update.value;
    assert u == Commit(limits, p.editingIndex, p.draft);
    LimitedWorkerIdsDistinct(u);
  }
}
