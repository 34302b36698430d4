/** The rule-builder page: the committed ruleset, the validation result an
    effect keeps in step with it, the four builder callbacks that each
    replace one field, and the download button gated on the messages. */
module RuleBuilder {
  import opened Base
  import opened Cells
  import opened RuleTypes
  import opened RuleValidators
  import opened RuleProps
  import opened Editor
  import opened PhaseRestrictionBuilder

  /** The three sheets the page receives. */
  datatype Sheets = Sheets(clients: Sheet, tasks: Sheet, workers: Sheet)

  datatype Session = Session(rules: BusinessRules, validation: ValidationResult<RuleMessage>)

  /** The effect has run for the current rules and sheets. */
  predicate Synced(s: Session, sheets: Sheets)
  {
    s.validation == ValidateRules(s.rules, sheets.clients, sheets.tasks, sheets.workers)
  }

  /** The two `useState` initial values. */
  function Initial(): (s: Session)
    ensures s.rules.coRunGroups == [] && s.rules.phaseRestrictions == [] && s.rules.loadLimits == []
    ensures s.validation.isValid && s.validation.errors == []
  {
    Session(CreateEmptyRules(), ValidationResult(true, []))
  }

  /** The effect: `setValidation(validateRules(rules, clients, tasks, workers))`. */
  function Revalidate(s: Session, sheets: Sheets): (r: Session)
    ensures Synced(r, sheets) && r.rules == s.rules
  {
    s.(validation := ValidateRules(s.rules, sheets.clients, sheets.tasks, sheets.workers))
  }

  /** `onUpdate={coRunGroups => setRules({...rules, coRunGroups})}`, with the
      effect it triggers. */
  function UpdateCoRunGroups(s: Session, sheets: Sheets, groups: seq<CoRunGroup>): (r: Session)
    ensures r.rules.coRunGroups == groups
    ensures r.rules.phaseRestrictions == s.rules.phaseRestrictions && r.rules.loadLimits == s.rules.loadLimits
    ensures r.rules.priorityWeights == s.rules.priorityWeights
    ensures Synced(r, sheets)
  {
    Revalidate(s.(rules := s.rules.(coRunGroups := groups)), sheets)
  }

  function UpdatePhaseRestrictions(s: Session, sheets: Sheets, restrictions: seq<PhaseRestriction>): (r: Session)
    ensures r.rules.phaseRestrictions == restrictions
    ensures r.rules.coRunGroups == s.rules.coRunGroups && r.rules.loadLimits == s.rules.loadLimits
    ensures r.rules.priorityWeights == s.rules.priorityWeights
    ensures Synced(r, sheets)
  {
    Revalidate(s.(rules := s.rules.(phaseRestrictions := restrictions)), sheets)
  }

  function UpdateLoadLimits(s: Session, sheets: Sheets, limits: seq<LoadLimit>): (r: Session)
    ensures r.rules.loadLimits == limits
    ensures r.rules.coRunGroups == s.rules.coRunGroups && r.rules.phaseRestrictions == s.rules.phaseRestrictions
    ensures r.rules.priorityWeights == s.rules.priorityWeights
    ensures Synced(r, sheets)
  {
    Revalidate(s.(rules := s.rules.(loadLimits := limits)), sheets)
  }

  /** A weight edit changes no message: the validator never reads weights. */
  function UpdatePriorityWeights(s: Session, sheets: Sheets, weights: PriorityWeights): (r: Session)
    ensures r.rules.priorityWeights == weights
    ensures r.rules.coRunGroups == s.rules.coRunGroups && r.rules.phaseRestrictions == s.rules.phaseRestrictions
    ensures r.rules.loadLimits == s.rules.loadLimits
    ensures Synced(r, sheets)
    ensures Synced(s, sheets) ==> r.validation == s.validation
  {
    ValidateRulesIgnoresWeightsAndClients(s.rules, weights, sheets.clients, sheets.clients, sheets.tasks, sheets.workers);
    Revalidate(s.(rules := s.rules.(priorityWeights := weights)), sheets)
  }

  /** `disabled={validation.errors.length > 0}`. */
  predicate DownloadDisabled(s: Session)
  {
    |s.validation.errors| > 0
  }

  /** `handleDownloadRules`, reachable only through the enabled button: the
      committed rules, never a builder's draft. */
  function Download(s: Session): (r: Option<BusinessRules>)
    ensures r.Some? <==> !DownloadDisabled(s)
    ensures r.Some? ==> r.value == s.rules
  {
    if DownloadDisabled(s) then None else Some(s.rules)
  }

  /** The initial validation is what the effect computes for the empty
      ruleset, whatever the sheets: the page starts in step. */
  lemma InitialSynced(sheets: Sheets)
    ensures Synced(Initial(), sheets)
  {
    EmptyListsValid(CreateEmptyRules(), sheets.clients, sheets.tasks, sheets.workers);
  }

  /** In step, the button is disabled exactly when the ruleset fails, and
      what it exports passes: every entry valid, no key repeated. */
  lemma DownloadGate(s: Session, sheets: Sheets)
    requires Synced(s, sheets)
    ensures DownloadDisabled(s) <==> !ValidateRules(s.rules, sheets.clients, sheets.tasks, sheets.workers).isValid
    ensures Download(s).Some? ==>
      && (forall g :: g in s.rules.coRunGroups ==> ValidateCoRunGroup(g, sheets.tasks).isValid)
      && (forall x :: x in s.rules.phaseRestrictions ==> ValidatePhaseRestriction(x, sheets.tasks).isValid)
      && (forall x :: x in s.rules.loadLimits ==> ValidateLoadLimit(x, sheets.workers).isValid)
      && Distinct(GroupNames(s.rules.coRunGroups))
      && Distinct(RestrictedTaskIds(s.rules.phaseRestrictions))
      && Distinct(LimitedWorkerIds(s.rules.loadLimits))
  {
    ValidateRulesValidIff(s.rules, sheets.clients, sheets.tasks, sheets.workers);
  }

  /** Committing a restriction whose task came from the picker never
      produces a duplicate-restriction message, provided the restriction
      task IDs were distinct before. */
  lemma PickedRestrictionNoDuplicate(s: Session, sheets: Sheets, p: RestrictionPanel, row: Row, k: string)
    requires Distinct(RestrictedTaskIds(s.rules.phaseRestrictions))
    requires row in AvailableTasks(sheets.tasks, s.rules.phaseRestrictions, p.editingIndex)
    requires CellIs(row, "TaskID", p.draft.taskId)
    requires SaveRestriction(p, s.rules.phaseRestrictions, sheets.tasks).update.Some?
    ensures var u := SaveRestriction(p, s.rules.phaseRestrictions, sheets.tasks).update.value;
      DuplicateRestriction(k) !in UpdatePhaseRestrictions(s, sheets, u).validation.errors
  {
    var u := SaveRestriction(p, s.rules.phaseRestrictions, sheets.tasks).update.value;
    SaveFromAvailableKeepsTaskIdsDistinct(p, s.rules.phaseRestrictions, sheets.tasks, row);
    var r := UpdatePhaseRestrictions(s, sheets, u);
    DuplicateRestrictionCount(r.rules, sheets.clients, sheets.tasks, sheets.workers, k);
    var ids := RestrictedTaskIds(u);
    if k in ids {
      if multiset(ids)[k] >= 2 {
        TwoOccurrences(ids, k);
      }
    }
  }
}
