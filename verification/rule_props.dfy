/** Properties of whole-ruleset validation: when a ruleset passes, in what
    order its messages come, how many duplicate messages a key earns, and
    what the check ignores. */
module RuleProps {
  import opened Base
  import opened JsText
  import opened JsNumber
  import opened Cells
  import opened RuleTypes
  import opened RuleValidators

  /** The block a message belongs to: groups, restrictions, limits, duplicates. */
  function Rank(m: RuleMessage): nat
  {
    match m
    case InvalidGroup(_, _) => 0
    case InvalidRestriction(_, _) => 1
    case InvalidLimit(_, _) => 2
    case _ => 3
  }

  predicate Ordered(errs: seq<RuleMessage>)
  {
    forall i, j :: 0 <= i < j < |errs| ==> Rank(errs[i]) <= Rank(errs[j])
  }

  predicate AllRank(errs: seq<RuleMessage>, k: nat)
  {
    forall m :: m in errs ==> Rank(m) == k
  }

  lemma OrderedBlocks(a: seq<RuleMessage>, b: seq<RuleMessage>, c: seq<RuleMessage>, d: seq<RuleMessage>)
    requires AllRank(a, 0) && AllRank(b, 1) && AllRank(c, 2) && AllRank(d, 3)
    ensures Ordered(a + b + c + d)
  {
    var s := a + b + c + d;
    forall i | 0 <= i < |s| ensures Rank(s[i]) == if i < |a| then 0 else if i < |a| + |b| then 1 else if i < |a| + |b| + |c| then 2 else 3 {
      if i < |a| {
        assert s[i] == a[i] && a[i] in a;
      } else if i < |a| + |b| {
        assert s[i] == b[i - |a|] && b[i - |a|] in b;
      } else if i < |a| + |b| + |c| {
        assert s[i] == c[i - |a| - |b|] && c[i - |a| - |b|] in c;
      } else {
        assert s[i] == d[i - |a| - |b| - |c|] && d[i - |a| - |b| - |c|] in d;
      }
    }
  }

  /** Entries whose rejections all have one rank give a block of that rank. */
  lemma {:induction false} EntryMessagesRank<T(!new)>(entries: seq<T>, verdict: T -> Option<RuleMessage>, k: nat)
    requires forall x :: verdict(x).Some? ==> Rank(verdict(x).value) == k
    ensures AllRank(EntryMessages(entries, verdict), k)
  {
    if entries != [] {
      EntryMessagesRank(entries[1..], verdict, k);
    }
  }

  lemma WrapAll(keys: seq<string>, mk: string -> RuleMessage, p: RuleMessage -> bool)
    requires forall k :: p(mk(k))
    ensures forall m :: m in Wrap(keys, mk) ==> p(m)
  {
    var w := Wrap(keys, mk);
    forall m | m in w ensures p(m) {
      var i :| 0 <= i < |w| && w[i] == m;
    }
  }

  /** A rejected CoRunGroup yields an `InvalidGroup` message. */
  lemma GroupKind(g: CoRunGroup, tasks: Sheet)
    ensures GroupVerdict(g, tasks).Some? ==> GroupVerdict(g, tasks).value.InvalidGroup?
  {
  }

  lemma GroupBlock(groups: seq<CoRunGroup>, tasks: Sheet)
    ensures AllRank(GroupMessages(groups, tasks), 0)
  {
    var verdict := (x: CoRunGroup) => GroupVerdict(x, tasks);
    forall x ensures verdict(x).Some? ==> Rank(verdict(x).value) == 0 {
      GroupKind(x, tasks);
    }
    EntryMessagesRank(groups, verdict, 0);
  }

  /** A rejected PhaseRestriction yields an `InvalidRestriction` message. */
  lemma RestrictionKind(x: PhaseRestriction, tasks: Sheet)
    ensures RestrictionVerdict(x, tasks).Some? ==> RestrictionVerdict(x, tasks).value.InvalidRestriction?
  {
  }

  lemma RestrictionBlock(restrictions: seq<PhaseRestriction>, tasks: Sheet)
    ensures AllRank(RestrictionMessages(restrictions, tasks), 1)
  {
    var verdict := (x: PhaseRestriction) => RestrictionVerdict(x, tasks);
    forall x ensures verdict(x).Some? ==> Rank(verdict(x).value) == 1 {
      RestrictionKind(x, tasks);
    }
    EntryMessagesRank(restrictions, verdict, 1);
  }

  /** A rejected LoadLimit yields an `InvalidLimit` message. */
  lemma LimitKind(x: LoadLimit, workers: Sheet)
    ensures LimitVerdict(x, workers).Some? ==> LimitVerdict(x, workers).value.InvalidLimit?
  {
  }

  lemma LimitBlock(limits: seq<LoadLimit>, workers: Sheet)
    ensures AllRank(LimitMessages(limits, workers), 2)
  {
    var verdict := (x: LoadLimit) => LimitVerdict(x, workers);
    forall x ensures verdict(x).Some? ==> Rank(verdict(x).value) == 2 {
      LimitKind(x, workers);
    }
    EntryMessagesRank(limits, verdict, 2);
  }

  /** Wrapping keys in a duplicate-key constructor gives duplicate-key
      messages only. */
  lemma WrapDuplicates(keys: seq<string>, mk: string -> RuleMessage)
    requires forall k :: mk(k).DuplicateGroupName? || mk(k).DuplicateRestriction? || mk(k).DuplicateLimit?
    ensures forall m :: m in Wrap(keys, mk) ==>
      (m.DuplicateGroupName? || m.DuplicateRestriction? || m.DuplicateLimit?) && Rank(m) == 3
  {
    var w := Wrap(keys, mk);
    forall m | m in w ensures (m.DuplicateGroupName? || m.DuplicateRestriction? || m.DuplicateLimit?) && Rank(m) == 3 {
      var i :| 0 <= i < |w| && w[i] == m;
    }
  }

  /** The duplicate block holds duplicate-key messages only. */
  lemma DuplicateBlock(rules: BusinessRules)
    ensures AllRank(DuplicateMessages(rules), 3)
    ensures forall m :: m in DuplicateMessages(rules) ==>
      m.DuplicateGroupName? || m.DuplicateRestriction? || m.DuplicateLimit?
  {
    var d1 := Duplicates(GroupNames(rules.coRunGroups));
    var d2 := Duplicates(RestrictedTaskIds(rules.phaseRestrictions));
    var d3 := Duplicates(LimitedWorkerIds(rules.loadLimits));
    WrapDuplicates(d1, (k: string) => DuplicateGroupName(k));
    WrapDuplicates(d2, (k: string) => DuplicateRestriction(k));
    WrapDuplicates(d3, (k: string) => DuplicateLimit(k));
  }

  /** No entry message is a duplicate-key message. */
  lemma EntryErrorsBlock(rules: BusinessRules, tasks: Sheet, workers: Sheet)
    ensures forall m :: m in EntryErrors(rules, tasks, workers) ==> Rank(m) < 3
  {
    GroupBlock(rules.coRunGroups, tasks);
    RestrictionBlock(rules.phaseRestrictions, tasks);
    LimitBlock(rules.loadLimits, workers);
  }

  /** The messages come in four blocks: invalid groups, invalid restrictions,
      invalid limits, then duplicate keys. */
  lemma ValidateRulesOrder(rules: BusinessRules, clients: Sheet, tasks: Sheet, workers: Sheet)
    ensures Ordered(ValidateRules(rules, clients, tasks, workers).errors)
  {
    GroupBlock(rules.coRunGroups, tasks);
    RestrictionBlock(rules.phaseRestrictions, tasks);
    LimitBlock(rules.loadLimits, workers);
    DuplicateBlock(rules);
    OrderedBlocks(GroupMessages(rules.coRunGroups, tasks), RestrictionMessages(rules.phaseRestrictions, tasks),
      LimitMessages(rules.loadLimits, workers), DuplicateMessages(rules));
  }

  /** Every message of `EntryMessages` comes from some entry's verdict. */
  lemma {:induction false} EntryMessagesFrom<T(!new)>(entries: seq<T>, verdict: T -> Option<RuleMessage>, m: RuleMessage)
    requires m in EntryMessages(entries, verdict)
    ensures exists i :: 0 <= i < |entries| && verdict(entries[i]) == Some(m)
  {
    var first := match verdict(entries[0]) case Some(v) => [v] case None => [];
    if m !in first {
      EntryMessagesFrom(entries[1..], verdict, m);
      var i :| 0 <= i < |entries[1..]| && verdict(entries[1..][i]) == Some(m);
      assert entries[i + 1] == entries[1..][i];
    }
  }

  /** Every invalid group is reported under its own name, and every
      group message names an invalid group. */
  lemma GroupMessagesExact(groups: seq<CoRunGroup>, tasks: Sheet)
    ensures forall g :: g in groups && !ValidateCoRunGroup(g, tasks).isValid ==>
      InvalidGroup(g.groupName, ValidateCoRunGroup(g, tasks).errors) in GroupMessages(groups, tasks)
    ensures forall m :: m in GroupMessages(groups, tasks) ==>
      exists i :: (0 <= i < |groups| && !ValidateCoRunGroup(groups[i], tasks).isValid
        && m == InvalidGroup(groups[i].groupName, ValidateCoRunGroup(groups[i], tasks).errors))
  {
    var verdict := (g: CoRunGroup) => GroupVerdict(g, tasks);
    forall g | g in groups && !ValidateCoRunGroup(g, tasks).isValid
      ensures InvalidGroup(g.groupName, ValidateCoRunGroup(g, tasks).errors) in GroupMessages(groups, tasks)
    {
      assert verdict(g).Some?;
    }
    forall m | m in GroupMessages(groups, tasks)
      ensures exists i :: (0 <= i < |groups| && !ValidateCoRunGroup(groups[i], tasks).isValid
        && m == InvalidGroup(groups[i].groupName, ValidateCoRunGroup(groups[i], tasks).errors))
    {
      EntryMessagesFrom(groups, verdict, m);
    }
  }

  /** The same for phase restrictions, keyed by task ID. */
  lemma RestrictionMessagesExact(restrictions: seq<PhaseRestriction>, tasks: Sheet)
    ensures forall x :: x in restrictions && !ValidatePhaseRestriction(x, tasks).isValid ==>
      InvalidRestriction(x.taskId, ValidatePhaseRestriction(x, tasks).errors) in RestrictionMessages(restrictions, tasks)
    ensures forall m :: m in RestrictionMessages(restrictions, tasks) ==>
      exists i :: (0 <= i < |restrictions| && !ValidatePhaseRestriction(restrictions[i], tasks).isValid
        && m == InvalidRestriction(restrictions[i].taskId, ValidatePhaseRestriction(restrictions[i], tasks).errors))
  {
    var verdict := (x: PhaseRestriction) => RestrictionVerdict(x, tasks);
    forall x | x in restrictions && !ValidatePhaseRestriction(x, tasks).isValid
      ensures InvalidRestriction(x.taskId, ValidatePhaseRestriction(x, tasks).errors) in RestrictionMessages(restrictions, tasks)
    {
      assert verdict(x).Some?;
    }
    forall m | m in RestrictionMessages(restrictions, tasks)
      ensures exists i :: (0 <= i < |restrictions| && !ValidatePhaseRestriction(restrictions[i], tasks).isValid
        && m == InvalidRestriction(restrictions[i].taskId, ValidatePhaseRestriction(restrictions[i], tasks).errors))
    {
      EntryMessagesFrom(restrictions, verdict, m);
    }
  }

  /** The same for load limits, keyed by worker ID. */
  lemma LimitMessagesExact(limits: seq<LoadLimit>, workers: Sheet)
    ensures forall x :: x in limits && !ValidateLoadLimit(x, workers).isValid ==>
      InvalidLimit(x.workerId, ValidateLoadLimit(x, workers).errors) in LimitMessages(limits, workers)
    ensures forall m :: m in LimitMessages(limits, workers) ==>
      exists i :: (0 <= i < |limits| && !ValidateLoadLimit(limits[i], workers).isValid
        && m == InvalidLimit(limits[i].workerId, ValidateLoadLimit(limits[i], workers).errors))
  {
    var verdict := (x: LoadLimit) => LimitVerdict(x, workers);
    forall x | x in limits && !ValidateLoadLimit(x, workers).isValid
      ensures InvalidLimit(x.workerId, ValidateLoadLimit(x, workers).errors) in LimitMessages(limits, workers)
    {
      assert verdict(x).Some?;
    }
    forall m | m in LimitMessages(limits, workers)
      ensures exists i :: (0 <= i < |limits| && !ValidateLoadLimit(limits[i], workers).isValid
        && m == InvalidLimit(limits[i].workerId, ValidateLoadLimit(limits[i], workers).errors))
    {
      EntryMessagesFrom(limits, verdict, m);
    }
  }

  // ---------------------------------------------------------------------
  // Duplicate counts
  // ---------------------------------------------------------------------

  lemma {:induction false} WrapCount(keys: seq<string>, mk: string -> RuleMessage, k: string)
    requires forall a :: a != k ==> mk(a) != mk(k)
    ensures multiset(Wrap(keys, mk))[mk(k)] == multiset(keys)[k]
  {
    if keys != [] {
      WrapCount(keys[1..], mk, k);
      assert keys == [keys[0]] + keys[1..];
      assert Wrap(keys, mk) == [mk(keys[0])] + Wrap(keys[1..], mk);
    }
  }

  lemma NotIn(errs: seq<RuleMessage>, m: RuleMessage, p: RuleMessage -> bool)
    requires forall x :: x in errs ==> p(x)
    requires !p(m)
    ensures multiset(errs)[m] == 0
  {
  }

  function Occurrences(keys: seq<string>, k: string): nat
  {
    multiset(keys)[k]
  }

  /** A group-name duplicate message occurs among the duplicate messages
      as often as the name is reported by the group-name scan. */
  lemma GroupNameWrapped(rules: BusinessRules, k: string)
    ensures multiset(DuplicateMessages(rules))[DuplicateGroupName(k)]
      == multiset(Duplicates(GroupNames(rules.coRunGroups)))[k]
  {
    var d2 := Duplicates(RestrictedTaskIds(rules.phaseRestrictions));
    var d3 := Duplicates(LimitedWorkerIds(rules.loadLimits));
    var w2 := Wrap(d2, (x: string) => DuplicateRestriction(x));
    var w3 := Wrap(d3, (x: string) => DuplicateLimit(x));
    WrapCount(Duplicates(GroupNames(rules.coRunGroups)), (x: string) => DuplicateGroupName(x), k);
    WrapAll(d2, (x: string) => DuplicateRestriction(x), (m: RuleMessage) => !m.DuplicateGroupName?);
    WrapAll(d3, (x: string) => DuplicateLimit(x), (m: RuleMessage) => !m.DuplicateGroupName?);
    NotIn(w2 + w3, DuplicateGroupName(k), (m: RuleMessage) => !m.DuplicateGroupName?);
  }

  /** The same for restriction duplicates and the task-ID scan. */
  lemma RestrictionWrapped(rules: BusinessRules, k: string)
    ensures multiset(DuplicateMessages(rules))[DuplicateRestriction(k)]
      == multiset(Duplicates(RestrictedTaskIds(rules.phaseRestrictions)))[k]
  {
    var d1 := Duplicates(GroupNames(rules.coRunGroups));
    var d3 := Duplicates(LimitedWorkerIds(rules.loadLimits));
    var w1 := Wrap(d1, (x: string) => DuplicateGroupName(x));
    var w3 := Wrap(d3, (x: string) => DuplicateLimit(x));
    WrapCount(Duplicates(RestrictedTaskIds(rules.phaseRestrictions)), (x: string) => DuplicateRestriction(x), k);
    WrapAll(d1, (x: string) => DuplicateGroupName(x), (m: RuleMessage) => m.DuplicateGroupName?);
    WrapAll(d3, (x: string) => DuplicateLimit(x), (m: RuleMessage) => m.DuplicateLimit?);
    NotIn(w1, DuplicateRestriction(k), (m: RuleMessage) => m.DuplicateGroupName?);
    NotIn(w3, DuplicateRestriction(k), (m: RuleMessage) => m.DuplicateLimit?);
  }

  /** The same for limit duplicates and the worker-ID scan. */
  lemma LimitWrapped(rules: BusinessRules, k: string)
    ensures multiset(DuplicateMessages(rules))[DuplicateLimit(k)]
      == multiset(Duplicates(LimitedWorkerIds(rules.loadLimits)))[k]
  {
    var d1 := Duplicates(GroupNames(rules.coRunGroups));
    var d2 := Duplicates(RestrictedTaskIds(rules.phaseRestrictions));
    var w1 := Wrap(d1, (x: string) => DuplicateGroupName(x));
    var w2 := Wrap(d2, (x: string) => DuplicateRestriction(x));
    WrapCount(Duplicates(LimitedWorkerIds(rules.loadLimits)), (x: string) => DuplicateLimit(x), k);
    WrapAll(d1, (x: string) => DuplicateGroupName(x), (m: RuleMessage) => !m.DuplicateLimit?);
    WrapAll(d2, (x: string) => DuplicateRestriction(x), (m: RuleMessage) => !m.DuplicateLimit?);
    NotIn(w1 + w2, DuplicateLimit(k), (m: RuleMessage) => !m.DuplicateLimit?);
  }

  /** A duplicate-key message occurs among all messages as often as among
      the duplicate messages. */
  lemma DuplicateOnlyInLastBlock(rules: BusinessRules, clients: Sheet, tasks: Sheet, workers: Sheet, m: RuleMessage)
    requires Rank(m) == 3
    ensures multiset(ValidateRules(rules, clients, tasks, workers).errors)[m] == multiset(DuplicateMessages(rules))[m]
  {
    EntryErrorsBlock(rules, tasks, workers);
    NotIn(EntryErrors(rules, tasks, workers), m, (x: RuleMessage) => Rank(x) < 3);
  }

  /** Among the duplicate messages, a group name used `c` times is
      reported `c - 1` times. */
  lemma DuplicateGroupNameMessages(rules: BusinessRules, k: string)
    ensures var names := GroupNames(rules.coRunGroups);
      multiset(DuplicateMessages(rules))[DuplicateGroupName(k)] == if k in names then Occurrences(names, k) - 1 else 0
  {
    GroupNameWrapped(rules, k);
    DuplicatesCount(GroupNames(rules.coRunGroups), k);
  }

  lemma DuplicateRestrictionMessages(rules: BusinessRules, k: string)
    ensures var ids := RestrictedTaskIds(rules.phaseRestrictions);
      multiset(DuplicateMessages(rules))[DuplicateRestriction(k)] == if k in ids then Occurrences(ids, k) - 1 else 0
  {
    RestrictionWrapped(rules, k);
    DuplicatesCount(RestrictedTaskIds(rules.phaseRestrictions), k);
  }

  lemma DuplicateLimitMessages(rules: BusinessRules, k: string)
    ensures var ids := LimitedWorkerIds(rules.loadLimits);
      multiset(DuplicateMessages(rules))[DuplicateLimit(k)] == if k in ids then Occurrences(ids, k) - 1 else 0
  {
    LimitWrapped(rules, k);
    DuplicatesCount(LimitedWorkerIds(rules.loadLimits), k);
  }

  /** A group name used by `c` groups earns `c - 1` duplicate messages. */
  lemma DuplicateGroupNameCount(rules: BusinessRules, clients: Sheet, tasks: Sheet, workers: Sheet, k: string)
    ensures var names := GroupNames(rules.coRunGroups);
      multiset(ValidateRules(rules, clients, tasks, workers).errors)[DuplicateGroupName(k)] ==
        if k in names then Occurrences(names, k) - 1 else 0
  {
    DuplicateOnlyInLastBlock(rules, clients, tasks, workers, DuplicateGroupName(k));
    DuplicateGroupNameMessages(rules, k);
  }

  /** The same count for phase restrictions keyed by task ID. */
  lemma DuplicateRestrictionCount(rules: BusinessRules, clients: Sheet, tasks: Sheet, workers: Sheet, k: string)
    ensures var ids := RestrictedTaskIds(rules.phaseRestrictions);
      multiset(ValidateRules(rules, clients, tasks, workers).errors)[DuplicateRestriction(k)] ==
        if k in ids then Occurrences(ids, k) - 1 else 0
  {
    DuplicateOnlyInLastBlock(rules, clients, tasks, workers, DuplicateRestriction(k));
    DuplicateRestrictionMessages(rules, k);
  }

  /** The same count for load limits keyed by worker ID. */
  lemma DuplicateLimitCount(rules: BusinessRules, clients: Sheet, tasks: Sheet, workers: Sheet, k: string)
    ensures var ids := LimitedWorkerIds(rules.loadLimits);
      multiset(ValidateRules(rules, clients, tasks, workers).errors)[DuplicateLimit(k)] ==
        if k in ids then Occurrences(ids, k) - 1 else 0
  {
    DuplicateOnlyInLastBlock(rules, clients, tasks, workers, DuplicateLimit(k));
    DuplicateLimitMessages(rules, k);
  }

  // ---------------------------------------------------------------------
  // When a ruleset passes
  // ---------------------------------------------------------------------

  lemma GroupMessagesEmpty(groups: seq<CoRunGroup>, tasks: Sheet)
    ensures GroupMessages(groups, tasks) == [] <==> forall g :: g in groups ==> ValidateCoRunGroup(g, tasks).isValid
  {
    var verdict := (g: CoRunGroup) => GroupVerdict(g, tasks);
    assert forall g :: verdict(g).None? <==> ValidateCoRunGroup(g, tasks).isValid;
  }

  lemma RestrictionMessagesEmpty(restrictions: seq<PhaseRestriction>, tasks: Sheet)
    ensures RestrictionMessages(restrictions, tasks) == [] <==>
      forall x :: x in restrictions ==> ValidatePhaseRestriction(x, tasks).isValid
  {
    var verdict := (x: PhaseRestriction) => RestrictionVerdict(x, tasks);
    assert forall x :: verdict(x).None? <==> ValidatePhaseRestriction(x, tasks).isValid;
  }

  lemma LimitMessagesEmpty(limits: seq<LoadLimit>, workers: Sheet)
    ensures LimitMessages(limits, workers) == [] <==> forall x :: x in limits ==> ValidateLoadLimit(x, workers).isValid
  {
    var verdict := (x: LoadLimit) => LimitVerdict(x, workers);
    assert forall x :: verdict(x).None? <==> ValidateLoadLimit(x, workers).isValid;
  }

  lemma DuplicateMessagesEmpty(rules: BusinessRules)
    ensures DuplicateMessages(rules) == [] <==>
      && Distinct(GroupNames(rules.coRunGroups))
      && Distinct(RestrictedTaskIds(rules.phaseRestrictions))
      && Distinct(LimitedWorkerIds(rules.loadLimits))
  {
    DuplicatesEmpty(GroupNames(rules.coRunGroups));
    DuplicatesEmpty(RestrictedTaskIds(rules.phaseRestrictions));
    DuplicatesEmpty(LimitedWorkerIds(rules.loadLimits));
  }

  /** A ruleset passes exactly when every entry passes its own check and no
      collection repeats a key. */
  lemma ValidateRulesValidIff(rules: BusinessRules, clients: Sheet, tasks: Sheet, workers: Sheet)
    ensures ValidateRules(rules, clients, tasks, workers).isValid <==>
      && (forall g :: g in rules.coRunGroups ==> ValidateCoRunGroup(g, tasks).isValid)
      && (forall x :: x in rules.phaseRestrictions ==> ValidatePhaseRestriction(x, tasks).isValid)
      && (forall x :: x in rules.loadLimits ==> ValidateLoadLimit(x, workers).isValid)
      && Distinct(GroupNames(rules.coRunGroups))
      && Distinct(RestrictedTaskIds(rules.phaseRestrictions))
      && Distinct(LimitedWorkerIds(rules.loadLimits))
  {
    GroupMessagesEmpty(rules.coRunGroups, tasks);
    RestrictionMessagesEmpty(rules.phaseRestrictions, tasks);
    LimitMessagesEmpty(rules.loadLimits, workers);
    DuplicateMessagesEmpty(rules);
  }

  /** Neither the clients sheet nor the priority weights are consulted. */
  lemma ValidateRulesIgnoresWeightsAndClients(rules: BusinessRules, weights: PriorityWeights,
                                              clients: Sheet, otherClients: Sheet, tasks: Sheet, workers: Sheet)
    ensures ValidateRules(rules.(priorityWeights := weights), otherClients, tasks, workers)
         == ValidateRules(rules, clients, tasks, workers)
  {
  }

  /** A ruleset with no groups, restrictions or limits passes whatever the
      sheets and weights are; in particular the empty ruleset does. */
  lemma EmptyListsValid(rules: BusinessRules, clients: Sheet, tasks: Sheet, workers: Sheet)
    requires rules.coRunGroups == [] && rules.phaseRestrictions == [] && rules.loadLimits == []
    ensures ValidateRules(rules, clients, tasks, workers) == ValidationResult(true, [])
    ensures ValidateRules(CreateEmptyRules(), clients, tasks, workers) == ValidationResult(true, [])
  {
  }

  // ---------------------------------------------------------------------
  // Worked examples
  // ---------------------------------------------------------------------

  /** 2 is a valid phase; 0 and -1 are not. */
  lemma PhaseVerdicts()
    ensures BadPhase(0.0) && !BadPhase(2.0) && BadPhase(-1.0)
  {
    assert (2.0).Floor == 2;
  }

  lemma BadPhasesTail()
    ensures BadPhases([2.0, -1.0]) == [-1.0]
  {
    PhaseVerdicts();
    var phases: seq<real> := [2.0, -1.0];
    assert Filter(phases[1..], BadPhase) == [-1.0];
  }

  /** Of the phases [0, 2, -1], 0 and -1 are rejected, in that order. */
  lemma BadPhasesExample()
    ensures BadPhases([0.0, 2.0, -1.0]) == [0.0, -1.0]
  {
    PhaseVerdicts();
    BadPhasesTail();
    var phases: seq<real> := [0.0, 2.0, -1.0];
    assert phases[1..] == [2.0, -1.0];
  }

  /** Phases [0, 2, -1] for a known task: 0 and -1 are listed, in that
      order, and 2 is accepted. */
  lemma MixedPhasesExample()
    ensures var tasks := [map["TaskID" := VStr("T1")]];
      ValidatePhaseRestriction(PhaseRestriction("T1", [0.0, 2.0, -1.0]), tasks).errors
        == [PhasesNotPositive([0.0, -1.0])]
  {
    var tasks := [map["TaskID" := VStr("T1")]];
    assert CellIs(tasks[0], "TaskID", "T1");
    assert "T1" in RawIds(tasks, "TaskID");
    assert !Blank("T1") by {
      assert !IsWhite('T');
    }
    BadPhasesExample();
  }

  /** A load limit of 0.5 for a known worker passes: fractions are allowed. */
  lemma FractionalLoadExample()
    ensures ValidateLoadLimit(LoadLimit("W1", 0.5), [map["WorkerID" := VStr("W1")]]).isValid
  {
    var workers := [map["WorkerID" := VStr("W1")]];
    assert CellIs(workers[0], "WorkerID", "W1");
    assert !Blank("W1") by {
      assert !IsWhite('W');
    }
  }

  /** A numeric TaskID cell never matches a rule's string identifier. */
  lemma NumericTaskIdNotMatched()
    ensures "5" !in RawIds([map["TaskID" := VNum(5.0, "5")]], "TaskID")
  {
  }
}
