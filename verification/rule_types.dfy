/** The business-rule vocabulary: co-run groups, phase restrictions, load
    limits and priority weights, and the empty ruleset. */
module RuleTypes {

  /** Tasks that must run together, named by their TaskIDs. */
  datatype CoRunGroup = CoRunGroup(groupName: string, taskIds: seq<string>)

  /** The phases a task may be scheduled in. Phases are JavaScript numbers,
      so nothing at the type level makes them whole. */
  datatype PhaseRestriction = PhaseRestriction(taskId: string, allowedPhases: seq<real>)

  datatype LoadLimit = LoadLimit(workerId: string, maxLoadPerPhase: real)

  /** Weights keyed by ClientID and by TaskID; a key that is not present
      reads as the default weight. */
  datatype PriorityWeights = PriorityWeights(clients: map<string, real>, tasks: map<string, real>)

  datatype BusinessRules = BusinessRules(
    coRunGroups: seq<CoRunGroup>,
    phaseRestrictions: seq<PhaseRestriction>,
    loadLimits: seq<LoadLimit>,
    priorityWeights: PriorityWeights)

  /** No rules at all: empty lists and empty weight maps. */
  function CreateEmptyRules(): (r: BusinessRules)
    ensures r.coRunGroups == [] && r.phaseRestrictions == [] && r.loadLimits == []
    ensures r.priorityWeights.clients == map[] && r.priorityWeights.tasks == map[]
  {
    BusinessRules([], [], [], PriorityWeights(map[], map[]))
  }
}
