/** The priority-weight editor: copy-on-write updates of the two weight
    maps, and lookups that fall back to a default weight. The maps are
    plain JavaScript objects, so a lookup of a name that `Object.prototype`
    defines finds an inherited member unless the map has its own entry. */
module PriorityWeightsBuilder {
  import opened Base
  import opened RuleTypes

  /** The weight of an identifier with no entry. */
  const DefaultWeight: real := 0.1

  /** The property names every plain object inherits from `Object.prototype`
      (ECMAScript 2023, section 20.1.3, with its legacy accessors). None of
      them is a number. */
  const InheritedKeys: set<string> := {
    "constructor", "hasOwnProperty", "isPrototypeOf", "propertyIsEnumerable",
    "toLocaleString", "toString", "valueOf", "__proto__",
    "__defineGetter__", "__defineSetter__", "__lookupGetter__", "__lookupSetter__"
  }

  /** `weights[id] !== undefined ? weights[id] : 0.1` on a plain object:
      an own entry is read as stored, an inherited member is found for a
      name of `InheritedKeys` (`None`: it is no number, and the
      `toFixed(1)` of the render throws on it), and any other name reads
      the default. */
  function WeightOf(entries: map<string, real>, id: string): (r: Option<real>)
    ensures r.None? <==> id !in entries && id in InheritedKeys
    ensures id in entries ==> r == Some(entries[id])
    ensures id !in entries && id !in InheritedKeys ==> r == Some(DefaultWeight)
  {
    if id in entries then Some(entries[id])
    else if id in InheritedKeys then None
    else Some(DefaultWeight)
  }

  /** `getClientWeight`. */
  function ClientWeight(w: PriorityWeights, clientId: string): Option<real>
  {
    WeightOf(w.clients, clientId)
  }

  /** `getTaskWeight`. */
  function TaskWeight(w: PriorityWeights, taskId: string): Option<real>
  {
    WeightOf(w.tasks, taskId)
  }

  /** `handleClientWeightChange(id, value)`: one client's weight becomes
      `value` (a computed key makes an own entry, even for an inherited
      name); every other client keeps its weight and the task map is
      untouched. */
  function SetClientWeight(w: PriorityWeights, clientId: string, value: real): (r: PriorityWeights)
    ensures ClientWeight(r, clientId) == Some(value)
    ensures forall c :: c != clientId ==> ClientWeight(r, c) == ClientWeight(w, c)
    ensures r.clients.Keys == w.clients.Keys + {clientId}
    ensures r.tasks == w.tasks
  {
    w.(clients := w.clients[clientId := value])
  }

  /** `handleTaskWeightChange(id, value)`. */
  function SetTaskWeight(w: PriorityWeights, taskId: string, value: real): (r: PriorityWeights)
    ensures TaskWeight(r, taskId) == Some(value)
    ensures forall t :: t != taskId ==> TaskWeight(r, t) == TaskWeight(w, t)
    ensures r.tasks.Keys == w.tasks.Keys + {taskId}
    ensures r.clients == w.clients
  {
    w.(tasks := w.tasks[taskId := value])
  }

  /** `handleResetClientWeights`: every client reads the default again,
      except that an inherited name finds its `Object.prototype` member;
      task weights stay. */
  function ResetClientWeights(w: PriorityWeights): (r: PriorityWeights)
    ensures forall c :: c !in InheritedKeys ==> ClientWeight(r, c) == Some(DefaultWeight)
    ensures forall c :: c in InheritedKeys ==> ClientWeight(r, c).None?
    ensures r.tasks == w.tasks
  {
    w.(clients := map[])
  }

  /** `handleResetTaskWeights`. */
  function ResetTaskWeights(w: PriorityWeights): (r: PriorityWeights)
    ensures forall t :: t !in InheritedKeys ==> TaskWeight(r, t) == Some(DefaultWeight)
    ensures forall t :: t in InheritedKeys ==> TaskWeight(r, t).None?
    ensures r.clients == w.clients
  {
    w.(tasks := map[])
  }

  /** A lookup reads what was stored, the default 0.1 for an identifier
      never set that is not an inherited name, and no number for an
      inherited name never set; before any edit that is all there is. */
  lemma WeightLookup(w: PriorityWeights, id: string)
    ensures id in w.clients ==> ClientWeight(w, id) == Some(w.clients[id])
    ensures id !in w.clients ==> ClientWeight(w, id) == if id in InheritedKeys then None else Some(0.1)
    ensures id in w.tasks ==> TaskWeight(w, id) == Some(w.tasks[id])
    ensures id !in w.tasks ==> TaskWeight(w, id) == if id in InheritedKeys then None else Some(0.1)
    ensures ClientWeight(CreateEmptyRules().priorityWeights, id) == if id in InheritedKeys then None else Some(0.1)
    ensures TaskWeight(CreateEmptyRules().priorityWeights, id) == if id in InheritedKeys then None else Some(0.1)
  {
  }

  /** For the client identifier "constructor", the lookup finds no number
      until the map has an own entry for it, reads that entry once it has,
      and finds no number again after a reset. */
  lemma ConstructorNeedsOwnEntry(w: PriorityWeights, value: real)
    requires "constructor" !in w.clients
    ensures ClientWeight(w, "constructor").None?
    ensures ClientWeight(SetClientWeight(w, "constructor", value), "constructor") == Some(value)
    ensures ClientWeight(ResetClientWeights(SetClientWeight(w, "constructor", value)), "constructor").None?
  {
  }

  /** Setting a weight and then resetting its map is the same as resetting
      alone; setting the other map's weight commutes with a reset. */
  lemma ResetForgetsSet(w: PriorityWeights, id: string, value: real)
    ensures ResetClientWeights(SetClientWeight(w, id, value)) == ResetClientWeights(w)
    ensures ResetTaskWeights(SetTaskWeight(w, id, value)) == ResetTaskWeights(w)
    ensures ResetClientWeights(SetTaskWeight(w, id, value)) == SetTaskWeight(ResetClientWeights(w), id, value)
  {
  }
}
