/** The replenishment decision of one round. Times are microseconds. */
module CapacityPlanner {
  import opened Outcomes
  import opened Basics
  import opened OrderedDict
  import opened RuntimeUnits

  const ACTIVE_MAX := 200
  const ENTRIES_MAX := 400

  datatype SlotState = Preparing | Qualifying | Ready | Retired

  datatype Target = Target(host: string, port: int, tokenFile: string)

  type Routes = map<string, Target>

  /** `passed` is the recorded qualification's status; slots of the first
      installation carry none. */
  datatype Record = Record(state: SlotState, routes: Option<Routes>, passed: bool)

  type Inventory = Dict<Record>

  datatype Policy = Policy(wellFormed: bool, enabled: bool, warmSpareSlots: int)

  /** The gateway's projection; absent or mistyped fields are None. */
  datatype Assignments = Assignments(observedAt: Option<int>, registered: Option<int>, used: Option<seq<string>>)

  datatype Resources = Resources(cpu: Field, memory: Field, pods: Field, storage: Field)

  datatype Reason =
    | Stale | Disabled | FinishExisting | TargetSatisfied | InventoryLimit | Insufficient(key: string) | Replenish

  datatype Action = Wait | Resume | Provision

  datatype Decision = Decision(action: Action, reason: Reason, readySpares: nat, pendingSlots: nat)

  datatype PlanError = InvalidPolicy | InvalidBounds | InvalidAssignments | AssignedDisappeared

  function Active(slots: map<string, Record>): set<string> {
    set n | n in slots && slots[n].state != Retired
  }

  function ReadySpares(slots: map<string, Record>, used: set<string>): set<string> {
    set n | n in slots && slots[n].state == Ready && n !in used
  }

  function Pending(slots: map<string, Record>): set<string> {
    set n | n in slots && (slots[n].state == Preparing || slots[n].state == Qualifying)
  }

  function Elements(names: seq<string>): set<string> { set n | n in names }

  predicate AllDifferent(names: seq<string>) { |Elements(names)| == |names| }

  predicate ValidAssignments(a: Assignments) {
    a.registered.Some? && 0 <= a.registered.value <= 10000 && a.used.Some? && AllDifferent(a.used.value)
  }

  function FirstShort(r: Resources): Option<string> {
    if !Usable(r.cpu) then Some("cpuAfterPair")
    else if !Usable(r.memory) then Some("memoryGiBAfterPair")
    else if !Usable(r.pods) then Some("podsAfterPair")
    else if !Usable(r.storage) then Some("storageGiBAfterPair")
    else None
  }

  predicate Timely(a: Assignments, now: int) {
    a.observedAt.Some? && -5 * SECOND <= now - a.observedAt.value <= 60 * SECOND
  }

  function Plan(policy: Policy, a: Assignments, slots: map<string, Record>, resources: Resources, now: int)
    : Result<Decision, PlanError> {
    if !policy.wellFormed then Failure(InvalidPolicy)
    else if !(0 <= policy.warmSpareSlots <= 8) then Failure(InvalidBounds)
    else if a.observedAt.None? then Failure(InvalidAssignments)
    else if !Timely(a, now) then Success(Decision(Wait, Stale, 0, 0))
    else if !ValidAssignments(a) then Failure(InvalidAssignments)
    else if |slots| > ENTRIES_MAX || !(Elements(a.used.value) <= slots.Keys) then Failure(AssignedDisappeared)
    else
      var ready, pending := |ReadySpares(slots, Elements(a.used.value))|, |Pending(slots)|;
      var base := Decision(Wait, Disabled, ready, pending);
      if !policy.enabled then Success(base)
      else if pending > 0 then Success(base.(action := Resume, reason := FinishExisting))
      else if ready >= policy.warmSpareSlots then Success(base.(reason := TargetSatisfied))
      else if |Active(slots)| >= ACTIVE_MAX || |slots| >= ENTRIES_MAX then Success(base.(reason := InventoryLimit))
      else
        var short := FirstShort(resources);
        if short.Some? then Success(base.(reason := Insufficient(short.value)))
        else Success(base.(action := Provision, reason := Replenish))
  }
}
