/** The controller's round in its own form: files replaced one after the other. */
module CapacityController {
  import opened Outcomes
  import opened OrderedDict
  import opened CapacityPlanner
  import opened CapacityProtocol
  import opened CapacityPromises

  datatype ControllerError = RouteDiffers | PlanFailed(error: PlanError) | FailedQualification | NothingPending

  datatype Outcome = Waited(decision: Decision) | PublishedSlot(slot: string)

  /** What is on disk between two writes. */
  datatype Snapshot = Snapshot(inventory: Inventory, pool: Dict<Routes>)

  class Files {
    var inventory: Inventory
    var pool: Dict<Routes>
    ghost var written: seq<Snapshot>     // every state of the two files so far, this one last
    ghost var worked: seq<string>        // the slots the worker was called for

    ghost predicate Valid()
      reads this
    {
      written != [] && written[|written| - 1] == Snapshot(inventory, pool)
    }

    constructor (inventory: Inventory, pool: Dict<Routes>)
      ensures Valid() && written == [Snapshot(inventory, pool)] && worked == []
    {
      this.inventory, this.pool := inventory, pool;
      written, worked := [Snapshot(inventory, pool)], [];
    }

    method WriteInventory(value: Inventory)
      requires Valid()
      modifies this`inventory, this`written
      ensures Valid() && inventory == value && pool == old(pool)
      ensures written == old(written) + [Snapshot(inventory, pool)]
    {
      inventory := value;
      written := written + [Snapshot(inventory, pool)];
    }

    method WritePool(value: Dict<Routes>)
      requires Valid()
      modifies this`pool, this`written
      ensures Valid() && pool == value && inventory == old(inventory)
      ensures written == old(written) + [Snapshot(inventory, pool)]
    {
      pool := value;
      written := written + [Snapshot(inventory, pool)];
    }

    /** Publishes what earlier rounds left qualified, in one write if any. */
    method RecoverPool() returns (ok: bool)
      requires Valid() && IsDict(inventory)
      modifies this`pool, this`written
      ensures Valid() && inventory == old(inventory) && ok == Recover(old(inventory), old(pool)).Some?
      ensures pool == if ok then Recover(old(inventory), old(pool)).value else old(pool)
      ensures written == old(written) + (if pool == old(pool) then [] else [Snapshot(inventory, pool)])
    {
      var published, changed := pool, false;
      for i := 0 to |inventory.keys|
        invariant RecoverUpTo(inventory, pool, i) == Some(published)
        invariant if changed then |published.keys| > |pool.keys| else published == pool
        invariant Valid() && inventory == old(inventory) && pool == old(pool) && written == old(written)
      {
        var name := inventory.keys[i];
        assert name in inventory.at;
        var record := inventory.at[name];
        if record.state != Ready || !record.passed { continue; }
        if record.routes.None? || (name in published.at && published.at[name] != record.routes.value) {
          FailureStays(inventory, pool, i + 1, |inventory.keys|);
          return false;
        }
        if name !in published.at {
          published := Put(published, name, record.routes.value);
          changed := true;
        }
      }
      if changed { WritePool(published); }
      ok := true;
    }

    /** One round. `worker` is what the worker would return, if it is called. The
        files pass, one atomic replacement after the other, through exactly the
        states that the machine's steps leave: a crash loses no more than the
        remaining steps. */
    method Reconcile(policy: Policy, a: Assignments, resources: Resources, now: int, newSlot: string,
                     worker: Option<Work>,
                     ghost users: Dict<User>) returns (r: Result<Outcome, ControllerError>)
      requires Valid() && IsDict(inventory) && newSlot !in inventory.at
      modifies this
      ensures Valid()
      ensures var s0 := State(Disk(old(inventory), old(pool), users, a), Idle);
        var s1 := Began(s0);
        var s2 := Decided(s1, policy, resources, now, newSlot);
        var s3 := Finished(s2, worker);
        && written == old(written) + RecoveryTrail(s0, s1) + DecisionTrail(s1, s2) + CompletionTrail(s2, s3)
        && Snapshot(inventory, pool) == Snap(Closed(s3))
        && (r.Success? && r.value.PublishedSlot? <==> s3.stage.Stored? && Publishes(s3))
      ensures newSlot in inventory.at <==> Begins(policy, a, old(inventory), old(pool), resources, now)
      ensures if Begins(policy, a, old(inventory), old(pool), resources, now) then worked == old(worked) + [newSlot]
              else if Resumes(policy, a, old(inventory), old(pool), now)
              then worked != [] && worked == old(worked) + [worked[|worked| - 1]]
                   && FirstUnfinished(old(inventory), worked[|worked| - 1])
              else worked == old(worked) && inventory == old(inventory)
      ensures !policy.enabled ==> inventory == old(inventory) && worked == old(worked)
      ensures Recoverable(old(inventory), old(pool)) ==>
        match Plan(policy, a, old(inventory).at, resources, now)
        case Failure(e) => r == Failure(PlanFailed(e))
        case Success(d) => d.action == Wait ==> r == Success(Waited(d))
      ensures !Recoverable(old(inventory), old(pool)) ==> r == Failure(RouteDiffers)
    {
      RecoversExactlyWhen(inventory, pool);
      RoundMeans(policy, a, inventory, pool, resources, now, Plan(policy, a, inventory.at, resources, now),
                 FirstPending(inventory, |inventory.keys|));
      ghost var s0 := State(Disk(inventory, pool, users, a), Idle);
      ghost var s1 := Began(s0);
      var recovered := RecoverPool();
      if !recovered { return Failure(RouteDiffers); }
      assert Snapshot(inventory, pool) == Snap(s1);
      var decision := Plan(policy, a, inventory.at, resources, now);
      ghost var s2 := Decided(s1, policy, resources, now, newSlot);
      if decision.Failure? { return Failure(PlanFailed(decision.error)); }
      r := Follow(decision.value, newSlot, worker, s1, s2);
    }

    /** What is decided is begun or resumed, worked on and completed. */
    method Follow(decision: Decision, newSlot: string, worker: Option<Work>, ghost s1: State, ghost s2: State)
      returns (r: Result<Outcome, ControllerError>)
      requires Valid() && IsDict(inventory) && newSlot !in inventory.at && Snapshot(inventory, pool) == Snap(s1)
      requires s1.stage.Recovered? && s2 == Planned(s1, Success(decision), newSlot)
      modifies this
      ensures Valid()
      ensures var s3 := Finished(s2, worker);
        && written == old(written) + DecisionTrail(s1, s2) + CompletionTrail(s2, s3)
        && Snapshot(inventory, pool) == Snap(Closed(s3))
        && (r.Success? && r.value.PublishedSlot? <==> s3.stage.Stored? && Publishes(s3))
      ensures worked == old(worked) + (if s2.stage.Working? then [s2.stage.slot] else [])
      ensures newSlot in inventory.at <==> decision.action == Provision
      ensures !s2.stage.Working? ==> inventory == old(inventory)
      ensures decision.action == Wait ==> r == Success(Waited(decision))
    {
      var slot := newSlot;
      if decision.action == Provision {
        WriteInventory(Put(inventory, slot, Record(Preparing, None, false)));
      } else if decision.action == Resume {
        var first := FirstPending(inventory, |inventory.keys|);
        if first.None? { return Failure(NothingPending); }
        slot := first.value;
      } else {
        return Success(Waited(decision));
      }
      assert s2.stage == Working(slot) && Snapshot(inventory, pool) == Snap(s2);
      assert written == old(written) + DecisionTrail(s1, s2);
      r := Complete(slot, worker, s2);
    }

    /** From the worker's result to the published route: the receipt is on disk
        before the route is. */
    method Complete(slot: string, worker: Option<Work>, ghost s2: State) returns (r: Result<Outcome, ControllerError>)
      requires Valid() && s2.stage == Working(slot) && Snapshot(inventory, pool) == Snap(s2)
      modifies this
      ensures Valid() && worked == old(worked) + [slot]
      ensures slot in old(inventory).at ==> inventory.at.Keys == old(inventory).at.Keys
      ensures var s3 := Finished(s2, worker);
        && written == old(written) + CompletionTrail(s2, s3)
        && Snapshot(inventory, pool) == Snap(Closed(s3))
        && (r.Success? <==> s3.stage.Stored? && Publishes(s3))
        && (r.Success? ==> r.value == PublishedSlot(slot))
    {
      worked := worked + [slot];
      if !Acceptable(worker) { return Failure(FailedQualification); }
      var routes := worker.value.routes;
      WriteInventory(Put(inventory, slot, Record(Ready, Some(routes), true)));
      if slot in pool.at && pool.at[slot] != routes { return Failure(RouteDiffers); }
      WritePool(Put(pool, slot, routes));
      r := Success(PublishedSlot(slot));
    }
  }

  // ---- The states the files pass through, in order --------------------------------------

  function RecoveryTrail(s0: State, s1: State): seq<Snapshot> {
    if s1.disk.pool == s0.disk.pool then [] else [Snap(s1)]
  }

  function DecisionTrail(s1: State, s2: State): seq<Snapshot> {
    if s2.disk.inventory == s1.disk.inventory then [] else [Snap(s2)]
  }

  predicate Publishes(s3: State)
    requires s3.stage.Stored?
  {
    s3.stage.slot in s3.disk.pool.at ==> s3.disk.pool.at[s3.stage.slot] == s3.stage.routes
  }

  /** The receipt first, the route after it. */
  function CompletionTrail(s2: State, s3: State): seq<Snapshot> {
    if !s2.stage.Working? || !s3.stage.Stored? then []
    else if !Publishes(s3) then [Snap(s3)]
    else [Snap(s3), Snap(Closed(s3))]
  }

  function Snap(s: State): Snapshot { Snapshot(s.disk.inventory, s.disk.pool) }

  function Decided(s: State, policy: Policy, resources: Resources, now: int, newSlot: string): State
    requires IsDict(s.disk.inventory)
  {
    if s.stage.Recovered?
    then Planned(s, Plan(policy, s.stage.assignments, s.disk.inventory.at, resources, now), newSlot)
    else s
  }

  function Finished(s: State, worker: Option<Work>): State {
    if s.stage.Working? then Worked(s, s.stage.slot, worker) else s
  }

  function Closed(s: State): State {
    if s.stage.Stored? then Published(s, s.stage.slot, s.stage.routes) else s
  }

  lemma {:induction false} FailureStays(inventory: Inventory, pool: Dict<Routes>, i: nat, n: nat)
    requires IsDict(inventory) && i <= n <= |inventory.keys| && RecoverUpTo(inventory, pool, i).None?
    ensures RecoverUpTo(inventory, pool, n).None?
    decreases n
  {
    if i < n { FailureStays(inventory, pool, i, n - 1); }
  }
}
