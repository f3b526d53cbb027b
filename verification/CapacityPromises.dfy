/** What one step of the capacity controller does, told from the policy file, the
    projection, the inventory and the measurements alone. */
module CapacityPromises {
  import opened Outcomes
  import opened OrderedDict
  import opened CapacityPlanner
  import opened CapacityProtocol
  import R = RuntimeUnits

  // ---- When a round works ---------------------------------------------------------

  /** The policy is enabled and within bounds, the projection at most a minute old
      and valid, and every slot it names is in the inventory. */
  ghost predicate Enabling(policy: Policy, a: Assignments, inv: map<string, Record>, now: int) {
    && policy.wellFormed && policy.enabled && 0 <= policy.warmSpareSlots <= 8
    && a.observedAt.Some? && -5_000_000 <= now - a.observedAt.value <= 60_000_000
    && a.registered.Some? && 0 <= a.registered.value <= 10000
    && a.used.Some? && (forall i, j | 0 <= i < j < |a.used.value| :: a.used.value[i] != a.used.value[j])
    && (forall n | n in a.used.value :: n in inv)
    && |inv| <= 400
  }

  predicate Unfinished(r: Record) { r.state == Preparing || r.state == Qualifying }

  ghost predicate AnyUnfinished(inv: map<string, Record>) { exists n :: n in inv && Unfinished(inv[n]) }

  predicate Amount(f: R.Field) { f.Measured? && f.value >= 0.0 }

  function Spare(inv: map<string, Record>, used: seq<string>): set<string> {
    set n | n in inv && inv[n].state == Ready && n !in used
  }

  function Unretired(inv: map<string, Record>): set<string> { set n | n in inv && inv[n].state != Retired }

  /** Nothing is half done, spares are missing, both limits leave room, and all four
      measurements are readable and nonnegative. */
  ghost predicate Lacking(policy: Policy, a: Assignments, inv: map<string, Record>, resources: Resources) {
    && a.used.Some? && !AnyUnfinished(inv) && |Spare(inv, a.used.value)| < policy.warmSpareSlots
    && |Unretired(inv)| < 200 && |inv| < 400
    && Amount(resources.cpu) && Amount(resources.memory) && Amount(resources.pods) && Amount(resources.storage)
  }

  lemma {:induction false} DifferentMeans(names: seq<string>)
    ensures |Elements(names)| <= |names|
    ensures AllDifferent(names) <==> forall i, j | 0 <= i < j < |names| :: names[i] != names[j]
  {
    if names != [] {
      var k := |names| - 1;
      var first, last := names[..k], names[k];
      DifferentMeans(first);
      assert names == first + [last];
      assert Elements(names) == Elements(first) + {last};
      if last in Elements(first) {
        var i :| 0 <= i < k && first[i] == last;
        assert names[i] == names[k];
      }
    }
  }

  lemma SetsMean(inv: map<string, Record>, a: Assignments)
    requires a.used.Some?
    ensures ReadySpares(inv, Elements(a.used.value)) == Spare(inv, a.used.value)
    ensures Active(inv) == Unretired(inv)
    ensures |Pending(inv)| > 0 <==> AnyUnfinished(inv)
  {
    assert forall n :: n in Pending(inv) <==> n in inv && Unfinished(inv[n]);
    assert Pending(inv) == {} <==> !AnyUnfinished(inv);
  }

  lemma PlanMeans(policy: Policy, a: Assignments, inv: map<string, Record>, resources: Resources, now: int)
    ensures var d := Plan(policy, a, inv, resources, now);
      && (d.Success? && d.value.action == Resume <==> Enabling(policy, a, inv, now) && AnyUnfinished(inv))
      && (d.Success? && d.value.action == Provision <==>
            Enabling(policy, a, inv, now) && Lacking(policy, a, inv, resources))
  {
    if a.used.Some? {
      DifferentMeans(a.used.value);
      SetsMean(inv, a);
      assert Elements(a.used.value) <= inv.Keys <==> forall n | n in a.used.value :: n in inv;
    }
  }

  // ---- One decision ------------------------------------------------------------------

  /** The slot is unfinished and no other unfinished one stands before it. */
  ghost predicate FirstUnfinished(inventory: Inventory, slot: string) {
    exists i :: && 0 <= i < |inventory.keys| && inventory.keys[i] == slot
                && slot in inventory.at && Unfinished(inventory.at[slot])
                && forall j | 0 <= j < i ::
                     inventory.keys[j] in inventory.at && !Unfinished(inventory.at[inventory.keys[j]])
  }

  lemma {:induction false} FirstPendingMeans(inventory: Inventory, n: nat)
    requires n <= |inventory.keys| && IsDict(inventory)
    ensures FirstPending(inventory, n).Some? ==>
      exists i :: && 0 <= i < n && inventory.keys[i] == FirstPending(inventory, n).value
                  && Unfinished(inventory.at[inventory.keys[i]])
                  && forall j | 0 <= j < i :: !Unfinished(inventory.at[inventory.keys[j]])
    decreases n
  {
    if n > 0 {
      FirstPendingMeans(inventory, n - 1);
      if FirstPending(inventory, n - 1).None? && FirstPending(inventory, n).Some? {
        assert inventory.keys[n - 1] in inventory.at;
        forall j | 0 <= j < n - 1 ensures !Unfinished(inventory.at[inventory.keys[j]]) {
          assert inventory.keys[j] in inventory.at && inventory.keys[j] !in Pending(inventory.at);
        }
      }
    }
  }

  lemma SomeFirstUnfinished(inventory: Inventory)
    requires IsDict(inventory) && AnyUnfinished(inventory.at)
    ensures var slot := FirstPending(inventory, |inventory.keys|); slot.Some? && FirstUnfinished(inventory, slot.value)
  {
    var n :| n in inventory.at && Unfinished(inventory.at[n]);
    assert n in inventory.keys && n in Pending(inventory.at);
    var i :| 0 <= i < |inventory.keys| && inventory.keys[i] == n;
    FirstPendingMeans(inventory, |inventory.keys|);
  }

  /** A decision begins a slot exactly when the round is enabled and slots are lacking;
      it then writes just a preparing record for the new name. */
  lemma ProvisionsExactlyWhen(site: Site, s: State, policy: Policy, resources: Resources, now: int, newSlot: string)
    requires Shaped(s.disk) && s.stage.Recovered? && IsNewSlot(newSlot) && newSlot !in s.disk.inventory.at
    ensures var n := Step(site, s, Decide(policy, resources, now, newSlot));
      && (newSlot in n.disk.inventory.at <==>
            Enabling(policy, s.stage.assignments, s.disk.inventory.at, now)
            && Lacking(policy, s.stage.assignments, s.disk.inventory.at, resources))
      && (newSlot in n.disk.inventory.at ==>
            && n.disk.inventory.keys == s.disk.inventory.keys + [newSlot]
            && n.disk.inventory.at == s.disk.inventory.at[newSlot := Record(Preparing, None, false)]
            && n.stage == Working(newSlot))
      && (newSlot !in n.disk.inventory.at ==> n.disk.inventory == s.disk.inventory)
      && n.disk == s.disk.(inventory := n.disk.inventory)
  {
    PlanMeans(policy, s.stage.assignments, s.disk.inventory.at, resources, now);
  }

  /** It hands a slot to the worker exactly when it begins one or, enabled, finds one
      unfinished: then the first in the inventory. */
  lemma WorksExactlyWhen(site: Site, s: State, policy: Policy, resources: Resources, now: int, newSlot: string)
    requires Shaped(s.disk) && s.stage.Recovered? && IsNewSlot(newSlot) && newSlot !in s.disk.inventory.at
    ensures var n := Step(site, s, Decide(policy, resources, now, newSlot));
      && (n.stage.Working? || n.stage == Idle)
      && (n.stage.Working? <==>
            && Enabling(policy, s.stage.assignments, s.disk.inventory.at, now)
            && (AnyUnfinished(s.disk.inventory.at)
                || Lacking(policy, s.stage.assignments, s.disk.inventory.at, resources)))
      && (n.stage.Working? && n.stage.slot != newSlot ==> FirstUnfinished(s.disk.inventory, n.stage.slot))
      && (n.stage.Working? && AnyUnfinished(s.disk.inventory.at) ==> n.stage.slot != newSlot)
  {
    PlanMeans(policy, s.stage.assignments, s.disk.inventory.at, resources, now);
    if AnyUnfinished(s.disk.inventory.at) { SomeFirstUnfinished(s.disk.inventory); }
  }

  /** A paused provisioner, or one past its bounds, writes nothing and calls nobody. */
  lemma PausedDoesNothing(site: Site, s: State, policy: Policy, resources: Resources, now: int, newSlot: string)
    requires Shaped(s.disk) && s.stage.Recovered? && IsNewSlot(newSlot) && newSlot !in s.disk.inventory.at
    requires !policy.enabled || !policy.wellFormed || !(0 <= policy.warmSpareSlots <= 8)
    ensures Step(site, s, Decide(policy, resources, now, newSlot)) == State(s.disk, Idle)
  {
    PlanMeans(policy, s.stage.assignments, s.disk.inventory.at, resources, now);
  }

  // ---- Recovery ----------------------------------------------------------------------------

  /** Every qualified record has routes, and those published for it already are the same. */
  ghost predicate Recoverable(inventory: Inventory, pool: Dict<Routes>) {
    forall x | x in inventory.at && inventory.at[x].state == Ready && inventory.at[x].passed ::
      && inventory.at[x].routes.Some?
      && (x in pool.at ==> pool.at[x] == inventory.at[x].routes.value)
  }

  lemma {:induction false} RecoverMeans(inventory: Inventory, pool: Dict<Routes>, n: nat)
    requires IsDict(inventory) && n <= |inventory.keys|
    ensures var r := RecoverUpTo(inventory, pool, n);
      && (r.Some? <==> forall i | 0 <= i < n :: Fine(inventory, pool, inventory.keys[i]))
      && (r.Some? ==> forall x | x !in inventory.keys[..n] :: (x in r.value.at <==> x in pool.at)
                                                             && (x in pool.at ==> r.value.at[x] == pool.at[x]))
  {
    if n > 0 {
      RecoverMeans(inventory, pool, n - 1);
      assert inventory.keys[..n] == inventory.keys[..n - 1] + [inventory.keys[n - 1]];
      assert inventory.keys[n - 1] !in inventory.keys[..n - 1];
    }
  }

  predicate Fine(inventory: Inventory, pool: Dict<Routes>, x: string) {
    x in inventory.at && inventory.at[x].state == Ready && inventory.at[x].passed ==>
      && inventory.at[x].routes.Some?
      && (x in pool.at ==> pool.at[x] == inventory.at[x].routes.value)
  }

  lemma RecoversExactlyWhen(inventory: Inventory, pool: Dict<Routes>)
    requires IsDict(inventory)
    ensures Recover(inventory, pool).Some? <==> Recoverable(inventory, pool)
  {
    RecoverMeans(inventory, pool, |inventory.keys|);
    assert forall x | x in inventory.at :: x in inventory.keys;
    if Recoverable(inventory, pool) {
      assert forall i | 0 <= i < |inventory.keys| :: Fine(inventory, pool, inventory.keys[i]);
    } else {
      var x :| x in inventory.at && !Fine(inventory, pool, x);
      var i :| 0 <= i < |inventory.keys| && inventory.keys[i] == x;
    }
  }

  /** A whole round begins a slot: it recovers, is enabled, and slots are lacking. */
  ghost predicate Begins(policy: Policy, a: Assignments, inventory: Inventory, pool: Dict<Routes>, resources: Resources,
                         now: int) {
    && Recoverable(inventory, pool) && Enabling(policy, a, inventory.at, now)
    && Lacking(policy, a, inventory.at, resources)
  }

  /** It resumes one: it recovers, is enabled, and one is unfinished. */
  ghost predicate Resumes(policy: Policy, a: Assignments, inventory: Inventory, pool: Dict<Routes>, now: int) {
    Recoverable(inventory, pool) && Enabling(policy, a, inventory.at, now) && AnyUnfinished(inventory.at)
  }

  lemma RoundMeans(policy: Policy, a: Assignments, inventory: Inventory, pool: Dict<Routes>, resources: Resources,
                   now: int, d: Result<Decision, PlanError>, first: Option<string>)
    requires IsDict(inventory) && d == Plan(policy, a, inventory.at, resources, now)
    requires first == FirstPending(inventory, |inventory.keys|)
    ensures var ok := Recover(inventory, pool).Some?;
      && (Begins(policy, a, inventory, pool, resources, now) <==> ok && d.Success? && d.value.action == Provision)
      && (Resumes(policy, a, inventory, pool, now) <==> ok && d.Success? && d.value.action == Resume)
    ensures d.Success? && d.value.action == Resume ==> first.Some? && FirstUnfinished(inventory, first.value)
    ensures d.Success? && !policy.enabled ==> d.value.action == Wait
  {
    RecoversExactlyWhen(inventory, pool);
    PlanMeans(policy, a, inventory.at, resources, now);
    if AnyUnfinished(inventory.at) { SomeFirstUnfinished(inventory); }
  }

  // ---- What a round that waits reports ---------------------------------------------------

  /** The reason is the first of these that applies. */
  lemma WaitsBecause(policy: Policy, a: Assignments, inv: map<string, Record>, resources: Resources, now: int)
    requires Plan(policy, a, inv, resources, now).Success?
    ensures var d := Plan(policy, a, inv, resources, now).value; var used := if a.used.Some? then a.used.value else [];
      && a.observedAt.Some?
      && (d.reason == Stale <==> !(-5_000_000 <= now - a.observedAt.value <= 60_000_000))
      && (d.reason == Stale ==> d.readySpares == 0 && d.pendingSlots == 0)
      && (d.reason != Stale ==>
            && d.readySpares == |Spare(inv, used)| && d.pendingSlots == |set n | n in inv && Unfinished(inv[n])|
            && (d.reason == Disabled <==> !policy.enabled)
            && (d.reason == FinishExisting <==> policy.enabled && AnyUnfinished(inv))
            && (d.reason == TargetSatisfied <==>
                  policy.enabled && !AnyUnfinished(inv) && d.readySpares >= policy.warmSpareSlots)
            && (d.reason == InventoryLimit <==>
                  && policy.enabled && !AnyUnfinished(inv) && d.readySpares < policy.warmSpareSlots
                  && (|Unretired(inv)| >= 200 || |inv| >= 400))
            && (d.reason == Replenish <==> Enabling(policy, a, inv, now) && Lacking(policy, a, inv, resources)))
  {
    PlanMeans(policy, a, inv, resources, now);
    if a.used.Some? { SetsMean(inv, a); }
    assert Pending(inv) == set n | n in inv && Unfinished(inv[n]);
  }

  /** The first measurement that is missing or negative, in the order processor,
      memory, pods, storage. */
  lemma ShortOf(r: Resources)
    ensures FirstShort(r) ==
      if !Amount(r.cpu) then Some("cpuAfterPair")
      else if !Amount(r.memory) then Some("memoryGiBAfterPair")
      else if !Amount(r.pods) then Some("podsAfterPair")
      else if !Amount(r.storage) then Some("storageGiBAfterPair") else None
  {
  }

  /** A round raises exactly for a malformed policy, bounds out of range, a projection
      that is not one, or one that names a slot the inventory lacks. */
  lemma RaisesExactlyWhen(policy: Policy, a: Assignments, inv: map<string, Record>, resources: Resources, now: int)
    ensures var d := Plan(policy, a, inv, resources, now);
      d.Failure? <==>
        || !policy.wellFormed || !(0 <= policy.warmSpareSlots <= 8) || a.observedAt.None?
        || (-5_000_000 <= now - a.observedAt.value <= 60_000_000
            && !Enabling(policy.(enabled := true), a, inv, now))
  {
    if a.used.Some? {
      DifferentMeans(a.used.value);
      assert Elements(a.used.value) <= inv.Keys <==> forall n | n in a.used.value :: n in inv;
    }
  }

  // ---- The worker's result and the route ---------------------------------------------------

  /** The receipt is written exactly for a passed result with the two environments'
      routes, over the slot's record alone. */
  lemma ReceiptExactlyWhen(site: Site, s: State, work: Option<Work>)
    requires Shaped(s.disk) && s.stage.Working? && s.stage.slot in s.disk.inventory.at
    ensures var n, slot := Step(site, s, Finish(work)), s.stage.slot;
      if work.Some? && work.value.passed && work.value.routes.Keys == {"secure", "internet"}
      then && n.stage == Stored(slot, work.value.routes)
           && n.disk == s.disk.(inventory := Dict(s.disk.inventory.keys,
                                s.disk.inventory.at[slot := Record(Ready, Some(work.value.routes), true)]))
      else n == State(s.disk, Idle)
  {
  }

  /** The route goes to the end of the pool, or nothing happens where the slot has
      another already. */
  lemma RouteExactlyWhen(site: Site, s: State)
    requires Shaped(s.disk) && s.stage.Stored?
    ensures var n, slot, pool := Step(site, s, Publish), s.stage.slot, s.disk.pool;
      && n.stage == Idle && n.disk == s.disk.(pool := n.disk.pool)
      && n.disk.pool.at == (if slot in pool.at then pool.at else pool.at[slot := s.stage.routes])
      && n.disk.pool.keys == (if slot in pool.at then pool.keys else pool.keys + [slot])
  {
    if s.stage.slot in s.disk.pool.at && s.disk.pool.at[s.stage.slot] == s.stage.routes {
      assert s.disk.pool.at[s.stage.slot := s.stage.routes] == s.disk.pool.at;
    }
  }
}
