/** What every run of controller and gateway keeps, crashes included. */
module CapacitySafety {
  import opened Outcomes
  import opened OrderedDict
  import opened CapacityPlanner
  import opened CapacityProtocol

  // ---- The invariant ----------------------------------------------------------------

  /** Every published slot has a ready record with equal routes, and a passed
      receipt unless it came with the installation. */
  ghost predicate Backed(initial: map<string, Routes>, inv: map<string, Record>, pool: map<string, Routes>) {
    forall s | s in pool :: HasReceipt(initial, inv, s, pool[s])
  }

  ghost predicate HasReceipt(initial: map<string, Routes>, inv: map<string, Record>, s: string, routes: Routes) {
    s in inv && inv[s].state == Ready && inv[s].routes == Some(routes) && (inv[s].passed || s in initial)
  }

  ghost predicate RoutesKept(inv: map<string, Record>) {
    forall s | s in inv && Qualified(inv[s]) :: inv[s].routes.Some?
  }

  /** Slots on their way to publication: being worked on, or qualified only. */
  predicate InFlight(inv: map<string, Record>, pool: map<string, Routes>, s: string) {
    s in inv && (inv[s].state == Preparing || inv[s].state == Qualifying || (Qualified(inv[s]) && s !in pool))
  }

  ghost predicate OneInFlight(inv: map<string, Record>, pool: map<string, Routes>) {
    forall a, b | InFlight(inv, pool, a) && InFlight(inv, pool, b) :: a == b
  }

  ghost predicate NoneUnpublished(inv: map<string, Record>, pool: map<string, Routes>) {
    forall s | s in inv && Qualified(inv[s]) :: s in pool
  }

  ghost predicate NewNames(initial: map<string, Routes>, inv: map<string, Record>) {
    forall s | s in inv && s !in initial && inv[s].state != Retired :: IsNewSlot(s)
  }

  predicate InUse(users: map<string, User>, s: string) {
    s in SlotsOf(users)
  }

  ghost predicate UsedBy(a: Assignments, users: map<string, User>) {
    a.used.Some? ==> (forall s | s in a.used.value :: InUse(users, s))
  }

  ghost predicate StageOk(stage: Stage, inv: map<string, Record>, pool: map<string, Routes>, users: map<string, User>) {
    match stage
    case Idle => true
    case Recovered(a) => NoneUnpublished(inv, pool) && UsedBy(a, users)
    case Working(s) => s in inv && (inv[s].state == Preparing || inv[s].state == Qualifying)
    case Stored(s, routes) => s in inv && inv[s] == Record(Ready, Some(routes), true)
  }

  ghost predicate Exclusive(users: map<string, User>) {
    forall u, v | u in users && v in users && users[u].slot.Some? && users[u].slot == users[v].slot :: u == v
  }

  ghost predicate Housed(users: map<string, User>, pool: map<string, Routes>) {
    forall u | u in users && users[u].slot.Some? :: users[u].slot.value in pool
  }

  ghost predicate ControllerInv(site: Site, s: State) {
    && Backed(site.initial.at, s.disk.inventory.at, s.disk.pool.at)
    && RoutesKept(s.disk.inventory.at)
    && OneInFlight(s.disk.inventory.at, s.disk.pool.at)
    && NewNames(site.initial.at, s.disk.inventory.at)
    && Extends(site.initial, s.disk.pool)
    && |s.disk.inventory.at| <= ENTRIES_MAX
    && StageOk(s.stage, s.disk.inventory.at, s.disk.pool.at, s.disk.users.at)
  }

  ghost predicate GatewayInv(s: State) {
    && Exclusive(s.disk.users.at)
    && Housed(s.disk.users.at, s.disk.pool.at)
    && UsedBy(s.disk.assignments, s.disk.users.at)
  }

  ghost predicate Inv(site: Site, s: State) {
    Shaped(s.disk) && ControllerInv(site, s) && GatewayInv(s)
  }

  // ---- Recovery ----------------------------------------------------------------------

  /** What recovery has published after the first `n` entries. */
  ghost predicate RecoveredTo(initial: map<string, Routes>, inventory: Inventory, pool: Dict<Routes>, n: nat,
                              r: Dict<Routes>)
    requires n <= |inventory.keys| && IsDict(inventory)
  {
    && IsDict(r) && Extends(pool, r)
    && Backed(initial, inventory.at, r.at)
    && (forall i | 0 <= i < n && Qualified(inventory.at[inventory.keys[i]]) :: inventory.keys[i] in r.at)
  }

  lemma {:induction false} RecoveryWorks(initial: map<string, Routes>, inventory: Inventory, pool: Dict<Routes>, n: nat)
    requires IsDict(inventory) && IsDict(pool) && n <= |inventory.keys|
    requires Backed(initial, inventory.at, pool.at) && RoutesKept(inventory.at)
    ensures var r := RecoverUpTo(inventory, pool, n); r.Some? && RecoveredTo(initial, inventory, pool, n, r.value)
  {
    if n > 0 {
      RecoveryWorks(initial, inventory, pool, n - 1);
      var name, before := inventory.keys[n - 1], RecoverUpTo(inventory, pool, n - 1).value;
      RecoverOne(initial, inventory, pool, n - 1, before);
    }
  }

  lemma RecoverPut(initial: map<string, Routes>, inventory: Inventory, pool: Dict<Routes>, name: string,
                   before: Dict<Routes>, after: Dict<Routes>)
    requires IsDict(before) && Extends(pool, before) && Backed(initial, inventory.at, before.at)
    requires name in inventory.at && name !in before.at && Qualified(inventory.at[name])
    requires inventory.at[name].routes.Some?
    requires after == Put(before, name, inventory.at[name].routes.value)
    ensures IsDict(after) && Extends(pool, after) && Backed(initial, inventory.at, after.at)
  {
    var routes := inventory.at[name].routes.value;
    PutIsDict(before, name, routes);
    PutExtends(before, name, routes);
    ExtendsTransitive(pool, before, after);
    assert HasReceipt(initial, inventory.at, name, routes);
  }

  lemma RecoverOne(initial: map<string, Routes>, inventory: Inventory, pool: Dict<Routes>, n: nat, before: Dict<Routes>)
    requires IsDict(inventory) && n < |inventory.keys| && RoutesKept(inventory.at)
    requires RecoverUpTo(inventory, pool, n) == Some(before) && RecoveredTo(initial, inventory, pool, n, before)
    ensures var r := RecoverUpTo(inventory, pool, n + 1);
      r.Some? && RecoveredTo(initial, inventory, pool, n + 1, r.value)
  {
    var name := inventory.keys[n];
    assert name in inventory.at;
    var record := inventory.at[name];
    if Qualified(record) && name !in before.at {
      RecoverPut(initial, inventory, pool, name, before, Put(before, name, record.routes.value));
    } else if Qualified(record) {
      assert HasReceipt(initial, inventory.at, name, before.at[name]);
    }
  }

  lemma RecoveryPublishesAll(initial: map<string, Routes>, inventory: Inventory, pool: Dict<Routes>)
    requires IsDict(inventory) && IsDict(pool) && Backed(initial, inventory.at, pool.at) && RoutesKept(inventory.at)
    ensures var r := Recover(inventory, pool);
      && r.Some? && IsDict(r.value) && Extends(pool, r.value)
      && Backed(initial, inventory.at, r.value.at) && NoneUnpublished(inventory.at, r.value.at)
  {
    RecoveryWorks(initial, inventory, pool, |inventory.keys|);
    forall s | s in inventory.at && Qualified(inventory.at[s]) ensures s in Recover(inventory, pool).value.at {
      assert s in inventory.keys;
      var i :| 0 <= i < |inventory.keys| && inventory.keys[i] == s;
    }
  }

  // ---- Steps of the controller -----------------------------------------------------------

  lemma BeginKeeps(site: Site, s: State)
    requires Inv(site, s)
    ensures Inv(site, Began(s)) && Began(s).stage.Recovered? && Extends(s.disk.pool, Began(s).disk.pool)
  {
    RecoveryPublishesAll(site.initial.at, s.disk.inventory, s.disk.pool);
    var pool := Recover(s.disk.inventory, s.disk.pool).value;
    ExtendsTransitive(site.initial, s.disk.pool, pool);
    forall a, b | InFlight(s.disk.inventory.at, pool.at, a) && InFlight(s.disk.inventory.at, pool.at, b)
      ensures a == b
    {
      assert InFlight(s.disk.inventory.at, s.disk.pool.at, a) && InFlight(s.disk.inventory.at, s.disk.pool.at, b);
    }
  }

  lemma ProvisionKeeps(site: Site, s: State, newSlot: string, n: State)
    requires Inv(site, s) && s.stage.Recovered? && newSlot !in s.disk.inventory.at && IsNewSlot(newSlot)
    requires Pending(s.disk.inventory.at) == {} && |s.disk.inventory.at| < ENTRIES_MAX
    requires n
      == State(s.disk.(inventory := Put(s.disk.inventory, newSlot, Record(Preparing, None, false))), Working(newSlot))
    ensures Inv(site, n)
  {
    var before, after, pool := s.disk.inventory.at, n.disk.inventory.at, s.disk.pool.at;
    PutIsDict(s.disk.inventory, newSlot, Record(Preparing, None, false));
    assert forall x | x in before :: x !in Pending(before);
    forall x | InFlight(after, pool, x) ensures x == newSlot {}
    forall x | x in pool ensures HasReceipt(site.initial.at, after, x, pool[x]) {
      assert HasReceipt(site.initial.at, before, x, pool[x]);
    }
    assert |after| == |before| + 1;
  }

  /** With every assigned slot in the inventory the plan raises only for inputs it
      was given: the policy or the projection. */
  lemma NothingDisappears(site: Site, s: State, policy: Policy, resources: Resources, now: int)
    requires Inv(site, s) && s.stage.Recovered?
    ensures Plan(policy, s.stage.assignments, s.disk.inventory.at, resources, now) != Failure(AssignedDisappeared)
  {
    var a := s.stage.assignments;
    if a.used.Some? {
      forall x | x in Elements(a.used.value) ensures x in s.disk.inventory.at {
        assert InUse(s.disk.users.at, x);
        assert HasReceipt(site.initial.at, s.disk.inventory.at, x, s.disk.pool.at[x]);
      }
    }
  }

  lemma PlannedProvision(policy: Policy, a: Assignments, slots: map<string, Record>, resources: Resources, now: int)
    ensures var d := Plan(policy, a, slots, resources, now);
      d.Success? && d.value.action == Provision ==> Pending(slots) == {} && |slots| < ENTRIES_MAX
  {
  }

  lemma DecideKeeps(site: Site, s: State, d: Result<Decision, PlanError>, newSlot: string)
    requires Inv(site, s) && s.stage.Recovered? && IsNewSlot(newSlot) && newSlot !in s.disk.inventory.at
    requires d.Success? && d.value.action == Provision ==>
      Pending(s.disk.inventory.at) == {} && |s.disk.inventory.at| < ENTRIES_MAX
    ensures Inv(site, Planned(s, d, newSlot))
  {
    if d.Success? && d.value.action == Provision {
      ProvisionKeeps(site, s, newSlot, Planned(s, d, newSlot));
    }
  }

  lemma WorkKeeps(site: Site, s: State, slot: string, w: Option<Work>, n: State)
    requires Inv(site, s) && s.stage == Working(slot) && Acceptable(w) && n == Worked(s, slot, w)
    ensures Inv(site, n)
  {
    var before, after, pool := s.disk.inventory.at, n.disk.inventory.at, s.disk.pool.at;
    PutIsDict(s.disk.inventory, slot, Record(Ready, Some(w.value.routes), true));
    StaysInFlight(before, pool, slot, after);
    forall x | x in pool ensures HasReceipt(site.initial.at, after, x, pool[x]) {
      assert HasReceipt(site.initial.at, before, x, pool[x]);
    }
    assert after.Keys == before.Keys;
    assert |after| == |after.Keys| && |before| == |before.Keys|;
    assert slot in before && before[slot].state != Retired;
  }

  lemma StaysInFlight(before: map<string, Record>, pool: map<string, Routes>, slot: string, after: map<string, Record>)
    requires OneInFlight(before, pool) && InFlight(before, pool, slot) && slot in after
    requires after == before[slot := after[slot]]
    ensures OneInFlight(after, pool)
  {
    forall x | InFlight(after, pool, x) ensures x == slot {
      if x != slot { assert InFlight(before, pool, x); }
    }
  }

  /** Publishing never finds another route in place. */
  lemma PublishKeeps(site: Site, s: State, slot: string, routes: Routes, n: State)
    requires Inv(site, s) && s.stage == Stored(slot, routes) && n == Published(s, slot, routes)
    ensures Inv(site, n) && Extends(s.disk.pool, n.disk.pool) && slot in n.disk.pool.at
    ensures n.disk.pool.at[slot] == routes
  {
    var inv, pool := s.disk.inventory.at, s.disk.pool.at;
    if slot in pool { assert HasReceipt(site.initial.at, inv, slot, pool[slot]); }
    PutIsDict(s.disk.pool, slot, routes);
    PutExtends(s.disk.pool, slot, routes);
    ExtendsTransitive(site.initial, s.disk.pool, n.disk.pool);
    var after := n.disk.pool.at;
    forall x | x in after ensures HasReceipt(site.initial.at, inv, x, after[x]) {
      if x != slot { assert HasReceipt(site.initial.at, inv, x, pool[x]); }
    }
    forall a, b | InFlight(inv, after, a) && InFlight(inv, after, b) ensures a == b {
      assert InFlight(inv, pool, a) && InFlight(inv, pool, b);
    }
  }

  // ---- Steps of the gateway ---------------------------------------------------------------

  ghost predicate AccountsKept(before: Dict<User>, after: Dict<User>) {
    && before.keys <= after.keys
    && forall u | u in before.at :: u in after.at && after.at[u].slot == before.at[u].slot
  }

  lemma SlotsSurvive(before: Dict<User>, after: Dict<User>, s: string)
    requires AccountsKept(before, after) && InUse(before.at, s)
    ensures InUse(after.at, s)
  {
    var u :| u in before.at && before.at[u].slot == Some(s);
    assert after.at[u].slot == Some(s);
  }

  /** A new account's slot comes from the pool and from no other account. */
  lemma NewSlotIsFree(site: Site, d: Disk, name: string, admitted: bool, strong: bool)
    requires IsDict(d.pool)
    ensures var r := NewAccount(site, d, name, admitted, strong);
      r.Success? ==>
          name !in d.users.at && (r.value.Some? ==> r.value.value in d.pool.at && r.value.value !in SlotsOf(d.users.at))
  {
    var free := FreeSlots(d.pool.keys, SlotsOf(d.users.at));
    if free != [] { assert free[0] in free; }
  }

  lemma AccountsGrow(users: Dict<User>, pool: Dict<Routes>, name: string, user: User)
    requires IsDict(users) && Exclusive(users.at) && Housed(users.at, pool.at) && name !in users.at
    requires user.slot.Some? ==> user.slot.value in pool.at && user.slot.value !in SlotsOf(users.at)
    ensures var n := Put(users, name, user);
      IsDict(n) && Exclusive(n.at) && Housed(n.at, pool.at) && AccountsKept(users, n)
  {
    PutIsDict(users, name, user);
    forall u | u in users.at && users.at[u].slot.Some? ensures users.at[u].slot != user.slot {
      if user.slot.Some? { assert users.at[u].slot.value in SlotsOf(users.at); }
    }
  }

  lemma AddingKeeps(site: Site, d: Disk, name: string, admitted: bool, strong: bool, kept: bool, ldap: bool,
                    subject: string)
    requires IsDict(d.users) && IsDict(d.pool) && Exclusive(d.users.at) && Housed(d.users.at, d.pool.at)
    ensures var n := Added(site, d, name, admitted, strong, kept, ldap, subject);
      && n == d.(users := n.users) && IsDict(n.users)
      && Exclusive(n.users.at) && Housed(n.users.at, d.pool.at) && AccountsKept(d.users, n.users)
  {
    NewSlotIsFree(site, d, name, admitted, strong);
    var r := NewAccount(site, d, name, admitted, strong);
    if r.Success? && kept {
      AccountsGrow(d.users, d.pool, name, User(r.value, ldap, subject, false));
    }
  }

  lemma DisablingKeeps(d: Disk, name: string, disabled: bool)
    requires IsDict(d.users) && Exclusive(d.users.at) && Housed(d.users.at, d.pool.at)
    ensures var n := AdminDisable(d, name, disabled);
      && n == d.(users := n.users) && IsDict(n.users)
      && Exclusive(n.users.at) && Housed(n.users.at, d.pool.at) && AccountsKept(d.users, n.users)
  {
    if name in d.users.at { PutIsDict(d.users, name, d.users.at[name].(disabled := disabled)); }
  }

  lemma UsersMove(site: Site, s: State, users: Dict<User>)
    requires Inv(site, s) && IsDict(users) && Exclusive(users.at) && Housed(users.at, s.disk.pool.at)
    requires AccountsKept(s.disk.users, users)
    ensures Inv(site, s.(disk := s.disk.(users := users)))
  {
    forall x | InUse(s.disk.users.at, x) ensures InUse(users.at, x) { SlotsSurvive(s.disk.users, users, x); }
  }

  lemma {:induction false} UsedSlotsAreUsed(users: Dict<User>, n: nat)
    requires n <= |users.keys| && IsDict(users)
    ensures forall s | s in UsedSlots(users, n) :: InUse(users.at, s)
    ensures forall i, j | 0 <= i < j < |UsedSlots(users, n)| :: UsedSlots(users, n)[i] != UsedSlots(users, n)[j]
  {
    if n > 0 {
      UsedSlotsAreUsed(users, n - 1);
      assert users.keys[n - 1] in users.at;
    }
  }

  lemma ProjectingKeeps(site: Site, s: State, now: int)
    requires Inv(site, s)
    ensures Inv(site, s.(disk := s.disk.(assignments := Projection(s.disk.users, now))))
  {
    UsedSlotsAreUsed(s.disk.users, |s.disk.users.keys|);
  }

  // ---- Every step ---------------------------------------------------------------------------

  predicate ByController(e: Event) { e.Begin? || e.Decide? || e.Finish? || e.Publish? || e.Crash? }

  lemma ControllerKeeps(site: Site, s: State, e: Event)
    requires Inv(site, s) && Enabled(s, e) && ByController(e)
    ensures Inv(site, Step(site, s, e))
  {
    match e
    case Begin => BeginKeeps(site, s);
    case Decide(policy, resources, now, newSlot) =>
      PlannedProvision(policy, s.stage.assignments, s.disk.inventory.at, resources, now);
      DecideKeeps(site, s, Plan(policy, s.stage.assignments, s.disk.inventory.at, resources, now), newSlot);
    case Finish(work) => if Acceptable(work) { WorkKeeps(site, s, s.stage.slot, work, Worked(s, s.stage.slot, work)); }
    case Publish => PublishKeeps(site, s, s.stage.slot, s.stage.routes, Published(s, s.stage.slot, s.stage.routes));
    case Crash =>
  }

  lemma GatewayKeeps(site: Site, s: State, e: Event)
    requires Inv(site, s) && Enabled(s, e) && !ByController(e)
    ensures Inv(site, Step(site, s, e))
    ensures AccountsKept(s.disk.users, Step(site, s, e).disk.users)
    ensures Step(site, s, e).disk.pool == s.disk.pool && Step(site, s, e).disk.inventory == s.disk.inventory
  {
    if e.Project? {
      ProjectingKeeps(site, s, e.now);
    } else {
      var d := AccountStep(site, s.disk, e);
      AccountKeeps(site, s.disk, e);
      UsersMove(site, s, d.users);
    }
  }

  /** The account steps, on the files alone. */
  function AccountStep(site: Site, d: Disk, e: Event): Disk
    requires !ByController(e) && !e.Project?
  {
    match e
    case SignUp(name, admitted, strong, kept) => Register(site, d, name, admitted, strong, kept)
    case AdminAdds(name, admitted, strong, kept) => AdminCreate(site, d, name, admitted, strong, kept)
    case AdminSets(name, disabled) => AdminDisable(d, name, disabled)
    case Directory(name, subject, create, admitted, kept) => LdapSignIn(site, d, name, subject, create, admitted, kept)
  }

  lemma AccountKeeps(site: Site, d: Disk, e: Event)
    requires IsDict(d.users) && IsDict(d.pool) && Exclusive(d.users.at) && Housed(d.users.at, d.pool.at)
    requires !ByController(e) && !e.Project?
    ensures var n := AccountStep(site, d, e);
      && n == d.(users := n.users) && IsDict(n.users)
      && Exclusive(n.users.at) && Housed(n.users.at, d.pool.at) && AccountsKept(d.users, n.users)
  {
    match e
    case SignUp(name, admitted, strong, kept) => AddingKeeps(site, d, name, admitted, strong, kept, false, "");
    case AdminAdds(name, admitted, strong, kept) => AddingKeeps(site, d, name, admitted, strong, kept, false, "");
    case AdminSets(name, disabled) => DisablingKeeps(d, name, disabled);
    case Directory(name, subject, create, admitted, kept) =>
        AddingKeeps(site, d, name, admitted, true, kept, true, subject);
  }

  lemma StepKeepsInv(site: Site, s: State, e: Event)
    requires Inv(site, s) && Enabled(s, e)
    ensures Inv(site, Step(site, s, e))
  {
    if ByController(e) { ControllerKeeps(site, s, e); } else { GatewayKeeps(site, s, e); }
  }

  lemma StepAppends(site: Site, s: State, e: Event)
    requires Inv(site, s) && Enabled(s, e)
    ensures Extends(s.disk.pool, Step(site, s, e).disk.pool) && AccountsKept(s.disk.users, Step(site, s, e).disk.users)
  {
    match e
    case Begin => BeginKeeps(site, s);
    case Publish => PublishKeeps(site, s, s.stage.slot, s.stage.routes, Published(s, s.stage.slot, s.stage.routes));
    case Decide(_, _, _, _) =>
    case Finish(_) =>
    case Crash =>
    case _ => GatewayKeeps(site, s, e);
  }

  // ---- Whole runs -----------------------------------------------------------------------------

  /** The files as the installation leaves them: every slot of the first pool
      ready without a receipt, retired entries perhaps, and accounts that share
      no slot. */
  ghost predicate Installed(site: Site, s: State) {
    && Shaped(s.disk) && s.stage == Idle && s.disk.pool == site.initial && IsDict(site.initial)
    && (forall x | x in site.initial.at ::
          x in s.disk.inventory.at && s.disk.inventory.at[x] == Record(Ready, Some(site.initial.at[x]), false))
    && (forall x | x in s.disk.inventory.at && x !in site.initial.at :: s.disk.inventory.at[x].state == Retired)
    && |s.disk.inventory.at| <= ENTRIES_MAX
    && Exclusive(s.disk.users.at) && Housed(s.disk.users.at, site.initial.at)
    && UsedBy(s.disk.assignments, s.disk.users.at)
  }

  ghost predicate IsRun(site: Site, states: seq<State>, events: seq<Event>) {
    && |states| == |events| + 1 && Installed(site, states[0])
    && forall i | 0 <= i < |events| :: Follows(site, states, events, i)
  }

  ghost predicate Follows(site: Site, states: seq<State>, events: seq<Event>, i: nat)
    requires i < |events| && i + 1 < |states|
  {
    && Shaped(states[i].disk) && Enabled(states[i], events[i])
    && states[i + 1] == Step(site, states[i], events[i])
  }

  lemma {:induction false} RunKeepsInv(site: Site, states: seq<State>, events: seq<Event>, i: nat)
    requires IsRun(site, states, events) && i < |states|
    ensures Inv(site, states[i])
  {
    if i > 0 {
      RunKeepsInv(site, states, events, i - 1);
      NextKeepsInv(site, states, events, i - 1);
    } else {
      InstalledInv(site, states[0]);
    }
  }

  lemma NextKeepsInv(site: Site, states: seq<State>, events: seq<Event>, i: nat)
    requires IsRun(site, states, events) && i < |events| && Inv(site, states[i])
    ensures Inv(site, states[i + 1])
  {
    assert Follows(site, states, events, i);
    StepKeepsInv(site, states[i], events[i]);
  }

  lemma InstalledInv(site: Site, s: State)
    requires Installed(site, s)
    ensures Inv(site, s)
  {
  }

  lemma AccountsKeptTransitive(a: Dict<User>, b: Dict<User>, c: Dict<User>)
    requires AccountsKept(a, b) && AccountsKept(b, c)
    ensures AccountsKept(a, c)
  {
  }

  lemma NextAppends(site: Site, states: seq<State>, events: seq<Event>, i: nat)
    requires IsRun(site, states, events) && i < |events|
    ensures Extends(states[i].disk.pool, states[i + 1].disk.pool)
    ensures AccountsKept(states[i].disk.users, states[i + 1].disk.users)
  {
    RunKeepsInv(site, states, events, i);
    assert Follows(site, states, events, i);
    StepAppends(site, states[i], events[i]);
  }

  /** Over any stretch of a run the pool only grows at its end with no route
      changed, and no account goes or changes its slot. */
  lemma {:induction false} FilesOnlyGrow(site: Site, states: seq<State>, events: seq<Event>, i: nat, j: nat)
    requires IsRun(site, states, events) && i <= j < |states|
    ensures Extends(states[i].disk.pool, states[j].disk.pool)
    ensures AccountsKept(states[i].disk.users, states[j].disk.users)
    decreases j
  {
    if i < j {
      FilesOnlyGrow(site, states, events, i, j - 1);
      NextAppends(site, states, events, j - 1);
      ExtendsTransitive(states[i].disk.pool, states[j - 1].disk.pool, states[j].disk.pool);
      AccountsKeptTransitive(states[i].disk.users, states[j - 1].disk.users, states[j].disk.users);
    }
  }

  /** In every state, crashes included, each published slot that was not installed
      has a ready record with a passed receipt and equal routes, and at most one
      slot is being prepared, qualified or waiting to be published. */
  lemma PublishedHaveReceipts(site: Site, states: seq<State>, events: seq<Event>, i: nat, slot: string)
    requires IsRun(site, states, events) && i < |states| && slot in states[i].disk.pool.at && slot !in site.initial.at
    ensures var inv := states[i].disk.inventory.at;
      slot in inv && inv[slot] == Record(Ready, Some(states[i].disk.pool.at[slot]), true) && IsNewSlot(slot)
  {
    RunKeepsInv(site, states, events, i);
    var s := states[i];
    assert HasReceipt(site.initial.at, s.disk.inventory.at, slot, s.disk.pool.at[slot]);
  }

  lemma OnePending(site: Site, states: seq<State>, events: seq<Event>, i: nat)
    requires IsRun(site, states, events) && i < |states|
    ensures |Pending(states[i].disk.inventory.at)| <= 1
  {
    RunKeepsInv(site, states, events, i);
    var pending, inv, pool := Pending(states[i].disk.inventory.at), states[i].disk.inventory.at, states[i].disk.pool.at;
    if pending != {} {
      var a :| a in pending;
      forall b | b in pending ensures b == a { assert InFlight(inv, pool, a) && InFlight(inv, pool, b); }
      assert pending == {a};
    }
  }

  /** The guards that would stop the controller for good never fire: recovery and
      publication find no other route in place, and no assigned slot is missing. */
  lemma GuardsNeverFire(site: Site, states: seq<State>, events: seq<Event>, i: nat, policy: Policy,
                        resources: Resources, now: int)
    requires IsRun(site, states, events) && i < |states|
    ensures var s := states[i];
      && IsDict(s.disk.inventory) && Recover(s.disk.inventory, s.disk.pool).Some?
      && (s.stage.Stored? && s.stage.slot in s.disk.pool.at ==> s.disk.pool.at[s.stage.slot] == s.stage.routes)
      && (s.stage.Recovered? ==>
          Plan(policy, s.stage.assignments, s.disk.inventory.at, resources, now) != Failure(AssignedDisappeared))
  {
    RunKeepsInv(site, states, events, i);
    var s := states[i];
    RecoveryPublishesAll(site.initial.at, s.disk.inventory, s.disk.pool);
    if s.stage.Stored? && s.stage.slot in s.disk.pool.at {
      assert HasReceipt(site.initial.at, s.disk.inventory.at, s.stage.slot, s.disk.pool.at[s.stage.slot]);
    }
    if s.stage.Recovered? { NothingDisappears(site, s, policy, resources, now); }
  }
}
