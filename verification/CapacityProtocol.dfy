/** The controller, which alone writes inventory and pool, and the gateway, which
    alone writes accounts and their projection, as one machine of atomic file
    replacements. The controller may stop between any two of them. */
module CapacityProtocol {
  import opened Outcomes
  import opened Basics
  import opened OrderedDict
  import opened CapacityPlanner

  datatype User = User(slot: Option<string>, ldap: bool, subject: string, disabled: bool)

  /** Fixed at installation: the first pool, the directly provisioned accounts
      and the administrators. */
  datatype Site = Site(initial: Dict<Routes>, targets: map<string, Routes>, admins: set<string>, scope: string,
                       identity: string -> string)

  datatype Disk = Disk(inventory: Inventory, pool: Dict<Routes>, users: Dict<User>, assignments: Assignments)

  /** Where the controller is between two writes; Idle also after a crash. */
  datatype Stage =
    | Idle | Recovered(assignments: Assignments) | Working(slot: string) | Stored(slot: string, routes: Routes)

  datatype State = State(disk: Disk, stage: Stage)

  // ---- The controller ------------------------------------------------------------

  predicate Qualified(r: Record) { r.state == Ready && r.passed }

  /** Publishing what earlier rounds qualified but did not publish. None where
      the original raises. */
  function RecoverUpTo(inventory: Inventory, pool: Dict<Routes>, n: nat): (r: Option<Dict<Routes>>)
    requires n <= |inventory.keys| && IsDict(inventory)
  {
    if n == 0 then Some(pool)
    else
      var name, before := inventory.keys[n - 1], RecoverUpTo(inventory, pool, n - 1);
      var record := inventory.at[name];
      if before.None? || !Qualified(record) then before
      else if record.routes.None? then None
      else if name !in before.value.at then Some(Put(before.value, name, record.routes.value))
      else if before.value.at[name] == record.routes.value then before
      else None
  }

  function Recover(inventory: Inventory, pool: Dict<Routes>): Option<Dict<Routes>>
    requires IsDict(inventory)
  {
    RecoverUpTo(inventory, pool, |inventory.keys|)
  }

  function Began(s: State): State
    requires IsDict(s.disk.inventory)
  {
    match Recover(s.disk.inventory, s.disk.pool)
    case None => s.(stage := Idle)
    case Some(pool) => State(s.disk.(pool := pool), Recovered(s.disk.assignments))
  }

  predicate IsNewSlot(slot: string) {
    |slot| == 23 && slot[..4] == "cap-" && (forall i | 4 <= i < 20 :: IsHex(slot[i])) && slot[20..] == "-01"
  }

  function FirstPending(inventory: Inventory, n: nat): (r: Option<string>)
    requires n <= |inventory.keys| && IsDict(inventory)
    ensures r.Some? ==> r.value in Pending(inventory.at)
    ensures r.None? ==> forall i | 0 <= i < n :: inventory.keys[i] !in Pending(inventory.at)
    decreases n
  {
    if n == 0 then None
    else
      var earlier := FirstPending(inventory, n - 1);
      if earlier.Some? then earlier
      else if inventory.keys[n - 1] in Pending(inventory.at) then Some(inventory.keys[n - 1])
      else None
  }

  function Planned(s: State, d: Result<Decision, PlanError>, newSlot: string): State
    requires IsDict(s.disk.inventory)
  {
    if d.Failure? || d.value.action == Wait then s.(stage := Idle)
    else if d.value.action == Provision then
      State(s.disk.(inventory := Put(s.disk.inventory, newSlot, Record(Preparing, None, false))), Working(newSlot))
    else
      var slot := FirstPending(s.disk.inventory, |s.disk.inventory.keys|);
      if slot.Some? then s.(stage := Working(slot.value)) else s.(stage := Idle)
  }

  /** The worker's result for a slot; None where it raises. */
  datatype Work = Work(routes: Routes, passed: bool)

  predicate Acceptable(w: Option<Work>) {
    w.Some? && w.value.passed && w.value.routes.Keys == {"secure", "internet"}
  }

  function Worked(s: State, slot: string, w: Option<Work>): State {
    if !Acceptable(w) then s.(stage := Idle)
    else State(s.disk.(inventory := Put(s.disk.inventory, slot, Record(Ready, Some(w.value.routes), true))),
        Stored(slot, w.value.routes))
  }

  function Published(s: State, slot: string, routes: Routes): State {
    if slot in s.disk.pool.at && s.disk.pool.at[slot] != routes then s.(stage := Idle)
    else State(s.disk.(pool := Put(s.disk.pool, slot, routes)), Idle)
  }

  // ---- The gateway ---------------------------------------------------------------

  /** The only destination a slot made by the controller may have. */
  function CanonicalTarget(site: Site, slot: string, env: string): Target {
    var id := site.identity(slot);
    Target("dsh-u-" + id + "-" + env + "." + site.scope + ".svc.cluster.local", 3081,
           "/runtime-tokens/capacity/" + id + "/" + env + "/token")
  }

  predicate CanonicalRoutes(site: Site, slot: string, routes: Routes) {
    && routes.Keys == {"secure", "internet"}
    && routes["secure"] == CanonicalTarget(site, slot, "secure")
    && routes["internet"] == CanonicalTarget(site, slot, "internet")
  }

  /** The gateway's check of the pool file, made on every use of it. */
  predicate PoolAccepted(site: Site, pool: Dict<Routes>) {
    && |pool.at| <= 2 * ACTIVE_MAX
    && (forall s | s in site.initial.at :: s in pool.at && pool.at[s] == site.initial.at[s])
    && forall s | s in pool.at && s !in site.initial.at :: IsNewSlot(s) && CanonicalRoutes(site, s, pool.at[s])
  }

  function SlotsOf(users: map<string, User>): set<string> {
    set u | u in users && users[u].slot.Some? :: users[u].slot.value
  }

  function FreeSlots(keys: seq<string>, used: set<string>): (f: seq<string>)
    ensures forall s | s in f :: s in keys && s !in used
    ensures f == [] ==> forall s | s in keys :: s in used
  {
    if keys == [] then []
    else if keys[0] in used then FreeSlots(keys[1..], used)
    else [keys[0]] + FreeSlots(keys[1..], used)
  }

  datatype Refusal = Paused | Conflict | Weak | Unavailable | NoSlot

  predicate Reserved(name: string) { name in {"__proto__", "constructor", "prototype"} }

  predicate Provisioned(site: Site, name: string) {
    name in site.targets && "secure" in site.targets[name] && "internet" in site.targets[name]
  }

  /** The slot of a new account, none for a directly provisioned one. */
  function NewAccount(site: Site, d: Disk, name: string, admitted: bool, strong: bool)
    : (r: Result<Option<string>, Refusal>) {
    if !admitted then Failure(Paused)
    else if name in site.admins || Reserved(name) || name in d.users.at then Failure(Conflict)
    else if !strong then Failure(Weak)
    else if Provisioned(site, name) then Success(None)
    else if !PoolAccepted(site, d.pool) then Failure(Unavailable)
    else
      var free := FreeSlots(d.pool.keys, SlotsOf(d.users.at));
      if free == [] then Failure(NoSlot) else Success(Some(free[0]))
  }

  function Added(site: Site, d: Disk, name: string, admitted: bool, strong: bool, kept: bool, ldap: bool,
                 subject: string): Disk {
    match NewAccount(site, d, name, admitted, strong)
    case Failure(_) => d
    case Success(slot) => if kept then d.(users := Put(d.users, name, User(slot, ldap, subject, false))) else d
  }

  function Lower(s: string): string {
    seq(|s|, i requires 0 <= i < |s| => if 'A' <= s[i] <= 'Z' then s[i] - 'A' + 'a' else s[i])
  }

  /** The accounts whose name is the directory's, letter case aside. */
  function Matches(users: map<string, User>, name: string): set<string> {
    set u | u in users && Lower(u) == name
  }

  predicate LdapConflict(site: Site, users: map<string, User>, name: string) {
    || name in site.admins
    || (exists u :: u in Matches(users, name) && !users[u].ldap)
    || exists u :: u in Matches(users, name) && u != name
  }

  /** The part of a directory sign-in after its await. `create` covers the
      caller's wish and the directory's permission. */
  function LdapSignIn(site: Site, d: Disk, name: string, subject: string, create: bool, admitted: bool, kept: bool)
    : Disk {
    if LdapConflict(site, d.users.at, name) || name in d.users.at || !create then d
    else Added(site, d, name, admitted, true, kept, true, subject)
  }

  function Register(site: Site, d: Disk, name: string, admitted: bool, strong: bool, kept: bool): Disk {
    if name in d.users.at || name in site.admins || name in site.targets then d
    else Added(site, d, name, admitted, strong, kept, false, "")
  }

  function AdminCreate(site: Site, d: Disk, name: string, admitted: bool, strong: bool, kept: bool): Disk {
    if name in site.admins || name in d.users.at then d
    else Added(site, d, name, admitted, strong, kept, false, "")
  }

  function AdminDisable(d: Disk, name: string, disabled: bool): Disk {
    if name in d.users.at then d.(users := Put(d.users, name, d.users.at[name].(disabled := disabled))) else d
  }

  /** The slots in use, each once. */
  function UsedSlots(users: Dict<User>, n: nat): (used: seq<string>)
    requires n <= |users.keys| && IsDict(users)
  {
    if n == 0 then []
    else
      var used, slot := UsedSlots(users, n - 1), users.at[users.keys[n - 1]].slot;
      if slot.None? || slot.value in used then used else used + [slot.value]
  }

  function Projection(users: Dict<User>, now: int): Assignments
    requires IsDict(users)
  {
    Assignments(Some(now), Some(|users.keys|), Some(UsedSlots(users, |users.keys|)))
  }

  /** Where an account's requests go. None when the pool file is refused. */
  function Destination(site: Site, d: Disk, name: string): Option<Routes> {
    if name in site.targets then Some(site.targets[name])
    else if name !in d.users.at || d.users.at[name].slot.None? || !PoolAccepted(site, d.pool) then None
    else
      var slot := d.users.at[name].slot.value;
      if slot !in d.pool.at || |Holders(d.users.at, slot)| != 1 then None
      else Some(d.pool.at[slot])
  }

  function Holders(users: map<string, User>, slot: string): set<string> {
    set u | u in users && users[u].slot == Some(slot)
  }

  // ---- The machine -----------------------------------------------------------------

  datatype Event =
    | Begin
    | Decide(policy: Policy, resources: Resources, now: int, newSlot: string)
    | Finish(work: Option<Work>)
    | Publish
    | Crash
    | SignUp(name: string, admitted: bool, strong: bool, kept: bool)
    | AdminAdds(name: string, admitted: bool, strong: bool, kept: bool)
    | AdminSets(name: string, disabled: bool)
    | Directory(name: string, subject: string, create: bool, admitted: bool, kept: bool)
    | Project(now: int)

  ghost predicate Enabled(s: State, e: Event) {
    match e
    case Begin => s.stage == Idle
    case Decide(_, _, _, newSlot) => s.stage.Recovered? && IsNewSlot(newSlot) && newSlot !in s.disk.inventory.at
    case Finish(_) => s.stage.Working?
    case Publish => s.stage.Stored?
    case _ => true
  }

  ghost predicate Shaped(d: Disk) {
    IsDict(d.inventory) && IsDict(d.pool) && IsDict(d.users)
  }

  ghost function Step(site: Site, s: State, e: Event): State
    requires Shaped(s.disk) && Enabled(s, e)
  {
    match e
    case Begin => Began(s)
    case Decide(policy, resources, now, newSlot) =>
      Planned(s, Plan(policy, s.stage.assignments, s.disk.inventory.at, resources, now), newSlot)
    case Finish(work) => Worked(s, s.stage.slot, work)
    case Publish => Published(s, s.stage.slot, s.stage.routes)
    case Crash => s.(stage := Idle)
    case SignUp(name, admitted, strong, kept) => s.(disk := Register(site, s.disk, name, admitted, strong, kept))
    case AdminAdds(name, admitted, strong, kept) => s.(disk := AdminCreate(site, s.disk, name, admitted, strong, kept))
    case AdminSets(name, disabled) => s.(disk := AdminDisable(s.disk, name, disabled))
    case Directory(name, subject, create, admitted, kept) =>
        s.(disk := LdapSignIn(site, s.disk, name, subject, create, admitted, kept))
    case Project(now) => s.(disk := s.disk.(assignments := Projection(s.disk.users, now)))
  }
}
