/** The controller's rounds reach the spare target, whatever the gateway does
    meanwhile and whatever a crash left. */
module CapacityProgress {
  import opened Outcomes
  import opened Basics
  import opened OrderedDict
  import opened CapacityPlanner
  import opened CapacityProtocol
  import opened CapacitySafety

  /** One round's inputs: what it reads besides the controller's files, the fresh
      name and what the worker returns. */
  datatype Input = Input(policy: Policy, resources: Resources, now: int, newSlot: string, routes: Routes)

  /** A round in which nothing stops the controller and the worker succeeds. */
  function Round(s: State, x: Input): State
    requires IsDict(s.disk.inventory)
  {
    var began := Began(s);
    if !began.stage.Recovered? then began
    else
      var d := Plan(x.policy, began.stage.assignments, began.disk.inventory.at, x.resources, x.now);
      var decided := Planned(began, d, x.newSlot);
      if !decided.stage.Working? then decided
      else
        var worked := Worked(decided, decided.stage.slot, Some(Work(x.routes, true)));
        if !worked.stage.Stored? then worked else Published(worked, worked.stage.slot, worked.stage.routes)
  }

  /** The policy is enabled with this target, the projection fresh and valid, the
      resources sufficient, and the name new. */
  ghost predicate Favourable(s: State, x: Input, spare: nat) {
    && x.policy == Policy(true, true, spare) && spare <= 8
    && Timely(s.disk.assignments, x.now) && ValidAssignments(s.disk.assignments)
    && FirstShort(x.resources).None?
    && IsNewSlot(x.newSlot) && x.newSlot !in s.disk.inventory.at
    && x.routes.Keys == {"secure", "internet"}
  }

  predicate AtLimit(inv: map<string, Record>) {
    |Active(inv)| >= ACTIVE_MAX || |inv| >= ENTRIES_MAX
  }

  function UsedIn(a: Assignments): set<string> {
    if a.used.Some? then Elements(a.used.value) else {}
  }

  /** The slots that the gateway's latest projection names as used. */
  function Used(s: State): set<string> { UsedIn(s.disk.assignments) }

  function Spares(s: State): nat {
    |ReadySpares(s.disk.inventory.at, Used(s))|
  }

  /** A favourable round adds a spare, or had no need or no room to; what it has
      is published and nothing is left half done. */
  ghost predicate Advances(s: Disk, n: Disk, spares: nat, now: nat, spare: nat) {
    && NoneUnpublished(n.inventory.at, n.pool.at) && Pending(n.inventory.at) == {}
    && (now == spares + 1 || (now == spares && n.inventory == s.inventory && (now >= spare || AtLimit(n.inventory.at))))
    && |Active(s.inventory.at)| <= |Active(n.inventory.at)| && |s.inventory.at| <= |n.inventory.at|
  }

  lemma BeganMoves(site: Site, s: State, n: State)
    requires Inv(site, s) && n == Began(s)
    ensures Inv(site, n) && n.stage == Recovered(s.disk.assignments) && n.disk == s.disk.(pool := n.disk.pool)
    ensures NoneUnpublished(n.disk.inventory.at, n.disk.pool.at)
  {
    BeginKeeps(site, s);
  }

  /** What the plan decides in a favourable round. */
  lemma FavourableDecision(site: Site, s: State, x: Input, spare: nat)
    requires Inv(site, s) && s.stage == Recovered(s.disk.assignments) && Favourable(s, x, spare)
    ensures var d := Plan(x.policy, s.disk.assignments, s.disk.inventory.at, x.resources, x.now);
      && d.Success?
      && d.value.action == (if Pending(s.disk.inventory.at) != {} then Resume
                            else if Spares(s) >= spare || AtLimit(s.disk.inventory.at) then Wait else Provision)
  {
    NothingDisappears(site, s, x.policy, x.resources, x.now);
  }

  lemma ThePendingSlot(site: Site, s: State, n: State, d: Result<Decision, PlanError>, x: Input)
    requires Inv(site, s) && s.stage.Recovered? && d.Success? && d.value.action == Resume
    requires Pending(s.disk.inventory.at) != {}
    requires n == Planned(s, d, x.newSlot)
    ensures n.stage.Working? && n.disk == s.disk && n.stage.slot in Pending(s.disk.inventory.at)
  {
    var keys := s.disk.inventory.keys;
    var p :| p in Pending(s.disk.inventory.at);
    assert p in keys;
    var i :| 0 <= i < |keys| && keys[i] == p;
  }

  lemma CountsAfterQualifying(before: map<string, Record>, slot: string, r: Record, used: set<string>,
                              after: map<string, Record>)
    requires slot in Pending(before) && slot !in used && r.state == Ready && after == before[slot := r]
    ensures |ReadySpares(after, used)| == |ReadySpares(before, used)| + 1
    ensures |Active(after)| == |Active(before)| && |after| == |before| && Pending(after) == Pending(before) - {slot}
  {
    assert ReadySpares(after, used) == ReadySpares(before, used) + {slot};
    assert Active(after) == Active(before);
    assert after.Keys == before.Keys && |after| == |after.Keys| && |before| == |before.Keys|;
  }

  lemma NotYetUsed(site: Site, s: State, slot: string)
    requires Inv(site, s) && s.stage == Working(slot)
    ensures slot !in Used(s)
  {
    assert slot in s.disk.pool.at ==> HasReceipt(site.initial.at, s.disk.inventory.at, slot, s.disk.pool.at[slot]);
    forall x | x in Used(s) ensures x in s.disk.pool.at { assert InUse(s.disk.users.at, x); }
  }

  lemma OnlyPending(s: State)
    requires OneInFlight(s.disk.inventory.at, s.disk.pool.at) && s.stage.Working?
    requires s.stage.slot in Pending(s.disk.inventory.at)
    ensures Pending(s.disk.inventory.at) == {s.stage.slot}
  {
    assert InFlight(s.disk.inventory.at, s.disk.pool.at, s.stage.slot);
    forall y | y in Pending(s.disk.inventory.at) ensures y == s.stage.slot {
      assert InFlight(s.disk.inventory.at, s.disk.pool.at, y);
    }
  }

  /** Qualifying the slot in hand adds one ready spare and leaves nothing pending. */
  lemma QualifyingAddsOne(site: Site, s: State, routes: Routes, n: State)
    requires Inv(site, s) && s.stage.Working? && n == Worked(s, s.stage.slot, Some(Work(routes, true)))
    requires routes.Keys == {"secure", "internet"} && NoneUnpublished(s.disk.inventory.at, s.disk.pool.at)
    ensures Pending(n.disk.inventory.at) == {} && Spares(n) == Spares(s) + 1
    ensures |Active(s.disk.inventory.at)| == |Active(n.disk.inventory.at)|
    ensures |s.disk.inventory.at| == |n.disk.inventory.at|
    ensures forall y | y in n.disk.inventory.at && Qualified(n.disk.inventory.at[y]) ::
              y in n.disk.pool.at || y == s.stage.slot
  {
    NotYetUsed(site, s, s.stage.slot);
    OnlyPending(s);
    CountsAfterQualifying(s.disk.inventory.at, s.stage.slot, Record(Ready, Some(routes), true), Used(s),
        n.disk.inventory.at);
  }

  /** The last two writes of a round. */
  lemma FinishingWell(site: Site, s: State, routes: Routes, worked: State, n: State)
    requires Inv(site, s) && s.stage.Working? && routes.Keys == {"secure", "internet"}
    requires NoneUnpublished(s.disk.inventory.at, s.disk.pool.at)
    requires worked == Worked(s, s.stage.slot, Some(Work(routes, true))) && n == Published(worked, s.stage.slot, routes)
    ensures Inv(site, n) && n.stage == Idle && n.disk == s.disk.(inventory := n.disk.inventory, pool := n.disk.pool)
    ensures Spares(n) == Spares(s) + 1 && Pending(n.disk.inventory.at) == {}
    ensures NoneUnpublished(n.disk.inventory.at, n.disk.pool.at)
    ensures |Active(s.disk.inventory.at)| == |Active(n.disk.inventory.at)|
    ensures |s.disk.inventory.at| == |n.disk.inventory.at|
  {
    QualifyingAddsOne(site, s, routes, worked);
    WorkKeeps(site, s, s.stage.slot, Some(Work(routes, true)), worked);
    PublishKeeps(site, worked, s.stage.slot, routes, n);
  }

  lemma CountsAfterProvision(before: map<string, Record>, slot: string, used: set<string>, after: map<string, Record>)
    requires slot !in before && after == before[slot := Record(Preparing, None, false)]
    ensures ReadySpares(after, used) == ReadySpares(before, used)
    ensures |Active(after)| == |Active(before)| + 1 && |after| == |before| + 1
  {
    assert Active(after) == Active(before) + {slot};
  }

  /** A round that resumes or provisions. */
  lemma WorkingRound(site: Site, began: State, decided: State, d: Result<Decision, PlanError>, x: Input, n: State)
    requires Inv(site, began) && began.stage.Recovered? && NoneUnpublished(began.disk.inventory.at, began.disk.pool.at)
    requires d.Success? && d.value.action != Wait && decided == Planned(began, d, x.newSlot)
    requires d.value.action == Resume ==> Pending(began.disk.inventory.at) != {}
    requires d.value.action == Provision ==>
      Pending(began.disk.inventory.at) == {} && |began.disk.inventory.at| < ENTRIES_MAX
    requires IsNewSlot(x.newSlot) && x.newSlot !in began.disk.inventory.at && x.routes.Keys == {"secure", "internet"}
    requires decided.stage.Working? ==>
      n == Published(Worked(decided, decided.stage.slot, Some(Work(x.routes, true))), decided.stage.slot, x.routes)
    ensures decided.stage.Working? && Inv(site, n) && n.stage == Idle
    ensures Advances(began.disk, n.disk, Spares(began), Spares(n), 0) && Spares(n) == Spares(began) + 1
    ensures n.disk == began.disk.(inventory := n.disk.inventory, pool := n.disk.pool)
  {
    if d.value.action == Resume {
      ThePendingSlot(site, began, decided, d, x);
    } else {
      ProvisionKeeps(site, began, x.newSlot, decided);
      CountsAfterProvision(began.disk.inventory.at, x.newSlot, Used(began), decided.disk.inventory.at);
    }
    assert Inv(site, decided);
    FinishingWell(site, decided, x.routes, Worked(decided, decided.stage.slot, Some(Work(x.routes, true))), n);
  }

  /** Every favourable round qualifies and publishes one more spare, unless the
      target or the inventory limit is already reached. */
  lemma {:induction false} FavourableRound(site: Site, s: State, x: Input, spare: nat, n: State)
    requires Inv(site, s) && s.stage == Idle && Favourable(s, x, spare) && n == Round(s, x)
    ensures Inv(site, n) && n.stage == Idle && Advances(s.disk, n.disk, Spares(s), Spares(n), spare)
    ensures n.disk.assignments == s.disk.assignments && n.disk.users == s.disk.users
  {
    var began := Began(s);
    BeganMoves(site, s, began);
    FavourableDecision(site, began, x, spare);
    var d := Plan(x.policy, s.disk.assignments, s.disk.inventory.at, x.resources, x.now);
    PlannedProvision(x.policy, s.disk.assignments, s.disk.inventory.at, x.resources, x.now);
    var decided := Planned(began, d, x.newSlot);
    if d.value.action != Wait {
      WorkingRound(site, began, decided, d, x, n);
    }
  }

  // ---- Any stretch of any run -------------------------------------------------------

  /** A decision under the policy for `spare` spares, on a fresh and valid
      projection, with sufficient resources. */
  ghost predicate WellPlaced(s: State, e: Event, spare: nat) {
    && e.Decide? && s.stage.Recovered? && e.policy == Policy(true, true, spare)
    && Timely(s.stage.assignments, e.now) && ValidAssignments(s.stage.assignments)
    && FirstShort(e.resources).None?
  }

  /** The controller stops, or the worker does not succeed. */
  predicate Interrupts(e: Event) { e.Crash? || (e.Finish? && !Acceptable(e.work)) }

  ghost function Decisions(states: seq<State>, events: seq<Event>, from: nat, end: nat, spare: nat): nat
    requires from <= end <= |events| < |states|
  {
    if from == end then 0
    else
      Decisions(states, events, from, end - 1, spare)
      + if WellPlaced(states[end - 1], events[end - 1], spare) then 1 else 0
  }

  function Interruptions(events: seq<Event>, from: nat, end: nat): nat
    requires from <= end <= |events|
  {
    if from == end then 0 else Interruptions(events, from, end - 1) + if Interrupts(events[end - 1]) then 1 else 0
  }

  /** The spares there were, one more for each well placed decision and one less
      for each interruption. */
  ghost function Goal(states: seq<State>, events: seq<Event>, from: nat, end: nat, spare: nat): int
    requires from <= end <= |events| < |states|
  {
    Spares(states[from]) + Decisions(states, events, from, end, spare) - Interruptions(events, from, end)
  }

  ghost function Gain(s: State, e: Event, spare: nat): int {
    (if WellPlaced(s, e, spare) then 1 else 0) - if Interrupts(e) then 1 else 0
  }

  lemma GoalGains(states: seq<State>, events: seq<Event>, from: nat, end: nat, spare: nat)
    requires from < end <= |events| < |states|
    ensures Goal(states, events, from, end, spare)
            == Goal(states, events, from, end - 1, spare) + Gain(states[end - 1], events[end - 1], spare)
  {
  }

  function Min(a: int, b: int): int { if a <= b then a else b }

  /** A slot is begun and not qualified, in hand or left by an interruption. */
  function Begun(s: State): nat { if Pending(s.disk.inventory.at) == {} then 0 else 1 }

  /** It waits to be resumed. */
  function LeftOver(s: State): nat { if s.stage.Working? then 0 else Begun(s) }

  /** The slots in `base` are used, and every later projection says so. */
  ghost predicate KnownAsUsed(base: set<string>, s: State) {
    && base <= Used(s) && (s.stage.Recovered? ==> base <= UsedIn(s.stage.assignments))
    && forall x | x in base :: InUse(s.disk.users.at, x)
  }

  /** How far the slots have come, not counting projections since. The decision
      that resumes what was left over will bring no slot of its own. */
  ghost predicate Ahead(base: set<string>, s: State, spare: nat, goal: int) {
    || AtLimit(s.disk.inventory.at)
    || |ReadySpares(s.disk.inventory.at, base)| + Begun(s) >= Min(spare, goal + LeftOver(s))
  }

  // ---- Used slots stay known ----------------------------------------------------------

  lemma {:induction false} UsedSlotsAreAll(users: Dict<User>, n: nat, i: nat)
    requires i < n <= |users.keys| && IsDict(users) && users.at[users.keys[i]].slot.Some?
    ensures users.at[users.keys[i]].slot.value in UsedSlots(users, n)
  {
    if i < n - 1 { UsedSlotsAreAll(users, n - 1, i); }
  }

  lemma ProjectionIsComplete(users: Dict<User>, now: int, x: string)
    requires IsDict(users) && InUse(users.at, x)
    ensures x in UsedIn(Projection(users, now))
  {
    var u :| u in users.at && users.at[u].slot == Some(x);
    assert u in users.keys;
    var i :| 0 <= i < |users.keys| && users.keys[i] == u;
    UsedSlotsAreAll(users, |users.keys|, i);
  }

  lemma GatewayKeepsKnown(site: Site, s: State, e: Event, base: set<string>)
    requires Inv(site, s) && Enabled(s, e) && !ByController(e) && KnownAsUsed(base, s)
    ensures KnownAsUsed(base, Step(site, s, e))
  {
    GatewayKeeps(site, s, e);
    UseSurvives(s.disk.users, Step(site, s, e).disk.users, base);
    if e.Project? { ProjectionKnows(s.disk.users, e.now, base); }
  }

  lemma UseSurvives(before: Dict<User>, after: Dict<User>, base: set<string>)
    requires AccountsKept(before, after) && forall x | x in base :: InUse(before.at, x)
    ensures forall x | x in base :: InUse(after.at, x)
  {
    forall x | x in base ensures InUse(after.at, x) { SlotsSurvive(before, after, x); }
  }

  lemma ProjectionKnows(users: Dict<User>, now: int, base: set<string>)
    requires IsDict(users) && forall x | x in base :: InUse(users.at, x)
    ensures base <= UsedIn(Projection(users, now))
  {
    forall x | x in base ensures x in UsedIn(Projection(users, now)) { ProjectionIsComplete(users, now, x); }
  }

  lemma ControllerKeepsKnown(site: Site, s: State, e: Event, base: set<string>)
    requires Shaped(s.disk) && Enabled(s, e) && ByController(e) && KnownAsUsed(base, s)
    ensures KnownAsUsed(base, Step(site, s, e))
  {
    ControllerReadsAccounts(site, s, e);
  }

  /** The controller only reads the gateway's files. */
  lemma ControllerReadsAccounts(site: Site, s: State, e: Event)
    requires Shaped(s.disk) && Enabled(s, e) && ByController(e)
    ensures var n := Step(site, s, e);
      && n.disk.users == s.disk.users && n.disk.assignments == s.disk.assignments
      && (n.stage.Recovered? ==> n.stage.assignments == s.disk.assignments)
  {
  }

  // ---- The spares, event by event -----------------------------------------------------

  lemma MoreIsAhead(before: map<string, Record>, after: map<string, Record>, base: set<string>, slot: string)
    requires slot !in before && after == before[slot := Record(Preparing, None, false)]
    ensures ReadySpares(after, base) == ReadySpares(before, base) && (AtLimit(before) ==> AtLimit(after))
  {
    CountsAfterProvision(before, slot, base, after);
  }

  lemma FewerUsedMoreSpares(slots: map<string, Record>, base: set<string>, used: set<string>)
    requires base <= used
    ensures |ReadySpares(slots, used)| <= |ReadySpares(slots, base)|
  {
    SubsetIsSmaller(ReadySpares(slots, used), ReadySpares(slots, base));
  }

  /** What any decision rests on, and what a well placed one does besides. */
  ghost predicate Sound(s: State, d: Result<Decision, PlanError>, placed: bool, spare: nat)
    requires s.stage.Recovered?
  {
    var inv := s.disk.inventory.at;
    && (d.Success? && d.value.action == Resume ==> Pending(inv) != {})
    && (d.Success? && d.value.action == Provision ==> Pending(inv) == {})
    && (placed ==> d.Success?)
    && (placed && d.value.action == Wait ==>
          Pending(inv) == {} && (|ReadySpares(inv, UsedIn(s.stage.assignments))| >= spare || AtLimit(inv)))
  }

  lemma DecisionIsSound(site: Site, s: State, e: Event, spare: nat)
    requires Inv(site, s) && Enabled(s, e) && e.Decide? && spare <= 8
    ensures Sound(s, Plan(e.policy, s.stage.assignments, s.disk.inventory.at, e.resources, e.now),
      WellPlaced(s, e, spare), spare)
  {
    NothingDisappears(site, s, e.policy, e.resources, e.now);
  }

  /** A well placed decision takes a slot in hand, or finds the target or the limit
      reached; any other decision loses nothing. */
  lemma DecisionAdvances(site: Site, s: State, e: Event, base: set<string>, spare: nat, goal: int)
    requires Inv(site, s) && Enabled(s, e) && e.Decide? && spare <= 8
    requires KnownAsUsed(base, s) && Ahead(base, s, spare, goal)
    ensures Ahead(base, Step(site, s, e), spare, goal + if WellPlaced(s, e, spare) then 1 else 0)
  {
    DecisionIsSound(site, s, e, spare);
    PlannedAdvances(s, Plan(e.policy, s.stage.assignments, s.disk.inventory.at, e.resources, e.now), e.newSlot,
                    WellPlaced(s, e, spare), base, spare, goal, Step(site, s, e));
  }

  lemma PlannedAdvances(s: State, d: Result<Decision, PlanError>, newSlot: string, placed: bool, base: set<string>,
                        spare: nat, goal: int, n: State)
    requires IsDict(s.disk.inventory) && s.stage.Recovered? && newSlot !in s.disk.inventory.at
    requires Sound(s, d, placed, spare) && n == Planned(s, d, newSlot)
    requires base <= UsedIn(s.stage.assignments) && Ahead(base, s, spare, goal)
    ensures Ahead(base, n, spare, goal + if placed then 1 else 0)
  {
    if d.Success? && d.value.action == Resume {
      SomePending(s.disk.inventory);
    } else if d.Success? && d.value.action == Provision {
      ProvisionAdvances(s, newSlot, base, spare, goal, n);
    } else {
      FewerUsedMoreSpares(s.disk.inventory.at, base, UsedIn(s.stage.assignments));
    }
  }

  lemma ProvisionAdvances(s: State, slot: string, base: set<string>, spare: nat, goal: int, n: State)
    requires slot !in s.disk.inventory.at && Pending(s.disk.inventory.at) == {} && Ahead(base, s, spare, goal)
    requires n.disk.inventory.at == s.disk.inventory.at[slot := Record(Preparing, None, false)]
    requires n.stage == Working(slot)
    ensures Ahead(base, n, spare, goal + 1)
  {
    MoreIsAhead(s.disk.inventory.at, n.disk.inventory.at, base, slot);
    assert slot in Pending(n.disk.inventory.at);
  }

  lemma SomePending(inventory: Inventory)
    requires IsDict(inventory) && Pending(inventory.at) != {}
    ensures FirstPending(inventory, |inventory.keys|).Some?
  {
    var p :| p in Pending(inventory.at);
    assert p in inventory.keys;
    var i :| 0 <= i < |inventory.keys| && inventory.keys[i] == p;
  }

  lemma UsedIsReady(site: Site, s: State, x: string)
    requires Inv(site, s) && InUse(s.disk.users.at, x)
    ensures x in s.disk.inventory.at && s.disk.inventory.at[x].state == Ready
  {
    assert HasReceipt(site.initial.at, s.disk.inventory.at, x, s.disk.pool.at[x]);
  }

  /** The slot in hand becomes a spare: it is in no account's use. */
  lemma FinishAdvances(site: Site, s: State, e: Event, base: set<string>, spare: nat, goal: int)
    requires Inv(site, s) && Enabled(s, e) && e.Finish? && Acceptable(e.work)
    requires KnownAsUsed(base, s) && Ahead(base, s, spare, goal)
    ensures Ahead(base, Step(site, s, e), spare, goal)
  {
    var slot, inv := s.stage.slot, s.disk.inventory.at;
    forall x | x in base ensures x != slot { UsedIsReady(site, s, x); }
    OnlyPending(s);
    CountsAfterQualifying(inv, slot, Record(Ready, Some(e.work.value.routes), true), base,
                          Step(site, s, e).disk.inventory.at);
  }

  /** What one event does to how far the spares have come. */
  lemma EventAdvances(site: Site, s: State, e: Event, base: set<string>, spare: nat, goal: int)
    requires Inv(site, s) && Enabled(s, e) && spare <= 8
    requires KnownAsUsed(base, s) && Ahead(base, s, spare, goal)
    ensures KnownAsUsed(base, Step(site, s, e))
    ensures Ahead(base, Step(site, s, e), spare, goal + Gain(s, e, spare))
  {
    if ByController(e) {
      ControllerKeepsKnown(site, s, e, base);
      match e
      case Decide(_, _, _, _) => DecisionAdvances(site, s, e, base, spare, goal);
      case Finish(_) => if Acceptable(e.work) { FinishAdvances(site, s, e, base, spare, goal); }
      case Begin => BeginKeeps(site, s);
      case Publish =>
      case Crash =>
    } else {
      GatewayKeepsKnown(site, s, e, base);
      GatewayKeeps(site, s, e);
    }
  }

  /** One event of a run. */
  lemma NextAdvances(site: Site, states: seq<State>, events: seq<Event>, i: nat, base: set<string>, spare: nat,
                     goal: int)
    requires IsRun(site, states, events) && i < |events| && spare <= 8
    requires KnownAsUsed(base, states[i]) && Ahead(base, states[i], spare, goal)
    ensures KnownAsUsed(base, states[i + 1])
    ensures Ahead(base, states[i + 1], spare, goal + Gain(states[i], events[i], spare))
  {
    RunKeepsInv(site, states, events, i);
    assert Follows(site, states, events, i);
    EventAdvances(site, states[i], events[i], base, spare, goal);
  }

  lemma StretchBegins(site: Site, states: seq<State>, events: seq<Event>, i: nat, spare: nat)
    requires IsRun(site, states, events) && i < |states| && !states[i].stage.Recovered?
    ensures KnownAsUsed(Used(states[i]), states[i]) && Ahead(Used(states[i]), states[i], spare, Spares(states[i]))
  {
    RunKeepsInv(site, states, events, i);
  }

  /** What a stretch has brought. */
  ghost predicate Reached(states: seq<State>, events: seq<Event>, from: nat, end: nat, spare: nat)
    requires from <= end <= |events| < |states|
  {
    && KnownAsUsed(Used(states[from]), states[end])
    && Ahead(Used(states[from]), states[end], spare, Goal(states, events, from, end, spare))
  }

  lemma StretchGrows(site: Site, states: seq<State>, events: seq<Event>, from: nat, end: nat, spare: nat)
    requires IsRun(site, states, events) && from < end <= |events| && spare <= 8
    requires Reached(states, events, from, end - 1, spare)
    ensures Reached(states, events, from, end, spare)
  {
    GoalGains(states, events, from, end, spare);
    NextGrows(site, states, events, end - 1, Used(states[from]), spare, Goal(states, events, from, end - 1, spare),
              Goal(states, events, from, end, spare));
  }

  lemma NextGrows(site: Site, states: seq<State>, events: seq<Event>, i: nat, base: set<string>, spare: nat, goal: int,
                  next: int)
    requires IsRun(site, states, events) && i < |events| && spare <= 8
    requires KnownAsUsed(base, states[i]) && Ahead(base, states[i], spare, goal)
    requires next == goal + Gain(states[i], events[i], spare)
    ensures KnownAsUsed(base, states[i + 1]) && Ahead(base, states[i + 1], spare, next)
  {
    NextAdvances(site, states, events, i, base, spare, goal);
  }

  lemma {:induction false} StretchAdvances(site: Site, states: seq<State>, events: seq<Event>, from: nat, end: nat,
                                           spare: nat)
    requires IsRun(site, states, events) && from <= end < |states| && !states[from].stage.Recovered? && spare <= 8
    ensures Reached(states, events, from, end, spare)
    decreases end
  {
    if from < end {
      StretchAdvances(site, states, events, from, end - 1, spare);
      StretchGrows(site, states, events, from, end, spare);
    } else {
      StretchBegins(site, states, events, from, spare);
    }
  }

  lemma SparesDespiteSignUps(slots: map<string, Record>, base: set<string>, used: set<string>)
    requires base <= used
    ensures |ReadySpares(slots, base)| <= |ReadySpares(slots, used)| + |used - base|
  {
    SubsetIsSmaller(ReadySpares(slots, base), ReadySpares(slots, used) + (used - base));
  }

  /** Over any stretch of any run, crashes, failed work, sign-ups and projections
      included: each well placed decision that nothing interrupts adds a spare,
      until there are `spare` of them or the inventory is full, counting a slot
      that is begun and those that projections have since named as used. */
  lemma SparesAreReached(site: Site, states: seq<State>, events: seq<Event>, from: nat, end: nat, spare: nat)
    requires IsRun(site, states, events) && from <= end < |states| && !states[from].stage.Recovered? && spare <= 8
    ensures AtLimit(states[end].disk.inventory.at)
         || Spares(states[end]) + Begun(states[end]) + |Used(states[end]) - Used(states[from])|
            >= Min(spare, Goal(states, events, from, end, spare))
  {
    StretchAdvances(site, states, events, from, end, spare);
    AheadMeans(Used(states[from]), states[end], spare, Goal(states, events, from, end, spare));
  }

  lemma AheadMeans(base: set<string>, s: State, spare: nat, goal: int)
    requires Ahead(base, s, spare, goal) && base <= Used(s)
    ensures AtLimit(s.disk.inventory.at) || Spares(s) + Begun(s) + |Used(s) - base| >= Min(spare, goal)
  {
    SparesDespiteSignUps(s.disk.inventory.at, base, Used(s));
  }

  // ---- Nothing is left half done --------------------------------------------------------

  /** Only the slot in hand is unpublished or pending. */
  ghost predicate Tidy(s: State) {
    var inv, pool := s.disk.inventory.at, s.disk.pool.at;
    match s.stage
    case Working(slot) => NoneUnpublished(inv, pool) && Pending(inv) == {slot}
    case Stored(slot, _) =>
      Pending(inv) == {} && forall x | x in inv && Qualified(inv[x]) :: x in pool || x == slot
    case _ => NoneUnpublished(inv, pool) && Pending(inv) == {}
  }

  /** A well placed decision, whatever an earlier crash left. */
  lemma DecisionTidies(site: Site, s: State, e: Event, spare: nat)
    requires Inv(site, s) && Enabled(s, e) && WellPlaced(s, e, spare) && spare <= 8
    ensures Tidy(Step(site, s, e))
  {
    DecisionIsSound(site, s, e, spare);
    PlannedIsTidy(s, Plan(e.policy, s.stage.assignments, s.disk.inventory.at, e.resources, e.now), e.newSlot, spare,
                  Step(site, s, e));
  }

  lemma PlannedIsTidy(s: State, d: Result<Decision, PlanError>, newSlot: string, spare: nat, n: State)
    requires Shaped(s.disk) && s.stage.Recovered? && newSlot !in s.disk.inventory.at && Sound(s, d, true, spare)
    requires OneInFlight(s.disk.inventory.at, s.disk.pool.at) && NoneUnpublished(s.disk.inventory.at, s.disk.pool.at)
    requires n == Planned(s, d, newSlot)
    ensures Tidy(n)
  {
    if Pending(s.disk.inventory.at) != {} { PendingIsOne(s); }
  }

  lemma PendingIsOne(s: State)
    requires Shaped(s.disk) && OneInFlight(s.disk.inventory.at, s.disk.pool.at) && Pending(s.disk.inventory.at) != {}
    ensures var slot := FirstPending(s.disk.inventory, |s.disk.inventory.keys|);
      slot.Some? && Pending(s.disk.inventory.at) == {slot.value}
  {
    SomePending(s.disk.inventory);
    var slot := FirstPending(s.disk.inventory, |s.disk.inventory.keys|);
    OnlyPending(s.(stage := Working(slot.value)));
  }

  lemma WorkKeepsTidy(s: State, w: Option<Work>)
    requires Shaped(s.disk) && s.stage.Working? && Tidy(s) && Acceptable(w)
    ensures Tidy(Worked(s, s.stage.slot, w))
  {
    CountsAfterQualifying(s.disk.inventory.at, s.stage.slot, Record(Ready, Some(w.value.routes), true), {},
                          Worked(s, s.stage.slot, w).disk.inventory.at);
  }

  lemma PublishKeepsTidy(site: Site, s: State)
    requires Inv(site, s) && s.stage.Stored? && Tidy(s)
    ensures Tidy(Published(s, s.stage.slot, s.stage.routes))
  {
    PublishKeeps(site, s, s.stage.slot, s.stage.routes, Published(s, s.stage.slot, s.stage.routes));
  }

  lemma DecisionKeepsTidy(site: Site, s: State, e: Event)
    requires Inv(site, s) && Enabled(s, e) && e.Decide? && Tidy(s)
    ensures Tidy(Step(site, s, e))
  {
  }

  lemma EventKeepsTidy(site: Site, s: State, e: Event)
    requires Inv(site, s) && Enabled(s, e) && Tidy(s) && !Interrupts(e)
    ensures Tidy(Step(site, s, e))
  {
    match e
    case Begin => BeginKeeps(site, s);
    case Decide(_, _, _, _) => DecisionKeepsTidy(site, s, e);
    case Finish(work) => WorkKeepsTidy(s, work);
    case Publish => PublishKeepsTidy(site, s);
    case Crash =>
    case _ => GatewayKeeps(site, s, e);
  }

  lemma NextTidies(site: Site, states: seq<State>, events: seq<Event>, i: nat, spare: nat)
    requires IsRun(site, states, events) && i < |events| && spare <= 8 && !Interrupts(events[i])
    requires WellPlaced(states[i], events[i], spare) || Tidy(states[i])
    ensures Tidy(states[i + 1])
  {
    RunKeepsInv(site, states, events, i);
    assert Follows(site, states, events, i);
    if Tidy(states[i]) {
      EventKeepsTidy(site, states[i], events[i]);
    } else {
      DecisionTidies(site, states[i], events[i], spare);
    }
  }

  /** From a well placed decision on, until something interrupts, every qualified
      slot is published and no slot is pending except the one in hand. */
  lemma {:induction false} NothingIsLeftHalfDone(site: Site, states: seq<State>, events: seq<Event>, at: nat, end: nat,
                                                 spare: nat)
    requires IsRun(site, states, events) && at < end < |states| && spare <= 8
    requires WellPlaced(states[at], events[at], spare) && Interruptions(events, at, end) == 0
    ensures Tidy(states[end])
    decreases end
  {
    if at < end - 1 { NothingIsLeftHalfDone(site, states, events, at, end - 1, spare); }
    NextTidies(site, states, events, end - 1, spare);
  }
}
