/** What accounts can rely on: a slot of their own, hosts and tokens nobody else
    has, and a destination that stays. */
module CapacityAccounts {
  import opened Outcomes
  import opened Basics
  import opened OrderedDict
  import opened CapacityPlanner
  import R = RuntimeUnits
  import opened CapacityProtocol
  import opened CapacitySafety

  /** No two accounts ever hold the same slot, whichever way they were made. */
  lemma NoSlotIsShared(site: Site, states: seq<State>, events: seq<Event>, i: nat, u: string, v: string)
    requires IsRun(site, states, events) && i < |states|
    requires u in states[i].disk.users.at && v in states[i].disk.users.at && u != v
    requires states[i].disk.users.at[u].slot.Some?
    ensures states[i].disk.users.at[u].slot != states[i].disk.users.at[v].slot
  {
    RunKeepsInv(site, states, events, i);
  }

  lemma HoldersOf(users: map<string, User>, u: string)
    requires Exclusive(users) && u in users && users[u].slot.Some?
    ensures |Holders(users, users[u].slot.value)| == 1
  {
    assert Holders(users, users[u].slot.value) == {u};
  }

  /** The gateway accepts the pool file of a state exactly when every route the
      controller published is the canonical one. The controller itself checks only
      that there are two routes and a passed receipt. */
  lemma AcceptedExactlyWhenCanonical(site: Site, states: seq<State>, events: seq<Event>, i: nat)
    requires IsRun(site, states, events) && i < |states|
    ensures var pool := states[i].disk.pool;
      PoolAccepted(site, pool) <==>
        forall s | s in pool.at && s !in site.initial.at :: CanonicalRoutes(site, s, pool.at[s])
  {
    RunKeepsInv(site, states, events, i);
    var pool, inv := states[i].disk.pool, states[i].disk.inventory.at;
    assert forall s | s in pool.at :: HasReceipt(site.initial.at, inv, s, pool.at[s]);
    assert pool.at.Keys <= inv.Keys;
    SubsetIsSmaller(pool.at.Keys, inv.Keys);
    forall s | s in pool.at && s !in site.initial.at ensures IsNewSlot(s) {
      PublishedHaveReceipts(site, states, events, i, s);
    }
  }

  /** An account with a slot has its slot's routes as destination exactly while
      the pool file is accepted, and the same ones in every later state in which it
      is: the destination never changes, and disappears only for everybody. */
  lemma {:induction false} DestinationStays(site: Site, states: seq<State>, events: seq<Event>, i: nat, j: nat,
                                            u: string)
    requires IsRun(site, states, events) && i <= j < |states|
    requires Destination(site, states[i].disk, u).Some?
    ensures Destination(site, states[j].disk, u) ==
      if u in site.targets || PoolAccepted(site, states[j].disk.pool)
      then Destination(site, states[i].disk, u)
      else None
  {
    if u !in site.targets {
      FilesOnlyGrow(site, states, events, i, j);
      RunKeepsInv(site, states, events, j);
      HoldersOf(states[j].disk.users.at, u);
    }
  }

  /** If the worker only ever returns canonical routes, destinations are for good. */
  ghost predicate WorkerIsCanonical(site: Site, states: seq<State>, events: seq<Event>) {
    forall i | 0 <= i < |events| && i < |states| && events[i].Finish? && states[i].stage.Working?
        && Acceptable(events[i].work) ::
      CanonicalRoutes(site, states[i].stage.slot, events[i].work.value.routes)
  }

  /** Every qualified record of a slot that was not installed is canonical. */
  ghost predicate RecordsCanonical(site: Site, inv: map<string, Record>) {
    forall s | s in inv && Qualified(inv[s]) && inv[s].routes.Some? :: CanonicalRoutes(site, s, inv[s].routes.value)
  }

  lemma {:induction false} CanonicalRecords(site: Site, states: seq<State>, events: seq<Event>, i: nat)
    requires IsRun(site, states, events) && WorkerIsCanonical(site, states, events) && i < |states|
    ensures RecordsCanonical(site, states[i].disk.inventory.at)
  {
    if i > 0 {
      CanonicalRecords(site, states, events, i - 1);
      NextRecords(site, states, events, i - 1);
    }
  }

  lemma NextRecords(site: Site, states: seq<State>, events: seq<Event>, i: nat)
    requires IsRun(site, states, events) && WorkerIsCanonical(site, states, events) && i < |events|
    requires RecordsCanonical(site, states[i].disk.inventory.at)
    ensures RecordsCanonical(site, states[i + 1].disk.inventory.at)
  {
    RunKeepsInv(site, states, events, i);
    assert Follows(site, states, events, i);
    RecordsStep(site, states[i], events[i], states[i + 1]);
  }

  lemma RecordsStep(site: Site, s: State, e: Event, n: State)
    requires Inv(site, s) && Enabled(s, e) && n == Step(site, s, e) && RecordsCanonical(site, s.disk.inventory.at)
    requires e.Finish? && Acceptable(e.work) ==> CanonicalRoutes(site, s.stage.slot, e.work.value.routes)
    ensures RecordsCanonical(site, n.disk.inventory.at)
  {
    if !ByController(e) { GatewayKeeps(site, s, e); }
  }

  lemma {:induction false} DestinationsAreForGood(site: Site, states: seq<State>, events: seq<Event>, i: nat, j: nat,
                                                  u: string)
    requires IsRun(site, states, events) && WorkerIsCanonical(site, states, events) && i <= j < |states|
    requires Destination(site, states[i].disk, u).Some?
    ensures Destination(site, states[j].disk, u) == Destination(site, states[i].disk, u)
  {
    CanonicalRecords(site, states, events, j);
    var pool := states[j].disk.pool;
    forall s | s in pool.at && s !in site.initial.at ensures CanonicalRoutes(site, s, pool.at[s]) {
      PublishedHaveReceipts(site, states, events, j, s);
    }
    AcceptedExactlyWhenCanonical(site, states, events, j);
    DestinationStays(site, states, events, i, j, u);
  }

  // ---- A worker that is not canonical ------------------------------------------------

  /** Two environments with the same target, at a port no canonical target has. */
  function OddRoutes(): Routes {
    map["secure" := Target("h", 1, "t"), "internet" := Target("h", 1, "t")]
  }

  /** One slot installed, and one account that holds it. */
  function OneAccount(scope: string, identity: string -> string): (Site, State) {
    var initial := Dict(["first"], map["first" := OddRoutes()]);
    var inventory := Dict(["first"], map["first" := Record(Ready, Some(OddRoutes()), false)]);
    var users := Dict(["ann"], map["ann" := User(Some("first"), false, "", false)]);
    (Site(initial, map[], {}, scope, identity),
     State(Disk(inventory, initial, users, Assignments(Some(0), Some(1), Some(["first"]))), Idle))
  }

  const NEW_SLOT := "cap-0123456789abcdef-01"

  /** One round, whose worker returns routes that are not canonical. */
  function OddRound(): seq<Event> {
    var enough := R.Measured(1.0);
    [Begin, Decide(Policy(true, true, 1), Resources(enough, enough, enough, enough), 0, NEW_SLOT),
     Finish(Some(Work(OddRoutes(), true))), Publish]
  }

  /** The states of that round. */
  function OddStates(s: State): seq<State> {
    var stored := s.disk.(inventory := Put(s.disk.inventory, NEW_SLOT, Record(Ready, Some(OddRoutes()), true)));
    [s, State(s.disk, Recovered(s.disk.assignments)),
     State(s.disk.(inventory := Put(s.disk.inventory, NEW_SLOT, Record(Preparing, None, false))), Working(NEW_SLOT)),
     State(stored, Stored(NEW_SLOT, OddRoutes())),
     State(stored.(pool := Put(s.disk.pool, NEW_SLOT, OddRoutes())), Idle)]
  }

  ghost predicate OddStart(scope: string, identity: string -> string, site: Site, s: State) {
    (site, s) == OneAccount(scope, identity)
  }

  lemma OddInstall(scope: string, identity: string -> string, site: Site, s: State)
    requires OddStart(scope, identity, site, s)
    ensures Installed(site, s)
  {
    assert InUse(s.disk.users.at, "first");
  }

  lemma OddHome(scope: string, identity: string -> string, site: Site, s: State)
    requires OddStart(scope, identity, site, s)
    ensures Destination(site, s.disk, "ann") == Some(OddRoutes())
  {
    assert Holders(s.disk.users.at, "first") == {"ann"};
  }

  lemma OddBegin(scope: string, identity: string -> string, site: Site, s: State)
    requires OddStart(scope, identity, site, s)
    ensures Follows(site, OddStates(s), OddRound(), 0)
  {
    assert RecoverUpTo(s.disk.inventory, s.disk.pool, 0) == Some(s.disk.pool);
    assert RecoverUpTo(s.disk.inventory, s.disk.pool, 1) == Some(s.disk.pool);
  }

  lemma OddPlan(slots: map<string, Record>, resources: Resources)
    requires slots == map["first" := Record(Ready, Some(OddRoutes()), false)] && FirstShort(resources).None?
    ensures Plan(Policy(true, true, 1), Assignments(Some(0), Some(1), Some(["first"])), slots, resources, 0)
         == Success(Decision(Provision, Replenish, 0, 0))
  {
    assert Elements(["first"]) == {"first"};
    assert ReadySpares(slots, {"first"}) == {} && Pending(slots) == {} && Active(slots) == {"first"};
    assert slots.Keys == {"first"} && |slots| == |slots.Keys|;
  }

  lemma NewSlotName()
    ensures IsNewSlot(NEW_SLOT) && NEW_SLOT != "first"
  {
  }

  lemma OddDecide(scope: string, identity: string -> string, site: Site, s: State)
    requires OddStart(scope, identity, site, s)
    ensures Follows(site, OddStates(s), OddRound(), 1)
  {
    NewSlotName();
    OddDecided(site, OddStates(s)[1], OddRound()[1], OddStates(s)[2]);
  }

  lemma OddDecided(site: Site, s: State, e: Event, n: State)
    requires Shaped(s.disk) && s.stage == Recovered(Assignments(Some(0), Some(1), Some(["first"])))
    requires s.disk.inventory.at == map["first" := Record(Ready, Some(OddRoutes()), false)]
    requires e.Decide? && e.policy == Policy(true, true, 1) && e.now == 0 && FirstShort(e.resources).None?
    requires IsNewSlot(e.newSlot) && e.newSlot != "first"
    requires n.disk == s.disk.(inventory := Put(s.disk.inventory, e.newSlot, Record(Preparing, None, false)))
    requires n.stage == Working(e.newSlot)
    ensures Enabled(s, e) && n == Step(site, s, e)
  {
    OddPlan(s.disk.inventory.at, e.resources);
    ProvisionStep(site, s, e, n);
  }

  lemma ProvisionStep(site: Site, s: State, e: Event, n: State)
    requires Shaped(s.disk) && s.stage.Recovered? && e.Decide?
    requires Plan(e.policy, s.stage.assignments, s.disk.inventory.at, e.resources, e.now)
          == Success(Decision(Provision, Replenish, 0, 0))
    requires n.disk == s.disk.(inventory := Put(s.disk.inventory, e.newSlot, Record(Preparing, None, false)))
    requires n.stage == Working(e.newSlot)
    requires Enabled(s, e)
    ensures n == Step(site, s, e)
  {
  }

  lemma OddFinish(scope: string, identity: string -> string, site: Site, s: State)
    requires OddStart(scope, identity, site, s)
    ensures Follows(site, OddStates(s), OddRound(), 2)
  {
    assert OddRoutes().Keys == {"secure", "internet"};
  }

  lemma OddPublish(scope: string, identity: string -> string, site: Site, s: State)
    requires OddStart(scope, identity, site, s)
    ensures Follows(site, OddStates(s), OddRound(), 3)
  {
  }

  lemma OddPoolIsRefused(scope: string, identity: string -> string, site: Site, s: State, n: State)
    requires OddStart(scope, identity, site, s) && n == OddStates(s)[4]
    ensures !PoolAccepted(site, n.disk.pool) && Destination(site, n.disk, "ann").None?
  {
    assert NEW_SLOT in n.disk.pool.at && NEW_SLOT !in site.initial.at;
    assert !CanonicalRoutes(site, NEW_SLOT, n.disk.pool.at[NEW_SLOT]);
  }

  /** A worker result that the controller accepts, without being canonical, makes
      the gateway refuse the pool, and an account's destination goes. */
  lemma AnOddWorkerClosesThePool(scope: string, identity: string -> string)
    returns (site: Site, states: seq<State>, events: seq<Event>)
    ensures IsRun(site, states, events) && |states| == 5
    ensures Destination(site, states[0].disk, "ann").Some?
    ensures !PoolAccepted(site, states[4].disk.pool) && Destination(site, states[4].disk, "ann").None?
  {
    site := OneAccount(scope, identity).0;
    var s := OneAccount(scope, identity).1;
    states, events := OddStates(s), OddRound();
    OddInstall(scope, identity, site, s);
    OddHome(scope, identity, site, s);
    OddRuns(scope, identity, site, s);
    OddPoolIsRefused(scope, identity, site, s, states[4]);
  }

  lemma OddRuns(scope: string, identity: string -> string, site: Site, s: State)
    requires OddStart(scope, identity, site, s)
    ensures forall i | 0 <= i < 4 :: Follows(site, OddStates(s), OddRound(), i)
  {
    forall i | 0 <= i < 4 ensures Follows(site, OddStates(s), OddRound(), i) {
      if i == 0 {
        OddBegin(scope, identity, site, s);
      } else if i == 1 {
        OddDecide(scope, identity, site, s);
      } else if i == 2 {
        OddFinish(scope, identity, site, s);
      } else {
        OddPublish(scope, identity, site, s);
      }
    }
  }

  // ---- Disjoint hosts and tokens ----------------------------------------------------

  /** The hashes of the controller's slots do not collide and have one length. */
  ghost predicate IdealIdentity(site: Site) {
    && (forall s, t | IsNewSlot(s) && IsNewSlot(t) && site.identity(s) == site.identity(t) :: s == t)
    && forall s | IsNewSlot(s) :: |site.identity(s)| == 16
  }

  /** The operator's own routes share no host and no token file with each other
      or with anything the controller could make. */
  ghost predicate OperatorRoutesExclusive(site: Site) {
    && (forall s, t, a, b | s in site.initial.at && t in site.initial.at && a in site.initial.at[s]
                             && b in site.initial.at[t] ::
          Clash(site.initial.at[s][a], site.initial.at[t][b]) ==> s == t)
    && forall s, a, t, env | s in site.initial.at && a in site.initial.at[s] && IsNewSlot(t)
                           && (env == "secure" || env == "internet") ::
         !Clash(site.initial.at[s][a], CanonicalTarget(site, t, env))
  }

  predicate Clash(a: Target, b: Target) {
    a.host == b.host || a.tokenFile == b.tokenFile
  }

  lemma SameCut(p: string, a: string, x: string, b: string, y: string)
    requires p + a + x == p + b + y && |a| == |b|
    ensures a == b
  {
    assert (p + a + x)[|p|..|p| + |a|] == a;
    assert (p + b + y)[|p|..|p| + |b|] == b;
  }

  lemma CanonicalTargetsDiffer(site: Site, s: string, t: string, a: string, b: string)
    requires IdealIdentity(site) && IsNewSlot(s) && IsNewSlot(t) && s != t
    ensures !Clash(CanonicalTarget(site, s, a), CanonicalTarget(site, t, b))
  {
    var i, j := site.identity(s), site.identity(t);
    var c, d := CanonicalTarget(site, s, a), CanonicalTarget(site, t, b);
    var tail := "." + site.scope + ".svc.cluster.local";
    assert c.host == "dsh-u-" + i + ("-" + a + tail) && d.host == "dsh-u-" + j + ("-" + b + tail);
    if c.host == d.host { SameCut("dsh-u-", i, "-" + a + tail, j, "-" + b + tail); }
    var base := "/runtime-tokens/capacity/";
    assert c.tokenFile == base + i + ("/" + a + "/token") && d.tokenFile == base + j + ("/" + b + "/token");
    if c.tokenFile == d.tokenFile { SameCut(base, i, "/" + a + "/token", j, "/" + b + "/token"); }
  }

  /** Routes of two different slots of an accepted pool never clash. */
  lemma SlotsDoNotClash(site: Site, pool: Dict<Routes>, s: string, t: string, a: string, b: string)
    requires IdealIdentity(site) && OperatorRoutesExclusive(site) && PoolAccepted(site, pool)
    requires s in pool.at && t in pool.at && s != t && a in pool.at[s] && b in pool.at[t]
    ensures !Clash(pool.at[s][a], pool.at[t][b])
  {
    if s !in site.initial.at && t !in site.initial.at {
      CanonicalTargetsDiffer(site, s, t, a, b);
    }
  }

  /** Nor do the provisioned accounts' routes with each other, with the first
      pool's, or with anything the controller could make. */
  ghost predicate TargetsExclusive(site: Site) {
    && (forall u, v, a, b | u in site.targets && v in site.targets && a in site.targets[u] && b in site.targets[v]
                             && u != v ::
          !Clash(site.targets[u][a], site.targets[v][b]))
    && (forall u, s, a, b | u in site.targets && s in site.initial.at && a in site.targets[u]
                             && b in site.initial.at[s] ::
          !Clash(site.targets[u][a], site.initial.at[s][b]))
    && forall u, a, t, env | u in site.targets && a in site.targets[u] && IsNewSlot(t)
                           && (env == "secure" || env == "internet") ::
         !Clash(site.targets[u][a], CanonicalTarget(site, t, env))
  }

  lemma TargetsDoNotClash(site: Site, pool: Dict<Routes>, u: string, s: string, a: string, b: string)
    requires TargetsExclusive(site) && PoolAccepted(site, pool)
    requires u in site.targets && a in site.targets[u] && s in pool.at && b in pool.at[s]
    ensures !Clash(site.targets[u][a], pool.at[s][b])
  {
    if s !in site.initial.at { assert pool.at[s][b] == CanonicalTarget(site, s, b); }
  }

  /** Two accounts with a destination never share a host or a token file. */
  lemma {:induction false} AccountsDoNotClash(site: Site, states: seq<State>, events: seq<Event>, i: nat, u: string,
                                              v: string, a: string, b: string)
    requires IsRun(site, states, events) && i < |states|
    requires IdealIdentity(site) && OperatorRoutesExclusive(site) && TargetsExclusive(site) && u != v
    requires Destination(site, states[i].disk, u).Some? && Destination(site, states[i].disk, v).Some?
    requires a in Destination(site, states[i].disk, u).value && b in Destination(site, states[i].disk, v).value
    ensures !Clash(Destination(site, states[i].disk, u).value[a], Destination(site, states[i].disk, v).value[b])
  {
    var d := states[i].disk;
    if u in site.targets && v in site.targets {
    } else if u in site.targets {
      TargetsDoNotClash(site, d.pool, u, d.users.at[v].slot.value, a, b);
    } else if v in site.targets {
      TargetsDoNotClash(site, d.pool, v, d.users.at[u].slot.value, b, a);
    } else {
      NoSlotIsShared(site, states, events, i, u, v);
      SlotsDoNotClash(site, d.pool, d.users.at[u].slot.value, d.users.at[v].slot.value, a, b);
    }
  }

  // ---- The startup check ---------------------------------------------------------------

  /** A flat list of every route the gateway starts with: the provisioned
      accounts' first, then the pool's. */
  ghost predicate NoneClash(routes: seq<Target>, from: nat) {
    forall i, j | 0 <= i < j < |routes| && from <= j :: !Clash(routes[i], routes[j])
  }

  lemma Grown(done: seq<Target>, t: Target, from: nat)
    requires NoneClash(done, from) && t.host !in HostsOf(done) && t.tokenFile !in TokensOf(done)
    ensures NoneClash(done + [t], from)
  {
    forall j | 0 <= j < |done| ensures !Clash(done[j], t) {
      assert done[j].host in HostsOf(done) && done[j].tokenFile in TokensOf(done);
    }
  }

  lemma GrownSets(done: seq<Target>, t: Target)
    ensures HostsOf(done + [t]) == HostsOf(done) + {t.host} && TokensOf(done + [t]) == TokensOf(done) + {t.tokenFile}
  {
    var more := done + [t];
    assert more[|done|] == t;
    forall i | 0 <= i < |done| ensures done[i].host in HostsOf(more) && done[i].tokenFile in TokensOf(more) {
      assert more[i] == done[i];
    }
  }

  lemma Blocked(all: seq<Target>, k: nat, from: nat)
    requires from <= k < |all| && (all[k].host in HostsOf(all[..k]) || all[k].tokenFile in TokensOf(all[..k]))
    ensures !NoneClash(all, from)
  {
    var j :| 0 <= j < k && (all[..k][j].host == all[k].host || all[..k][j].tokenFile == all[k].tokenFile);
    assert Clash(all[j], all[k]);
  }

  /** The gateway's startup check of the first pool: it passes exactly when no
      pool route shares a host or token file with a provisioned route or with an
      earlier pool route. */
  method StartupCheck(provisioned: seq<Target>, pooled: seq<Target>) returns (ok: bool)
    ensures ok <==> NoneClash(provisioned + pooled, |provisioned|)
  {
    var hosts, tokens := HostsOf(provisioned), TokensOf(provisioned);
    ghost var all, from := provisioned + pooled, |provisioned|;
    ghost var done := provisioned;
    for i := 0 to |pooled|
      invariant done == all[..from + i] && hosts == HostsOf(done) && tokens == TokensOf(done) && NoneClash(done, from)
    {
      var t := pooled[i];
      assert all[from + i] == t;
      if t.host in hosts || t.tokenFile in tokens {
        Blocked(all, from + i, from);
        return false;
      }
      Grown(done, t, from);
      GrownSets(done, t);
      hosts, tokens := hosts + {t.host}, tokens + {t.tokenFile};
      done := done + [t];
    }
    assert done == all;
    ok := true;
  }

  function HostsOf(routes: seq<Target>): set<string> { set i | 0 <= i < |routes| :: routes[i].host }

  function TokensOf(routes: seq<Target>): set<string> { set i | 0 <= i < |routes| :: routes[i].tokenFile }
}
