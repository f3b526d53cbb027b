/** One round of the session scheduler: which private runtimes to start and to
    stop, and the state shown for each. Times are microseconds. */
module SessionPlan {
  import opened Outcomes
  import opened Basics
  import opened KeyOrder

  const MAX_STARTS := 4

  /** One runtime's entry in the gateway's report; Bad raises when read. */
  datatype Entry = Bad | Active(requestedAt: int, lastActivityAt: int)

  /** The gateway's report, entries in their order; Malformed has no readable
      observation time or no mapping of runtimes. */
  datatype Demand = Malformed | Report(observedAt: int, entries: seq<(string, Entry)>)

  datatype Runtime = Runtime(replicas: Option<int>, ready: int)

  datatype Round = Round(demand: Demand, runtimes: map<string, Runtime>, units: int, now: int, idle: int,
                         keepWarm: seq<string>)

  datatype Phase = Running | Starting | Waiting(position: nat) | Stopping | Stopped

  datatype Visible = Visible(phase: Phase, warm: bool)

  datatype Summary = Summary(
    running: nat, starting: nat, waiting: nat, stopped: nat,
    startsAvailable: int, warm: nat, idleTimeout: int, timely: bool)

  datatype Decision = Decision(scaleUp: seq<string>, scaleDown: seq<string>, states: map<string, Visible>,
                               summary: Summary)

  datatype PlanError = IdleTimeoutOutOfRange | UnexpectedRuntime

  predicate IsRuntime(name: string) {
    && 23 <= |name|
    && name[..6] == "dsh-u-"
    && (forall i | 6 <= i < 22 :: IsHex(name[i]))
    && (name[22..] == "-secure" || name[22..] == "-internet")
  }

  predicate ValidRuntime(name: string, r: Runtime) {
    IsRuntime(name) && r.replicas.Some? && r.replicas.value >= 0
  }

  predicate Valid(r: Round) {
    && 300 <= r.idle <= 86400
    && forall n | n in r.runtimes :: ValidRuntime(n, r.runtimes[n])
  }

  predicate Up(r: Runtime) { r.replicas.Some? && r.replicas.value >= 1 }

  // ---- What a round means -------------------------------------------------------

  /** The recently active runtimes with their request times, and whether every
      entry read so far was readable. */
  function Scan(entries: seq<(string, Entry)>, runtimes: map<string, Runtime>, now: int, idle: int,
                wanted: map<string, int>): (r: (map<string, int>, bool))
    ensures r.0.Keys <= wanted.Keys + runtimes.Keys
  {
    if entries == [] then (wanted, true)
    else
      var (name, entry) := entries[0];
      if name !in runtimes then Scan(entries[1..], runtimes, now, idle, wanted)
      else match entry
        case Bad => (wanted, false)
        case Active(requested, active) =>
          Scan(entries[1..], runtimes, now, idle,
               if now - active <= idle * SECOND then wanted[name := requested] else wanted)
  }

  function Scanned(r: Round): (w: (map<string, int>, bool))
    ensures w.0.Keys <= r.runtimes.Keys
  {
    match r.demand
    case Malformed => (map[], false)
    case Report(_, entries) => Scan(entries, r.runtimes, r.now, r.idle, map[])
  }

  function Wanted(r: Round): (w: map<string, int>)
    ensures w.Keys <= r.runtimes.Keys
  {
    Scanned(r).0
  }

  predicate Timely(r: Round) {
    r.demand.Report? && -5 * SECOND <= r.now - r.demand.observedAt <= 60 * SECOND
  }

  predicate Fresh(r: Round) {
    Timely(r) && Scanned(r).1
  }

  predicate Keeps(wanted: map<string, int>, runtimes: map<string, Runtime>, n: string) {
    n in runtimes && n !in wanted
  }

  function Filtered(names: seq<string>, wanted: map<string, int>, runtimes: map<string, Runtime>): (k: seq<string>)
    ensures forall n :: n in k <==> n in names && Keeps(wanted, runtimes, n)
  {
    if names == [] then []
    else if Keeps(wanted, runtimes, names[0]) then [names[0]] + Filtered(names[1..], wanted, runtimes)
    else Filtered(names[1..], wanted, runtimes)
  }

  /** What the round works on once the report is read: the spares kept up are
      those not demanded. */
  datatype Reading = Reading(runtimes: map<string, Runtime>, units: int, timely: bool, wanted: map<string, int>,
                             kept: seq<string>)
  {
    ghost predicate Sound() {
      && wanted.Keys <= runtimes.Keys
      && forall n | n in kept :: Keeps(wanted, runtimes, n)
    }

    /** A demanded runtime that is stopped. */
    predicate Queued(n: string) {
      n in wanted && n in runtimes && !Up(runtimes[n])
    }

    /** Every queued runtime by request time and name. */
    function Queue(): set<Key> {
      set n | n in wanted && Queued(n) :: Key(wanted[n], n)
    }

    function Budget(): int {
      if units < MAX_STARTS then units else MAX_STARTS
    }

    /** How many of the queue are started. */
    function Taken(): (k: nat)
      ensures k <= |Queue()|
    {
      AtMost(Budget(), |Queue()|)
    }

    function WarmStarts(): (s: seq<string>)
      ensures |s| <= if Budget() - Taken() > 0 then Budget() - Taken() else 0
      ensures forall n | n in s :: n in kept && n in runtimes && !Up(runtimes[n])
    {
      FirstStopped(kept, runtimes, Budget() - Taken())
    }

    function Starts(): seq<string> {
      if timely then Names(Sorted(Queue())[..Taken()]) + WarmStarts() else []
    }

    predicate Idles(n: string) {
      timely && n in runtimes && Up(runtimes[n]) && n !in wanted && n !in kept
    }

    function IdleKeys(): set<Key> {
      set n | n in runtimes && Idles(n) :: Key(0, n)
    }

    function Stops(): seq<string> {
      Names(Sorted(IdleKeys()))
    }

    /** What is shown before the queue is served. */
    function Idle(n: string): Visible {
      if n !in runtimes || !Up(runtimes[n]) then Visible(Stopped, false)
      else Visible(if Idles(n) then Stopping else if runtimes[n].ready >= 1 then Running else Starting, n in kept)
    }

    function Place(n: string): nat
      requires Queued(n)
    {
      Rank(Queue(), Key(wanted[n], n))
    }

    function Turn(n: string): Visible
      requires Queued(n)
    {
      Visible(if Place(n) < Taken() then Starting else Waiting(Place(n) - Taken() + 1), false)
    }

    function Shown(n: string): Visible
      requires n in runtimes
    {
      if timely && Queued(n) then Turn(n)
      else if timely && n in WarmStarts() then Visible(Starting, true)
      else Idle(n)
    }
  }

  /** How many of `n` a budget covers. */
  function AtMost(budget: int, n: nat): (k: nat)
    ensures k <= n
  {
    if budget <= 0 then 0 else if budget < n then budget else n
  }

  function Names(q: seq<Key>): (ns: seq<string>)
    ensures |ns| == |q| && forall i | 0 <= i < |q| :: ns[i] == q[i].name
  {
    seq(|q|, i requires 0 <= i < |q| => q[i].name)
  }

  /** The first `budget` names that are stopped, in order. */
  function FirstStopped(names: seq<string>, runtimes: map<string, Runtime>, budget: int): (s: seq<string>)
    ensures |s| <= if budget > 0 then budget else 0
    ensures forall n | n in s :: n in names && n in runtimes && !Up(runtimes[n])
  {
    if names == [] then []
    else
      var last, s := names[|names| - 1], FirstStopped(names[..|names| - 1], runtimes, budget);
      if last in runtimes && !Up(runtimes[last]) && |s| < budget then s + [last] else s
  }

  function Read(r: Round): (g: Reading)
    ensures g.Sound() && g.runtimes == r.runtimes && g.units == r.units
  {
    Reading(r.runtimes, r.units, Fresh(r), Wanted(r), Filtered(r.keepWarm, Wanted(r), r.runtimes))
  }

  // ---- The loops of the round ----------------------------------------------------

  method ReadDemand(r: Round) returns (timely: bool, wanted: map<string, int>)
    ensures timely == Fresh(r) && wanted == Wanted(r)
  {
    timely, wanted := false, map[];
    if r.demand.Malformed? { return; }
    var age := r.now - r.demand.observedAt;
    timely := -5 * SECOND <= age <= 60 * SECOND;
    var entries := r.demand.entries;
    for i := 0 to |entries|
      invariant wanted.Keys <= r.runtimes.Keys
      invariant Scan(entries[i..], r.runtimes, r.now, r.idle, wanted) == Scan(entries, r.runtimes, r.now, r.idle, map[])
    {
      var (name, entry) := entries[i];
      assert entries[i..][0] == entries[i] && entries[i..][1..] == entries[i + 1..];
      if name !in r.runtimes { continue; }
      if entry.Bad? {
        timely := false;
        return;
      }
      if r.now - entry.lastActivityAt <= r.idle * SECOND {
        wanted := wanted[name := entry.requestedAt];
      }
    }
  }

  function IdleStates(g: Reading): map<string, Visible> {
    map n | n in g.runtimes :: g.Idle(n)
  }

  function AllKeys(runtimes: map<string, Runtime>): set<Key> {
    set n | n in runtimes :: Key(0, n)
  }

  /** The state of one runtime before the queue is served. */
  method FirstState(g: Reading, name: string) returns (state: Visible, stop: bool)
    requires name in g.runtimes
    ensures state == g.Idle(name) && stop == g.Idles(name)
  {
    var value := g.runtimes[name];
    stop := false;
    if !Up(value) { return Visible(Stopped, false), false; }
    stop := g.timely && name !in g.wanted && name !in g.kept;
    state := Visible(if stop then Stopping else if value.ready >= 1 then Running else Starting, name in g.kept);
  }

  /** The stop keys after the first runtimes in name order. */
  ghost predicate StopsSoFar(g: Reading, done: seq<Key>, stopKeys: seq<Key>) {
    && Ascending(stopKeys)
    && forall k :: k in stopKeys <==> k in done && g.Idles(k.name)
  }

  lemma StopsGrow(g: Reading, done: seq<Key>, stopKeys: seq<Key>, k: Key)
    requires StopsSoFar(g, done, stopKeys) && Ascending(done + [k])
    ensures StopsSoFar(g, done + [k], if g.Idles(k.name) then stopKeys + [k] else stopKeys)
  {
    var more := done + [k];
    forall i | 0 <= i < |stopKeys| ensures Earlier(stopKeys[i], k) {
      assert stopKeys[i] in stopKeys;
      var j :| 0 <= j < |done| && done[j] == stopKeys[i];
      assert Earlier(more[j], more[|done|]);
    }
    forall x: Key ensures x in more <==> x in done || x == k {}
  }

  /** The states and stops the loop has made after some of the runtimes. */
  function StatesUpTo(g: Reading, done: seq<Key>): map<string, Visible> {
    if done == [] then map[]
    else
      var last := done[|done| - 1].name;
      StatesUpTo(g, done[..|done| - 1])[last := g.Idle(last)]
  }

  function StopsUpTo(g: Reading, done: seq<Key>): seq<Key> {
    if done == [] then []
    else
      var last := done[|done| - 1];
      StopsUpTo(g, done[..|done| - 1]) + (if g.Idles(last.name) then [last] else [])
  }

  lemma {:induction false} StateAt(g: Reading, done: seq<Key>, n: string)
    ensures n in StatesUpTo(g, done) <==> exists j :: 0 <= j < |done| && done[j].name == n
    ensures n in StatesUpTo(g, done) ==> StatesUpTo(g, done)[n] == g.Idle(n)
  {
    if done != [] {
      var last := |done| - 1;
      StateAt(g, done[..last], n);
      if n in StatesUpTo(g, done[..last]) {
        var j :| 0 <= j < last && done[..last][j].name == n;
        assert done[j].name == n;
      }
    }
  }

  lemma AscendingPrefix(q: seq<Key>, i: nat)
    requires Ascending(q) && i <= |q|
    ensures Ascending(q[..i])
  {
  }

  lemma {:induction false} StopsLoop(g: Reading, order: seq<Key>, i: nat, done: seq<Key>)
    requires Ascending(order) && i <= |order| && done == order[..i]
    ensures StopsSoFar(g, done, StopsUpTo(g, done))
  {
    if i > 0 {
      var k := order[i - 1];
      var before := order[..i - 1];
      assert done == before + [k] && done[..i - 1] == before;
      StopsLoop(g, order, i - 1, before);
      AscendingPrefix(order, i);
      StopsGrow(g, before, StopsUpTo(g, before), k);
    }
  }

  lemma NamesGrow(q: seq<Key>, k: Key)
    ensures Names(q + [k]) == Names(q) + [k.name]
  {
  }

  lemma NamesPrefix(q: seq<Key>, i: nat)
    requires i <= |q|
    ensures Names(q[..i]) == Names(q)[..i]
  {
  }

  lemma FirstStep(g: Reading, order: seq<Key>, i: nat)
    requires i < |order|
    ensures StatesUpTo(g, order[..i + 1]) == StatesUpTo(g, order[..i])[order[i].name := g.Idle(order[i].name)]
    ensures Names(StopsUpTo(g, order[..i + 1]))
      == Names(StopsUpTo(g, order[..i])) + (if g.Idles(order[i].name) then [order[i].name] else [])
  {
    assert order[..i + 1][..i] == order[..i];
    NamesGrow(StopsUpTo(g, order[..i]), order[i]);
  }

  /** The first states and the stops, in name order. */
  method FirstStates(g: Reading) returns (states: map<string, Visible>, stops: seq<string>)
    ensures states == IdleStates(g)
    ensures stops == g.Stops()
  {
    var order := Sorted(AllKeys(g.runtimes));
    states, stops := map[], [];
    for i := 0 to |order|
      invariant states == StatesUpTo(g, order[..i]) && stops == Names(StopsUpTo(g, order[..i]))
    {
      assert order[i] in order;
      var name := order[i].name;
      FirstStep(g, order, i);
      var state, stop := FirstState(g, name);
      states := states[name := state];
      if stop {
        stops := stops + [name];
      }
    }
    assert order[..|order|] == order;
    SortedAscends(AllKeys(g.runtimes));
    StopsLoop(g, order, |order|, order);
    FirstEnds(g, order, states, StopsUpTo(g, order));
  }

  lemma AllKeysListed(runtimes: map<string, Runtime>, order: seq<Key>, n: string)
    requires order == Sorted(AllKeys(runtimes))
    ensures n in runtimes <==> exists j :: 0 <= j < |order| && order[j].name == n
  {
    if n in runtimes {
      assert Key(0, n) in order;
      var j :| 0 <= j < |order| && order[j] == Key(0, n);
    }
    forall j | 0 <= j < |order| && order[j].name == n ensures n in runtimes { assert order[j] in order; }
  }

  lemma StateEnds(g: Reading, order: seq<Key>, n: string)
    requires order == Sorted(AllKeys(g.runtimes))
    ensures n in StatesUpTo(g, order) <==> n in g.runtimes
    ensures n in StatesUpTo(g, order) ==> StatesUpTo(g, order)[n] == g.Idle(n)
  {
    AllKeysListed(g.runtimes, order, n);
    StateAt(g, order, n);
  }

  lemma FirstEnds(g: Reading, order: seq<Key>, states: map<string, Visible>, stopKeys: seq<Key>)
    requires order == Sorted(AllKeys(g.runtimes)) && states == StatesUpTo(g, order) && StopsSoFar(g, order, stopKeys)
    ensures states == IdleStates(g)
    ensures Names(stopKeys) == g.Stops()
  {
    StatesEnd(g, order, states);
    StopKeysEnd(g, order, stopKeys);
  }

  lemma StatesEnd(g: Reading, order: seq<Key>, states: map<string, Visible>)
    requires order == Sorted(AllKeys(g.runtimes)) && states == StatesUpTo(g, order)
    ensures states == IdleStates(g)
  {
    forall n ensures n in states <==> n in g.runtimes { StateEnds(g, order, n); }
    forall n | n in states ensures states[n] == g.Idle(n) { StateEnds(g, order, n); }
  }

  lemma StopKeysEnd(g: Reading, order: seq<Key>, stopKeys: seq<Key>)
    requires order == Sorted(AllKeys(g.runtimes)) && StopsSoFar(g, order, stopKeys)
    ensures Names(stopKeys) == g.Stops()
  {
    forall k ensures k in stopKeys <==> k in g.IdleKeys() {
      if k in g.IdleKeys() { assert k in AllKeys(g.runtimes); }
    }
    AscendingIsSorted(g.IdleKeys(), stopKeys);
  }

  /** What is shown once the queue is dealt with. */
  function Served(g: Reading, n: string): Visible {
    if g.Queued(n) then g.Turn(n) else g.Idle(n)
  }

  function ServedStates(g: Reading): map<string, Visible> {
    map n | n in g.runtimes :: Served(g, n)
  }

  lemma PlaceOf(g: Reading, i: nat)
    requires i < |g.Queue()|
    ensures var k := Sorted(g.Queue())[i];
      g.Queued(k.name) && k == Key(g.wanted[k.name], k.name) && g.Place(k.name) == i
  {
    RankAtIndex(g.Queue(), i);
  }

  lemma AtPlace(g: Reading, n: string)
    requires g.Queued(n)
    ensures g.Place(n) < |g.Queue()| && Sorted(g.Queue())[g.Place(n)] == Key(g.wanted[n], n)
  {
    assert Key(g.wanted[n], n) in g.Queue();
    SortedAtRank(g.Queue(), Key(g.wanted[n], n));
  }

  /** The states the loop has made after the first `i` of the queue. */
  function ServedUpTo(queue: seq<Key>, taken: nat, shown: map<string, Visible>, i: nat): map<string, Visible>
    requires i <= |queue|
  {
    if i == 0 then shown
    else
      var last := Visible(if i <= taken then Starting else Waiting(i - taken), false);
      ServedUpTo(queue, taken, shown, i - 1)[queue[i - 1].name := last]
  }

  lemma {:induction false} ServedKeys(queue: seq<Key>, taken: nat, shown: map<string, Visible>, i: nat)
    requires i <= |queue| && forall k | k in queue :: k.name in shown
    ensures ServedUpTo(queue, taken, shown, i).Keys == shown.Keys
  {
    if i > 0 {
      ServedKeys(queue, taken, shown, i - 1);
      assert queue[i - 1] in queue;
    }
  }

  lemma {:induction false} ServedElsewhere(queue: seq<Key>, taken: nat, shown: map<string, Visible>, i: nat, n: string)
    requires i <= |queue| && n in shown && (forall j | 0 <= j < i :: queue[j].name != n)
    ensures var m := ServedUpTo(queue, taken, shown, i); n in m && m[n] == shown[n]
  {
    if i > 0 { ServedElsewhere(queue, taken, shown, i - 1, n); }
  }

  lemma {:induction false} ServedAt(queue: seq<Key>, taken: nat, shown: map<string, Visible>, i: nat, j: nat)
    requires j < i <= |queue| && forall a, b | 0 <= a < b < |queue| :: queue[a].name != queue[b].name
    ensures queue[j].name in ServedUpTo(queue, taken, shown, i)
    ensures ServedUpTo(queue, taken, shown, i)[queue[j].name]
      == Visible(if j < taken then Starting else Waiting(j - taken + 1), false)
  {
    if j < i - 1 { ServedAt(queue, taken, shown, i - 1, j); }
  }

  lemma QueueNamesDiffer(g: Reading, a: nat, b: nat)
    requires a < |g.Queue()| && b < |g.Queue()| && Sorted(g.Queue())[a].name == Sorted(g.Queue())[b].name
    ensures a == b
  {
    PlaceOf(g, a);
    PlaceOf(g, b);
  }

  lemma QueueIsDistinct(g: Reading, queue: seq<Key>)
    requires queue == Sorted(g.Queue())
    ensures forall a, b | 0 <= a < b < |queue| :: queue[a].name != queue[b].name
  {
    forall a, b | 0 <= a < b < |queue| ensures queue[a].name != queue[b].name {
      if queue[a].name == queue[b].name { QueueNamesDiffer(g, a, b); }
    }
  }

  lemma OthersAreNotInTheQueue(g: Reading, n: string, j: nat)
    requires !g.Queued(n) && j < |g.Queue()|
    ensures Sorted(g.Queue())[j].name != n
  {
    PlaceOf(g, j);
  }

  lemma QueuedShown(g: Reading, shown: map<string, Visible>, n: string, queue: seq<Key>, taken: nat)
    requires g.Queued(n) && queue == Sorted(g.Queue()) && taken == g.Taken()
    ensures n in ServedUpTo(queue, taken, shown, |queue|)
    ensures ServedUpTo(queue, taken, shown, |queue|)[n] == g.Turn(n)
  {
    AtPlace(g, n);
    QueueIsDistinct(g, queue);
    ServedAt(queue, taken, shown, |queue|, g.Place(n));
  }

  /** The queue loop shows every queued runtime its turn and leaves the rest. */
  lemma QueueShown(g: Reading, shown: map<string, Visible>, n: string, queue: seq<Key>, taken: nat)
    requires n in shown && shown[n] == g.Idle(n) && queue == Sorted(g.Queue()) && taken == g.Taken()
    ensures n in ServedUpTo(queue, taken, shown, |queue|)
    ensures ServedUpTo(queue, taken, shown, |queue|)[n] == Served(g, n)
  {
    if g.Queued(n) {
      QueuedShown(g, shown, n, queue, taken);
    } else {
      forall j | 0 <= j < |queue| ensures queue[j].name != n { OthersAreNotInTheQueue(g, n, j); }
      ServedElsewhere(queue, taken, shown, |queue|, n);
    }
  }

  method ServeLoop(queue: seq<Key>, shown: map<string, Visible>, limit: int)
    returns (states: map<string, Visible>, starts: seq<string>, budget: int)
    ensures states == ServedUpTo(queue, AtMost(limit, |queue|), shown, |queue|)
    ensures starts == Names(queue)[..AtMost(limit, |queue|)] && budget == limit - AtMost(limit, |queue|)
  {
    states, starts, budget := shown, [], limit;
    ghost var taken, names := AtMost(limit, |queue|), Names(queue);
    for i := 0 to |queue|
      invariant states == ServedUpTo(queue, taken, shown, i)
      invariant |starts| == (if i < taken then i else taken) && starts == names[..|starts|]
      invariant budget == limit - |starts|
    {
      var name := queue[i].name;
      if budget > 0 {
        starts := starts + [name];
        budget := budget - 1;
        states := states[name := Visible(Starting, false)];
      } else {
        states := states[name := Visible(Waiting(i + 1 - |starts|), false)];
      }
    }
  }

  method ServeQueue(g: Reading, shown: map<string, Visible>)
    returns (states: map<string, Visible>, starts: seq<string>, budget: int)
    requires shown == IdleStates(g)
    ensures states == ServedStates(g)
    ensures starts == Names(Sorted(g.Queue())[..g.Taken()]) && budget == g.Budget() - g.Taken()
  {
    var queue := Sorted(g.Queue());
    ghost var taken := g.Taken();
    states, starts, budget := ServeLoop(queue, shown, if g.units < MAX_STARTS then g.units else MAX_STARTS);
    forall k | k in queue ensures k.name in shown { assert k in g.Queue(); }
    ServedKeys(queue, taken, shown, |queue|);
    forall n | n in states ensures states[n] == Served(g, n) { QueueShown(g, shown, n, queue, taken); }
    NamesPrefix(queue, taken);
  }

  /** The states with the started spares among them. */
  function Warmed(shown: map<string, Visible>, warm: seq<string>): map<string, Visible> {
    map n | n in shown :: if n in warm then Visible(Starting, true) else shown[n]
  }

  lemma WarmGrows(shown: map<string, Visible>, warm: seq<string>, name: string)
    requires name in shown
    ensures Warmed(shown, warm + [name]) == Warmed(shown, warm)[name := Visible(Starting, true)]
  {
  }

  method ServeWarm(keepWarm: seq<string>, runtimes: map<string, Runtime>, shown: map<string, Visible>,
                   first: seq<string>, left: int)
    returns (states: map<string, Visible>, starts: seq<string>)
    requires shown.Keys == runtimes.Keys && forall n | n in keepWarm :: n in runtimes
    ensures starts == first + FirstStopped(keepWarm, runtimes, left)
    ensures states == Warmed(shown, FirstStopped(keepWarm, runtimes, left))
  {
    var budget := left;
    states, starts := shown, first;
    ghost var warm: seq<string> := [];
    for i := 0 to |keepWarm|
      invariant warm == FirstStopped(keepWarm[..i], runtimes, left) && budget == left - |warm|
      invariant starts == first + warm && states == Warmed(shown, warm)
    {
      var name := keepWarm[i];
      assert name in keepWarm;
      assert keepWarm[..i + 1][..i] == keepWarm[..i];
      if !Up(runtimes[name]) && budget > 0 {
        WarmGrows(shown, warm, name);
        starts := starts + [name];
        budget := budget - 1;
        states := states[name := Visible(Starting, true)];
        warm := warm + [name];
      }
    }
    assert keepWarm[..|keepWarm|] == keepWarm;
  }

  // ---- The whole round ----------------------------------------------------------

  predicate IsStopped(v: Visible) { v.phase.Stopped? || v.phase.Stopping? }

  function RunningIn(states: map<string, Visible>): set<string> { set n | n in states && states[n].phase.Running? }
  function StartingIn(states: map<string, Visible>): set<string> { set n | n in states && states[n].phase.Starting? }
  function WaitingIn(states: map<string, Visible>): set<string> { set n | n in states && states[n].phase.Waiting? }
  function StoppedIn(states: map<string, Visible>): set<string> { set n | n in states && IsStopped(states[n]) }
  function WarmIn(states: map<string, Visible>): set<string> { set n | n in states && states[n].warm }

  function Summarised(r: Round, starts: seq<string>, states: map<string, Visible>, timely: bool): Summary {
    Summary(|RunningIn(states)|, |StartingIn(states)|, |WaitingIn(states)|, |StoppedIn(states)|,
            if r.units - |starts| > 0 then r.units - |starts| else 0, |WarmIn(states)|, r.idle, timely)
  }

  function StatesOf(g: Reading): map<string, Visible> {
    map n | n in g.runtimes :: g.Shown(n)
  }

  /** The decision for a valid round. */
  function Decided(r: Round): Decision {
    var g := Read(r);
    Decision(g.Starts(), g.Stops(), StatesOf(g), Summarised(r, g.Starts(), StatesOf(g), g.timely))
  }

  lemma ShownIsServed(g: Reading, n: string)
    requires n in g.runtimes && g.timely && g.Sound()
    ensures g.Shown(n) == if n in g.WarmStarts() then Visible(Starting, true) else Served(g, n)
  {
    if g.Queued(n) { AtPlace(g, n); }
  }

  lemma StatesAreShown(g: Reading, served: map<string, Visible>, states: map<string, Visible>)
    requires g.Sound() && g.timely && served == ServedStates(g) && states == Warmed(served, g.WarmStarts())
    ensures states == StatesOf(g)
  {
    forall n | n in g.runtimes ensures states[n] == g.Shown(n) { ShownIsServed(g, n); }
  }

  lemma StaleIsShown(g: Reading, shown: map<string, Visible>)
    requires !g.timely && shown == IdleStates(g)
    ensures shown == StatesOf(g) && g.Starts() == []
  {
  }

  method Serve(g: Reading, shown: map<string, Visible>) returns (states: map<string, Visible>, starts: seq<string>)
    requires g.Sound() && shown == IdleStates(g)
    ensures states == StatesOf(g) && starts == g.Starts()
  {
    if !g.timely {
      StaleIsShown(g, shown);
      return shown, [];
    }
    KeptAreRuntimes(g);
    var served, first, budget := ServeQueue(g, shown);
    states, starts := ServeWarm(g.kept, g.runtimes, served, first, budget);
    StatesAreShown(g, served, states);
    StartsInOrder(g, first, FirstStopped(g.kept, g.runtimes, budget));
  }

  lemma KeptAreRuntimes(g: Reading)
    requires g.Sound()
    ensures (forall n | n in g.kept :: n in g.runtimes) && ServedStates(g).Keys == g.runtimes.Keys
  {
  }

  lemma StartsInOrder(g: Reading, first: seq<string>, warm: seq<string>)
    requires g.timely && first == Names(Sorted(g.Queue())[..g.Taken()])
    requires warm == FirstStopped(g.kept, g.runtimes, g.Budget() - g.Taken())
    ensures first + warm == g.Starts()
  {
  }

  method SessionPlan(r: Round) returns (d: Result<Decision, PlanError>)
    ensures d.Success? <==> Valid(r)
    ensures d.Success? ==> d.value == Decided(r)
    ensures d.Failure? ==> d.error == if 300 <= r.idle <= 86400 then UnexpectedRuntime else IdleTimeoutOutOfRange
  {
    if !(300 <= r.idle <= 86400) { return Failure(IdleTimeoutOutOfRange); }
    if exists n :: n in r.runtimes && !ValidRuntime(n, r.runtimes[n]) { return Failure(UnexpectedRuntime); }
    var timely, wanted := ReadDemand(r);
    var g := Reading(r.runtimes, r.units, timely, wanted, Filtered(r.keepWarm, wanted, r.runtimes));
    var states, stops := FirstStates(g);
    var starts;
    states, starts := Serve(g, states);
    d := Success(Decision(starts, stops, states, Summarised(r, starts, states, timely)));
  }
}
