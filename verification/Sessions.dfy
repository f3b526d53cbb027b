/** The controller's session round: which spares to keep, what the scheduler is
    shown, and the scale calls it leads to. */
module Sessions {
  import opened Outcomes
  import opened KeyOrder
  import opened SessionPlan
  import opened SessionSafety
  import opened RuntimeUnits

  // ---- Spares --------------------------------------------------------------------

  /** A published slot; no host where its routes cannot be read. */
  datatype PoolRow = PoolRow(slot: string, secureHost: Option<string>)

  function Label(host: string): string {
    if host == "" || host[0] == '.' then "" else [host[0]] + Label(host[1..])
  }

  predicate IsSecure(name: string) {
    IsRuntime(name) && name[22..] == "-secure"
  }

  function LabelOf(row: PoolRow): Option<string> {
    if row.secureHost.Some? && IsSecure(Label(row.secureHost.value)) then Some(Label(row.secureHost.value)) else None
  }

  /** The secure runtimes of all unassigned slots, in the gateway's order. */
  function FreeLabels(rows: seq<PoolRow>, held: set<string>): (s: seq<string>) {
    if rows == [] then []
    else
      var last, s := rows[|rows| - 1], FreeLabels(rows[..|rows| - 1], held);
      if last.slot in held || LabelOf(last).None? then s else s + [LabelOf(last).value]
  }

  predicate ReadableRows(rows: seq<PoolRow>, held: set<string>) {
    forall i | 0 <= i < |rows| && rows[i].slot !in held :: rows[i].secureHost.Some?
  }

  /** How many slots are looked at, from the `i`-th on: until enough are found. */
  function Enough(rows: seq<PoolRow>, held: set<string>, count: int, i: nat): (n: nat)
    requires i <= |rows|
    ensures i <= n <= |rows|
    decreases |rows| - i
  {
    if i == |rows| || |FreeLabels(rows[..i], held)| >= count then i else Enough(rows, held, count, i + 1)
  }

  /** The first `count` secure runtimes that no user holds; nothing when a file
      cannot be read or an unreadable slot comes before enough are found. */
  method WarmSpares(pool: Option<seq<PoolRow>>, assignedSlots: Option<set<string>>, count: int)
    returns (names: seq<string>)
    ensures |names| <= if count > 0 then count else 0
    ensures count <= 0 || pool.None? || assignedSlots.None? ==> names == []
    ensures count > 0 && pool.Some? && assignedSlots.Some? ==>
              var rows := pool.value[..Enough(pool.value, assignedSlots.value, count, 0)];
              names == if exists i | 0 <= i < |rows| && rows[i].slot !in assignedSlots.value :: rows[i].secureHost.None?
                       then [] else FreeLabels(rows, assignedSlots.value)
    ensures names != [] ==> names <= FreeLabels(pool.value, assignedSlots.value)
  {
    names := [];
    if count <= 0 || pool.None? || assignedSlots.None? { return; }
    FreeLabelsGrow(pool.value, assignedSlots.value, Enough(pool.value, assignedSlots.value, count, 0));
    names := SparesOf(pool.value, assignedSlots.value, count);
  }

  /** The loop over the pool, once both files are read. */
  method SparesOf(rows: seq<PoolRow>, held: set<string>, count: int) returns (names: seq<string>)
    requires count > 0
    ensures |names| <= count
    ensures var read := rows[..Enough(rows, held, count, 0)];
      names == if ReadableRows(read, held) then FreeLabels(read, held) else []
  {
    names := [];
    ghost var n := Enough(rows, held, count, 0);
    for i := 0 to |rows|
      invariant names == FreeLabels(rows[..i], held) && |names| < count
      invariant ReadableRows(rows[..i], held) && n == Enough(rows, held, count, i)
    {
      assert rows[..i + 1][..i] == rows[..i];
      if rows[i].slot in held { continue; }
      if rows[i].secureHost.None? {
        assert rows[..n][i] == rows[i];
        return [];
      }
      if IsSecure(Label(rows[i].secureHost.value)) {
        names := names + [Label(rows[i].secureHost.value)];
      }
      if |names| == count {
        assert n == i + 1;
        return;
      }
    }
  }

  /** The fewest slots that give enough, or all of them. */
  lemma {:induction false} EnoughExactlyWhen(rows: seq<PoolRow>, held: set<string>, count: int, i: nat, n: nat)
    requires i <= |rows|
    ensures n == Enough(rows, held, count, i) <==>
      && i <= n <= |rows| && (n < |rows| ==> |FreeLabels(rows[..n], held)| >= count)
      && forall j | i <= j < n :: |FreeLabels(rows[..j], held)| < count
    decreases |rows| - i
  {
    if i < |rows| && |FreeLabels(rows[..i], held)| < count { EnoughExactlyWhen(rows, held, count, i + 1, n); }
  }

  lemma {:induction false} FreeLabelsGrow(rows: seq<PoolRow>, held: set<string>, i: nat)
    requires i <= |rows|
    ensures FreeLabels(rows[..i], held) <= FreeLabels(rows, held)
    decreases |rows| - i
  {
    if i < |rows| {
      FreeLabelsGrow(rows, held, i + 1);
      assert rows[..i + 1][..i] == rows[..i];
    } else {
      assert rows[..i] == rows;
    }
  }

  // ---- Scale calls -----------------------------------------------------------------

  datatype Scale = Scale(name: string, replicas: int)

  function ScaleAll(names: seq<string>, replicas: int): (s: seq<Scale>)
    ensures |s| == |names| && forall i | 0 <= i < |s| :: s[i] == Scale(names[i], replicas)
  {
    seq(|names|, i requires 0 <= i < |names| => Scale(names[i], replicas))
  }

  function Calls(g: Reading): seq<Scale> {
    ScaleAll(g.Stops(), 0) + ScaleAll(g.Starts(), 1)
  }

  function Applied(replicas: map<string, int>, calls: seq<Scale>): map<string, int> {
    if calls == [] then replicas
    else Applied(replicas, calls[..|calls| - 1])[calls[|calls| - 1].name := calls[|calls| - 1].replicas]
  }

  lemma {:induction false} AppliedAt(replicas: map<string, int>, calls: seq<Scale>, n: string, low: int)
    requires n in replicas && low <= replicas[n]
    requires forall i | 0 <= i < |calls| && calls[i].name == n :: low <= calls[i].replicas
    ensures n in Applied(replicas, calls) && low <= Applied(replicas, calls)[n]
  {
    if calls != [] { AppliedAt(replicas, calls[..|calls| - 1], n, low); }
  }

  /** A runtime that is called, always with the same count, ends with it. */
  lemma {:induction false} AppliedEnds(replicas: map<string, int>, calls: seq<Scale>, n: string, count: int)
    requires (forall i | 0 <= i < |calls| && calls[i].name == n :: calls[i].replicas == count)
    requires exists i :: 0 <= i < |calls| && calls[i].name == n
    ensures n in Applied(replicas, calls) && Applied(replicas, calls)[n] == count
  {
    var last := |calls| - 1;
    if calls[last].name != n {
      var i :| 0 <= i < |calls| && calls[i].name == n;
      assert calls[..last][i] == calls[i];
      AppliedEnds(replicas, calls[..last], n, count);
    }
  }

  /** After all the scale calls of a round, what it starts has one replica. */
  lemma StartedIsUp(r: Round, replicas: map<string, int>, n: string)
    requires n in Read(r).Starts()
    ensures n in Applied(replicas, Calls(Read(r))) && Applied(replicas, Calls(Read(r)))[n] == 1
  {
    StartsAndStopsAreDisjoint(r, n);
    OnlyStarted(Read(r).Stops(), Read(r).Starts(), n, Calls(Read(r)));
    AppliedEnds(replicas, Calls(Read(r)), n, 1);
  }

  lemma OnlyStarted(stops: seq<string>, starts: seq<string>, n: string, calls: seq<Scale>)
    requires calls == ScaleAll(stops, 0) + ScaleAll(starts, 1) && n in starts && n !in stops
    ensures forall i | 0 <= i < |calls| && calls[i].name == n :: calls[i].replicas == 1
    ensures exists i :: 0 <= i < |calls| && calls[i].name == n
  {
    var j :| 0 <= j < |starts| && starts[j] == n;
    assert calls[|stops| + j] == Scale(n, 1);
    assert forall i | 0 <= i < |stops| :: calls[i].name == stops[i] && stops[i] in stops;
  }

  /** The round is shown the cluster's own replica counts. */
  ghost predicate ShowsCluster(r: Round, replicas: map<string, int>) {
    forall n | n in r.runtimes :: n in replicas && r.runtimes[n].replicas == Some(replicas[n])
  }

  lemma CallsOn(g: Reading, n: string, i: nat)
    requires i < |Calls(g)| && Calls(g)[i].name == n
    ensures (Calls(g)[i].replicas == 0 && n in g.Stops()) || (Calls(g)[i].replicas == 1 && n in g.Starts())
  {
    CallIs(g, g.Stops(), g.Starts(), i, Calls(g)[i]);
  }

  lemma CallIs(g: Reading, stops: seq<string>, starts: seq<string>, i: nat, c: Scale)
    requires stops == g.Stops() && starts == g.Starts() && i < |Calls(g)| && c == Calls(g)[i]
    ensures (c.replicas == 0 && c.name in stops) || (c.replicas == 1 && c.name in starts)
  {
    if i < |stops| { assert stops[i] == c.name; } else { assert starts[i - |stops|] == c.name; }
  }

  /** However far the scale calls get, no demanded or spare runtime, and none the
      round was not shown, ends below its count; with a stale report none does. */
  lemma NeverScaledDown(r: Round, replicas: map<string, int>, k: nat, n: string)
    requires Valid(r) && ShowsCluster(r, replicas) && k <= |Calls(Read(r))| && n in replicas
    requires n in Wanted(r) || n in r.keepWarm || n !in r.runtimes || !Fresh(r)
    ensures n in Applied(replicas, Calls(Read(r))[..k]) && replicas[n] <= Applied(replicas, Calls(Read(r))[..k])[n]
  {
    var g := Read(r);
    StartsAndStopsAreDisjoint(r, n);
    forall i | 0 <= i < k && Calls(g)[i].name == n ensures replicas[n] <= Calls(g)[i].replicas {
      CallsOn(g, n, i);
    }
    AppliedAt(replicas, Calls(g)[..k], n, replicas[n]);
  }

  // ---- The round ---------------------------------------------------------------------

  datatype SlotRecord = SlotRecord(slot: string, pending: bool)

  /** The two runtimes of every slot still being prepared or qualified. */
  function Pending(inventory: seq<SlotRecord>, identity: string -> string): set<string> {
    set i, env | 0 <= i < |inventory| && inventory[i].pending && env in {"-secure", "-internet"} ::
        "dsh-u-" + identity(inventory[i].slot) + env
  }

  class Cluster {
    var replicas: map<string, int>
    var ready: map<string, int>

    constructor (replicas: map<string, int>, ready: map<string, int>)
      ensures this.replicas == replicas && this.ready == ready
    {
      this.replicas, this.ready := replicas, ready;
    }

    function Runtimes(): (m: map<string, Runtime>)
      reads this
      ensures m.Keys == replicas.Keys
      ensures forall n | n in m ::
                && m[n].replicas == Some(replicas[n])
                && (n in ready ==> m[n].ready == ready[n]) && (n !in ready ==> m[n].ready == 0)
    {
      map n | n in replicas :: Runtime(Some(replicas[n]), if n in ready then ready[n] else 0)
    }

    method ScaleTo(name: string, count: int)
      modifies this`replicas
      ensures replicas == old(replicas)[name := count]
    {
      replicas := replicas[name := count];
    }

    /** Makes the calls one by one until `working` have gone through; the next
        one raises. */
    method ScaleEach(calls: seq<Scale>, working: nat) returns (made: nat)
      modifies this`replicas
      ensures made == if working < |calls| then working else |calls|
      ensures replicas == Applied(old(replicas), calls[..made])
    {
      made := 0;
      while made < |calls| && made < working
        invariant made <= |calls| && made <= working && replicas == Applied(old(replicas), calls[..made])
      {
        assert calls[..made + 1][..made] == calls[..made];
        ScaleTo(calls[made].name, calls[made].replicas);
        made := made + 1;
      }
    }

    /** One round. No inventory means the file could not be read: the round does
        nothing. `working` bounds the scale calls that go through. */
    method Round(demand: Demand, inventory: Option<seq<SlotRecord>>, identity: string -> string, rows: map<string, Row>,
                 now: int, idle: int, keepWarm: seq<string>, working: nat)
      returns (d: Option<Decision>, ghost shown: SessionPlan.Round, ghost made: nat)
      modifies this`replicas
      ensures inventory.Some? ==>
        shown.runtimes == old(Runtimes()) - Pending(inventory.value, identity) && shown.keepWarm == keepWarm
      ensures inventory.None? ==> d == None && replicas == old(replicas)
      ensures shown.demand == demand && shown.now == now && shown.idle == idle && ShowsCluster(shown, old(replicas))
      ensures inventory.Some? && !Valid(shown) ==> d == None && replicas == old(replicas)
      ensures inventory.Some? && Valid(shown) ==>
                && made <= |Calls(Read(shown))|
                && replicas == Applied(old(replicas), Calls(Read(shown))[..made])
                && (d.Some? <==> made == |Calls(Read(shown))|)
                && (d.Some? ==> d.value == Decided(shown))
      ensures forall n |
                n in old(replicas) && (n in Wanted(shown) || n in keepWarm || n !in shown.runtimes || !Fresh(shown)) ::
                n in replicas && old(replicas)[n] <= replicas[n]
      ensures Readable(rows) && inventory.Some? && Valid(shown) ==> FitsAll(rows, |Read(shown).Starts()|)
      ensures !Readable(rows) && inventory.Some? && Valid(shown) ==> Read(shown).Starts() == []
    {
      shown := SessionPlan.Round(demand, map[], 0, now, idle, keepWarm);
      made := 0;
      if inventory.None? { return None, shown, 0; }
      var runtimes := Runtimes() - Pending(inventory.value, identity);
      var units := RuntimeUnits.RuntimeUnits(rows);
      var round := SessionPlan.Round(demand, runtimes, units, now, idle, keepWarm);
      shown := round;
      var plan := SessionPlan.SessionPlan(round);
      if plan.Failure? { return None, shown, 0; }
      StartsFit(round, rows);
      var decision := plan.value;
      var calls := ScaleAll(decision.scaleDown, 0) + ScaleAll(decision.scaleUp, 1);
      var done := ScaleEach(calls, working);
      made := done;
      forall n | n in old(replicas) && (n in Wanted(shown) || n in keepWarm || n !in shown.runtimes || !Fresh(shown))
        ensures n in replicas && old(replicas)[n] <= replicas[n]
      {
        NeverScaledDown(shown, old(replicas), made, n);
      }
      d := if done == |calls| then Some(decision) else None;
    }
  }

  /** The starts of a round fit, together, what its units were measured from. */
  lemma StartsFit(r: SessionPlan.Round, rows: map<string, Row>)
    requires r.units >= 0
    requires if Readable(rows) then forall n: int :: n <= r.units <==> FitsAll(rows, n) else r.units == 0
    ensures if Readable(rows) then FitsAll(rows, |Read(r).Starts()|) else Read(r).Starts() == []
  {
    StartsWithinBudget(r);
  }
}
