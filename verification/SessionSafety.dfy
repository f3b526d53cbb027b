/** What one round of the scheduler promises, and what a series of rounds does. */
module SessionSafety {
  import opened Outcomes
  import opened KeyOrder
  import opened SessionPlan

  // ---- One round: states and counts ---------------------------------------------

  lemma FourParts(all: set<string>, a: set<string>, b: set<string>, c: set<string>, d: set<string>)
    requires all == a + b + c + d && a !! b && a + b !! c && a + b + c !! d
    ensures |all| == |a| + |b| + |c| + |d|
  {
  }

  /** Every runtime gets exactly one state and the four counts cover them all. */
  lemma CountsAddUp(r: Round)
    ensures Decided(r).states.Keys == r.runtimes.Keys
    ensures var s := Decided(r).summary; s.running + s.starting + s.waiting + s.stopped == |r.runtimes|
  {
    var states := StatesOf(Read(r));
    Partition(states);
    assert |r.runtimes| == |r.runtimes.Keys|;
  }

  lemma Partition(states: map<string, Visible>)
    ensures |RunningIn(states)| + |StartingIn(states)| + |WaitingIn(states)| + |StoppedIn(states)| == |states.Keys|
  {
    FourParts(states.Keys, RunningIn(states), StartingIn(states), WaitingIn(states), StoppedIn(states));
  }

  lemma QueueStarts(g: Reading, n: string)
    requires g.timely
    ensures n in Names(Sorted(g.Queue())[..g.Taken()]) <==> g.Queued(n) && g.Place(n) < g.Taken()
  {
    var q, t := Sorted(g.Queue()), g.Taken();
    var names := Names(q[..t]);
    if n in names {
      var i :| 0 <= i < t && names[i] == n;
      PlaceOf(g, i);
    }
    if g.Queued(n) && g.Place(n) < t {
      AtPlace(g, n);
      assert names[g.Place(n)] == n;
    }
  }

  lemma SparesAreNotDemanded(g: Reading, n: string)
    requires g.Sound()
    ensures n in g.WarmStarts() ==> n !in g.wanted
  {
  }

  lemma StartedNames(g: Reading, n: string)
    requires g.timely
    ensures n in g.Starts() <==> (g.Queued(n) && g.Place(n) < g.Taken()) || n in g.WarmStarts()
  {
    QueueStarts(g, n);
  }

  lemma StoppedNames(g: Reading, n: string)
    ensures n in g.Stops() <==> g.Idles(n)
  {
    var q := Sorted(g.IdleKeys());
    var names := Names(q);
    if n in names {
      var i :| 0 <= i < |names| && names[i] == n;
      assert q[i] in q;
    }
    if g.Idles(n) {
      assert Key(0, n) in q;
      var i :| 0 <= i < |q| && q[i] == Key(0, n);
      assert names[i] == n;
    }
  }

  /** Only stopped runtimes start and only idle running ones stop, so no runtime
      does both; a stale, missing or malformed report causes neither. */
  lemma StartsAndStopsAreDisjoint(r: Round, n: string)
    ensures var g := Read(r);
      && !(n in g.Starts() && n in g.Stops())
      && (n in g.Starts() ==> n in r.runtimes && !Up(r.runtimes[n]) && (n in Wanted(r) || n in r.keepWarm))
      && (n in g.Stops() ==> n in r.runtimes && Up(r.runtimes[n]) && n !in Wanted(r) && n !in r.keepWarm)
      && (!Fresh(r) ==> n !in g.Starts() && n !in g.Stops())
  {
    var g := Read(r);
    if g.timely { StartedNames(g, n); }
    StoppedNames(g, n);
  }

  // ---- One round: who starts -------------------------------------------------------

  /** The demanded stopped runtimes asked for before this one. */
  function Ahead(g: Reading, n: string): set<string> {
    set m | m in g.wanted && g.Queued(m) && n in g.wanted && Earlier(Key(g.wanted[m], m), Key(g.wanted[n], n))
  }

  lemma {:induction false} AheadIsPlace(g: Reading, n: string)
    requires g.Queued(n)
    ensures |Ahead(g, n)| == g.Place(n)
  {
    SameSize(Ahead(g, n), g.wanted, Before(g.Queue(), Key(g.wanted[n], n)));
  }

  lemma {:induction false} SameSize(names: set<string>, at: map<string, int>, keys: set<Key>)
    requires names <= at.Keys && keys == set m | m in names :: Key(at[m], m)
    ensures |names| == |keys|
  {
    if names != {} {
      var m :| m in names;
      var fewer := set x | x in names - {m} :: Key(at[x], x);
      assert keys == fewer + {Key(at[m], m)};
      SameSize(names - {m}, at, fewer);
    }
  }

  function Capped(units: int): nat {
    if units <= 0 then 0 else if units < MAX_STARTS then units else MAX_STARTS
  }

  /** A demanded stopped runtime starts exactly when fewer than min(units, 4)
      were asked for before it; otherwise its position counts those ahead of it
      that also wait, itself included. */
  lemma {:induction false} FirstAskedStart(r: Round, n: string)
    requires Fresh(r) && Read(r).Queued(n)
    ensures var g := Read(r); var ahead := |Ahead(g, n)|;
      && (n in g.Starts() <==> ahead < Capped(r.units))
      && Decided(r).states[n].phase == (if ahead < Capped(r.units) then Starting else Waiting(ahead - g.Taken() + 1))
      && (ahead >= Capped(r.units) ==> g.Taken() == Capped(r.units))
  {
    var g := Read(r);
    AheadIsPlace(g, n);
    AtPlace(g, n);
    StartedNames(g, n);
    SparesAreNotDemanded(g, n);
  }

  lemma WaitingAt(g: Reading, n: string, p: nat)
    requires n in g.runtimes && p >= 1
    ensures g.Shown(n).phase == Waiting(p) <==> g.timely && g.Queued(n) && g.Place(n) == p - 1 + g.Taken()
  {
  }

  lemma SamePlace(g: Reading, m: string, n: string)
    requires g.Queued(m) && g.Queued(n) && g.Place(m) == g.Place(n)
    ensures m == n
  {
    AtPlace(g, m);
    AtPlace(g, n);
  }

  /** The positions shown are 1, 2, ... up to the number waiting, each shown for
      exactly one runtime. */
  lemma {:induction false} PositionsAreDense(r: Round, p: nat) returns (n: string)
    requires Fresh(r) && 1 <= p <= |Read(r).Queue()| - Read(r).Taken()
    ensures n in r.runtimes && Decided(r).states[n].phase == Waiting(p)
    ensures forall m | m in r.runtimes && Decided(r).states[m].phase == Waiting(p) :: m == n
  {
    var g := Read(r);
    var i := p - 1 + g.Taken();
    PlaceOf(g, i);
    n := Sorted(g.Queue())[i].name;
    WaitingAt(g, n, p);
    forall m | m in r.runtimes && g.Shown(m).phase == Waiting(p) ensures m == n {
      WaitingAt(g, m, p);
      SamePlace(g, m, n);
    }
  }

  /** Spares get only what the queue left over: if one starts, nobody waits. */
  lemma SparesComeLast(r: Round, n: string)
    requires Fresh(r) && Read(r).WarmStarts() != [] && n in r.runtimes
    ensures !Decided(r).states[n].phase.Waiting?
    ensures |Read(r).WarmStarts()| + |Read(r).Queue()| <= Capped(r.units)
  {
    var g := Read(r);
    assert g.Taken() == |g.Queue()|;
    if g.Queued(n) { AtPlace(g, n); }
  }

  lemma StartsWithinBudget(r: Round)
    ensures |Read(r).Starts()| <= Capped(r.units)
  {
  }

  // ---- Starting a runtime twice ------------------------------------------------------

  ghost predicate Distinct(s: seq<string>) {
    forall i, j | 0 <= i < j < |s| :: s[i] != s[j]
  }

  lemma {:induction false} FilteredDistinct(names: seq<string>, wanted: map<string, int>,
                                            runtimes: map<string, Runtime>)
    requires Distinct(names)
    ensures Distinct(Filtered(names, wanted, runtimes))
  {
    if names != [] {
      FilteredDistinct(names[1..], wanted, runtimes);
      assert names[0] !in names[1..];
    }
  }

  lemma {:induction false} FirstStoppedDistinct(names: seq<string>, runtimes: map<string, Runtime>, budget: int)
    requires Distinct(names)
    ensures Distinct(FirstStopped(names, runtimes, budget))
  {
    if names != [] {
      var rest := names[..|names| - 1];
      FirstStoppedDistinct(rest, runtimes, budget);
      assert names[|names| - 1] !in rest;
    }
  }

  lemma DistinctTogether(a: seq<string>, b: seq<string>)
    requires Distinct(a) && Distinct(b) && forall i, j | 0 <= i < |a| && 0 <= j < |b| :: a[i] != b[j]
    ensures Distinct(a + b)
  {
  }

  lemma QueueAndSparesDiffer(g: Reading, i: nat, j: nat)
    requires g.Sound() && i < |g.Queue()| && j < |g.WarmStarts()|
    ensures Sorted(g.Queue())[i].name != g.WarmStarts()[j]
  {
    PlaceOf(g, i);
    SparesAreNotDemanded(g, g.WarmStarts()[j]);
  }

  lemma QueueStartsDistinct(g: Reading)
    ensures Distinct(Names(Sorted(g.Queue())[..g.Taken()]))
  {
    QueueIsDistinct(g, Sorted(g.Queue()));
  }

  /** The names whose runtime is stopped, in their order. */
  function StoppedOf(names: seq<string>, runtimes: map<string, Runtime>): seq<string> {
    if names == [] then []
    else
      var last, s := names[|names| - 1], StoppedOf(names[..|names| - 1], runtimes);
      if last in runtimes && !Up(runtimes[last]) then s + [last] else s
  }

  lemma {:induction false} FirstStoppedIsPrefix(names: seq<string>, runtimes: map<string, Runtime>, budget: int)
    ensures var s := StoppedOf(names, runtimes); FirstStopped(names, runtimes, budget) == s[..AtMost(budget, |s|)]
  {
    if names != [] {
      var last, before := names[|names| - 1], StoppedOf(names[..|names| - 1], runtimes);
      FirstStoppedIsPrefix(names[..|names| - 1], runtimes, budget);
      assert (before + [last])[..|before|] == before;
      assert budget > |before| ==> (before + [last])[..|before| + 1] == before + [last];
      assert AtMost(budget, |before|) < |before| ==>
        (before + [last])[..AtMost(budget, |before|)] == before[..AtMost(budget, |before|)];
    }
  }

  /** The spares that the round has units left for: kept names that are stopped, as
      often and in the order they are named. */
  function SparesServed(g: Reading): seq<string> {
    var s := StoppedOf(g.kept, g.runtimes);
    s[..AtMost(g.Budget() - g.Taken(), |s|)]
  }

  /** A round on a fresh report starts no runtime twice exactly when the stopped
      spares it has units left for are named once each. */
  lemma StartedOnceExactlyWhen(r: Round)
    requires Fresh(r)
    ensures Distinct(Read(r).Starts()) <==> Distinct(SparesServed(Read(r)))
  {
    var g := Read(r);
    FirstStoppedIsPrefix(g.kept, g.runtimes, g.Budget() - g.Taken());
    QueueStartsDistinct(g);
    QueueAndSparesApart(g, Names(Sorted(g.Queue())[..g.Taken()]), g.WarmStarts());
    DistinctInSecond(Names(Sorted(g.Queue())[..g.Taken()]), g.WarmStarts());
  }

  lemma QueueAndSparesApart(g: Reading, first: seq<string>, warm: seq<string>)
    requires g.Sound() && first == Names(Sorted(g.Queue())[..g.Taken()]) && warm == g.WarmStarts()
    ensures forall i, j | 0 <= i < |first| && 0 <= j < |warm| :: first[i] != warm[j]
  {
    forall i, j | 0 <= i < |first| && 0 <= j < |warm| ensures first[i] != warm[j] { QueueAndSparesDiffer(g, i, j); }
  }

  lemma DistinctInSecond(a: seq<string>, b: seq<string>)
    requires Distinct(a) && forall i, j | 0 <= i < |a| && 0 <= j < |b| :: a[i] != b[j]
    ensures Distinct(a + b) <==> Distinct(b)
  {
    if Distinct(b) {
      DistinctTogether(a, b);
    } else {
      var i, j :| 0 <= i < j < |b| && b[i] == b[j];
      assert (a + b)[|a| + i] == (a + b)[|a| + j];
    }
  }

  /** With spares named once each, no runtime is started twice in a round. */
  lemma StartsAreDistinct(r: Round)
    requires Distinct(r.keepWarm)
    ensures Distinct(Read(r).Starts())
  {
    var g := Read(r);
    if g.timely {
      FilteredDistinct(r.keepWarm, g.wanted, g.runtimes);
      FirstStoppedDistinct(g.kept, g.runtimes, g.Budget() - g.Taken());
      FirstStoppedIsPrefix(g.kept, g.runtimes, g.Budget() - g.Taken());
      StartedOnceExactlyWhen(r);
    }
  }

  /** A valid round in which a spare named twice is started twice. */
  lemma ADuplicateSpareStartsTwice(n: string, r: Round)
    requires IsRuntime(n) && r == Round(Report(0, []), map[n := Runtime(Some(0), 0)], 2, 0, 300, [n, n])
    ensures Valid(r) && Read(r).Starts() == [n, n]
  {
    var g := Read(r);
    assert Scan([], r.runtimes, 0, 300, map[]) == (map[], true);
    assert Filtered([n], map[], r.runtimes) == [n];
    assert [n, n][1..] == [n];
    assert g.kept == [n, n];
    assert g.Queue() == {};
    assert [n, n][..1] == [n] && [n][..0] == [];
    assert FirstStopped([n], r.runtimes, 2) == [n];
  }
}
