/** Series of rounds: nobody is overtaken, and everyone waiting is started. */
module SessionRounds {
  import opened Outcomes
  import opened Basics
  import opened KeyOrder
  import opened SessionPlan
  import opened SessionSafety
  import opened Sessions

  /** How one round follows another. Whatever was started stays up, and every
      runtime that waits now either waited already, with the same request time, or
      was asked for after all that waited. */
  ghost predicate Follows(g: Reading, n: Reading) {
    && g.timely && n.timely && g.Sound() && n.Sound()
    && (forall x | x in g.Starts() && x in n.runtimes :: Up(n.runtimes[x]))
    && forall x | n.Queued(x) :: SameWait(g, n, x) || AskedLater(g, n, x)
  }

  predicate SameWait(g: Reading, n: Reading, x: string)
    requires n.Queued(x)
  {
    g.Queued(x) && g.wanted[x] == n.wanted[x]
  }

  ghost predicate AskedLater(g: Reading, n: Reading, x: string)
    requires n.Queued(x)
  {
    forall y | g.Queued(y) :: Earlier(Key(g.wanted[y], y), Key(n.wanted[x], x))
  }

  /** The keys of the queue that the round starts. */
  function StartedKeys(g: Reading): (s: set<Key>) {
    Elements(Sorted(g.Queue())[..g.Taken()])
  }

  function Elements(q: seq<Key>): (s: set<Key>) {
    set k | k in q
  }

  lemma {:induction false} DistinctElements(q: seq<Key>)
    requires forall i, j | 0 <= i < j < |q| :: q[i] != q[j]
    ensures |Elements(q)| == |q|
  {
    if q != [] {
      DistinctElements(q[1..]);
      assert Elements(q) == Elements(q[1..]) + {q[0]};
    }
  }

  lemma StartedCount(g: Reading)
    ensures |StartedKeys(g)| == g.Taken()
  {
    QueueIsDistinct(g, Sorted(g.Queue()));
    DistinctElements(Sorted(g.Queue())[..g.Taken()]);
  }

  lemma StartedKeysStart(g: Reading, k: Key)
    requires g.timely
    ensures k in StartedKeys(g) ==> k.name in g.Starts()
  {
    if k in StartedKeys(g) {
      var i :| 0 <= i < g.Taken() && Sorted(g.Queue())[i] == k;
      PlaceOf(g, i);
      StartedNames(g, k.name);
    }
  }

  /** Who is ahead of a waiting runtime in the next round was ahead of it before
      and was not started. */
  lemma StillAhead(g: Reading, n: Reading, x: string, k: Key)
    requires Follows(g, n) && n.Queued(x) && SameWait(g, n, x)
    requires k in Before(n.Queue(), Key(n.wanted[x], x))
    ensures k in Before(g.Queue(), Key(g.wanted[x], x)) && k !in StartedKeys(g)
  {
    var y := k.name;
    assert n.Queued(y) && k == Key(n.wanted[y], y);
    KeysAreLinear(k, Key(n.wanted[x], x));
    assert SameWait(g, n, y);
    StartedKeysStart(g, k);
  }

  lemma StartedAreAhead(g: Reading, x: string, k: Key)
    requires g.Queued(x) && g.Place(x) >= g.Taken() && k in StartedKeys(g)
    ensures k in Before(g.Queue(), Key(g.wanted[x], x))
  {
    var i :| 0 <= i < g.Taken() && Sorted(g.Queue())[i] == k;
    PlaceOf(g, i);
    AtPlace(g, x);
    SortedAscends(g.Queue());
  }

  lemma SubsetSize(a: set<Key>, b: set<Key>, c: set<Key>)
    requires a <= b && c <= b && a !! c
    ensures |a| + |c| <= |b|
  {
    assert b == (b - c) + c;
    SubsetIsSmaller(a, b - c);
  }

  /** No overtaking: from one round to the next a waiting runtime moves up by at
      least the number of demanded runtimes the round started. */
  lemma NobodyIsOvertaken(g: Reading, n: Reading, x: string)
    requires Follows(g, n) && n.Queued(x) && SameWait(g, n, x) && g.Place(x) >= g.Taken()
    ensures n.Place(x) + g.Taken() <= g.Place(x)
  {
    var before, after, started :=
        Before(g.Queue(), Key(g.wanted[x], x)), Before(n.Queue(), Key(n.wanted[x], x)), StartedKeys(g);
    forall k | k in after ensures k in before && k !in started { StillAhead(g, n, x, k); }
    forall k | k in started ensures k in before { StartedAreAhead(g, x, k); }
    StartedCount(g);
    SubsetSize(after, before, started);
  }

  /** In terms of the positions shown. */
  lemma PositionNeverGrows(g: Reading, n: Reading, x: string)
    requires Follows(g, n) && g.Queued(x) && n.Queued(x) && SameWait(g, n, x)
    requires g.Shown(x).phase.Waiting? && n.Shown(x).phase.Waiting?
    ensures n.Shown(x).phase.position + n.Taken() <= g.Shown(x).phase.position
  {
    NobodyIsOvertaken(g, n, x);
  }

  ghost predicate Chain(gs: seq<Reading>) {
    forall i | 0 <= i < |gs| - 1 :: Follows(gs[i], gs[i + 1])
  }

  /** The runtime is demanded throughout, always with the same request time. */
  ghost predicate DemandedThroughout(gs: seq<Reading>, x: string, at: int) {
    forall i | 0 <= i < |gs| :: Demanded(gs[i], x, at)
  }

  predicate Demanded(g: Reading, x: string, at: int) {
    g.timely && g.units >= 1 && x in g.wanted && g.wanted[x] == at && x in g.runtimes
  }

  predicate Served(g: Reading, x: string) {
    x in g.runtimes && (Up(g.runtimes[x]) || x in g.Starts())
  }

  lemma {:induction false} ServedByItsPlace(gs: seq<Reading>, x: string, at: int)
    requires Chain(gs) && DemandedThroughout(gs, x, at) && |gs| > 0
    requires gs[0].Queued(x) ==> gs[0].Place(x) < |gs|
    ensures exists i :: 0 <= i < |gs| && Served(gs[i], x) && (gs[0].Queued(x) ==> i <= gs[0].Place(x))
    decreases |gs|
  {
    var g := gs[0];
    assert Demanded(g, x, at);
    if !g.Queued(x) {
      assert Served(gs[0], x);
    } else if g.Place(x) < g.Taken() {
      StartedNames(g, x);
      assert Served(gs[0], x);
    } else {
      AtPlace(g, x);
      assert g.Taken() >= 1;
      var rest := gs[1..];
      assert Follows(gs[0], gs[1]);
      assert Demanded(gs[1], x, at);
      forall i | 0 <= i < |rest| - 1 ensures Follows(rest[i], rest[i + 1]) { assert Follows(gs[i + 1], gs[i + 2]); }
      forall i | 0 <= i < |rest| ensures Demanded(rest[i], x, at) { assert Demanded(gs[i + 1], x, at); }
      if rest[0].Queued(x) { NobodyIsOvertaken(g, rest[0], x); }
      ServedByItsPlace(rest, x, at);
      var i :| 0 <= i < |rest| && Served(rest[i], x) && (rest[0].Queued(x) ==> i <= rest[0].Place(x));
      if !rest[0].Queued(x) { assert Served(gs[1], x); } else { assert Served(gs[i + 1], x); }
    }
  }

  lemma ServedWithinPositionRead(gs: seq<Reading>, x: string, at: int)
    requires Chain(gs) && DemandedThroughout(gs, x, at) && |gs| > 0
    requires gs[0].Queued(x) && gs[0].Shown(x).phase.Waiting? && gs[0].Shown(x).phase.position < |gs|
    ensures exists i :: 1 <= i <= gs[0].Shown(x).phase.position && Served(gs[i], x)
  {
    var g, rest := gs[0], gs[1..];
    var p := g.Shown(x).phase.position;
    assert Demanded(gs[0], x, at) && Demanded(gs[1], x, at) && Follows(gs[0], gs[1]);
    forall i | 0 <= i < |rest| - 1 ensures Follows(rest[i], rest[i + 1]) { assert Follows(gs[i + 1], gs[i + 2]); }
    forall i | 0 <= i < |rest| ensures Demanded(rest[i], x, at) { assert Demanded(gs[i + 1], x, at); }
    if rest[0].Queued(x) {
      NobodyIsOvertaken(g, rest[0], x);
      ServedByItsPlace(rest, x, at);
      var i :| 0 <= i < |rest| && Served(rest[i], x) && (rest[0].Queued(x) ==> i <= rest[0].Place(x));
      assert Served(gs[i + 1], x);
    } else {
      assert Served(gs[1], x);
    }
  }

  // ---- On the cluster -----------------------------------------------------------------

  /** One round and the replica counts it finds. */
  datatype Turn = Turn(round: Round, replicas: map<string, int>)

  /** The counts once all scale calls of the round are made. */
  function Left(t: Turn): map<string, int> {
    Applied(t.replicas, Calls(Read(t.round)))
  }

  /** The next round finds the counts that this one left; there may be new runtimes,
      and some may have gone. Those that wait waited already, with the same request
      time, or were asked for after all that waited. */
  ghost predicate NextTurn(t: Turn, n: Turn) {
    && Valid(t.round) && Valid(n.round) && Fresh(t.round) && Fresh(n.round)
    && ShowsCluster(t.round, t.replicas) && ShowsCluster(n.round, n.replicas)
    && (forall x | x in Left(t) && x in n.replicas :: n.replicas[x] == Left(t)[x])
    && forall x | Read(n.round).Queued(x) ::
         SameWait(Read(t.round), Read(n.round), x) || AskedLater(Read(t.round), Read(n.round), x)
  }

  /** What a round starts is up in the next: its scale calls saw to it. */
  lemma TurnsFollow(t: Turn, n: Turn)
    requires NextTurn(t, n)
    ensures Follows(Read(t.round), Read(n.round))
  {
    forall x | x in Read(t.round).Starts() && x in n.round.runtimes ensures Up(n.round.runtimes[x]) {
      StartedIsUp(t.round, t.replicas, x);
    }
  }

  function Readings(ts: seq<Turn>): (gs: seq<Reading>)
    ensures |gs| == |ts| && forall i | 0 <= i < |ts| :: gs[i] == Read(ts[i].round)
  {
    seq(|ts|, i requires 0 <= i < |ts| => Read(ts[i].round))
  }

  ghost predicate Turns(ts: seq<Turn>) {
    && (forall i | 0 <= i < |ts| - 1 :: NextTurn(ts[i], ts[i + 1]))
    && forall i | 0 <= i < |ts| :: Valid(ts[i].round) && ShowsCluster(ts[i].round, ts[i].replicas)
  }

  lemma TurnsChain(ts: seq<Turn>)
    requires Turns(ts)
    ensures Chain(Readings(ts))
  {
    var gs := Readings(ts);
    forall i | 0 <= i < |gs| - 1 ensures Follows(gs[i], gs[i + 1]) { TurnsFollow(ts[i], ts[i + 1]); }
  }

  /** A runtime that a round serves has a replica once its scale calls are made. */
  lemma ServedHasAReplica(t: Turn, x: string)
    requires Valid(t.round) && ShowsCluster(t.round, t.replicas) && Served(Read(t.round), x) && x in Wanted(t.round)
    ensures x in Left(t) && Left(t)[x] >= 1
  {
    if x in Read(t.round).Starts() {
      StartedIsUp(t.round, t.replicas, x);
    } else {
      var calls := Calls(Read(t.round));
      assert calls[..|calls|] == calls;
      NeverScaledDown(t.round, t.replicas, |calls|, x);
    }
  }

  /** A waiting runtime has a replica within as many further rounds as its position,
      if each round has at least one unit and demand goes on. */
  lemma ServedWithinItsPosition(ts: seq<Turn>, x: string, at: int)
    requires Turns(ts) && DemandedThroughout(Readings(ts), x, at) && |ts| > 0
    requires Read(ts[0].round).Queued(x) && Decided(ts[0].round).states[x].phase.Waiting?
    requires Decided(ts[0].round).states[x].phase.position < |ts|
    ensures exists i ::
              1 <= i <= Decided(ts[0].round).states[x].phase.position && x in Left(ts[i]) && Left(ts[i])[x] >= 1
  {
    var gs := Readings(ts);
    TurnsChain(ts);
    ServedWithinPositionRead(gs, x, at);
    var i :| 1 <= i <= gs[0].Shown(x).phase.position && Served(gs[i], x);
    assert Demanded(gs[i], x, at);
    ServedHasAReplica(ts[i], x);
  }
}
