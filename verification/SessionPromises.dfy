/** What a round decides, told from the report's entries and the measured runtimes
    alone. */
module SessionPromises {
  import opened Outcomes
  import opened Basics
  import opened KeyOrder
  import opened SessionPlan
  import opened SessionSafety
  import S = Sessions
  import U = RuntimeUnits

  type Entries = seq<(string, Entry)>

  // ---- The report ---------------------------------------------------------------

  /** The entry names the runtime and saw activity within the idle time. */
  predicate Recent(e: (string, Entry), n: string, now: int, idle: int) {
    e.0 == n && e.1.Active? && now - e.1.lastActivityAt <= idle * 1_000_000
  }

  /** The request time of the last recent entry of a runtime. */
  function LastAsk(entries: Entries, n: string, now: int, idle: int): Option<int> {
    if entries == [] then None
    else
      var last := entries[|entries| - 1];
      if Recent(last, n, now, idle) then Some(last.1.requestedAt)
      else LastAsk(entries[..|entries| - 1], n, now, idle)
  }

  /** There is one if and only if some entry is recent, and then it is the last of
      them that counts. */
  lemma {:induction false} LastAskIsTheLast(entries: Entries, n: string, now: int, idle: int)
    ensures LastAsk(entries, n, now, idle).Some? <==> exists i :: 0 <= i < |entries| && Recent(entries[i], n, now, idle)
    ensures LastAsk(entries, n, now, idle).Some? ==>
      exists i :: && 0 <= i < |entries| && Recent(entries[i], n, now, idle)
                  && (forall j | i < j < |entries| :: !Recent(entries[j], n, now, idle))
                  && entries[i].1.requestedAt == LastAsk(entries, n, now, idle).value
  {
    if entries != [] {
      var k := |entries| - 1;
      LastAskIsTheLast(entries[..k], n, now, idle);
      if Recent(entries[k], n, now, idle) {
        assert LastAsk(entries, n, now, idle) == Some(entries[k].1.requestedAt);
      } else if LastAsk(entries[..k], n, now, idle).Some? {
        var i :| && 0 <= i < k && Recent(entries[..k][i], n, now, idle)
                 && (forall j | i < j < k :: !Recent(entries[..k][j], n, now, idle))
                 && entries[..k][i].1.requestedAt == LastAsk(entries[..k], n, now, idle).value;
        forall j | i < j < |entries| ensures !Recent(entries[j], n, now, idle) {
          if j < k { assert entries[..k][j] == entries[j]; }
        }
        assert Recent(entries[i], n, now, idle);
      } else {
        forall j | 0 <= j < |entries| ensures !Recent(entries[j], n, now, idle) {
          if j < k { assert entries[..k][j] == entries[j]; }
        }
      }
    }
  }

  predicate Unreadable(e: (string, Entry), runtimes: map<string, Runtime>) { e.0 in runtimes && e.1.Bad? }

  /** The entries before the first unreadable one of a known runtime. */
  function Before(entries: Entries, runtimes: map<string, Runtime>): (b: Entries)
    ensures b <= entries
  {
    if entries == [] || Unreadable(entries[0], runtimes) then []
    else [entries[0]] + Before(entries[1..], runtimes)
  }

  function EntriesOf(d: Demand): Entries {
    if d.Malformed? then [] else d.entries
  }

  /** When each runtime was asked for that the report shows in recent use. */
  function AskedTimes(r: Round): (asked: map<string, int>)
    ensures asked.Keys <= r.runtimes.Keys
  {
    var entries := Before(EntriesOf(r.demand), r.runtimes);
    map n | n in r.runtimes && LastAsk(entries, n, r.now, r.idle).Some? :: LastAsk(entries, n, r.now, r.idle).value
  }

  /** Made at most a minute ago, or five seconds ahead, and readable. */
  ghost predicate Usable(r: Round) {
    && r.demand.Report?
    && -5_000_000 <= r.now - r.demand.observedAt <= 60_000_000
    && forall i | 0 <= i < |r.demand.entries| :: !Unreadable(r.demand.entries[i], r.runtimes)
  }

  lemma {:induction false} AllBefore(entries: Entries, runtimes: map<string, Runtime>)
    ensures Before(entries, runtimes) == entries
       <==> forall i | 0 <= i < |entries| :: !Unreadable(entries[i], runtimes)
  {
    if entries != [] {
      AllBefore(entries[1..], runtimes);
      if Unreadable(entries[0], runtimes) {
        assert |Before(entries, runtimes)| == 0;
      } else if Before(entries, runtimes) == entries {
        assert Before(entries, runtimes)[1..] == Before(entries[1..], runtimes);
        forall i | 0 <= i < |entries| ensures !Unreadable(entries[i], runtimes) {
          if i > 0 { assert entries[i] == entries[1..][i - 1]; }
        }
      } else {
        assert entries == [entries[0]] + entries[1..];
        var i :| 0 <= i < |entries[1..]| && Unreadable(entries[1..][i], runtimes);
        assert Unreadable(entries[i + 1], runtimes);
      }
    }
  }

  function Later(first: Option<int>, second: Option<int>): Option<int> { if second.Some? then second else first }

  lemma {:induction false} LastAskSplits(a: Entries, b: Entries, n: string, now: int, idle: int)
    ensures LastAsk(a + b, n, now, idle) == Later(LastAsk(a, n, now, idle), LastAsk(b, n, now, idle))
  {
    if b == [] {
      assert a + b == a;
    } else {
      assert (a + b)[..|a + b| - 1] == a + b[..|b| - 1];
      LastAskSplits(a, b[..|b| - 1], n, now, idle);
    }
  }

  function At(wanted: map<string, int>, n: string): Option<int> { if n in wanted then Some(wanted[n]) else None }

  /** Reading the entries one by one finds, for a known runtime, the last recent
      one before anything unreadable. */
  lemma {:induction false} ScanFinds(entries: Entries, runtimes: map<string, Runtime>, now: int, idle: int,
                                     wanted: map<string, int>, n: string)
    ensures var (w, ok) := Scan(entries, runtimes, now, idle, wanted);
      && (n in runtimes ==> At(w, n) == Later(At(wanted, n), LastAsk(Before(entries, runtimes), n, now, idle)))
      && (ok <==> Before(entries, runtimes) == entries)
    decreases |entries|
  {
    if entries != [] {
      var e, rest := entries[0], entries[1..];
      if Unreadable(e, runtimes) {
        assert Before(entries, runtimes) == [];
      } else {
        var now_ := if e.0 in runtimes && now - e.1.lastActivityAt <= idle * 1_000_000
                    then wanted[e.0 := e.1.requestedAt] else wanted;
        ScanFinds(rest, runtimes, now, idle, now_, n);
        var b := Before(rest, runtimes);
        assert Before(entries, runtimes) == [e] + b;
        LastAskSplits([e], b, n, now, idle);
        LastAskOne(e, n, now, idle);
        assert [e] + b == entries <==> b == rest by {
          assert entries == [e] + rest;
          if [e] + b == entries { assert ([e] + b)[1..] == b; }
        }
      }
    }
  }

  lemma LastAskOne(e: (string, Entry), n: string, now: int, idle: int)
    ensures LastAsk([e], n, now, idle) == if Recent(e, n, now, idle) then Some(e.1.requestedAt) else None
  {
    assert [e][..0] == [];
  }

  lemma WantedIsAsked(r: Round)
    ensures Wanted(r) == AskedTimes(r)
    ensures Fresh(r) <==> Usable(r)
  {
    forall n ensures At(Wanted(r), n) == At(AskedTimes(r), n) {
      if r.demand.Report? { ScanFinds(r.demand.entries, r.runtimes, r.now, r.idle, map[], n); }
    }
    assert forall n :: n in Wanted(r) <==> At(Wanted(r), n).Some?;
    assert forall n :: n in AskedTimes(r) <==> At(AskedTimes(r), n).Some?;
    if r.demand.Report? {
      ScanFinds(r.demand.entries, r.runtimes, r.now, r.idle, map[], "");
      AllBefore(r.demand.entries, r.runtimes);
    }
  }

  // ---- Who is in the queue ----------------------------------------------------------

  predicate Down(runtimes: map<string, Runtime>, n: string) { n in runtimes && runtimes[n].replicas == Some(0) }

  /** In recent use, and down. */
  predicate Waits(runtimes: map<string, Runtime>, asked: map<string, int>, n: string) {
    n in asked && Down(runtimes, n)
  }

  /** `m` was asked for before `n`; of two at one time the lower name comes first. */
  predicate Sooner(asked: map<string, int>, m: string, n: string) {
    && m in asked && n in asked
    && (asked[m] < asked[n] || (asked[m] == asked[n] && NameBelow(m, n)))
  }

  function Waiting(runtimes: map<string, Runtime>, asked: map<string, int>): set<string> {
    set n | n in asked && Waits(runtimes, asked, n)
  }

  function WaitingBefore(runtimes: map<string, Runtime>, asked: map<string, int>, n: string): set<string> {
    set m | m in asked && Waits(runtimes, asked, m) && Sooner(asked, m, n)
  }

  /** At most four starts, and no more than units. */
  function Room(units: int): nat { if units <= 0 then 0 else if units < 4 then units else 4 }

  function Least(a: nat, b: nat): nat { if a < b then a else b }

  lemma AheadCount(r: Round, n: string, place: nat)
    requires Valid(r) && Waits(r.runtimes, Wanted(r), n) && place == |WaitingBefore(r.runtimes, Wanted(r), n)|
    ensures Read(r).Queued(n) && |Ahead(Read(r), n)| == place
  {
    assert Ahead(Read(r), n) == WaitingBefore(r.runtimes, Wanted(r), n);
  }

  lemma QueueSize(r: Round)
    requires Valid(r)
    ensures |Read(r).Queue()| == |Waiting(r.runtimes, Wanted(r))|
    ensures Read(r).Taken() == Least(Room(r.units), |Waiting(r.runtimes, Wanted(r))|)
  {
    var g := Read(r);
    SameSize(Waiting(r.runtimes, Wanted(r)), g.wanted, g.Queue());
  }

  // ---- What is stopped --------------------------------------------------------------

  /** A runtime is stopped exactly when the report is usable, it is up, no spare and
      not in recent use. */
  lemma StoppedExactlyWhen(r: Round, n: string)
    requires Valid(r)
    ensures n in Decided(r).scaleDown <==>
            && Usable(r) && n in r.runtimes && r.runtimes[n].replicas.value >= 1
            && n !in r.keepWarm && n !in AskedTimes(r)
  {
    WantedIsAsked(r);
    StoppedNames(Read(r), n);
  }

  // ---- What is started --------------------------------------------------------------

  /** A runtime in recent use that is down starts exactly when the report is usable
      and fewer than min(units, 4) such runtimes were asked for before it; otherwise
      it waits, at the position that leaves out those started. */
  lemma StartedExactlyWhen(r: Round, n: string, asked: map<string, int>, place: nat)
    requires Valid(r) && asked == AskedTimes(r) && Waits(r.runtimes, asked, n)
    requires place == |WaitingBefore(r.runtimes, asked, n)|
    ensures n in Decided(r).scaleUp <==> Usable(r) && place < Room(r.units)
    ensures Decided(r).states[n] ==
      Visible(if !Usable(r) then Stopped
              else if place < Room(r.units) then Starting
              else SessionPlan.Waiting(place + 1 - Room(r.units)), false)
  {
    WantedIsAsked(r);
    if Fresh(r) { StartedInTurn(r, n, place); } else { NothingStartsStale(Read(r), n); }
  }

  lemma StartedInTurn(r: Round, n: string, place: nat)
    requires Valid(r) && Fresh(r) && Waits(r.runtimes, Wanted(r), n)
    requires place == |WaitingBefore(r.runtimes, Wanted(r), n)|
    ensures n in Decided(r).scaleUp <==> place < Room(r.units)
    ensures Decided(r).states[n]
         == Visible(if place < Room(r.units) then Starting else SessionPlan.Waiting(place + 1 - Room(r.units)), false)
  {
    AheadCount(r, n, place);
    FirstAskedStart(r, n);
    TurnIsNoSpare(Read(r), n);
  }

  lemma NothingStartsStale(g: Reading, n: string)
    requires !g.timely && n in g.runtimes && !Up(g.runtimes[n])
    ensures n !in g.Starts() && g.Shown(n) == Visible(Stopped, false)
  {
  }

  lemma TurnIsNoSpare(g: Reading, n: string)
    requires g.timely && g.Queued(n)
    ensures !g.Shown(n).warm
  {
  }

  /** Those of the queue that start come first, in the order of their request times. */
  lemma QueueComesFirst(r: Round, asked: map<string, int>, k: nat)
    requires Valid(r) && Usable(r) && asked == AskedTimes(r) && k == Least(Room(r.units), |Waiting(r.runtimes, asked)|)
    ensures var up := Decided(r).scaleUp;
      && k <= |up| && (forall i | 0 <= i < k :: Waits(r.runtimes, asked, up[i]))
      && forall i, j | 0 <= i < j < k :: Sooner(asked, up[i], up[j])
  {
    WantedIsAsked(r);
    QueueSize(r);
    QueueInOrder(Read(r), Decided(r).scaleUp, k);
  }

  predicate Counted(runtimes: map<string, Runtime>) {
    forall n | n in runtimes :: runtimes[n].replicas.Some? && runtimes[n].replicas.value >= 0
  }

  lemma QueueInOrder(g: Reading, up: seq<string>, k: nat)
    requires Counted(g.runtimes) && g.timely && up == g.Starts() && k == g.Taken()
    ensures k <= |up| && (forall i | 0 <= i < k :: Waits(g.runtimes, g.wanted, up[i]))
    ensures forall i, j | 0 <= i < j < k :: Sooner(g.wanted, up[i], up[j])
  {
    var q := Sorted(g.Queue());
    SortedAscends(g.Queue());
    assert k <= |up| && k <= |q|;
    forall i | 0 <= i < k ensures StartAt(g.runtimes, g.wanted, up[i], q[i]) { StartsAt(g, up, q, i); }
    forall i, j | 0 <= i < j < k ensures Sooner(g.wanted, up[i], up[j]) { assert Earlier(q[i], q[j]); }
  }

  predicate StartAt(runtimes: map<string, Runtime>, wanted: map<string, int>, n: string, key: Key) {
    Waits(runtimes, wanted, n) && key == Key(wanted[n], n)
  }

  lemma StartsAt(g: Reading, up: seq<string>, q: seq<Key>, i: nat)
    requires Counted(g.runtimes) && g.timely && up == g.Starts() && q == Sorted(g.Queue()) && i < g.Taken()
    ensures i < |up| && i < |q| && StartAt(g.runtimes, g.wanted, up[i], q[i])
  {
    PlaceOf(g, i);
  }

  /** The spares that are down and not in recent use, as often as they are named. */
  function SparesDown(runtimes: map<string, Runtime>, asked: map<string, int>, names: seq<string>): seq<string> {
    if names == [] then []
    else
      var last, s := names[|names| - 1], SparesDown(runtimes, asked, names[..|names| - 1]);
      if Down(runtimes, last) && last !in asked then s + [last] else s
  }

  lemma {:induction false} SparesDownMeans(runtimes: map<string, Runtime>, asked: map<string, int>, names: seq<string>)
    requires Counted(runtimes)
    ensures StoppedOf(Filtered(names, asked, runtimes), runtimes) == SparesDown(runtimes, asked, names)
  {
    if names != [] {
      var last, fewer := names[|names| - 1], names[..|names| - 1];
      SparesDownMeans(runtimes, asked, fewer);
      FilteredSnoc(fewer, last, asked, runtimes);
      assert fewer + [last] == names;
      StoppedSnoc(Filtered(fewer, asked, runtimes), last, runtimes);
    }
  }

  lemma StoppedSnoc(names: seq<string>, last: string, runtimes: map<string, Runtime>)
    ensures StoppedOf(names + [last], runtimes)
         == StoppedOf(names, runtimes) + if last in runtimes && !Up(runtimes[last]) then [last] else []
    ensures StoppedOf(names + [], runtimes) == StoppedOf(names, runtimes)
  {
    assert (names + [last])[..|names|] == names && names + [] == names;
  }

  lemma {:induction false} FilteredSnoc(names: seq<string>, last: string, wanted: map<string, int>,
                                        runtimes: map<string, Runtime>)
    ensures Filtered(names + [last], wanted, runtimes)
         == Filtered(names, wanted, runtimes) + if last in runtimes && last !in wanted then [last] else []
  {
    if names == [] {
      assert [] + [last] == [last] && [last][1..] == [];
    } else {
      assert (names + [last])[0] == names[0] && (names + [last])[1..] == names[1..] + [last];
      FilteredSnoc(names[1..], last, wanted, runtimes);
    }
  }

  /** After the queue start the first spares, as far as min(units, 4) goes. */
  lemma SparesFollow(r: Round, asked: map<string, int>, k: nat, spares: seq<string>)
    requires Valid(r) && Usable(r) && asked == AskedTimes(r) && k == Least(Room(r.units), |Waiting(r.runtimes, asked)|)
    requires spares == SparesDown(r.runtimes, asked, r.keepWarm)
    ensures k <= |Decided(r).scaleUp|
    ensures Decided(r).scaleUp[k..] == spares[..Least(Room(r.units) - k, |spares|)]
  {
    WantedIsAsked(r);
    QueueSize(r);
    SparesDownMeans(r.runtimes, asked, r.keepWarm);
    WarmAreFirst(Read(r), spares, k);
  }

  lemma WarmAreFirst(g: Reading, spares: seq<string>, k: nat)
    requires g.timely && StoppedOf(g.kept, g.runtimes) == spares
    requires k == g.Taken() == Least(Room(g.units), |g.Queue()|)
    ensures k <= |g.Starts()| && g.Starts()[k..] == spares[..Least(Room(g.units) - k, |spares|)]
  {
    WarmAre(g, spares, k);
    StartsAre(g, Names(Sorted(g.Queue())[..k]), k);
    DropFirst(Names(Sorted(g.Queue())[..k]), g.WarmStarts(), k);
  }

  lemma WarmAre(g: Reading, spares: seq<string>, k: nat)
    requires StoppedOf(g.kept, g.runtimes) == spares && k == g.Taken() == Least(Room(g.units), |g.Queue()|)
    ensures g.WarmStarts() == spares[..Least(Room(g.units) - k, |spares|)]
  {
    FirstStoppedIsPrefix(g.kept, g.runtimes, g.Budget() - g.Taken());
  }

  lemma StartsAre(g: Reading, first: seq<string>, k: nat)
    requires g.timely && k == g.Taken() && first == Names(Sorted(g.Queue())[..k])
    ensures |first| == k && g.Starts() == first + g.WarmStarts()
  {
  }

  lemma DropFirst(first: seq<string>, more: seq<string>, k: nat)
    requires |first| == k
    ensures (first + more)[k..] == more
  {
  }

  /** Without a usable report nothing starts and nothing stops. */
  lemma NothingWithoutReport(r: Round)
    requires Valid(r) && !Usable(r)
    ensures Decided(r).scaleUp == [] && Decided(r).scaleDown == []
  {
    WantedIsAsked(r);
    forall n ensures n !in Decided(r).scaleDown { StoppedNames(Read(r), n); }
  }

  // ---- What is shown ------------------------------------------------------------------

  /** An up runtime is stopping, running or, before its first ready pod, starting;
      it is shown as a spare exactly when it is kept as one. */
  lemma UpIsShown(r: Round, n: string)
    requires Valid(r) && n in r.runtimes && r.runtimes[n].replicas.value >= 1
    ensures n in Decided(r).states
    ensures Decided(r).states[n] ==
      Visible(if Usable(r) && n !in r.keepWarm && n !in AskedTimes(r) then Stopping
              else if r.runtimes[n].ready >= 1 then Running else Starting,
              n in r.keepWarm && n !in AskedTimes(r))
  {
    WantedIsAsked(r);
  }

  /** A down runtime not in recent use is stopped, unless it starts as a spare. */
  lemma DownIsShown(r: Round, n: string)
    requires Valid(r) && Down(r.runtimes, n) && n !in AskedTimes(r)
    ensures n in Decided(r).states
    ensures Decided(r).states[n] ==
            if n in Decided(r).scaleUp then Visible(Starting, true) else Visible(Stopped, false)
  {
    WantedIsAsked(r);
    if Fresh(r) { StartedNames(Read(r), n); }
  }

  lemma SummaryIsTrue(r: Round)
    requires Valid(r)
    ensures var d := Decided(r);
      && (d.summary.timely <==> Usable(r)) && d.summary.idleTimeout == r.idle
      && d.summary.startsAvailable == (if r.units > |d.scaleUp| then r.units - |d.scaleUp| else 0)
      && d.summary.warm == |set n | n in d.states && d.states[n].warm|
      && d.summary.running == |set n | n in d.states && d.states[n].phase == Running|
      && d.summary.starting == |set n | n in d.states && d.states[n].phase == Starting|
      && d.summary.waiting == |set n | n in d.states && d.states[n].phase.Waiting?|
  {
    WantedIsAsked(r);
    var states := Decided(r).states;
    assert WarmIn(states) == set n | n in states && states[n].warm;
    assert RunningIn(states) == set n | n in states && states[n].phase == Running;
    assert StartingIn(states) == set n | n in states && states[n].phase == Starting;
    assert WaitingIn(states) == set n | n in states && states[n].phase.Waiting?;
  }

  /** A round is accepted exactly for an idle time of five minutes to a day and
      runtimes of the platform's names with a count of replicas. */
  lemma AcceptedExactlyWhen(r: Round)
    ensures Valid(r) <==>
      && 300 <= r.idle <= 86400
      && forall n | n in r.runtimes :: Named(n) && r.runtimes[n].replicas.Some? && r.runtimes[n].replicas.value >= 0
  {
    forall n | n in r.runtimes
      ensures ValidRuntime(n, r.runtimes[n]) <==>
              Named(n) && r.runtimes[n].replicas.Some? && r.runtimes[n].replicas.value >= 0
    {
      NamedMeans(n);
    }
  }

  /** The platform's names: a prefix, sixteen lower-case hexadecimal digits, and one
      of the two environments. */
  ghost predicate Named(n: string) {
    exists hex: string :: |hex| == 16 && (forall i | 0 <= i < 16 :: hex[i] in "0123456789abcdef")
                          && (n == "dsh-u-" + hex + "-secure" || n == "dsh-u-" + hex + "-internet")
  }

  lemma IsHexMeans(c: char)
    ensures IsHex(c) <==> c in "0123456789abcdef"
  {
    var digits := "0123456789abcdef";
    if IsHex(c) {
      var i := if c <= '9' then c as int - 48 else c as int - 87;
      assert digits[i] == c;
    }
  }

  lemma NamedMeans(n: string)
    ensures IsRuntime(n) <==> Named(n)
  {
    if IsRuntime(n) {
      var hex := n[6..22];
      forall i | 0 <= i < 16 ensures hex[i] in "0123456789abcdef" { IsHexMeans(n[6 + i]); }
      assert n == n[..6] + hex + n[22..];
    }
    if Named(n) {
      var hex :| |hex| == 16 && (forall i | 0 <= i < 16 :: hex[i] in "0123456789abcdef")
                 && (n == "dsh-u-" + hex + "-secure" || n == "dsh-u-" + hex + "-internet");
      NamedParts(n, hex, if n == "dsh-u-" + hex + "-secure" then "-secure" else "-internet");
    }
  }

  lemma NamedParts(n: string, hex: string, tail: string)
    requires |hex| == 16 && (forall i | 0 <= i < 16 :: hex[i] in "0123456789abcdef") && n == "dsh-u-" + hex + tail
    requires tail == "-secure" || tail == "-internet"
    ensures IsRuntime(n)
  {
    assert n[..6] == "dsh-u-" && n[22..] == tail;
    forall i | 6 <= i < 22 ensures IsHex(n[i]) {
      assert n[i] == hex[i - 6];
      IsHexMeans(n[i]);
    }
  }

  // ---- Units --------------------------------------------------------------------------------

  predicate Amount(f: U.Field) { f.Measured? && f.value >= 0.0 }

  /** The units of a round are read off four rows of nonnegative numbers with positive
      budgets, storage among them. */
  lemma MeasuredExactlyWhen(rows: map<string, U.Row>)
    ensures U.Readable(rows) <==>
            forall name | name in {"cpu", "memoryGiB", "pods", "storageGiB"} ::
              && name in rows && Amount(rows[name].available) && Amount(rows[name].reserve)
              && Amount(rows[name].pairBudget) && rows[name].pairBudget.value != 0.0
  {
    assert forall name :: name in U.MEASURES <==> name in {"cpu", "memoryGiB", "pods", "storageGiB"};
  }

  /** They count the half pairs that fit into what is left above the reserve of
      processor, memory and pods; storage never limits. */
  lemma UnitsExactlyWhen(rows: map<string, U.Row>, n: int)
    requires U.Readable(rows)
    ensures U.FitsAll(rows, n) <==>
            forall name | name in {"cpu", "memoryGiB", "pods"} ::
              && name in rows
              && var left := rows[name].available.value - rows[name].reserve.value;
                 n as real * rows[name].pairBudget.value / 2.0 <= (if left < 0.0 then 0.0 else left) + 0.000000001
  {
    assert forall name | name in {"cpu", "memoryGiB", "pods"} :: name in U.MEASURES;
    forall name | name in {"cpu", "memoryGiB", "pods"}
      ensures n as real * rows[name].pairBudget.value / 2.0 == n as real * (rows[name].pairBudget.value / 2.0)
    {
    }
  }

  // ---- The controller's round -------------------------------------------------------------

  /** Hidden from a round are exactly the two runtimes of each slot that is still
      being prepared or qualified. */
  lemma HiddenExactlyWhen(inventory: seq<S.SlotRecord>, identity: string -> string, n: string)
    ensures n in S.Pending(inventory, identity) <==>
            exists i :: && 0 <= i < |inventory| && inventory[i].pending
                        && (|| n == "dsh-u-" + identity(inventory[i].slot) + "-secure"
                            || n == "dsh-u-" + identity(inventory[i].slot) + "-internet")
  {
    if n in S.Pending(inventory, identity) {
      var i, env :| 0 <= i < |inventory| && inventory[i].pending && env in {"-secure", "-internet"}
                    && n == "dsh-u-" + identity(inventory[i].slot) + env;
    }
    if i :| 0 <= i < |inventory| && inventory[i].pending && n == "dsh-u-" + identity(inventory[i].slot) + "-secure" {
      assert "-secure" in {"-secure", "-internet"};
    }
    if i :| 0 <= i < |inventory| && inventory[i].pending && n == "dsh-u-" + identity(inventory[i].slot) + "-internet" {
      assert "-internet" in {"-secure", "-internet"};
    }
  }

  /** After all its scale calls a round has left one replica of what it starts, none
      of what it stops, and everything else as it was. */
  lemma RoundLeaves(r: Round, replicas: map<string, int>, n: string)
    requires Valid(r) && S.ShowsCluster(r, replicas)
    ensures var after := S.Applied(replicas, S.Calls(Read(r)));
      && (n in Decided(r).scaleUp ==> n in after && after[n] == 1)
      && (n in Decided(r).scaleDown ==> n in after && after[n] == 0)
      && (n !in Decided(r).scaleUp && n !in Decided(r).scaleDown ==> At(after, n) == At(replicas, n))
  {
    var g := Read(r);
    StartsAndStopsAreDisjoint(r, n);
    var calls := S.Calls(g);
    if n in g.Starts() {
      S.StartedIsUp(r, replicas, n);
    } else if n in g.Stops() {
      OnlyStopped(g.Stops(), g.Starts(), n, calls);
      S.AppliedEnds(replicas, calls, n, 0);
    } else {
      NotCalled(g.Stops(), g.Starts(), n, calls);
      UncalledStays(replicas, calls, n);
    }
  }

  lemma OnlyStopped(stops: seq<string>, starts: seq<string>, n: string, calls: seq<S.Scale>)
    requires calls == S.ScaleAll(stops, 0) + S.ScaleAll(starts, 1) && n in stops && n !in starts
    ensures forall i | 0 <= i < |calls| && calls[i].name == n :: calls[i].replicas == 0
    ensures exists i :: 0 <= i < |calls| && calls[i].name == n
  {
    var j :| 0 <= j < |stops| && stops[j] == n;
    assert calls[j] == S.Scale(n, 0);
    assert forall i | |stops| <= i < |calls| :: calls[i].name == starts[i - |stops|] && starts[i - |stops|] in starts;
  }

  lemma NotCalled(stops: seq<string>, starts: seq<string>, n: string, calls: seq<S.Scale>)
    requires calls == S.ScaleAll(stops, 0) + S.ScaleAll(starts, 1) && n !in stops && n !in starts
    ensures forall i | 0 <= i < |calls| :: calls[i].name != n
  {
    assert forall i | 0 <= i < |stops| :: calls[i].name == stops[i] && stops[i] in stops;
    assert forall i | |stops| <= i < |calls| :: calls[i].name == starts[i - |stops|] && starts[i - |stops|] in starts;
  }

  lemma {:induction false} UncalledStays(replicas: map<string, int>, calls: seq<S.Scale>, n: string)
    requires forall i | 0 <= i < |calls| :: calls[i].name != n
    ensures At(S.Applied(replicas, calls), n) == At(replicas, n)
  {
    if calls != [] { UncalledStays(replicas, calls[..|calls| - 1], n); }
  }

  // ---- Spares -----------------------------------------------------------------------------

  /** The row's slot is free and its secure host, up to the first dot, is `name`. */
  ghost predicate Offers(row: S.PoolRow, held: set<string>, name: string) {
    && row.slot !in held && row.secureHost.Some?
    && name <= row.secureHost.value && '.' !in name
    && (name == row.secureHost.value || row.secureHost.value[|name|] == '.')
    && exists hex: string :: |hex| == 16 && (forall i | 0 <= i < 16 :: hex[i] in "0123456789abcdef")
                             && name == "dsh-u-" + hex + "-secure"
  }

  lemma {:induction false} LabelMeans(host: string, name: string)
    ensures S.Label(host) == name <==> name <= host && '.' !in name && (name == host || host[|name|] == '.')
  {
    if host == "" || host[0] == '.' {
      assert name <= host && name != "" ==> name[0] == host[0];
    } else if name != "" {
      LabelMeans(host[1..], name[1..]);
      assert name == [name[0]] + name[1..] && host == [host[0]] + host[1..];
      assert '.' in name <==> name[0] == '.' || '.' in name[1..];
      if S.Label(host) == name { assert S.Label(host)[1..] == S.Label(host[1..]); }
    }
  }

  lemma SecureMeans(name: string)
    ensures S.IsSecure(name) <==>
            exists hex: string :: |hex| == 16 && (forall i | 0 <= i < 16 :: hex[i] in "0123456789abcdef")
                                  && name == "dsh-u-" + hex + "-secure"
  {
    if S.IsSecure(name) {
      var hex := name[6..22];
      forall i | 0 <= i < 16 ensures hex[i] in "0123456789abcdef" { IsHexMeans(name[6 + i]); }
      assert name == name[..6] + hex + name[22..];
    }
    if hex: string :| |hex| == 16 && (forall i | 0 <= i < 16 :: hex[i] in "0123456789abcdef")
                      && name == "dsh-u-" + hex + "-secure" {
      NamedParts(name, hex, "-secure");
      assert name[22..] == "-secure";
    }
  }

  lemma OffersMeans(row: S.PoolRow, held: set<string>, name: string)
    ensures Offers(row, held, name) <==> row.slot !in held && S.LabelOf(row) == Some(name)
  {
    if row.secureHost.Some? {
      LabelMeans(row.secureHost.value, name);
      SecureMeans(name);
    }
  }

  /** The names offered by the rows, in the order of the rows. */
  ghost predicate OfferedBy(names: seq<string>, rows: seq<S.PoolRow>, held: set<string>, at: seq<nat>) {
    && |at| == |names|
    && (forall k | 0 <= k < |at| :: at[k] < |rows| && Offers(rows[at[k]], held, names[k]))
    && (forall k, m | 0 <= k < m < |at| :: at[k] < at[m])
    && forall i, n | 0 <= i < |rows| && Offers(rows[i], held, n) :: i in at
  }

  predicate Labelled(row: S.PoolRow, held: set<string>) { row.slot !in held && S.LabelOf(row).Some? }

  ghost predicate LabelledBy(names: seq<string>, rows: seq<S.PoolRow>, held: set<string>, at: seq<nat>) {
    && |at| == |names|
    && (forall k | 0 <= k < |at| ::
          && at[k] < |rows| && Labelled(rows[at[k]], held) && S.LabelOf(rows[at[k]]) == Some(names[k]))
    && (forall k, m | 0 <= k < m < |at| :: at[k] < at[m])
    && forall i | 0 <= i < |rows| && Labelled(rows[i], held) :: i in at
  }

  lemma {:induction false} FreeLabelsAreLabelled(rows: seq<S.PoolRow>, held: set<string>) returns (at: seq<nat>)
    ensures LabelledBy(S.FreeLabels(rows, held), rows, held, at)
  {
    at := [];
    if rows != [] {
      var k := |rows| - 1;
      var before, row := rows[..k], rows[k];
      var fewer := FreeLabelsAreLabelled(before, held);
      assert before + [row] == rows;
      LabelledMore(S.FreeLabels(before, held), before, held, fewer, row);
      FreeLabelsSnoc(before, held, row);
      at := if Labelled(row, held) then fewer + [k] else fewer;
    }
  }

  lemma FreeLabelsSnoc(rows: seq<S.PoolRow>, held: set<string>, row: S.PoolRow)
    ensures Labelled(row, held) ==>
      S.FreeLabels(rows + [row], held) == S.FreeLabels(rows, held) + [S.LabelOf(row).value]
    ensures !Labelled(row, held) ==> S.FreeLabels(rows + [row], held) == S.FreeLabels(rows, held)
  {
    assert (rows + [row])[..|rows|] == rows;
  }

  lemma LabelledMore(names: seq<string>, rows: seq<S.PoolRow>, held: set<string>, at: seq<nat>, row: S.PoolRow)
    requires LabelledBy(names, rows, held, at)
    ensures Labelled(row, held) ==> LabelledBy(names + [S.LabelOf(row).value], rows + [row], held, at + [|rows|])
    ensures !Labelled(row, held) ==> LabelledBy(names, rows + [row], held, at)
  {
    var more := rows + [row];
    assert forall i | 0 <= i < |rows| :: more[i] == rows[i];
    forall i | 0 <= i < |more| && Labelled(more[i], held) ensures i in at + [|rows|] && (i < |rows| ==> i in at) {
      if i == |rows| { assert (at + [|rows|])[|at|] == i; }
    }
  }

  /** The spares are exactly the secure runtimes of the free slots, in pool order. */
  lemma FreeLabelsAreOffered(rows: seq<S.PoolRow>, held: set<string>) returns (at: seq<nat>)
    ensures OfferedBy(S.FreeLabels(rows, held), rows, held, at)
  {
    at := FreeLabelsAreLabelled(rows, held);
    var names := S.FreeLabels(rows, held);
    forall k | 0 <= k < |at| ensures Offers(rows[at[k]], held, names[k]) { OffersMeans(rows[at[k]], held, names[k]); }
    forall i, n | 0 <= i < |rows| && Offers(rows[i], held, n) ensures i in at { OffersMeans(rows[i], held, n); }
  }
}
