/** Fixed-window accounting of credential calls, per owner. */
module UsageWindow {
  type Owner = string

  const SPAN: int := 60000
  const ALL_LIMIT: nat := 120
  const EXECUTE_LIMIT: nat := 20

  datatype Window = Window(start: int, all: nat, execute: nat)

  datatype Arrival = Arrival(owner: Owner, now: int, execute: bool)

  /** One admitted call, with the window it was charged to. */
  datatype Entry = Entry(owner: Owner, now: int, execute: bool, start: int)

  /** `log` records what was admitted; the broker keeps `usage` only. */
  datatype Meter = Meter(usage: map<Owner, Window>, log: seq<Entry>)

  predicate Expired(w: Window, now: int) {
    w.start + SPAN <= now
  }

  function Swept(usage: map<Owner, Window>, now: int): map<Owner, Window> {
    map o | o in usage && !Expired(usage[o], now) :: usage[o]
  }

  /** The window an arrival is charged to, after charging it. */
  function Charged(usage: map<Owner, Window>, a: Arrival): Window {
    var kept := Swept(usage, a.now);
    var w := if a.owner in kept then kept[a.owner] else Window(a.now, 0, 0);
    Window(w.start, w.all + 1, if a.execute then w.execute + 1 else w.execute)
  }

  predicate Admitted(usage: map<Owner, Window>, a: Arrival) {
    Charged(usage, a).all <= ALL_LIMIT && Charged(usage, a).execute <= EXECUTE_LIMIT
  }

  function NextUsage(usage: map<Owner, Window>, a: Arrival): map<Owner, Window> {
    Swept(usage, a.now)[a.owner := Charged(usage, a)]
  }

  function Step(m: Meter, a: Arrival): Meter {
    Meter(NextUsage(m.usage, a),
          if Admitted(m.usage, a)
          then m.log + [Entry(a.owner, a.now, a.execute, Charged(m.usage, a).start)]
          else m.log)
  }

  function Run(arrivals: seq<Arrival>): Meter {
    if arrivals == [] then Meter(map[], [])
    else Step(Run(arrivals[..|arrivals| - 1]), arrivals[|arrivals| - 1])
  }

  ghost predicate NonDecreasing(arrivals: seq<Arrival>) {
    forall i, j | 0 <= i < j < |arrivals| :: arrivals[i].now <= arrivals[j].now
  }

  /** Admitted calls of one owner in the half-open interval of `SPAN` from `from`. */
  function InInterval(log: seq<Entry>, owner: Owner, from: int, executes: bool): nat {
    if log == [] then 0 else
      var e := log[|log| - 1];
      InInterval(log[..|log| - 1], owner, from, executes)
      + if e.owner == owner && from <= e.now < from + SPAN && (executes ==> e.execute) then 1 else 0
  }

  function InWindow(log: seq<Entry>, owner: Owner, start: int, executes: bool): nat {
    if log == [] then 0 else
      var e := log[|log| - 1];
      InWindow(log[..|log| - 1], owner, start, executes)
      + if e.owner == owner && e.start == start && (executes ==> e.execute) then 1 else 0
  }

  function Limit(executes: bool): nat {
    if executes then EXECUTE_LIMIT else ALL_LIMIT
  }

  /** A logged call relates to its owner's current window: it belongs to it,
      or to one that ended before this one started (or, without one, by `now`). */
  ghost predicate Settled(e: Entry, usage: map<Owner, Window>, now: int) {
    && e.start <= e.now < e.start + SPAN
    && e.now <= now
    && if e.owner in usage
       then e.start == usage[e.owner].start || e.start + SPAN <= usage[e.owner].start
       else e.start + SPAN <= now
  }

  ghost predicate Apart(log: seq<Entry>) {
    forall d, e | d in log && e in log && d.owner == e.owner ::
      d.start == e.start || d.start + SPAN <= e.start || e.start + SPAN <= d.start
  }

  /** The call that opened a window was admitted at the window's first instant. */
  ghost predicate Opened(log: seq<Entry>) {
    forall e | e in log :: Entered(log, e.owner, e.start)
  }

  ghost predicate Entered(log: seq<Entry>, owner: Owner, start: int) {
    exists d :: d in log && d.owner == owner && d.start == start && d.now == start
  }

  ghost predicate Bounded(m: Meter) {
    && (forall o, w, x :: InWindow(m.log, o, w, x) <= Limit(x))
    && (forall o | o in m.usage ::
          && InWindow(m.log, o, m.usage[o].start, false) <= m.usage[o].all
          && InWindow(m.log, o, m.usage[o].start, true) <= m.usage[o].execute)
  }

  ghost predicate Inv(m: Meter, now: int) {
    && (forall o | o in m.usage :: m.usage[o].start <= now)
    && (forall e | e in m.log :: Settled(e, m.usage, now))
    && (forall o | o in m.usage :: Entered(m.log, o, m.usage[o].start))
    && Apart(m.log)
    && Opened(m.log)
    && Bounded(m)
  }

  /** A window that no logged call carries counts none. */
  lemma {:induction false} UnusedWindow(log: seq<Entry>, owner: Owner, start: int, executes: bool)
    requires forall e | e in log :: e.owner == owner ==> e.start != start
    ensures InWindow(log, owner, start, executes) == 0
  {
    if log != [] {
      UnusedWindow(log[..|log| - 1], owner, start, executes);
    }
  }

  lemma StepKeepsLog(m: Meter, before: int, a: Arrival)
    requires Inv(m, before) && before <= a.now
    ensures forall e | e in m.log :: Settled(e, NextUsage(m.usage, a), a.now)
    ensures var start := Charged(m.usage, a).start;
            forall e | e in m.log && e.owner == a.owner :: e.start == start || e.start + SPAN <= start
    ensures a.owner !in Swept(m.usage, a.now) ==>
              forall e | e in m.log && e.owner == a.owner :: e.start != Charged(m.usage, a).start
  {
    forall e | e in m.log
      ensures Settled(e, NextUsage(m.usage, a), a.now)
      ensures e.owner == a.owner ==>
                e.start == Charged(m.usage, a).start || e.start + SPAN <= Charged(m.usage, a).start
      ensures e.owner == a.owner && a.owner !in Swept(m.usage, a.now) ==> e.start != Charged(m.usage, a).start
    {
      assert Settled(e, m.usage, before);
    }
  }

  lemma StepKeepsApart(m: Meter, before: int, a: Arrival)
    requires Inv(m, before) && before <= a.now
    ensures Apart(Step(m, a).log)
  {
    StepKeepsLog(m, before, a);
  }

  lemma EnteredStays(log: seq<Entry>, more: seq<Entry>, o: Owner, w: int)
    requires Entered(log, o, w)
    ensures Entered(log + more, o, w)
  {
    var d :| d in log && d.owner == o && d.start == w && d.now == w;
    assert d in log + more;
  }

  lemma StepKeepsOpened(m: Meter, before: int, a: Arrival)
    requires Inv(m, before) && before <= a.now
    ensures Opened(Step(m, a).log)
    ensures forall o | o in Step(m, a).usage :: Entered(Step(m, a).log, o, Step(m, a).usage[o].start)
  {
    var n := Step(m, a);
    var start := Charged(m.usage, a).start;
    var more := if Admitted(m.usage, a) then [Entry(a.owner, a.now, a.execute, start)] else [];
    assert n.log == m.log + more;
    assert Entered(n.log, a.owner, start) by {
      if a.owner in Swept(m.usage, a.now) {
        EnteredStays(m.log, more, a.owner, start);
      } else {
        assert n.log[|n.log| - 1] in n.log;
      }
    }
    forall o | o in n.usage
      ensures Entered(n.log, o, n.usage[o].start)
    {
      if o != a.owner {
        EnteredStays(m.log, more, o, m.usage[o].start);
      }
    }
    forall e | e in n.log
      ensures Entered(n.log, e.owner, e.start)
    {
      if e in m.log {
        EnteredStays(m.log, more, e.owner, e.start);
      }
    }
  }

  lemma StepKeepsBounds(m: Meter, before: int, a: Arrival)
    requires Inv(m, before) && before <= a.now
    ensures Bounded(Step(m, a))
  {
    StepKeepsLog(m, before, a);
    var n := Step(m, a);
    var start := Charged(m.usage, a).start;
    if a.owner !in Swept(m.usage, a.now) {
      UnusedWindow(m.log, a.owner, start, false);
      UnusedWindow(m.log, a.owner, start, true);
    }
    forall o, w, x
      ensures InWindow(n.log, o, w, x) == InWindow(m.log, o, w, x)
              || (o == a.owner && w == start && Admitted(m.usage, a) && (x ==> a.execute)
                  && InWindow(n.log, o, w, x) == InWindow(m.log, o, w, x) + 1)
    {
      if Admitted(m.usage, a) {
        assert n.log[..|n.log| - 1] == m.log;
      }
    }
  }

  lemma StepKeepsSettled(m: Meter, before: int, a: Arrival)
    requires Inv(m, before) && before <= a.now
    ensures forall e | e in Step(m, a).log :: Settled(e, Step(m, a).usage, a.now)
    ensures forall o | o in Step(m, a).usage :: Step(m, a).usage[o].start <= a.now
  {
    StepKeepsLog(m, before, a);
  }

  lemma StepKeepsInv(m: Meter, before: int, a: Arrival)
    requires Inv(m, before) && before <= a.now
    ensures Inv(Step(m, a), a.now)
  {
    StepKeepsSettled(m, before, a);
    StepKeepsApart(m, before, a);
    StepKeepsOpened(m, before, a);
    StepKeepsBounds(m, before, a);
  }

  lemma {:induction false} RunKeepsInv(arrivals: seq<Arrival>)
    requires NonDecreasing(arrivals)
    ensures arrivals != [] ==> Inv(Run(arrivals), arrivals[|arrivals| - 1].now)
    ensures arrivals == [] ==> forall now :: Inv(Run(arrivals), now)
  {
    if arrivals != [] {
      var rest := arrivals[..|arrivals| - 1];
      RunKeepsInv(rest);
      var last := arrivals[|arrivals| - 1];
      var before := if rest == [] then last.now else rest[|rest| - 1].now;
      StepKeepsInv(Run(rest), before, last);
    }
  }

  /** A call of window `w` made before the interval is counted on the right only. */
  lemma {:induction false} TwoWindows(log: seq<Entry>, owner: Owner, from: int, executes: bool, w: int, v: int,
                                      early: bool)
    requires forall e | e in log :: e.owner == owner && from <= e.now < from + SPAN ==> e.start == w || e.start == v
    requires early ==>
      exists d :: d in log && d.owner == owner && d.start == w && d.now < from && (executes ==> d.execute)
    ensures InInterval(log, owner, from, executes) + (if early then 1 else 0)
            <= InWindow(log, owner, w, executes) + InWindow(log, owner, v, executes)
  {
    if log != [] {
      var rest, last := log[..|log| - 1], log[|log| - 1];
      assert log == rest + [last];
      var own := last.owner == owner && last.start == w && last.now < from && (executes ==> last.execute);
      TwoWindows(rest, owner, from, executes, w, v, early && !own);
    }
  }

  lemma OneWindow(log: seq<Entry>, owner: Owner, from: int, executes: bool, w: int)
    requires forall e | e in log :: e.owner == owner && from <= e.now < from + SPAN ==> e.start == w
    ensures InInterval(log, owner, from, executes) <= InWindow(log, owner, w, executes)
  {
    if log != [] {
      OneWindow(log[..|log| - 1], owner, from, executes, w);
      assert log[|log| - 1] in log;
    }
  }

  /** For any non-decreasing clock and any half-open minute, an owner is
      admitted at most 239 calls (two full windows, less the call that opened
      the first of them) and 40 executes. */
  lemma MinuteBound(arrivals: seq<Arrival>, owner: Owner, from: int)
    requires NonDecreasing(arrivals)
    ensures InInterval(Run(arrivals).log, owner, from, false) <= 239
    ensures InInterval(Run(arrivals).log, owner, from, true) <= 40
  {
    RunKeepsInv(arrivals);
    IntervalBound(Run(arrivals), if arrivals == [] then 0 else arrivals[|arrivals| - 1].now, owner, from);
  }

  lemma IntervalBound(m: Meter, now: int, owner: Owner, from: int)
    requires Inv(m, now)
    ensures InInterval(m.log, owner, from, false) <= 239
    ensures InInterval(m.log, owner, from, true) <= 40
  {
    if c :| c in m.log && c.owner == owner && from <= c.now < from + SPAN {
      if d :| d in m.log && d.owner == owner && from <= d.now < from + SPAN && d.start != c.start {
        TwoWindowsBound(m, now, owner, from, if c.start < d.start then c else d, if c.start < d.start then d else c);
      } else {
        OneWindowBound(m, owner, from, c.start);
      }
    } else {
      OneWindowBound(m, owner, from, 0);
    }
  }

  lemma OneWindowBound(m: Meter, owner: Owner, from: int, w: int)
    requires Bounded(m)
    requires forall e | e in m.log && e.owner == owner && from <= e.now < from + SPAN :: e.start == w
    ensures InInterval(m.log, owner, from, false) <= 120 && InInterval(m.log, owner, from, true) <= 20
  {
    OneWindow(m.log, owner, from, false, w);
    OneWindow(m.log, owner, from, true, w);
    assert InWindow(m.log, owner, w, false) <= Limit(false) && InWindow(m.log, owner, w, true) <= Limit(true);
  }

  /** The interval reaches into two windows, and then into no other. */
  lemma TwoWindowsBound(m: Meter, now: int, owner: Owner, from: int, c: Entry, d: Entry)
    requires Inv(m, now) && c in m.log && d in m.log && c.owner == d.owner == owner && c.start < d.start
    requires from <= c.now < from + SPAN && from <= d.now < from + SPAN
    ensures InInterval(m.log, owner, from, false) <= 239 && InInterval(m.log, owner, from, true) <= 40
  {
    var w, v := c.start, d.start;
    assert Settled(c, m.usage, now) && Settled(d, m.usage, now);
    assert w + SPAN <= v < from + SPAN;
    assert Entered(m.log, owner, w);
    forall e | e in m.log && e.owner == owner && from <= e.now < from + SPAN
      ensures e.start == w || e.start == v
    {
      assert Settled(e, m.usage, now);
    }
    TwoWindows(m.log, owner, from, false, w, v, true);
    TwoWindows(m.log, owner, from, true, w, v, false);
    assert InWindow(m.log, owner, w, false) <= Limit(false) && InWindow(m.log, owner, v, false) <= Limit(false);
    assert InWindow(m.log, owner, w, true) <= Limit(true) && InWindow(m.log, owner, v, true) <= Limit(true);
  }

  // ---- Both bounds are reached -----------------------------------------------

  /** `n` calls at the same instant. */
  function Burst(owner: Owner, now: int, execute: bool, n: nat): seq<Arrival> {
    seq(n, _ => Arrival(owner, now, execute))
  }

  function Charge(w: Window, execute: bool, n: nat): Window {
    Window(w.start, w.all + n, if execute then w.execute + n else w.execute)
  }

  /** `owner` alone has a window, `w`, and so many of its calls and executes fall
      in the interval from `from`. */
  predicate Filled(m: Meter, owner: Owner, w: Window, from: int, calls: nat, executes: nat) {
    && m.usage == map[owner := w]
    && InInterval(m.log, owner, from, false) == calls
    && InInterval(m.log, owner, from, true) == executes
  }

  lemma RunSnoc(arrivals: seq<Arrival>, a: Arrival)
    ensures Run(arrivals + [a]) == Step(Run(arrivals), a)
  {
    assert (arrivals + [a])[..|arrivals|] == arrivals;
  }

  lemma CountSnoc(log: seq<Entry>, e: Entry, owner: Owner, from: int, executes: bool)
    ensures InInterval(log + [e], owner, from, executes)
            == InInterval(log, owner, from, executes)
               + if e.owner == owner && from <= e.now < from + SPAN && (executes ==> e.execute) then 1 else 0
  {
    assert (log + [e])[..|log|] == log;
  }

  function AfterBurst(m: Meter, a: Arrival, n: nat): Meter
    decreases n
  {
    if n == 0 then m else AfterBurst(Step(m, a), a, n - 1)
  }

  lemma {:induction false} RunBurst(before: seq<Arrival>, a: Arrival, n: nat)
    ensures Run(before + Burst(a.owner, a.now, a.execute, n)) == AfterBurst(Run(before), a, n)
    decreases n
  {
    if n == 0 {
      assert before + Burst(a.owner, a.now, a.execute, n) == before;
    } else {
      RunSnoc(before, a);
      RunBurst(before + [a], a, n - 1);
      assert before + Burst(a.owner, a.now, a.execute, n) == before + [a] + Burst(a.owner, a.now, a.execute, n - 1);
    }
  }

  lemma StepInside(m: Meter, n: Meter, a: Arrival, w: Window)
    requires m.usage == map[a.owner := w] && n == Step(m, a) && w.start <= a.now < w.start + SPAN
    requires w.all < ALL_LIMIT && w.execute <= EXECUTE_LIMIT && (a.execute ==> w.execute < EXECUTE_LIMIT)
    ensures n.usage == map[a.owner := Charge(w, a.execute, 1)]
    ensures n.log == m.log + [Entry(a.owner, a.now, a.execute, w.start)]
  {
    assert Swept(m.usage, a.now) == m.usage;
  }

  /** A burst inside an open window is charged to it. */
  lemma {:induction false} BurstCharges(m: Meter, a: Arrival, w: Window, n: nat)
    requires m.usage == map[a.owner := w] && w.start <= a.now < w.start + SPAN
    requires w.all + n <= ALL_LIMIT && w.execute <= EXECUTE_LIMIT && (a.execute ==> w.execute + n <= EXECUTE_LIMIT)
    ensures AfterBurst(m, a, n).usage == map[a.owner := Charge(w, a.execute, n)]
    ensures AfterBurst(m, a, n).log == m.log + seq(n, _ => Entry(a.owner, a.now, a.execute, w.start))
    decreases n
  {
    if n > 0 {
      var e := Entry(a.owner, a.now, a.execute, w.start);
      StepInside(m, Step(m, a), a, w);
      BurstCharges(Step(m, a), a, Charge(w, a.execute, 1), n - 1);
      assert m.log + [e] + seq(n - 1, _ => e) == m.log + seq(n, _ => e);
    }
  }

  lemma {:induction false} BurstCounts(log: seq<Entry>, e: Entry, n: nat, from: int, executes: bool)
    requires from <= e.now < from + SPAN
    ensures InInterval(log + seq(n, _ => e), e.owner, from, executes)
            == InInterval(log, e.owner, from, executes) + if executes ==> e.execute then n else 0
  {
    if n == 0 {
      assert log + seq(n, _ => e) == log;
    } else {
      BurstCounts(log, e, n - 1, from, executes);
      CountSnoc(log + seq(n - 1, _ => e), e, e.owner, from, executes);
      assert log + seq(n, _ => e) == log + seq(n - 1, _ => e) + [e];
    }
  }

  lemma BurstFills(before: seq<Arrival>, owner: Owner, w: Window, now: int, execute: bool, n: nat,
                   from: int, calls: nat, executes: nat)
    requires Filled(Run(before), owner, w, from, calls, executes)
    requires w.start <= now < w.start + SPAN && from <= now < from + SPAN
    requires w.all + n <= ALL_LIMIT && w.execute <= EXECUTE_LIMIT && (execute ==> w.execute + n <= EXECUTE_LIMIT)
    ensures Filled(Run(before + Burst(owner, now, execute, n)), owner, Charge(w, execute, n), from,
                   calls + n, if execute then executes + n else executes)
  {
    BurstCharges(Run(before), Arrival(owner, now, execute), w, n);
    BurstCounts(Run(before).log, Entry(owner, now, execute, w.start), n, from, false);
    BurstCounts(Run(before).log, Entry(owner, now, execute, w.start), n, from, true);
    RunBurst(before, Arrival(owner, now, execute), n);
  }

  /** A call that opens a window, when no other owner has one. */
  lemma Opening(before: seq<Arrival>, owner: Owner, now: int, from: int, calls: nat, executes: nat)
    requires Swept(Run(before).usage, now) == map[]
    requires InInterval(Run(before).log, owner, from, false) == calls
    requires InInterval(Run(before).log, owner, from, true) == executes
    ensures Filled(Run(before + [Arrival(owner, now, false)]), owner, Window(now, 1, 0), from,
                   calls + if from <= now < from + SPAN then 1 else 0, executes)
  {
    RunSnoc(before, Arrival(owner, now, false));
    CountSnoc(Run(before).log, Entry(owner, now, false, now), owner, from, false);
    CountSnoc(Run(before).log, Entry(owner, now, false, now), owner, from, true);
  }

  /** A new window once the owner's only one has ended. */
  lemma Reopening(before: seq<Arrival>, owner: Owner, w: Window, from: int, calls: nat, executes: nat, now: int)
    requires Filled(Run(before), owner, w, from, calls, executes) && w.start + SPAN <= now < from + SPAN && from <= now
    ensures Filled(Run(before + [Arrival(owner, now, false)]), owner, Window(now, 1, 0), from, calls + 1, executes)
  {
    assert Swept(Run(before).usage, now) == map[];
    Opening(before, owner, now, from, calls, executes);
  }

  /** Both bounds are attained in one run: one call at 0, 119 just before the
      window ends, and 120 in the next, 20 executes in each window. */
  lemma MinuteBoundIsAttained(owner: Owner) returns (arrivals: seq<Arrival>)
    ensures NonDecreasing(arrivals)
    ensures InInterval(Run(arrivals).log, owner, SPAN - 1, false) == 239
    ensures InInterval(Run(arrivals).log, owner, SPAN - 1, true) == 40
  {
    var from := SPAN - 1;
    Opening([], owner, 0, from, 0, 0);
    var a := [] + [Arrival(owner, 0, false)];
    BurstFills(a, owner, Window(0, 1, 0), from, true, 20, from, 0, 0);
    var b := a + Burst(owner, from, true, 20);
    BurstFills(b, owner, Window(0, 21, 20), from, false, 99, from, 20, 20);
    var c := b + Burst(owner, from, false, 99);
    Reopening(c, owner, Window(0, 120, 20), from, 119, 20, SPAN);
    var d := c + [Arrival(owner, SPAN, false)];
    BurstFills(d, owner, Window(SPAN, 1, 0), SPAN, true, 20, from, 120, 20);
    var e := d + Burst(owner, SPAN, true, 20);
    BurstFills(e, owner, Window(SPAN, 21, 20), SPAN, false, 99, from, 140, 40);
    arrivals := e + Burst(owner, SPAN, false, 99);
    InOrder(owner, a, b, c, d, e, arrivals);
  }

  lemma InOrder(owner: Owner, a: seq<Arrival>, b: seq<Arrival>, c: seq<Arrival>, d: seq<Arrival>, e: seq<Arrival>,
                f: seq<Arrival>)
    requires a == [Arrival(owner, 0, false)] && b == a + Burst(owner, SPAN - 1, true, 20)
    requires c == b + Burst(owner, SPAN - 1, false, 99) && d == c + [Arrival(owner, SPAN, false)]
    requires e == d + Burst(owner, SPAN, true, 20) && f == e + Burst(owner, SPAN, false, 99)
    ensures NonDecreasing(f)
  {
    assert forall i | 0 <= i < |f| :: f[i].now == if i < 1 then 0 else if i < 120 then SPAN - 1 else SPAN;
  }
}
