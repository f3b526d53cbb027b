/** The app supervisor's reconcile loop: who runs after a tick, and how soon a
    failed service may run again. Times are seconds. */
module Supervisor {
  import opened Outcomes

  /** A service as the control file gives it; its signature is the whole value
      (a collision-free hash of one canonical text). */
  datatype Service = Service(name: string, enabled: bool, port: int, generation: int, definition: string)

  /** The control file: unreadable, malformed or refused in any part, or valid. */
  datatype Control = Invalid | Valid(allowed: bool, services: seq<Service>)

  datatype Last = Last(failures: nat, next: real, started: Option<real>)

  /** What the supervisor remembers of one name. */
  datatype Slot = Slot(child: Option<Service>, last: Option<Last>)

  /** What one tick meets for one name: whether its process has exited, whether its
      port is taken, whether starting it works, and four clock readings. */
  datatype Env = Env(exited: bool, busy: bool, starts: bool, t0: real, t1: real, t2: real, t3: real)

  ghost predicate WellFormed(c: Control) {
    c.Valid? ==>
      && |c.services| <= 4
      && forall i, j | 0 <= i < j < |c.services| :: c.services[i].name != c.services[j].name
  }

  function Power(k: nat): real {
    if k == 0 then 1.0 else 2.0 * Power(k - 1)
  }

  function Backoff(failures: nat): real {
    var wait := Power(if failures < 6 then failures else 6);
    if wait < 60.0 then wait else 60.0
  }

  lemma BackoffValues(k: nat)
    ensures k < 6 ==> Backoff(k) == [1.0, 2.0, 4.0, 8.0, 16.0, 32.0][k]
    ensures k >= 6 ==> Backoff(k) == 60.0
  {
    assert Power(6) == 2.0 * Power(5) == 4.0 * Power(4) == 8.0 * Power(3) == 16.0 * Power(2) == 32.0 * Power(1) == 64.0;
  }

  // ---- One name in one tick ---------------------------------------------------------

  predicate Runs(wanted: Option<Service>, allowed: bool) {
    wanted.Some? && wanted.value.enabled && allowed
  }

  /** First loop: children the control file no longer wants are stopped. */
  function Pruned(s: Slot, wanted: Option<Service>, allowed: bool): Slot {
    if s.child.Some? && !(Runs(wanted, allowed) && s.child == wanted) then Slot(None, None) else s
  }

  function Remembered(s: Slot): Last {
    if s.last.Some? then s.last.value else Last(0, 0.0, None)
  }

  /** An exit is recorded and the child forgotten. */
  function Reaped(s: Slot, e: Env): Slot {
    var last := Remembered(s);
    if s.child.Some? && e.exited then Slot(None, Some(Last(last.failures + 1, e.t0 + Backoff(last.failures + 1), None)))
    else Slot(s.child, Some(last))
  }

  predicate Due(s: Slot, wanted: Option<Service>, allowed: bool, e: Env) {
    Runs(wanted, allowed) && s.child.None? && s.last.Some? && e.t1 >= s.last.value.next
  }

  function Attempted(s: Slot, wanted: Option<Service>, allowed: bool, e: Env): Slot {
    if !Due(s, wanted, allowed, e) then s
    else
      var last := s.last.value;
      if e.busy then Slot(None, Some(last.(next := e.t2 + 10.0)))
      else if e.starts then Slot(wanted, Some(last))
      else Slot(None, Some(last.(failures := last.failures + 1, next := e.t2 + Backoff(last.failures + 1))))
  }

  /** A child that has run for over two minutes has its failures forgiven. */
  function Aged(s: Slot, e: Env): Slot {
    if s.child.None? || s.last.None? then s
    else
      var since := if s.last.value.started.Some? then s.last.value.started.value else e.t3;
      s.(last := Some(Last(if e.t3 - since > 120.0 then 0 else s.last.value.failures, s.last.value.next, Some(since))))
  }

  function NameTick(s: Slot, wanted: Option<Service>, allowed: bool, e: Env): Slot {
    var pruned := Pruned(s, wanted, allowed);
    if wanted.None? then pruned else Aged(Attempted(Reaped(pruned, e), wanted, allowed, e), e)
  }

  /** The tick starts a process for the name. */
  predicate Launches(s: Slot, wanted: Option<Service>, allowed: bool, e: Env) {
    Due(Reaped(Pruned(s, wanted, allowed), e), wanted, allowed, e) && !e.busy && e.starts
  }

  // ---- The object ------------------------------------------------------------------

  function Find(services: seq<Service>, name: string): (s: Option<Service>)
    ensures s.Some? ==> s.value in services && s.value.name == name
    ensures s.None? ==> forall i | 0 <= i < |services| :: services[i].name != name
  {
    if services == [] then None else if services[0].name == name then Some(services[0]) else Find(services[1..], name)
  }

  function Wanted(c: Control, name: string): Option<Service> {
    if c.Valid? then Find(c.services, name) else None
  }

  predicate Allowed(c: Control) { c.Valid? && c.allowed }

  function SlotOf(children: map<string, Service>, last: map<string, Last>, name: string): Slot {
    Slot(if name in children then Some(children[name]) else None, if name in last then Some(last[name]) else None)
  }

  class Supervisor {
    var children: map<string, Service>
    var last: map<string, Last>

    ghost function View(name: string): Slot
      reads this
    {
      SlotOf(children, last, name)
    }

    constructor ()
      ensures children == map[] && last == map[]
    {
      children, last := map[], map[];
    }

    method Put(name: string, s: Slot)
      modifies this
      ensures View(name) == s && forall n | n != name :: View(n) == old(View(n))
    {
      children := if s.child.Some? then children[name := s.child.value] else children - {name};
      last := if s.last.Some? then last[name := s.last.value] else last - {name};
    }

    /** First loop. */
    method StopUnwanted(c: Control)
      modifies this
      ensures forall n :: View(n) == Pruned(old(View(n)), Wanted(c, n), Allowed(c))
    {
      var todo := children.Keys;
      while todo != {}
        invariant todo <= old(children).Keys
        invariant forall n ::
          View(n) == (if n in old(children) && n !in todo
                      then Pruned(old(View(n)), Wanted(c, n), Allowed(c)) else old(View(n)))
        decreases todo
      {
        var name :| name in todo;
        var s := Wanted(c, name);
        if s.None? || !s.value.enabled || !Allowed(c) || children[name] != s.value {
          Put(name, Slot(None, None));
        }
        todo := todo - {name};
      }
    }

    /** One service in the second loop. */
    method Serve(s: Service, allowed: bool, e: Env)
      modifies this
      ensures View(s.name) == Aged(Attempted(Reaped(old(View(s.name)), e), Some(s), allowed, e), e)
      ensures forall n | n != s.name :: View(n) == old(View(n))
    {
      var name := s.name;
      var child := if name in children then Some(children[name]) else None;
      var l := if name in last then last[name] else Last(0, 0.0, None);
      if child.Some? && e.exited {
        l := Last(l.failures + 1, e.t0 + Backoff(l.failures + 1), None);
        child := None;
      }
      if s.enabled && allowed && child.None? && e.t1 >= l.next {
        if e.busy {
          l := l.(next := e.t2 + 10.0);
        } else if e.starts {
          child := Some(s);
        } else {
          l := l.(failures := l.failures + 1, next := e.t2 + Backoff(l.failures + 1));
        }
      }
      if child.Some? {
        var since := if l.started.Some? then l.started.value else e.t3;
        if e.t3 - since > 120.0 { l := l.(failures := 0); }
        l := l.(started := Some(since));
      }
      Put(name, Slot(child, Some(l)));
    }

    /** One tick. Afterwards every child belongs to a service that is present,
        enabled, allowed and unchanged, and an invalid control file leaves none. */
    method Tick(c: Control, env: string -> Env)
      requires WellFormed(c)
      modifies this
      ensures forall n :: View(n) == NameTick(old(View(n)), Wanted(c, n), Allowed(c), env(n))
      ensures forall n | n in children :: Runs(Wanted(c, n), Allowed(c)) && Wanted(c, n) == Some(children[n])
      ensures c.Invalid? ==> children == map[]
    {
      StopUnwanted(c);
      if c.Valid? {
        for i := 0 to |c.services|
          invariant forall n :: View(n) == Midway(old(View(n)), c, n, env(n), i)
        {
          var s := c.services[i];
          forall n
            ensures n == s.name ==>
              Midway(old(View(n)), c, n, env(n), i + 1)
              == Served(Midway(old(View(n)), c, n, env(n), i), s, c.allowed, env(n))
            ensures n != s.name ==> Midway(old(View(n)), c, n, env(n), i + 1) == Midway(old(View(n)), c, n, env(n), i)
          {
            MidwayStep(old(View(n)), c, n, env(n), i);
          }
          Serve(s, c.allowed, env(s.name));
        }
      }
      forall n ensures View(n) == NameTick(old(View(n)), Wanted(c, n), Allowed(c), env(n)) {
        MidwayEnds(old(View(n)), c, n, env(n));
      }
      forall n | n in children ensures Runs(Wanted(c, n), Allowed(c)) && Wanted(c, n) == Some(children[n]) {
        ChildIsWanted(old(View(n)), Wanted(c, n), Allowed(c), env(n));
        assert View(n).child == Some(children[n]);
      }
    }
  }

  /** A name's slot after the second loop has come to its service. */
  function Served(s: Slot, service: Service, allowed: bool, e: Env): Slot {
    Aged(Attempted(Reaped(s, e), Some(service), allowed, e), e)
  }

  /** A name's slot when the second loop has done the first `i` services. */
  function Midway(s: Slot, c: Control, n: string, e: Env, i: nat): Slot {
    var pruned := Pruned(s, Wanted(c, n), Allowed(c));
    if c.Valid? && Index(c.services, n) < i && Wanted(c, n).Some?
    then Served(pruned, Wanted(c, n).value, Allowed(c), e)
    else pruned
  }

  lemma {:induction false} MidwayStep(s: Slot, c: Control, n: string, e: Env, i: nat)
    requires WellFormed(c) && c.Valid? && i < |c.services|
    ensures n == c.services[i].name ==>
      Midway(s, c, n, e, i + 1) == Served(Midway(s, c, n, e, i), c.services[i], c.allowed, e)
    ensures n != c.services[i].name ==> Midway(s, c, n, e, i + 1) == Midway(s, c, n, e, i)
  {
    FindAt(c.services, i);
  }

  lemma {:induction false} MidwayEnds(s: Slot, c: Control, n: string, e: Env)
    ensures NameTick(s, Wanted(c, n), Allowed(c), e)
         == if c.Valid? then Midway(s, c, n, e, |c.services|) else Pruned(s, None, false)
  {
  }

  /** Whoever has a process after a tick is wanted exactly as it was started. */
  lemma {:induction false} ChildIsWanted(s: Slot, wanted: Option<Service>, allowed: bool, e: Env)
    ensures var n := NameTick(s, wanted, allowed, e); n.child.Some? ==> Runs(wanted, allowed) && n.child == wanted
  {
  }

  /** Where a name is in the list; past its end if nowhere. */
  function Index(services: seq<Service>, name: string): (i: nat)
    ensures i <= |services| && (i < |services| ==> services[i].name == name)
    ensures Find(services, name) == if i < |services| then Some(services[i]) else None
  {
    if services == [] || services[0].name == name then 0 else 1 + Index(services[1..], name)
  }

  lemma {:induction false} FindAt(services: seq<Service>, i: nat)
    requires i < |services| && forall a, b | 0 <= a < b < |services| :: services[a].name != services[b].name
    ensures Index(services, services[i].name) == i && Find(services, services[i].name) == Some(services[i])
  {
  }

  // ---- Restarts over many ticks ----------------------------------------------------------

  predicate Ordered(e: Env) { 0.0 <= e.t0 <= e.t1 <= e.t2 <= e.t3 }

  /** Only a running child has a start time. */
  predicate Tidy(s: Slot) {
    && (s.child.Some? ==> s.last.Some? && s.last.value.started.Some?)
    && (s.child.None? && s.last.Some? ==> s.last.value.started.None?)
  }

  lemma {:induction false} TidyStays(s: Slot, wanted: Option<Service>, allowed: bool, e: Env)
    requires Tidy(s)
    ensures Tidy(NameTick(s, wanted, allowed, e))
  {
  }

  /** A stretch of ticks in which one service stays enabled, allowed and defined the
      same, on a clock that never goes back. */
  ghost predicate Steady(s: Service, slots: seq<Slot>, envs: seq<Env>) {
    && |slots| == |envs| + 1 && s.enabled && Tidy(slots[0]) && (slots[0].child.Some? ==> slots[0].child == Some(s))
    && (forall i | 0 <= i < |envs| :: Ordered(envs[i]) && slots[i + 1] == NameTick(slots[i], Some(s), true, envs[i]))
    && (forall i, j | 0 <= i < j < |envs| :: envs[i].t3 <= envs[j].t0)
  }

  datatype Launch = Launch(at: real, failures: nat)

  /** The starts of the first `n` ticks, each with the failures counted before it. */
  function Log(s: Service, slots: seq<Slot>, envs: seq<Env>, n: nat): (log: seq<Launch>)
    requires |slots| == |envs| + 1 && n <= |envs|
  {
    if n == 0 then []
    else
      var log, slot, e := Log(s, slots, envs, n - 1), slots[n - 1], envs[n - 1];
      if Launches(slot, Some(s), true, e) then log + [Launch(e.t1, Reaped(slot, e).last.value.failures)] else log
  }

  /** Since a launch: the process runs, or a failure is counted and the next start
      put off; the count has grown unless two minutes have passed. */
  predicate Since(s: Service, slot: Slot, l: Launch, now: real) {
    && Tidy(slot) && slot.last.Some? && l.at <= now
    && (slot.child.Some? ==> slot.child == Some(s) && slot.last.value.started.value >= l.at)
    && (slot.child.None? ==>
        slot.last.value.failures >= 1 && slot.last.value.next >= l.at + Backoff(slot.last.value.failures))
    && (now > l.at + 120.0 || slot.last.value.failures >= l.failures + if slot.child.Some? then 0 else 1)
  }

  lemma {:induction false} BackoffIsPositive(k: nat)
    ensures k >= 1 ==> 2.0 <= Backoff(k) <= 60.0
    ensures Backoff(k) > 0.0
  {
    BackoffValues(k);
  }

  lemma {:induction false} ReapedSince(s: Service, slot: Slot, e: Env, l: Launch, now: real)
    requires Since(s, slot, l, now) && Ordered(e) && now <= e.t0
    ensures Since(s, Reaped(slot, e), l, e.t0)
  {
    BackoffIsPositive(slot.last.value.failures + 1);
  }

  lemma {:induction false} AttemptedSince(s: Service, slot: Slot, e: Env, l: Launch)
    requires Since(s, slot, l, e.t0) && Ordered(e) && s.enabled && !(Due(slot, Some(s), true, e) && !e.busy && e.starts)
    ensures Since(s, Attempted(slot, Some(s), true, e), l, e.t2)
  {
    if slot.child.None? {
      BackoffIsPositive(slot.last.value.failures);
      BackoffIsPositive(slot.last.value.failures + 1);
    }
  }

  lemma {:induction false} AgedSince(s: Service, slot: Slot, e: Env, l: Launch)
    requires Since(s, slot, l, e.t2) && Ordered(e)
    ensures Since(s, Aged(slot, e), l, e.t3)
  {
  }

  /** A tick without a start leaves it so. */
  lemma {:induction false} QuietTick(s: Service, slot: Slot, e: Env, l: Launch, now: real)
    requires Since(s, slot, l, now) && Ordered(e) && now <= e.t0 && s.enabled && !Launches(slot, Some(s), true, e)
    ensures Since(s, NameTick(slot, Some(s), true, e), l, e.t3)
  {
    ReapedSince(s, slot, e, l, now);
    AttemptedSince(s, Reaped(slot, e), e, l);
    AgedSince(s, Attempted(Reaped(slot, e), Some(s), true, e), e, l);
  }

  /** A tick that starts the service. */
  lemma {:induction false} LaunchTick(s: Service, slot: Slot, e: Env)
    requires Tidy(slot) && Ordered(e) && s.enabled && Launches(slot, Some(s), true, e)
    requires (slot.child.Some? ==> slot.child == Some(s))
    ensures Reaped(slot, e).last.Some?
    ensures Since(s, NameTick(slot, Some(s), true, e), Launch(e.t1, Reaped(slot, e).last.value.failures), e.t3)
  {
    var r := Reaped(slot, e);
    assert r.child.None? && Tidy(r);
    assert Attempted(r, Some(s), true, e) == Slot(Some(s), r.last);
  }

  predicate Spaced(a: Launch, b: Launch) {
    && b.failures >= 1 && b.at >= a.at + Backoff(b.failures)
    && (b.failures >= a.failures + 1 || b.at > a.at + 120.0)
  }

  lemma {:induction false} NextLaunch(s: Service, slot: Slot, e: Env, l: Launch, now: real)
    requires Since(s, slot, l, now) && Ordered(e) && now <= e.t0 && s.enabled && Launches(slot, Some(s), true, e)
    ensures Reaped(slot, e).last.Some? && Spaced(l, Launch(e.t1, Reaped(slot, e).last.value.failures))
  {
    ReapedSince(s, slot, e, l, now);
  }

  lemma {:induction false} Logged(s: Service, slots: seq<Slot>, envs: seq<Env>, n: nat)
    requires Steady(s, slots, envs) && n <= |envs|
    ensures var log := Log(s, slots, envs, n);
      && (forall a | 0 <= a < |log| - 1 :: Spaced(log[a], log[a + 1]))
      && Tidy(slots[n]) && (slots[n].child.Some? ==> slots[n].child == Some(s))
      && (log != [] ==> n > 0 && Since(s, slots[n], log[|log| - 1], envs[n - 1].t3))
  {
    if n > 0 {
      Logged(s, slots, envs, n - 1);
      var log, slot, e := Log(s, slots, envs, n - 1), slots[n - 1], envs[n - 1];
      TidyStays(slot, Some(s), true, e);
      ChildIsWanted(slot, Some(s), true, e);
      if Launches(slot, Some(s), true, e) {
        LaunchTick(s, slot, e);
        if log != [] { NextLaunch(s, slot, e, log[|log| - 1], envs[n - 2].t3); }
      } else if log != [] {
        QuietTick(s, slot, e, log[|log| - 1], envs[n - 2].t3);
      }
    }
  }

  /** While a definition stays unchanged and allowed, each restart comes at least
      the backoff of the failures counted by then after the start before it, and
      the count has grown unless the process ran for over two minutes. */
  lemma {:induction false} RestartsAreSpaced(s: Service, slots: seq<Slot>, envs: seq<Env>, a: nat)
    requires Steady(s, slots, envs) && a + 1 < |Log(s, slots, envs, |envs|)|
    ensures Spaced(Log(s, slots, envs, |envs|)[a], Log(s, slots, envs, |envs|)[a + 1])
  {
    Logged(s, slots, envs, |envs|);
  }

  /** So a stretch of time of any length holds at most one start more than it has
      two-second pieces. */
  lemma {:induction false} StartsAreBounded(s: Service, slots: seq<Slot>, envs: seq<Env>, a: nat, b: nat)
    requires Steady(s, slots, envs) && a <= b < |Log(s, slots, envs, |envs|)|
    ensures Log(s, slots, envs, |envs|)[b].at - Log(s, slots, envs, |envs|)[a].at >= 2.0 * (b - a) as real
    decreases b
  {
    if a < b {
      StartsAreBounded(s, slots, envs, a, b - 1);
      RestartsAreSpaced(s, slots, envs, b - 1);
      BackoffIsPositive(Log(s, slots, envs, |envs|)[b].failures);
    }
  }

  /** The backoffs of the first `n` failures in a row, together. */
  function Ramp(n: nat): real {
    if n == 0 then 0.0 else Ramp(n - 1) + Backoff(n)
  }

  lemma {:induction false} BackoffGrows(k: nat, m: nat)
    requires k <= m
    ensures Backoff(k) <= Backoff(m)
  {
    BackoffValues(k);
    BackoffValues(m);
  }

  /** While nothing runs long enough to be forgiven, the starts of a stretch are as
      far apart as the growing backoffs together. */
  lemma {:induction false} UnforgivenStartsRamp(s: Service, slots: seq<Slot>, envs: seq<Env>, a: nat, b: nat,
                                                log: seq<Launch>)
    requires Steady(s, slots, envs) && log == Log(s, slots, envs, |envs|) && a <= b < |log|
    requires forall m | a <= m < b :: log[m + 1].at <= log[m].at + 120.0
    ensures log[b].at - log[a].at >= Ramp(b - a) && log[b].failures >= log[a].failures + (b - a)
    decreases b
  {
    if a < b {
      UnforgivenStartsRamp(s, slots, envs, a, b - 1, log);
      RestartsAreSpaced(s, slots, envs, b - 1);
      BackoffGrows(b - a, log[b].failures);
    }
  }

  /** Whatever happens, forgiveness included, any six restarts take more than two
      minutes. */
  lemma {:induction false} SixRestartsTakeTwoMinutes(s: Service, slots: seq<Slot>, envs: seq<Env>, a: nat,
                                                     log: seq<Launch>)
    requires Steady(s, slots, envs) && log == Log(s, slots, envs, |envs|) && a + 6 < |log|
    ensures log[a + 6].at - log[a].at >= 122.0
  {
    if m: nat :| a <= m < a + 6 && log[m + 1].at > log[m].at + 120.0 {
      StartsAreBounded(s, slots, envs, a, m);
      StartsAreBounded(s, slots, envs, m + 1, a + 6);
    } else {
      UnforgivenStartsRamp(s, slots, envs, a, a + 6, log);
      SixBackoffs();
    }
  }

  lemma {:induction false} SixBackoffs()
    ensures Ramp(6) == 122.0
  {
    BackoffValues(1);
    BackoffValues(2);
    BackoffValues(3);
    BackoffValues(4);
    BackoffValues(5);
    BackoffValues(6);
    assert Ramp(3) == Backoff(1) + Backoff(2) + Backoff(3);
  }

  // ---- After a recorded failure -------------------------------------------------------------

  /** The tick finds the process exited and records, at `t`, failure number `k`. */
  predicate RecordsExit(s: Service, slot: Slot, e: Env, k: nat, t: real) {
    slot.child == Some(s) && e.exited && k == Remembered(slot).failures + 1 && t == e.t0
  }

  /** The tick tries to start the process, which fails, and records it at `t` as
      failure number `k`. */
  predicate RecordsFailedStart(s: Service, slot: Slot, e: Env, k: nat, t: real) {
    var r := Reaped(slot, e);
    Due(r, Some(s), true, e) && !e.busy && !e.starts && k == Remembered(r).failures + 1 && t == e.t2
  }

  /** The service is down and not due before `until`, or that time has passed. */
  predicate Down(slot: Slot, until: real, now: real) {
    now >= until || (slot.child.None? && slot.last.Some? && slot.last.value.next >= until)
  }

  lemma {:induction false} DownStays(s: Service, slot: Slot, e: Env, until: real, now: real)
    requires Down(slot, until, now) && s.enabled && Ordered(e) && now <= e.t0
    ensures Launches(slot, Some(s), true, e) ==> e.t1 >= until
    ensures Down(NameTick(slot, Some(s), true, e), until, e.t3)
  {
    BackoffIsPositive(Remembered(slot).failures + 1);
  }

  lemma {:induction false} ExitIsRecorded(s: Service, slot: Slot, e: Env, k: nat, t: real)
    requires RecordsExit(s, slot, e, k, t) && Tidy(slot) && s.enabled && Ordered(e)
    ensures Remembered(Reaped(slot, e)).failures == k
    ensures Launches(slot, Some(s), true, e) ==> e.t1 >= t + Backoff(k)
    ensures Down(NameTick(slot, Some(s), true, e), t + Backoff(k), e.t3)
  {
    BackoffIsPositive(k + 1);
  }

  lemma {:induction false} FailedStartIsRecorded(s: Service, slot: Slot, e: Env, k: nat, t: real)
    requires RecordsFailedStart(s, slot, e, k, t) && Tidy(slot) && (slot.child.Some? ==> slot.child == Some(s))
    requires s.enabled
    ensures !Launches(slot, Some(s), true, e)
    ensures Remembered(NameTick(slot, Some(s), true, e)).failures == k
    ensures Down(NameTick(slot, Some(s), true, e), t + Backoff(k), e.t3)
  {
  }

  lemma {:induction false} DownUntil(s: Service, slots: seq<Slot>, envs: seq<Env>, i: nat, j: nat, until: real)
    requires Steady(s, slots, envs) && i < j < |slots| && Down(slots[i + 1], until, envs[i].t3)
    ensures Down(slots[j], until, envs[j - 1].t3)
    decreases j
  {
    if i + 1 < j {
      DownUntil(s, slots, envs, i, j - 1, until);
      DownStays(s, slots[j - 1], envs[j - 1], until, envs[j - 2].t3);
    }
  }

  /** While a definition stays unchanged and allowed: if a tick records a failure of
      either kind as the k-th in a row at time `t`, every start from then on comes
      at least min(60, 2^min(k,6)) seconds after `t`, whatever has the port
      meanwhile and however the ticks fall. */
  lemma {:induction false} RestartAfterFailure(s: Service, slots: seq<Slot>, envs: seq<Env>, i: nat, j: nat, k: nat,
                                               t: real)
    requires Steady(s, slots, envs) && i <= j < |envs| && Launches(slots[j], Some(s), true, envs[j])
    requires RecordsExit(s, slots[i], envs[i], k, t) || RecordsFailedStart(s, slots[i], envs[i], k, t)
    ensures envs[j].t1 >= t + Backoff(k)
  {
    Logged(s, slots, envs, i);
    if RecordsExit(s, slots[i], envs[i], k, t) {
      ExitIsRecorded(s, slots[i], envs[i], k, t);
    } else {
      FailedStartIsRecorded(s, slots[i], envs[i], k, t);
    }
    if i < j {
      DownUntil(s, slots, envs, i, j, t + Backoff(k));
      DownStays(s, slots[j], envs[j], t + Backoff(k), envs[j - 1].t3);
    }
  }
}
