/** When a service is started again, stopped or left alone: what the ticks do to it,
    told from what they met. */
module SupervisorPromises {
  import opened Outcomes
  import opened Supervisor

  // ---- Every service comes back ---------------------------------------------------

  /** Nothing that a tick before `i` recorded puts the next start off beyond `limit`: an
      exit or a failed start for a minute at most, a taken port for ten seconds. */
  ghost predicate PutOffUntil(slots: seq<Slot>, envs: seq<Env>, i: nat, limit: real)
    requires |slots| == |envs| + 1 && i < |slots|
  {
    && 0.0 <= limit && (slots[0].last.Some? ==> slots[0].last.value.next <= limit)
    && forall j | 0 <= j < i :: Delays(slots, envs, j, limit)
  }

  ghost predicate Delays(slots: seq<Slot>, envs: seq<Env>, j: nat, limit: real)
    requires |slots| == |envs| + 1 && j < |envs|
  {
    && (slots[j].child.Some? && envs[j].exited ==> envs[j].t0 + 60.0 <= limit)
    && (slots[j + 1].child.None? && slots[j + 1].last != slots[j].last ==>
          envs[j].t2 + (if envs[j].busy then 10.0 else if envs[j].starts then 0.0 else 60.0) <= limit)
  }

  predicate NotBefore(slot: Slot, limit: real) { slot.last.Some? ==> slot.last.value.next <= limit }

  lemma TickNotBefore(s: Service, slot: Slot, e: Env, n: Slot, limit: real)
    requires s.enabled && (slot.child.Some? ==> slot.child == Some(s)) && NotBefore(slot, limit) && 0.0 <= limit
    requires n == NameTick(slot, Some(s), true, e)
    requires slot.child.Some? && e.exited ==> e.t0 + 60.0 <= limit
    requires n.child.None? && n.last != slot.last ==>
      e.t2 + (if e.busy then 10.0 else if e.starts then 0.0 else 60.0) <= limit
    ensures NotBefore(n, limit)
  {
    BackoffIsPositive(Remembered(slot).failures + 1);
    BackoffIsPositive(Remembered(slot).failures + 2);
  }

  lemma {:induction false} StaysNotBefore(s: Service, slots: seq<Slot>, envs: seq<Env>, i: nat, limit: real)
    requires Steady(s, slots, envs) && i < |slots| && PutOffUntil(slots, envs, i, limit)
    ensures NotBefore(slots[i], limit) && (slots[i].child.Some? ==> slots[i].child == Some(s))
  {
    if i > 0 {
      StaysNotBefore(s, slots, envs, i - 1, limit);
      assert Delays(slots, envs, i - 1, limit);
      TickNotBefore(s, slots[i - 1], envs[i - 1], slots[i], limit);
      ChildIsWanted(slots[i - 1], Some(s), true, envs[i - 1]);
    }
  }

  /** While a definition stays enabled, allowed and unchanged: a tick that finds no
      process and a free port, a minute after the last recorded failure and ten
      seconds after the last taken port, ends with the process running if it can be
      started, however many failures came before. */
  lemma ComesBack(s: Service, slots: seq<Slot>, envs: seq<Env>, i: nat, limit: real)
    requires Steady(s, slots, envs) && i < |envs| && PutOffUntil(slots, envs, i, limit)
    requires slots[i].child.None? || (envs[i].exited && envs[i].t0 + 60.0 <= limit)
    requires !envs[i].busy && envs[i].starts && envs[i].t1 >= limit
    ensures slots[i + 1].child == Some(s)
  {
    StaysNotBefore(s, slots, envs, i, limit);
    BackoffIsPositive(Remembered(slots[i]).failures + 1);
  }

  /** A service that is new to the supervisor is started by the first tick that finds
      its port free. */
  lemma FirstTickStarts(s: Service, slot: Slot, e: Env)
    requires s.enabled && slot == Slot(None, None) && 0.0 <= e.t1 && !e.busy && e.starts
    ensures NameTick(slot, Some(s), true, e).child == Some(s)
  {
  }

  /** What keeps a service down: a taken port for ten seconds, a start that fails for
      the backoff of one failure more. */
  lemma StaysDownFor(s: Service, slot: Slot, e: Env)
    requires s.enabled && slot.child.None? && slot.last.Some? && e.t1 >= slot.last.value.next && (e.busy || !e.starts)
    ensures var n, l := NameTick(slot, Some(s), true, e), slot.last.value;
      n == Slot(None, Some(if e.busy then l.(next := e.t2 + 10.0)
                           else l.(failures := l.failures + 1, next := e.t2 + Backoff(l.failures + 1))))
  {
  }

  // ---- Forgiveness ----------------------------------------------------------------------

  /** The process that tick `a` started is found running by every tick up to `c`. */
  ghost predicate RunsOn(slots: seq<Slot>, envs: seq<Env>, a: nat, c: nat)
    requires |slots| == |envs| + 1 && a < c < |slots|
  {
    && (slots[a].child.None? || envs[a].exited) && slots[a + 1].child.Some?
    && forall m | a < m < c :: !envs[m].exited
  }

  lemma LaunchIsTimed(s: Service, slot: Slot, e: Env, n: Slot)
    requires s.enabled && Tidy(slot) && (slot.child.Some? ==> slot.child == Some(s)) && Ordered(e)
    requires n == NameTick(slot, Some(s), true, e) && (slot.child.None? || e.exited) && n.child.Some?
    ensures n.last.Some? && n.last.value.started == Some(e.t3)
  {
  }

  lemma {:induction false} RunsSince(s: Service, slots: seq<Slot>, envs: seq<Env>, a: nat, c: nat)
    requires Steady(s, slots, envs) && a < c < |slots| && RunsOn(slots, envs, a, c)
    ensures slots[c].child == Some(s) && slots[c].last.Some? && slots[c].last.value.started == Some(envs[a].t3)
    ensures c > a + 1 && envs[c - 1].t3 - envs[a].t3 > 120.0 ==> slots[c].last.value.failures == 0
    decreases c
  {
    if c == a + 1 {
      Logged(s, slots, envs, a);
      LaunchIsTimed(s, slots[a], envs[a], slots[a + 1]);
      ChildIsWanted(slots[a], Some(s), true, envs[a]);
    } else {
      RunsSince(s, slots, envs, a, c - 1);
    }
  }

  lemma {:induction false} StaysForgiven(s: Service, slots: seq<Slot>, envs: seq<Env>, a: nat, b: nat, c: nat)
    requires Steady(s, slots, envs) && a < b < c < |slots| && RunsOn(slots, envs, a, c)
    requires envs[b].t3 - envs[a].t3 > 120.0
    ensures slots[c].child == Some(s) && slots[c].last.Some? && slots[c].last.value.failures == 0
    decreases c
  {
    RunsSince(s, slots, envs, a, c);
    if c > b + 1 { StaysForgiven(s, slots, envs, a, b, c - 1); RunsSince(s, slots, envs, a, c - 1); }
  }

  /** An exit of a process that a tick has seen running for over two minutes counts as
      the first failure: the next start is allowed two seconds later. */
  lemma ForgivenExitIsTheFirst(s: Service, slots: seq<Slot>, envs: seq<Env>, a: nat, b: nat, c: nat)
    requires Steady(s, slots, envs) && a < b < c < |envs| && RunsOn(slots, envs, a, c)
    requires envs[b].t3 - envs[a].t3 > 120.0 && envs[c].exited
    ensures envs[c].t1 < envs[c].t0 + 2.0 ==> slots[c + 1] == Slot(None, Some(Last(1, envs[c].t0 + 2.0, None)))
    ensures envs[c].t1 >= envs[c].t0 + 2.0 && !envs[c].busy && envs[c].starts ==> slots[c + 1].child == Some(s)
  {
    StaysForgiven(s, slots, envs, a, b, c);
    BackoffValues(1);
  }

  /** Any other exit counts one more. */
  lemma ExitCountsOneMore(s: Service, slot: Slot, e: Env)
    requires slot.child == Some(s) && slot.last.Some? && s.enabled && e.exited
    requires e.t1 < e.t0 + Backoff(slot.last.value.failures + 1)
    ensures NameTick(slot, Some(s), true, e)
         == Slot(None, Some(Last(slot.last.value.failures + 1, e.t0 + Backoff(slot.last.value.failures + 1), None)))
  {
  }

  // ---- Who is stopped ------------------------------------------------------------------------

  /** A process that has not exited is left running exactly when its service is listed
      with this very definition, enabled, and services are allowed. */
  lemma RunsOnExactlyWhen(slot: Slot, wanted: Option<Service>, allowed: bool, e: Env)
    requires slot.child.Some? && slot.last.Some? && !e.exited
    ensures var n, x := NameTick(slot, wanted, allowed, e), slot.child.value;
      && (wanted == Some(x) && x.enabled && allowed ==>
            && n.child == Some(x) && n.last.Some? && n.last.value.next == slot.last.value.next
            && n.last.value.started == (if slot.last.value.started.Some? then slot.last.value.started else Some(e.t3))
            && n.last.value.failures
               == (if slot.last.value.started.Some? && e.t3 - slot.last.value.started.value > 120.0 then 0
                   else slot.last.value.failures))
      && (!(wanted == Some(x) && x.enabled && allowed) ==>
            n == NameTick(Slot(None, None), wanted, allowed, e))
  {
  }

  /** A name that is not listed, or not to run, has no process, and what is remembered
      of its failures stays. */
  lemma UnwantedRests(slot: Slot, wanted: Option<Service>, allowed: bool, e: Env)
    requires !(wanted.Some? && wanted.value.enabled && allowed)
    ensures var n := NameTick(slot, wanted, allowed, e);
      && n.child.None?
      && (slot.child.None? && slot.last.Some? ==> n.last == slot.last)
      && (slot.child.Some? ==> n.last == if wanted.Some? then Some(Last(0, 0.0, None)) else None)
  {
  }
}
