/** What one request's cleanup promises, in terms of what was asked and how the
    awaited calls went. */
module ForwarderPromises {
  import opened ForwarderCleanup
  import opened ForwarderObjects

  // ---- What is done ------------------------------------------------------------------------

  /** Nothing has been done for the request yet. */
  predicate Untouched(r: Request) {
    r.cleanup == Created && !r.cleaned && r.effects == NO_EFFECTS && (r.upstream ==> r.client)
  }

  /** The whole cleanup, machine and straight line alike. Closing ends at the first
      call that raises: the client is closed only if the upstream's close went well,
      and the abort comes only if both did. The cache reference is tried twice, and
      the lease goes unless both attempts fail. */
  lemma {:induction false} CleanupDoes(r: Request, o: Awaited, n: Request)
    requires Untouched(r) && n in {Completed(Started(r), o), Direct(r, o)}
    ensures n.effects.left == (if r.ordinary then 1 else 0) && !n.ordinary
    ensures n.effects.upstream == if r.upstream then 1 else 0
    ensures n.effects.client == if r.client && (!r.upstream || o.upstream) then 1 else 0
    ensures n.effects.aborted == if (!r.upstream || o.upstream) && (!r.client || o.client) then 1 else 0
    ensures n.effects.cacheClosed == if r.cacheNamed && (o.cacheFirst || o.cacheSecond) then 1 else 0
    ensures n.effects.released == if r.cacheNamed && !o.cacheFirst && !o.cacheSecond then 0 else 1
    ensures n.lease == if r.lease == Held && n.effects.released == 1 then Released else r.lease
    ensures n.cleanup == Done(n.effects.aborted == 1 && n.effects.released == 1)
    ensures n.callers == r.callers && n.returned == r.returned
  {
    DirectIsCompleted(r, o);
  }

  /** Nothing of it is done out of order, in any state of any run: the client is
      closed after the upstream that was open, the abort comes after both, the lease
      goes after the cache reference. */
  lemma {:induction false} InOrder(states: seq<System>, events: seq<Event>, i: nat, id: Id)
    requires IsRun(states, events) && i < |states| && id in states[i].requests
    ensures var r, e := states[i].requests[id], states[i].requests[id].effects;
      && (e.client == 1 && r.upstream && !r.late.upstream ==> e.upstream == 1)
      && (e.aborted == 1 && r.upstream && !r.late.upstream ==> e.upstream == 1)
      && (e.aborted == 1 && r.client && !r.late.client ==> e.client == 1)
      && (e.released == 1 && r.cacheNamed && !r.late.lease ==> e.cacheClosed == 1)
      && (e.upstream + e.client + e.aborted + e.cacheClosed + e.released >= 1 ==> !r.ordinary && r.cleaned)
  {
    RunKeepsInv(states, events, i);
    assert CleanupInv(states[i].requests[id]);
  }

  // ---- What callers are told ------------------------------------------------------------------

  predicate IsAsk(e: Event, id: Id) { e.Ask? && e.id == id }

  ghost predicate WasAsked(events: seq<Event>, i: nat, id: Id)
    requires i <= |events|
  {
    exists k | 0 <= k < i :: IsAsk(events[k], id)
  }

  ghost predicate WasCancelled(events: seq<Event>, i: nat, id: Id, caller: Id)
    requires i <= |events|
  {
    exists k | 0 <= k < i :: events[k] == Cancel(id, caller)
  }

  lemma AskedStep(events: seq<Event>, i: nat, id: Id)
    requires i < |events|
    ensures WasAsked(events, i + 1, id) <==> WasAsked(events, i, id) || IsAsk(events[i], id)
  {
  }

  lemma CancelledStep(events: seq<Event>, i: nat, id: Id, caller: Id)
    requires i < |events|
    ensures WasCancelled(events, i + 1, id, caller) <==>
            WasCancelled(events, i, id, caller) || events[i] == Cancel(id, caller)
  {
  }

  /** The cleanup task is there exactly once somebody has asked for it. */
  lemma {:induction false} StartedWhenAsked(states: seq<System>, events: seq<Event>, i: nat, id: Id)
    requires IsRun(states, events) && i < |states|
    ensures WasAsked(events, i, id) <==> id in states[i].requests && states[i].requests[id].cleanup != Unasked
  {
    if i > 0 {
      StartedWhenAsked(states, events, i - 1, id);
      AskedStep(events, i - 1, id);
      assert Follows(states[i - 1], events[i - 1], states[i]);
      AskedOnly(states[i - 1], events[i - 1], id);
    }
  }

  lemma {:induction false} AskedOnly(s: System, e: Event, id: Id)
    requires Enabled(s, e)
    ensures id in Step(s, e).requests <==> id in s.requests || e == Arrive(id)
    ensures id in Step(s, e).requests ==>
      (Step(s, e).requests[id].cleanup != Unasked <==>
         (id in s.requests && s.requests[id].cleanup != Unasked) || IsAsk(e, id))
    ensures IsAsk(e, id) ==> id in s.requests
  {
    if id in s.requests && e.id == id && e.StepCleanup? { StaysAsked(s.requests[id], e.ok); }
  }

  /** Neither the asking nor the callers are undone. */
  predicate AskedAlike(r: Request, n: Request) {
    n.cleanup != Unasked && n.callers == r.callers && n.returned == r.returned
  }

  lemma {:induction false} FinalAsked(r: Request, failed: bool)
    ensures AskedAlike(r, Final(r, failed))
  {
  }

  lemma {:induction false} UpstreamAsked(r: Request, ok: bool, n: Request)
    requires r.cleanup == ClosingUpstream && n == r.(effects := r.effects.(upstream := r.effects.upstream + 1))
    ensures AskedAlike(r, Stepped(r, ok))
  {
    assert Stepped(r, ok) == if ok then n.(cleanup := if r.client then ClosingClient else Aborting) else Final(n, true);
    FinalAsked(n, true);
  }

  lemma {:induction false} ClientAsked(r: Request, ok: bool, n: Request)
    requires r.cleanup == ClosingClient && n == r.(effects := r.effects.(client := r.effects.client + 1))
    ensures AskedAlike(r, Stepped(r, ok))
  {
    assert Stepped(r, ok) == if ok then n.(cleanup := Aborting) else Final(n, true);
    FinalAsked(n, true);
  }

  lemma {:induction false} AbortAsked(r: Request, ok: bool, n: Request)
    requires r.cleanup == Aborting && n == r.(effects := r.effects.(aborted := r.effects.aborted + 1))
    ensures AskedAlike(r, Stepped(r, ok))
  {
    assert Stepped(r, ok) == Final(n, false);
    FinalAsked(n, false);
  }

  lemma {:induction false} CacheAsked(r: Request, ok: bool, failed: bool, tries: nat, e: Effects)
    requires r.cleanup == ClosingCache(failed, tries)
    requires e == r.effects.(cacheClosed := r.effects.cacheClosed + 1, released := r.effects.released + 1)
    ensures AskedAlike(r, Stepped(r, ok))
  {
    var end, more := LeaseAfterRelease(r.lease), if tries == 0 then ClosingCache(failed, 1) else Done(false);
    if ok {
      assert Stepped(r, true) == r.(cleanup := Done(!failed), lease := end, effects := e);
    } else {
      assert Stepped(r, false) == r.(cleanup := more);
    }
  }

  lemma {:induction false} StaysAsked(r: Request, ok: bool)
    requires AwaitsStep(r)
    ensures AskedAlike(r, Stepped(r, ok))
  {
    match r.cleanup
    case ClosingUpstream => UpstreamAsked(r, ok, r.(effects := r.effects.(upstream := r.effects.upstream + 1)));
    case ClosingClient => ClientAsked(r, ok, r.(effects := r.effects.(client := r.effects.client + 1)));
    case Aborting => AbortAsked(r, ok, r.(effects := r.effects.(aborted := r.effects.aborted + 1)));
    case ClosingCache(failed, tries) =>
      var e := r.effects;
      CacheAsked(r, ok, failed, tries, e.(cacheClosed := e.cacheClosed + 1, released := e.released + 1));
  }

  /** What is known of a caller: waiting, told, or neither. */
  ghost predicate Told(r: Request, caller: Id, cancelled: bool) {
    && (caller in r.callers ==> r.callers[caller].interrupted == cancelled)
    && (caller in r.returned ==>
          && r.cleanup.Done?
          && (r.returned[caller] == Raised <==> r.cleanup == Done(false))
          && (r.returned[caller] == Cancelled <==> r.cleanup == Done(true) && cancelled)
          && (r.returned[caller] == Normally <==> r.cleanup == Done(true) && !cancelled))
    && (caller !in r.callers && caller !in r.returned ==> !cancelled)
  }

  lemma {:induction false} ToldStep(r: Request, e: Event, caller: Id, cancelled: bool)
    requires CleanupInv(r) && MayHappen(r, e) && Told(r, caller, cancelled)
    requires caller !in r.callers || caller !in r.returned
    ensures Told(After(r, e), caller, cancelled || (e.Cancel? && e.caller == caller))
    ensures caller !in After(r, e).callers || caller !in After(r, e).returned
  {
    if e.StepCleanup? { StaysAsked(r, e.ok); }
  }

  ghost predicate ToldOf(s: System, id: Id, caller: Id, cancelled: bool) {
    if id in s.requests then
      && Told(s.requests[id], caller, cancelled)
      && (caller !in s.requests[id].callers || caller !in s.requests[id].returned)
    else !cancelled
  }

  lemma {:induction false} ToldOfStep(s: System, e: Event, id: Id, caller: Id, cancelled: bool)
    requires Inv(s) && Enabled(s, e) && ToldOf(s, id, caller, cancelled)
    ensures ToldOf(Step(s, e), id, caller, cancelled || e == Cancel(id, caller))
  {
    if id in s.requests && e.id == id {
      assert CleanupInv(s.requests[id]);
      ToldStep(s.requests[id], e, caller, cancelled);
    }
  }

  lemma {:induction false} ToldInRun(states: seq<System>, events: seq<Event>, i: nat, id: Id, caller: Id)
    requires IsRun(states, events) && i < |states|
    ensures ToldOf(states[i], id, caller, WasCancelled(events, i, id, caller))
  {
    if i > 0 {
      ToldInRun(states, events, i - 1, id, caller);
      CancelledStep(events, i - 1, id, caller);
      assert Follows(states[i - 1], events[i - 1], states[i]);
      RunKeepsInv(states, events, i - 1);
      ToldOfStep(states[i - 1], events[i - 1], id, caller, WasCancelled(events, i - 1, id, caller));
    }
  }

  /** A caller that returned learns how cleanup went: its failure, however often
      the caller was cancelled; otherwise its own cancellation exactly if it was
      cancelled while waiting. */
  lemma {:induction false} CallersAreTold(states: seq<System>, events: seq<Event>, i: nat, id: Id, caller: Id)
    requires IsRun(states, events) && i < |states| && id in states[i].requests
    requires caller in states[i].requests[id].returned
    ensures var r, cancelled := states[i].requests[id], WasCancelled(events, i, id, caller);
      && (r.returned[caller] == Raised <==> r.cleanup == Done(false))
      && (r.returned[caller] == Cancelled <==> r.cleanup == Done(true) && cancelled)
      && (r.returned[caller] == Normally <==> r.cleanup == Done(true) && !cancelled)
  {
    ToldInRun(states, events, i, id, caller);
  }
}
