/** The lane and one request's cleanup as the objects they are, each method tied
    to the machine's step. */
module ForwarderObjects {
  import opened Outcomes
  import opened ForwarderCleanup

  class InteractiveLane {
    var active: int
    var idle: bool

    ghost function View(): Lane
      reads this
    {
      Lane(active, idle)
    }

    constructor ()
      ensures View() == Lane(0, true)
    {
      active, idle := 0, true;
    }

    method EnterLane()
      modifies this
      ensures View() == Enter(old(View()))
    {
      active := active + 1;
      idle := false;
    }

    method LeaveLane() returns (ok: bool)
      modifies this
      ensures ok == Leave(old(View())).Some?
      ensures View() == if ok then Leave(old(View())).value else old(View())
    {
      if active < 1 { return false; }
      active := active - 1;
      if active == 0 { idle := true; }
      ok := true;
    }
  }

  /** How the awaited calls of one cleanup go. */
  datatype Awaited = Awaited(upstream: bool, client: bool, cacheFirst: bool, cacheSecond: bool)

  /** The cleanup task run to its end, as the machine's stretches. */
  function FromCache(r: Request, o: Awaited): Request {
    var r := if r.cleanup.ClosingCache? then Stepped(r, o.cacheFirst) else r;
    if r.cleanup.ClosingCache? then Stepped(r, o.cacheSecond) else r
  }

  function FromAbort(r: Request, o: Awaited): Request {
    FromCache(if r.cleanup == Aborting then Stepped(r, true) else r, o)
  }

  function FromClient(r: Request, o: Awaited): Request {
    FromAbort(if r.cleanup == ClosingClient then Stepped(r, o.client) else r, o)
  }

  function Completed(r: Request, o: Awaited): Request {
    FromClient(if r.cleanup == ClosingUpstream then Stepped(r, o.upstream) else r, o)
  }

  class Completion {
    const lane: InteractiveLane
    var r: Request

    constructor (lane: InteractiveLane, r: Request)
      ensures this.lane == lane && this.r == r
    {
      this.lane, this.r := lane, r;
    }

    /** The cache reference is tried twice. */
    method CloseCache(o: Awaited) returns (closed: bool)
      modifies this
      ensures closed == (o.cacheFirst || o.cacheSecond)
      ensures r ==
        old(r).(effects := old(r).effects.(cacheClosed := old(r).effects.cacheClosed + if closed then 1 else 0))
    {
      closed := false;
      var attempt := 0;
      while attempt < 2 && !closed
        invariant 0 <= attempt <= 2 && r == old(r)
        invariant closed == ((attempt >= 1 && o.cacheFirst) || (attempt >= 2 && o.cacheSecond))
        decreases 2 - attempt
      {
        closed := if attempt == 0 then o.cacheFirst else o.cacheSecond;
        attempt := attempt + 1;
      }
      if closed { r := r.(effects := r.effects.(cacheClosed := r.effects.cacheClosed + 1)); }
    }

    method Release()
      modifies this
      ensures r == old(r).(lease := LeaseAfterRelease(old(r).lease),
                           effects := old(r).effects.(released := old(r).effects.released + 1))
    {
      if r.lease == Held { r := r.(lease := Released); }
      r := r.(effects := r.effects.(released := r.effects.released + 1));
    }

    /** The body of the cleanup task: an early failure still ends in the cache
        reference and the lease, in that order. */
    method PerformCleanup(o: Awaited)
      requires r.cleanup == Created && !r.cleaned && (r.upstream ==> r.client) && (r.ordinary ==> lane.active >= 1)
      modifies this, lane
      ensures r == Direct(old(r), o)
      ensures lane.View() == if old(r).ordinary then Left(old(lane.View())) else old(lane.View())
    {
      r := r.(cleaned := true);
      if r.ordinary {
        var left := lane.LeaveLane();
        r := r.(ordinary := false, effects := r.effects.(left := r.effects.left + 1));
      }
      var failed := CloseConnections(o);
      if r.cacheNamed {
        var closed := CloseCache(o);
        if !closed {
          r := r.(cleanup := Done(false));
          return;
        }
      }
      Release();
      r := r.(cleanup := Done(!failed));
    }

    /** Stops at the first close that raises. */
    method CloseConnections(o: Awaited) returns (failed: bool)
      modifies this
      ensures var c := Connections(old(r).effects, old(r).upstream, old(r).client, o);
        r == old(r).(effects := c.0) && failed == c.1
    {
      failed := false;
      if r.upstream {
        r := r.(effects := r.effects.(upstream := r.effects.upstream + 1));
        if !o.upstream { return true; }
      }
      if r.client {
        r := r.(effects := r.effects.(client := r.effects.client + 1));
        if !o.client { return true; }
      }
      r := r.(effects := r.effects.(aborted := r.effects.aborted + 1));
    }
  }

  /** The effects of the closes, and whether one of them raised. */
  function Connections(e: Effects, upstream: bool, client: bool, o: Awaited): (Effects, bool) {
    var e1 := if upstream then e.(upstream := e.upstream + 1) else e;
    if upstream && !o.upstream then (e1, true)
    else
      var e2 := if client then e1.(client := e1.client + 1) else e1;
      if client && !o.client then (e2, true) else (e2.(aborted := e2.aborted + 1), false)
  }

  /** The end of the cleanup task: the cache reference, then the lease. */
  function Ended(r: Request, failed: bool, o: Awaited): Request {
    if r.cacheNamed && !o.cacheFirst && !o.cacheSecond then r.(cleanup := Done(false))
    else
      r.(cleanup := Done(!failed), lease := LeaseAfterRelease(r.lease), effects := LastEffects(r.effects, r.cacheNamed))
  }

  function LastEffects(e: Effects, cacheNamed: bool): Effects {
    e.(cacheClosed := e.cacheClosed + (if cacheNamed then 1 else 0), released := e.released + 1)
  }

  /** The cleanup task's effects in one go. */
  function Direct(r: Request, o: Awaited): Request {
    var left := r.effects.left + if r.ordinary then 1 else 0;
    var s := r.(cleaned := true, ordinary := false, effects := r.effects.(left := left));
    var c := Connections(s.effects, s.upstream, s.client, o);
    Ended(s.(effects := c.0), c.1, o)
  }

  lemma {:induction false} FinalIsEnded(r: Request, failed: bool, o: Awaited)
    ensures FromCache(Final(r, failed), o) == Ended(r, failed, o)
  {
    var f := Final(r, failed);
    if r.cacheNamed {
      assert f.cleanup == ClosingCache(failed, 0);
      var g := Stepped(f, o.cacheFirst);
      if o.cacheFirst {
        assert g == Ended(r, failed, o);
      } else {
        assert g.cleanup == ClosingCache(failed, 1);
        assert Stepped(g, o.cacheSecond) == Ended(r, failed, o);
      }
    } else {
      assert f == Ended(r, failed, o);
    }
  }

  lemma {:induction false} AbortPart(r: Request, o: Awaited, e: Effects)
    requires r.cleanup == Aborting && e == r.effects.(aborted := r.effects.aborted + 1)
    ensures FromAbort(r, o) == Ended(r.(effects := e), false, o)
  {
    FinalIsEnded(r.(effects := e), false, o);
  }

  lemma {:induction false} ClientPart(r: Request, o: Awaited, e: Effects)
    requires r.cleanup == ClosingClient && e == r.effects.(client := r.effects.client + 1)
    ensures o.client ==> FromClient(r, o) == FromAbort(r.(cleanup := Aborting, effects := e), o)
    ensures !o.client ==> FromClient(r, o) == Ended(r.(effects := e), true, o)
  {
    var n := r.(effects := e);
    if o.client {
      assert Stepped(r, true) == n.(cleanup := Aborting);
    } else {
      assert Stepped(r, false) == Final(n, true);
      FinalIsEnded(n, true, o);
      assert FromAbort(Final(n, true), o) == FromCache(Final(n, true), o);
    }
  }

  lemma {:induction false} UpstreamPart(r: Request, o: Awaited, e: Effects)
    requires r.cleanup == ClosingUpstream && r.client && e == r.effects.(upstream := r.effects.upstream + 1)
    ensures o.upstream ==> Completed(r, o) == FromClient(r.(cleanup := ClosingClient, effects := e), o)
    ensures !o.upstream ==> Completed(r, o) == Ended(r.(effects := e), true, o)
  {
    var n := r.(effects := e);
    if o.upstream {
      assert Stepped(r, true) == n.(cleanup := ClosingClient);
    } else {
      assert Stepped(r, false) == Final(n, true);
      FinalIsEnded(n, true, o);
      assert FromAbort(Final(n, true), o) == FromCache(Final(n, true), o);
    }
  }

  /** Where the task ends does not depend on the stage it is told from. */
  lemma {:induction false} EndedFrom(r: Request, c: Cleanup, failed: bool, o: Awaited)
    ensures Ended(r.(cleanup := c), failed, o) == Ended(r, failed, o)
  {
  }

  lemma {:induction false} GoesOnToAbort(s: Request, o: Awaited, e: Effects, n: Request, c: (Effects, bool))
    requires n == s.(cleanup := Aborting, effects := e) && c == (e.(aborted := e.aborted + 1), false)
    ensures FromAbort(n, o) == Ended(s.(effects := c.0), c.1, o)
  {
    AbortPart(n, o, c.0);
    EndedFrom(s.(effects := c.0), Aborting, false, o);
  }

  lemma {:induction false} FromClientOn(s: Request, o: Awaited, c: (Effects, bool))
    requires s.cleanup == ClosingClient && s.client && c == Connections(s.effects, false, true, o)
    ensures FromClient(s, o) == Ended(s.(effects := c.0), c.1, o)
  {
    var e := s.effects.(client := s.effects.client + 1);
    ClientPart(s, o, e);
    if o.client {
      assert c == (e.(aborted := e.aborted + 1), false);
      GoesOnToAbort(s, o, e, s.(cleanup := Aborting, effects := e), c);
    }
  }

  lemma {:induction false} GoesOnToTheClient(s: Request, o: Awaited, e: Effects, n: Request, c: (Effects, bool))
    requires n == s.(cleanup := ClosingClient, effects := e) && s.client && c == Connections(e, false, true, o)
    ensures FromClient(n, o) == Ended(s.(effects := c.0), c.1, o)
  {
    FromClientOn(n, o, c);
    EndedFrom(s.(effects := c.0), ClosingClient, c.1, o);
  }

  lemma {:induction false} FromUpstreamOn(s: Request, o: Awaited, c: (Effects, bool))
    requires s.cleanup == ClosingUpstream && s.client && c == Connections(s.effects, true, true, o)
    ensures Completed(s, o) == Ended(s.(effects := c.0), c.1, o)
  {
    var e := s.effects.(upstream := s.effects.upstream + 1);
    UpstreamPart(s, o, e);
    if o.upstream {
      assert c == Connections(e, false, true, o);
      GoesOnToTheClient(s, o, e, s.(cleanup := ClosingClient, effects := e), c);
    }
  }

  /** The straight-line cleanup is the machine's cleanup task, stretch by stretch,
      when nothing is prepared meanwhile. */
  lemma {:induction false} DirectIsCompleted(r: Request, o: Awaited)
    requires r.cleanup == Created && !r.cleaned && (r.upstream ==> r.client)
    ensures Direct(r, o) == Completed(Started(r), o)
  {
    var s := Started(r);
    var c := Connections(s.effects, s.upstream, s.client, o);
    if s.upstream {
      FromUpstreamOn(s, o, c);
    } else if s.client {
      FromClientOn(s, o, c);
    } else {
      AbortPart(s, o, s.effects.(aborted := s.effects.aborted + 1));
    }
    EndedFrom(r.(cleaned := true, ordinary := false, effects := c.0), s.cleanup, c.1, o);
  }
}
