/** Requests of the long-context forwarder: the interactive lane they enter, and
    their single cleanup however often it is asked for or cancelled. Every stretch
    between two awaits is one step. */
module ForwarderCleanup {
  import opened Outcomes

  type Id = nat

  datatype Lane = Lane(active: int, idle: bool)

  /** The one cleanup task of a request. `failed` tells that an earlier close
      raised; `tries` counts attempts to close the cache reference. */
  datatype Cleanup =
    | Unasked
    | Created
    | ClosingUpstream
    | ClosingClient
    | Aborting
    | ClosingCache(failed: bool, tries: nat)
    | Done(ok: bool)

  datatype Lease = NoLease | Held | Released

  /** What cleanup did, counted. */
  datatype Effects = Effects(left: nat, upstream: nat, client: nat, aborted: nat, cacheClosed: nat, released: nat)

  /** History: what preparation, still running, obtained when cleanup was already
      past it. */
  datatype Late = Late(lease: bool, client: bool, upstream: bool)

  /** A caller waiting in cleanup; whether it has been cancelled meanwhile. */
  datatype Caller = Caller(interrupted: bool)

  datatype Returned = Normally | Cancelled | Raised

  datatype Request = Request(
    tokenizing: bool,
    ordinary: bool,
    lease: Lease,
    cacheNamed: bool,
    client: bool,
    upstream: bool,
    late: Late,
    cleaned: bool,
    cleanup: Cleanup,
    effects: Effects,
    callers: map<Id, Caller>,
    returned: map<Id, Returned>)

  datatype System = System(lane: Lane, requests: map<Id, Request>)

  const NO_EFFECTS := Effects(0, 0, 0, 0, 0, 0)

  const NEVER_LATE := Late(false, false, false)

  const ARRIVAL :=
    Request(true, false, NoLease, false, false, false, NEVER_LATE, false, Unasked, NO_EFFECTS, map[], map[])

  // ---- The lane ----------------------------------------------------------------

  function Enter(lane: Lane): Lane { Lane(lane.active + 1, false) }

  /** None where the original raises for a lane nobody holds. */
  function Leave(lane: Lane): Option<Lane> {
    if lane.active < 1 then None else Some(Lane(lane.active - 1, if lane.active == 1 then true else lane.idle))
  }

  // ---- Preparation -----------------------------------------------------------------

  /** The guard grants the lease and the cache reference is named, in one stretch. */
  function Acquired(r: Request): Request {
    r.(lease := Held, cacheNamed := true, late := r.late.(lease := r.cleanup.Done?))
  }

  function ClientOpened(r: Request): Request {
    r.(client := true, late := r.late.(client := r.cleaned))
  }

  function UpstreamOpened(r: Request): Request {
    r.(upstream := true, late := r.late.(upstream := r.cleaned))
  }

  // ---- The cleanup task ----------------------------------------------------------

  function LeaseAfterRelease(lease: Lease): Lease {
    if lease == Held then Released else lease
  }

  /** After the closes: on to the cache reference, or straight to the release. */
  function Final(r: Request, failed: bool): Request {
    if r.cacheNamed then r.(cleanup := ClosingCache(failed, 0))
    else
      r.(cleanup := Done(!failed), lease := LeaseAfterRelease(r.lease),
         effects := r.effects.(released := r.effects.released + 1))
  }

  /** The task's first stretch, up to its first await. */
  function Started(r: Request): Request {
    if r.cleaned then r.(cleanup := Done(true))
    else
      r.(cleaned := true, ordinary := false,
         effects := r.effects.(left := r.effects.left + if r.ordinary then 1 else 0),
         cleanup := if r.upstream then ClosingUpstream else if r.client then ClosingClient else Aborting)
  }

  /** The next stretch, after the awaited call went well or raised. */
  function Stepped(r: Request, ok: bool): Request {
    match r.cleanup
    case ClosingUpstream =>
      var n := r.(effects := r.effects.(upstream := r.effects.upstream + 1));
      if !ok then Final(n, true) else n.(cleanup := if r.client then ClosingClient else Aborting)
    case ClosingClient =>
      var n := r.(effects := r.effects.(client := r.effects.client + 1));
      if !ok then Final(n, true) else n.(cleanup := Aborting)
    case Aborting => Final(r.(effects := r.effects.(aborted := r.effects.aborted + 1)), false)
    case ClosingCache(failed, tries) =>
      if ok then
        r.(cleanup := Done(!failed), lease := LeaseAfterRelease(r.lease),
           effects := r.effects.(cacheClosed := r.effects.cacheClosed + 1, released := r.effects.released + 1))
      else if tries == 0 then r.(cleanup := ClosingCache(failed, 1))
      else r.(cleanup := Done(false))
    case _ => r
  }

  predicate AwaitsStep(r: Request) {
    r.cleanup.ClosingUpstream? || r.cleanup.ClosingClient? || r.cleanup.Aborting? || r.cleanup.ClosingCache?
  }

  // ---- The callers ----------------------------------------------------------------

  /** Asking for cleanup starts the cleanup task only the first time. */
  function Asked(r: Request, caller: Id): Request {
    r.(cleanup := if r.cleanup == Unasked then Created else r.cleanup, callers := r.callers[caller := Caller(false)])
  }

  function Outcome(c: Cleanup, interrupted: bool): Returned {
    if c == Done(false) then Raised else if interrupted then Cancelled else Normally
  }

  function Answered(r: Request, caller: Id): Request
    requires caller in r.callers
  {
    r.(callers := r.callers - {caller},
       returned := r.returned[caller := Outcome(r.cleanup, r.callers[caller].interrupted)])
  }

  // ---- The system ------------------------------------------------------------------

  datatype Event =
    | Arrive(id: Id)
    | Tokenized(id: Id)
    | OwnLane(id: Id)
    | Acquire(id: Id)
    | OpenClient(id: Id)
    | OpenUpstream(id: Id)
    | Ask(id: Id, caller: Id)
    | Cancel(id: Id, caller: Id)
    | Return(id: Id, caller: Id)
    | StartCleanup(id: Id)
    | StepCleanup(id: Id, ok: bool)

  /** An ordinary request owns the lane before anything can ask for its cleanup.
      Preparation and dispatch may go on at any time, also after that: the
      response's background cleanup awaits neither. */
  predicate MayHappen(r: Request, e: Event) {
    match e
    case Arrive(_) => false
    case Tokenized(_) => r.tokenizing
    case OwnLane(_) => !r.tokenizing && !r.ordinary && r.lease == NoLease && r.cleanup == Unasked
    case Acquire(_) => !r.tokenizing && !r.ordinary && r.lease == NoLease
    case OpenClient(_) => !r.tokenizing && !r.client
    case OpenUpstream(_) => !r.tokenizing && r.client && !r.upstream
    case Ask(_, caller) => !r.tokenizing && caller !in r.callers && caller !in r.returned
    case Cancel(_, caller) => caller in r.callers && !r.cleanup.Done?
    case Return(_, caller) => caller in r.callers && r.cleanup.Done?
    case StartCleanup(_) => r.cleanup == Created
    case StepCleanup(_, _) => AwaitsStep(r)
  }

  predicate Enabled(s: System, e: Event) {
    if e.Arrive? then e.id !in s.requests else e.id in s.requests && MayHappen(s.requests[e.id], e)
  }

  /** Leaving the lane; the lane is left as it is where the original raises. */
  function Left(lane: Lane): Lane {
    if Leave(lane).Some? then Leave(lane).value else lane
  }

  /** What an event makes of the request it names. */
  function After(r: Request, e: Event): Request
    requires MayHappen(r, e)
  {
    match e
    case Tokenized(_) => r.(tokenizing := false)
    case OwnLane(_) => r.(ordinary := true)
    case Acquire(_) => Acquired(r)
    case OpenClient(_) => ClientOpened(r)
    case OpenUpstream(_) => UpstreamOpened(r)
    case Ask(_, caller) => Asked(r, caller)
    case Cancel(_, caller) => r.(callers := r.callers[caller := Caller(true)])
    case Return(_, caller) => Answered(r, caller)
    case StartCleanup(_) => Started(r)
    case StepCleanup(_, ok) => Stepped(r, ok)
  }

  /** What it makes of the lane. */
  function LaneAfter(lane: Lane, r: Request, e: Event): Lane {
    match e
    case Arrive(_) => Enter(lane)
    case Tokenized(_) => Left(lane)
    case OwnLane(_) => Enter(lane)
    case StartCleanup(_) => if r.ordinary && !r.cleaned then Left(lane) else lane
    case _ => lane
  }

  function Step(s: System, e: Event): System
    requires Enabled(s, e)
  {
    if e.Arrive? then System(Enter(s.lane), s.requests[e.id := ARRIVAL])
    else
      var r := s.requests[e.id];
      System(LaneAfter(s.lane, r, e), s.requests[e.id := After(r, e)])
  }

  // ---- What every state keeps ---------------------------------------------------------

  predicate Owns(r: Request) { r.tokenizing || r.ordinary }

  function Owners(requests: map<Id, Request>): set<Id> {
    set id | id in requests && Owns(requests[id])
  }

  predicate LaneInv(s: System) {
    s.lane.active == |Owners(s.requests)| && (s.lane.idle <==> s.lane.active == 0)
  }

  function Stage(c: Cleanup): nat {
    match c
    case Unasked => 0
    case Created => 0
    case ClosingUpstream => 1
    case ClosingClient => 2
    case Aborting => 3
    case ClosingCache(_, _) => 4
    case Done(_) => 5
  }

  /** Cleanup goes on, or ended, without any call having raised. */
  predicate Unfailed(c: Cleanup) {
    match c
    case ClosingCache(failed, _) => !failed
    case Done(ok) => ok
    case _ => true
  }

  predicate EntryInv(tokenizing: bool, ordinary: bool, cleaned: bool, c: Cleanup, left: nat) {
    && (tokenizing ==> !ordinary && c == Unasked)
    && (cleaned <==> Stage(c) >= 1)
    && (Stage(c) >= 1 ==> !ordinary)
    && left <= 1 && (Stage(c) == 0 ==> left == 0)
  }

  ghost predicate CallersInv(c: Cleanup, callers: map<Id, Caller>, returned: map<Id, Returned>) {
    && (c == Unasked ==> callers == map[])
    && (!c.Done? ==> returned == map[])
    && forall k | k in returned :: returned[k] == Raised <==> c == Done(false)
  }

  /** A connection open in time is closed once its turn has come, unless an
      earlier call raised; one opened late is never closed. */
  predicate ConnectionsInv(c: Cleanup, client: bool, upstream: bool, late: Late, e: Effects) {
    && (upstream ==> client)
    && e.upstream == (if Stage(c) >= 2 && upstream && !late.upstream then 1 else 0)
    && e.client <= 1 && (Stage(c) <= 2 || !client ==> e.client == 0)
    && (Stage(c) >= 3 && Unfailed(c) ==> e.client == (if client && !late.client then 1 else 0))
    && (e.aborted >= 1 ==> e.client == (if client && !late.client then 1 else 0))
    && (late.upstream ==> upstream && Stage(c) >= 1)
    && (late.client ==> client && Stage(c) >= 3 && e.client == 0)
    && (Stage(c) == 1 ==> upstream && !late.upstream)
    && (Stage(c) == 2 ==> client && !late.client)
    && (late.client && upstream ==> late.upstream)
  }

  predicate AbortInv(c: Cleanup, aborted: nat) {
    aborted <= 1 && (Stage(c) <= 3 ==> aborted == 0) && (Stage(c) >= 4 && Unfailed(c) ==> aborted == 1)
  }

  /** A named cache reference is closed before the lease goes; a lease granted
      after that stays. */
  predicate LeaseInv(c: Cleanup, lease: Lease, cacheNamed: bool, late: bool, cacheClosed: nat, released: nat) {
    && (cacheNamed <==> lease != NoLease)
    && cacheClosed <= 1 && released <= 1
    && (Stage(c) <= 4 ==> cacheClosed == 0 && released == 0 && lease != Released && !late)
    && (Stage(c) == 4 ==> lease == Held)
    && (lease == Released ==> cacheClosed == 1 && released == 1)
    && (Stage(c) == 5 && released == 0 ==> c == Done(false) && lease == Held && !late && cacheClosed == 0)
    && (Stage(c) == 5 && released == 1 ==> (lease == Held <==> late))
    && (late || lease == NoLease ==> cacheClosed == 0)
  }

  ghost predicate CleanupInv(r: Request) {
    && EntryInv(r.tokenizing, r.ordinary, r.cleaned, r.cleanup, r.effects.left)
    && CallersInv(r.cleanup, r.callers, r.returned)
    && ConnectionsInv(r.cleanup, r.client, r.upstream, r.late, r.effects)
    && AbortInv(r.cleanup, r.effects.aborted)
    && LeaseInv(r.cleanup, r.lease, r.cacheNamed, r.late.lease, r.effects.cacheClosed, r.effects.released)
  }

  ghost predicate Inv(s: System) {
    LaneInv(s) && forall id | id in s.requests :: CleanupInv(s.requests[id])
  }

  // ---- Each step of one request ----------------------------------------------------------

  lemma {:induction false} StartKeeps(r: Request)
    requires CleanupInv(r) && r.cleanup == Created
    ensures CleanupInv(Started(r)) && !Owns(Started(r))
  {
  }

  lemma {:induction false} FinalKeeps(r: Request, failed: bool)
    requires EntryInv(r.tokenizing, r.ordinary, r.cleaned, r.cleanup, r.effects.left) && 1 <= Stage(r.cleanup) <= 3
    requires CallersInv(r.cleanup, r.callers, r.returned)
    requires LeaseInv(r.cleanup, r.lease, r.cacheNamed, r.late.lease, r.effects.cacheClosed, r.effects.released)
    requires var end := Final(r, failed).cleanup;
      ConnectionsInv(end, r.client, r.upstream, r.late, r.effects) && AbortInv(end, r.effects.aborted)
    ensures CleanupInv(Final(r, failed)) && Owns(Final(r, failed)) == Owns(r)
  {
  }

  lemma {:induction false} UpstreamStepKeeps(r: Request, ok: bool, n: Request)
    requires CleanupInv(r) && r.cleanup == ClosingUpstream && n == r.(effects := r.effects.(upstream := 1))
    ensures CleanupInv(Stepped(r, ok)) && Owns(Stepped(r, ok)) == Owns(r)
  {
    assert r.effects.upstream == 0;
    if ok {
      assert Stepped(r, true) == n.(cleanup := ClosingClient);
    } else {
      assert Stepped(r, false) == Final(n, true);
      FinalKeeps(n, true);
    }
  }

  lemma {:induction false} ClientStepKeeps(r: Request, ok: bool, n: Request)
    requires CleanupInv(r) && r.cleanup == ClosingClient && n == r.(effects := r.effects.(client := 1))
    ensures CleanupInv(Stepped(r, ok)) && Owns(Stepped(r, ok)) == Owns(r)
  {
    assert r.effects.client == 0;
    if ok {
      assert Stepped(r, true) == n.(cleanup := Aborting);
    } else {
      assert Stepped(r, false) == Final(n, true);
      FinalKeeps(n, true);
    }
  }

  lemma {:induction false} AbortStepKeeps(r: Request, ok: bool, n: Request)
    requires CleanupInv(r) && r.cleanup == Aborting && n == r.(effects := r.effects.(aborted := 1))
    ensures CleanupInv(Stepped(r, ok)) && Owns(Stepped(r, ok)) == Owns(r)
  {
    assert r.effects.aborted == 0;
    assert Stepped(r, ok) == Final(n, false);
    FinalKeeps(n, false);
  }

  lemma {:induction false} CacheStepKeeps(r: Request, ok: bool)
    requires CleanupInv(r) && r.cleanup.ClosingCache?
    ensures CleanupInv(Stepped(r, ok)) && Owns(Stepped(r, ok)) == Owns(r)
  {
  }

  lemma {:induction false} TaskStepKeeps(r: Request, ok: bool)
    requires CleanupInv(r) && AwaitsStep(r)
    ensures CleanupInv(Stepped(r, ok)) && Owns(Stepped(r, ok)) == Owns(r)
  {
    match r.cleanup
    case ClosingUpstream => UpstreamStepKeeps(r, ok, r.(effects := r.effects.(upstream := 1)));
    case ClosingClient => ClientStepKeeps(r, ok, r.(effects := r.effects.(client := 1)));
    case Aborting => AbortStepKeeps(r, ok, r.(effects := r.effects.(aborted := 1)));
    case ClosingCache(_, _) => CacheStepKeeps(r, ok);
  }

  lemma {:induction false} PreparationKeeps(r: Request, e: Event)
    requires CleanupInv(r) && MayHappen(r, e) && (e.Acquire? || e.OpenClient? || e.OpenUpstream?)
    ensures CleanupInv(After(r, e)) && Owns(After(r, e)) == Owns(r)
  {
  }

  lemma {:induction false} AskKeeps(r: Request, caller: Id)
    requires CleanupInv(r) && !r.tokenizing && caller !in r.returned
    ensures CleanupInv(Asked(r, caller)) && Owns(Asked(r, caller)) == Owns(r)
  {
  }

  lemma {:induction false} AnswerKeeps(r: Request, caller: Id)
    requires CleanupInv(r) && caller in r.callers && r.cleanup.Done?
    ensures CleanupInv(Answered(r, caller)) && Owns(Answered(r, caller)) == Owns(r)
  {
  }

  lemma {:induction false} CancelKeeps(r: Request, caller: Id)
    requires CleanupInv(r) && caller in r.callers
    ensures CleanupInv(r.(callers := r.callers[caller := Caller(true)]))
  {
  }

  /** Steps that leave the request's hold on the lane as it is. */
  lemma {:induction false} AfterKeeps(r: Request, e: Event)
    requires CleanupInv(r) && MayHappen(r, e) && !e.Tokenized? && !e.OwnLane? && !e.StartCleanup?
    ensures CleanupInv(After(r, e)) && Owns(After(r, e)) == Owns(r)
  {
    match e
    case Ask(_, caller) => AskKeeps(r, caller);
    case Cancel(_, caller) => CancelKeeps(r, caller);
    case Return(_, caller) => AnswerKeeps(r, caller);
    case StepCleanup(_, ok) => TaskStepKeeps(r, ok);
    case _ => PreparationKeeps(r, e);
  }

  // ---- Each step of the system -------------------------------------------------------------

  lemma {:induction false} OwnersChange(requests: map<Id, Request>, id: Id, r: Request)
    ensures var before, after := |Owners(requests)|, |Owners(requests[id := r])|;
      after == before + (if Owns(r) then 1 else 0) - (if id in requests && Owns(requests[id]) then 1 else 0)
  {
    var o, n := Owners(requests), Owners(requests[id := r]);
    var rest := o - {id};
    assert n == if Owns(r) then rest + {id} else rest;
    assert o == if id in requests && Owns(requests[id]) then rest + {id} else rest;
  }

  /** One request's record moves on; its hold on the lane, and the lane with it,
      as told. */
  lemma {:induction false} Moves(s: System, id: Id, r: Request, lane: Lane)
    requires Inv(s) && CleanupInv(r)
    requires var was := id in s.requests && Owns(s.requests[id]);
      lane == if Owns(r) && !was then Enter(s.lane) else if was && !Owns(r) then Left(s.lane) else s.lane
    ensures Inv(System(lane, s.requests[id := r]))
    ensures id in s.requests && Owns(s.requests[id]) ==> Leave(s.lane).Some?
  {
    OwnersChange(s.requests, id, r);
    if id in s.requests && Owns(s.requests[id]) { assert id in Owners(s.requests); }
  }

  lemma {:induction false} ArrivalKeeps(s: System, id: Id)
    requires Inv(s) && id !in s.requests
    ensures Inv(System(Enter(s.lane), s.requests[id := ARRIVAL]))
  {
    Moves(s, id, ARRIVAL, Enter(s.lane));
  }

  lemma {:induction false} TokenizedKeeps(r: Request)
    requires CleanupInv(r) && r.tokenizing
    ensures CleanupInv(r.(tokenizing := false)) && !Owns(r.(tokenizing := false))
  {
  }

  lemma {:induction false} OwnLaneKeeps(r: Request)
    requires CleanupInv(r) && !r.tokenizing && r.cleanup == Unasked
    ensures CleanupInv(r.(ordinary := true))
  {
  }

  lemma {:induction false} LaneStepKeeps(s: System, e: Event, r: Request)
    requires Inv(s) && Enabled(s, e) && (e.Tokenized? || e.OwnLane? || e.StartCleanup?) && r == s.requests[e.id]
    ensures Inv(Step(s, e))
  {
    match e
    case Tokenized(_) => TokenizedKeeps(r); Moves(s, e.id, After(r, e), Left(s.lane));
    case OwnLane(_) => OwnLaneKeeps(r); Moves(s, e.id, After(r, e), Enter(s.lane));
    case StartCleanup(_) => StartKeeps(r); Moves(s, e.id, Started(r), if r.ordinary then Left(s.lane) else s.lane);
  }

  lemma {:induction false} StepKeepsInv(s: System, e: Event)
    requires Inv(s) && Enabled(s, e)
    ensures Inv(Step(s, e))
  {
    if e.Arrive? {
      ArrivalKeeps(s, e.id);
    } else if e.Tokenized? || e.OwnLane? || e.StartCleanup? {
      LaneStepKeeps(s, e, s.requests[e.id]);
    } else {
      AfterKeeps(s.requests[e.id], e);
      Moves(s, e.id, After(s.requests[e.id], e), s.lane);
    }
  }

  // ---- Whole runs -----------------------------------------------------------------------

  ghost predicate IsRun(states: seq<System>, events: seq<Event>) {
    && |states| == |events| + 1 && states[0] == System(Lane(0, true), map[])
    && forall i | 0 <= i < |events| :: Follows(states[i], events[i], states[i + 1])
  }

  predicate Follows(s: System, e: Event, n: System) {
    Enabled(s, e) && n == Step(s, e)
  }

  lemma {:induction false} RunKeepsInv(states: seq<System>, events: seq<Event>, i: nat)
    requires IsRun(states, events) && i < |states|
    ensures Inv(states[i])
  {
    if i > 0 {
      RunKeepsInv(states, events, i - 1);
      assert Follows(states[i - 1], events[i - 1], states[i]);
      StepKeepsInv(states[i - 1], events[i - 1]);
    } else {
      assert Owners(states[0].requests) == {};
    }
  }

  function Tokenizing(s: System): set<Id> { set id | id in s.requests && s.requests[id].tokenizing }
  function Ordinary(s: System): set<Id> { set id | id in s.requests && s.requests[id].ordinary }

  /** In every state the lane counts the tokenizing and the ordinary requests that
      still own it, its idle event is set exactly when there are none, and nobody
      is about to leave a lane that counts zero. */
  lemma {:induction false} LaneIsExact(states: seq<System>, events: seq<Event>, i: nat)
    requires IsRun(states, events) && i < |states|
    ensures var s := states[i];
      && s.lane.active == |Tokenizing(s)| + |Ordinary(s)| && (s.lane.idle <==> s.lane.active == 0)
      && (Tokenizing(s) + Ordinary(s) != {} ==> Leave(s.lane).Some?)
  {
    RunKeepsInv(states, events, i);
    var s := states[i];
    assert Owners(s.requests) == Tokenizing(s) + Ordinary(s);
    forall id | id in Tokenizing(s) ensures id !in Ordinary(s) { assert CleanupInv(s.requests[id]); }
    assert Tokenizing(s) !! Ordinary(s);
  }

  /** Whatever is asked, cancelled, repeated and prepared meanwhile, each effect of
      a request's cleanup happens at most once. */
  lemma {:induction false} CleanupAtMostOnce(states: seq<System>, events: seq<Event>, i: nat, id: Id)
    requires IsRun(states, events) && i < |states| && id in states[i].requests
    ensures var e := states[i].requests[id].effects;
      && e.left <= 1 && e.upstream <= 1 && e.client <= 1 && e.aborted <= 1 && e.cacheClosed <= 1 && e.released <= 1
  {
    RunKeepsInv(states, events, i);
    assert CleanupInv(states[i].requests[id]);
  }

  /** A caller returns only once the cleanup task is over, raises exactly when it
      failed, and otherwise finds every effect done: a connection is then closed
      exactly if it was not opened behind cleanup's back. */
  lemma {:induction false} CallersSeeItDone(states: seq<System>, events: seq<Event>, i: nat, id: Id, caller: Id)
    requires IsRun(states, events) && i < |states| && id in states[i].requests
    requires caller in states[i].requests[id].returned
    ensures var r, e := states[i].requests[id], states[i].requests[id].effects;
      && r.cleanup.Done? && !r.ordinary && (r.returned[caller] == Raised <==> r.cleanup == Done(false))
      && (r.returned[caller] != Raised ==>
            && e.aborted == 1 && e.released == 1
            && (r.client ==> (e.client == 1 <==> !r.late.client))
            && (r.upstream ==> (e.upstream == 1 <==> !r.late.upstream)))
  {
    RunKeepsInv(states, events, i);
    assert CleanupInv(states[i].requests[id]);
  }

  /** The long lease is released only once the cache reference it came with is
      closed, in every run. */
  lemma {:induction false} LeaseOutlivesItsCache(states: seq<System>, events: seq<Event>, i: nat, id: Id)
    requires IsRun(states, events) && i < |states| && id in states[i].requests
    ensures var r := states[i].requests[id];
      && (r.cacheNamed <==> r.lease != NoLease)
      && (r.lease == Released ==> r.effects.cacheClosed == 1)
  {
    RunKeepsInv(states, events, i);
    assert CleanupInv(states[i].requests[id]);
  }

  /** Once cleanup is over, the lease is still held in exactly two cases: both
      attempts to close its cache reference failed, or it was granted after
      cleanup had ended. Nothing gives it back then. */
  lemma {:induction false} LeaseIsKeptExactlyWhen(states: seq<System>, events: seq<Event>, i: nat, id: Id)
    requires IsRun(states, events) && i < |states| && id in states[i].requests && states[i].requests[id].cleanup.Done?
    ensures var r := states[i].requests[id];
      && (r.lease == Held <==> r.effects.released == 0 || r.late.lease)
      && (r.effects.released == 0 ==> r.cacheNamed && r.effects.cacheClosed == 0 && r.cleanup == Done(false))
  {
    RunKeepsInv(states, events, i);
    assert CleanupInv(states[i].requests[id]);
  }

  lemma {:induction false} KeptStep(s: System, e: Event, id: Id)
    requires Inv(s) && Enabled(s, e) && id in s.requests && s.requests[id].cleanup.Done? && s.requests[id].lease == Held
    ensures id in Step(s, e).requests
    ensures var r := Step(s, e).requests[id]; r.cleanup.Done? && r.lease == Held
  {
    assert CleanupInv(s.requests[id]);
  }

  /** A lease held after cleanup stays held to the end of the run. */
  lemma {:induction false} KeptForGood(states: seq<System>, events: seq<Event>, i: nat, j: nat, id: Id)
    requires IsRun(states, events) && i <= j < |states| && id in states[i].requests
    requires states[i].requests[id].cleanup.Done? && states[i].requests[id].lease == Held
    ensures id in states[j].requests && states[j].requests[id].cleanup.Done? && states[j].requests[id].lease == Held
    decreases j
  {
    if i < j {
      KeptForGood(states, events, i, j - 1, id);
      RunKeepsInv(states, events, j - 1);
      assert Follows(states[j - 1], events[j - 1], states[j]);
      KeptStep(states[j - 1], events[j - 1], id);
    }
  }

  // ---- A lease granted behind cleanup's back ------------------------------------------------

  /** A long request's response ends and its background cleanup runs to the end
      while preparation still waits for the lease, which is granted then. */
  const LATE_EVENTS: seq<Event> :=
    [Arrive(0), Tokenized(0), Ask(0, 1), StartCleanup(0), StepCleanup(0, true), Return(0, 1), Acquire(0)]

  function LateRequest(i: nat): Request {
    var waiting := ARRIVAL.(tokenizing := false);
    var asked := Asked(waiting, 1);
    var done := Stepped(Started(asked), true);
    var answered := done.(callers := map[], returned := map[1 := Normally]);
    if i <= 1 then ARRIVAL else if i == 2 then waiting else if i == 3 then asked else if i == 4 then Started(asked)
    else if i == 5 then done else if i == 6 then answered else Acquired(answered)
  }

  function LateState(i: nat): System {
    if i == 0 then System(Lane(0, true), map[])
    else System(if i == 1 then Lane(1, false) else Lane(0, true), map[0 := LateRequest(i)])
  }

  lemma {:induction false} LateStep(i: nat, s: System, n: System)
    requires i < 7 && s == LateState(i) && n == LateState(i + 1)
    ensures Follows(s, LATE_EVENTS[i], n)
  {
    if i == 5 { assert n.requests[0] == Answered(s.requests[0], 1); }
  }

  /** So the lease can outlive cleanup, which the caller saw succeed. */
  lemma {:induction false} ALateLeaseIsKept()
    ensures var states := seq(8, i requires 0 <= i < 8 => LateState(i));
      && IsRun(states, LATE_EVENTS)
      && states[7].requests[0].returned == map[1 := Normally]
      && states[7].requests[0].cleanup == Done(true) && states[7].requests[0].lease == Held
  {
    forall i: nat | i < 7 ensures Follows(LateState(i), LATE_EVENTS[i], LateState(i + 1)) {
      LateStep(i, LateState(i), LateState(i + 1));
    }
  }

  // ---- The cleanup task ends ------------------------------------------------------------------

  /** Steps the cleanup task may still take. */
  function Remaining(c: Cleanup): nat {
    match c
    case Unasked => 7
    case Created => 6
    case ClosingUpstream => 5
    case ClosingClient => 4
    case Aborting => 3
    case ClosingCache(_, tries) => if tries == 0 then 2 else 1
    case Done(_) => 0
  }

  lemma {:induction false} TaskAdvances(r: Request, e: Event)
    requires CleanupInv(r) && MayHappen(r, e) && (e.StartCleanup? || e.StepCleanup?)
    ensures Remaining(After(r, e).cleanup) < Remaining(r.cleanup)
  {
  }

  /** Once asked for, cleanup is over after at most six stretches of its task,
      however its calls fail, and nothing else sets it back. */
  lemma {:induction false} CleanupEnds(s: System, e: Event, id: Id)
    requires Inv(s) && Enabled(s, e) && id in s.requests
    ensures id in Step(s, e).requests
    ensures Remaining(Step(s, e).requests[id].cleanup) <= Remaining(s.requests[id].cleanup)
    ensures (e.StartCleanup? || e.StepCleanup?) && e.id == id ==>
      Remaining(Step(s, e).requests[id].cleanup) < Remaining(s.requests[id].cleanup)
  {
    if e.id == id && (e.StartCleanup? || e.StepCleanup?) { TaskAdvances(s.requests[id], e); }
  }
}
