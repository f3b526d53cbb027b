/** The per-owner promise chain that serialises credential calls.

    A ticket stands for the promise `next` that one admitted call creates; a
    ticket that has been issued and is no longer in `calls` is a resolved
    promise. The three events are the code between two suspension points:
    admission up to `await previous`, the resumption of that await, and the
    `finally` block. */
module CallLock {
  import opened Outcomes

  type Owner = string
  type Ticket = nat

  const OWNER_LIMIT: nat := 4
  const TOTAL_LIMIT: nat := 64

  datatype Call = Call(owner: Owner, previous: Option<Ticket>, running: bool)

  /** `queued`, `inflight` and `locks` are the broker's fields. `calls` holds
      the suspended or running frames, `issued` numbers the promises, and
      `begun` records the order in which bodies started. */
  datatype Lock = Lock(
    queued: map<Owner, nat>,
    inflight: int,
    locks: map<Owner, Ticket>,
    calls: map<Ticket, Call>,
    issued: Ticket,
    begun: seq<(Ticket, Owner)>)

  const EMPTY: Lock := Lock(map[], 0, map[], map[], 0, [])

  datatype Event = Admit(owner: Owner) | Begin(ticket: Ticket) | Settle(ticket: Ticket)

  function QueuedFor(s: Lock, owner: Owner): nat {
    if owner in s.queued then s.queued[owner] else 0
  }

  /** The refusal with status 429. */
  predicate Refused(s: Lock, owner: Owner) {
    QueuedFor(s, owner) >= OWNER_LIMIT || s.inflight >= TOTAL_LIMIT
  }

  function AdmitStep(s: Lock, owner: Owner): Lock {
    var previous := if owner in s.locks then Some(s.locks[owner]) else None;
    s.(queued := s.queued[owner := QueuedFor(s, owner) + 1],
       inflight := s.inflight + 1,
       locks := s.locks[owner := s.issued],
       calls := s.calls[s.issued := Call(owner, previous, false)],
       issued := s.issued + 1)
  }

  /** `await previous` can resume: the promise it waits for is resolved. */
  predicate CanBegin(s: Lock, t: Ticket) {
    && t in s.calls
    && !s.calls[t].running
    && (s.calls[t].previous.Some? ==> s.calls[t].previous.value !in s.calls)
  }

  function BeginStep(s: Lock, t: Ticket): Lock
    requires t in s.calls
  {
    s.(calls := s.calls[t := s.calls[t].(running := true)],
       begun := s.begun + [(t, s.calls[t].owner)])
  }

  predicate CanSettle(s: Lock, t: Ticket) {
    t in s.calls && s.calls[t].running
  }

  function SettleStep(s: Lock, t: Ticket): Lock
    requires t in s.calls
  {
    var owner := s.calls[t].owner;
    var count := QueuedFor(s, owner) - 1;
    s.(calls := s.calls - {t},
       inflight := s.inflight - 1,
       queued := if count > 0 then s.queued[owner := count] else s.queued - {owner},
       locks := if owner in s.locks && s.locks[owner] == t then s.locks - {owner} else s.locks)
  }

  /** A disabled or refused event leaves the state as it is. */
  function Step(s: Lock, e: Event): Lock {
    match e
    case Admit(owner) => if Refused(s, owner) then s else AdmitStep(s, owner)
    case Begin(t) => if CanBegin(s, t) then BeginStep(s, t) else s
    case Settle(t) => if CanSettle(s, t) then SettleStep(s, t) else s
  }

  function Run(s: Lock, events: seq<Event>): Lock
    decreases |events|
  {
    if events == [] then s else Run(Step(s, events[0]), events[1..])
  }

  /** The calls of one owner among `tickets`. */
  function OwnedBy(calls: map<Ticket, Call>, tickets: set<Ticket>, owner: Owner): set<Ticket> {
    set t | t in tickets && t in calls && calls[t].owner == owner
  }

  /** The unfinished calls of one owner. */
  function Mine(s: Lock, owner: Owner): set<Ticket> {
    OwnedBy(s.calls, s.calls.Keys, owner)
  }

  /** No unfinished call of the same owner was admitted before `t`. */
  ghost predicate First(s: Lock, t: Ticket)
    requires t in s.calls
  {
    forall u | u in s.calls && s.calls[u].owner == s.calls[t].owner :: t <= u
  }

  /** `t` waits for the unfinished call admitted just before it, if any. */
  ghost predicate Chained(s: Lock, t: Ticket)
    requires t in s.calls
  {
    var call := s.calls[t];
    && (call.previous.Some? ==> call.previous.value < t)
    && if call.previous.Some? && call.previous.value in s.calls then
      var p := call.previous.value;
      && s.calls[p].owner == call.owner
      && !call.running
      && forall u | u in s.calls && s.calls[u].owner == call.owner :: u <= p || t <= u
    else
      First(s, t)
  }

  /** `locks` names the owner's latest unfinished call, and only exists for an
      owner that has one. */
  ghost predicate Tailed(s: Lock, owner: Owner) {
    if owner in s.locks then
      && s.locks[owner] in s.calls
      && s.calls[s.locks[owner]].owner == owner
      && forall u | u in s.calls && s.calls[u].owner == owner :: u <= s.locks[owner]
    else
      forall u | u in s.calls :: s.calls[u].owner != owner
  }

  ghost predicate Counted(s: Lock, owner: Owner) {
    && QueuedFor(s, owner) == |Mine(s, owner)|
    && |Mine(s, owner)| <= OWNER_LIMIT
    && (owner in s.queued <==> Mine(s, owner) != {})
  }

  /** Every body that has started was admitted before every call of its owner
      that has not. */
  ghost predicate StartedInOrder(s: Lock) {
    && (forall i | 0 <= i < |s.begun| :: s.begun[i].0 < s.issued)
    && (forall i, u | 0 <= i < |s.begun| && u in s.calls && s.calls[u].owner == s.begun[i].1 ::
          s.begun[i].0 <= u && (!s.calls[u].running ==> s.begun[i].0 < u))
    && (forall i, j | 0 <= i < j < |s.begun| && s.begun[i].1 == s.begun[j].1 ::
          s.begun[i].0 < s.begun[j].0)
  }

  ghost predicate Inv(s: Lock) {
    && (forall t | t in s.calls :: t < s.issued && Chained(s, t))
    && (forall owner: Owner :: Tailed(s, owner))
    && (forall owner: Owner :: Counted(s, owner))
    && s.inflight == |s.calls| <= TOTAL_LIMIT
    && StartedInOrder(s)
  }

  lemma {:induction false} AdmitKeepsInv(s: Lock, owner: Owner)
    requires Inv(s) && !Refused(s, owner)
    ensures Inv(AdmitStep(s, owner))
  {
    var n := AdmitStep(s, owner);
    assert s.issued !in s.calls;
    assert n.calls.Keys == s.calls.Keys + {s.issued};
    forall t | t in n.calls
      ensures Chained(n, t)
    {
      AdmitKeepsChain(s, owner, t);
    }
    forall o: Owner
      ensures Tailed(n, o) && Counted(n, o)
    {
      assert Tailed(s, o) && Counted(s, o);
      AdmitKeepsOwner(s, owner, o);
    }
    AdmitKeepsOrder(s, owner);
  }

  lemma {:induction false} AdmitKeepsChain(s: Lock, owner: Owner, t: Ticket)
    requires Inv(s) && t in AdmitStep(s, owner).calls
    ensures Chained(AdmitStep(s, owner), t)
  {
    if t in s.calls {
      assert Chained(s, t);
    } else {
      assert Tailed(s, owner);
    }
  }

  lemma {:induction false} AdmitKeepsOwner(s: Lock, owner: Owner, o: Owner)
    requires Tailed(s, o) && Counted(s, o) && !Refused(s, owner)
    requires forall t | t in s.calls :: t < s.issued
    ensures Tailed(AdmitStep(s, owner), o) && Counted(AdmitStep(s, owner), o)
  {
    var n := AdmitStep(s, owner);
    if o == owner {
      assert Mine(n, o) == Mine(s, o) + {s.issued};
      assert s.issued !in Mine(s, o);
    } else {
      assert Mine(n, o) == Mine(s, o);
    }
  }

  lemma {:induction false} AdmitKeepsOrder(s: Lock, owner: Owner)
    requires Inv(s)
    ensures StartedInOrder(AdmitStep(s, owner))
  {
  }

  lemma {:induction false} BeginKeepsInv(s: Lock, t: Ticket)
    requires Inv(s) && CanBegin(s, t)
    ensures Inv(BeginStep(s, t))
  {
    var n := BeginStep(s, t);
    assert n.calls.Keys == s.calls.Keys;
    forall u | u in n.calls
      ensures Chained(n, u)
    {
      assert Chained(s, t) && Chained(s, u);
      BeginKeepsChain(s, t, u);
    }
    forall o: Owner
      ensures Tailed(n, o) && Counted(n, o)
    {
      assert Tailed(s, o) && Counted(s, o);
      BeginKeepsOwner(s, t, o);
    }
    BeginKeepsOrder(s, t);
  }

  lemma {:induction false} BeginKeepsOwner(s: Lock, t: Ticket, o: Owner)
    requires CanBegin(s, t) && Tailed(s, o) && Counted(s, o)
    ensures Tailed(BeginStep(s, t), o) && Counted(BeginStep(s, t), o)
  {
    assert Mine(BeginStep(s, t), o) == Mine(s, o);
  }

  lemma {:induction false} BeginKeepsChain(s: Lock, t: Ticket, u: Ticket)
    requires CanBegin(s, t) && u in s.calls && Chained(s, t) && Chained(s, u)
    ensures Chained(BeginStep(s, t), u)
  {
  }

  lemma {:induction false} BeginKeepsOrder(s: Lock, t: Ticket)
    requires Inv(s) && CanBegin(s, t)
    ensures StartedInOrder(BeginStep(s, t))
  {
    assert Chained(s, t);
    StartKeepsOrder(s, t);
  }

  lemma {:induction false} StartKeepsOrder(s: Lock, t: Ticket)
    requires StartedInOrder(s) && t in s.calls && t < s.issued && !s.calls[t].running && First(s, t)
    ensures StartedInOrder(BeginStep(s, t))
  {
    assert forall i | 0 <= i < |s.begun| && s.begun[i].1 == s.calls[t].owner :: s.begun[i].0 < t;
  }

  lemma {:induction false} SettleKeepsInv(s: Lock, t: Ticket)
    requires Inv(s) && CanSettle(s, t)
    ensures Inv(SettleStep(s, t))
  {
    var n := SettleStep(s, t);
    assert n.calls.Keys == s.calls.Keys - {t};
    forall u | u in n.calls
      ensures Chained(n, u)
    {
      assert Chained(s, t) && Chained(s, u);
      SettleKeepsChain(s, t, u);
    }
    forall o: Owner
      ensures Tailed(n, o) && Counted(n, o)
    {
      assert Tailed(s, o) && Counted(s, o) && Chained(s, t);
      SettleKeepsOwner(s, t, o);
    }
  }

  lemma {:induction false} SettleKeepsChain(s: Lock, t: Ticket, u: Ticket)
    requires CanSettle(s, t) && u in s.calls && u != t && Chained(s, t) && Chained(s, u)
    ensures Chained(SettleStep(s, t), u)
  {
  }

  lemma {:induction false} SettleKeepsOwner(s: Lock, t: Ticket, o: Owner)
    requires CanSettle(s, t) && First(s, t)
    requires Tailed(s, o) && Counted(s, o)
    ensures Tailed(SettleStep(s, t), o) && Counted(SettleStep(s, t), o)
  {
    var n := SettleStep(s, t);
    if o != s.calls[t].owner {
      assert Mine(n, o) == Mine(s, o);
    } else {
      assert Mine(n, o) == Mine(s, o) - {t};
      assert t in Mine(s, o);
      SettleKeepsTail(s, t, o);
    }
  }

  /** A settling call is the earliest; if it is also the latest, none is left. */
  lemma {:induction false} SettleKeepsTail(s: Lock, t: Ticket, o: Owner)
    requires t in s.calls && s.calls[t].owner == o
    requires First(s, t) && Tailed(s, o)
    ensures Tailed(SettleStep(s, t), o)
  {
    assert o in s.locks;
    assert s.locks[o] == t ==> forall u | u in s.calls && s.calls[u].owner == o :: u == t;
  }

  lemma {:induction false} RunKeepsInv(s: Lock, events: seq<Event>)
    requires Inv(s)
    ensures Inv(Run(s, events))
    decreases |events|
  {
    if events != [] {
      StepKeepsInv(s, events[0]);
      RunKeepsInv(Step(s, events[0]), events[1..]);
    }
  }

  lemma {:induction false} StepKeepsInv(s: Lock, e: Event)
    requires Inv(s)
    ensures Inv(Step(s, e))
  {
    match e
    case Admit(owner) => if !Refused(s, owner) { AdmitKeepsInv(s, owner); }
    case Begin(t) => if CanBegin(s, t) { BeginKeepsInv(s, t); }
    case Settle(t) => if CanSettle(s, t) { SettleKeepsInv(s, t); }
  }

  /** In every run a waiting call may start exactly when every earlier call of
      its owner has settled, although it only looks at one promise. */
  lemma {:induction false} BeginsExactlyWhenFirst(events: seq<Event>, t: Ticket)
    ensures var s := Run(EMPTY, events);
            t in s.calls && !s.calls[t].running ==> (CanBegin(s, t) <==> First(s, t))
  {
    EmptyInv();
    RunKeepsInv(EMPTY, events);
    var s := Run(EMPTY, events);
    if t in s.calls {
      assert Chained(s, t);
    }
  }

  lemma {:induction false} EmptyInv()
    ensures Inv(EMPTY)
  {
    forall o: Owner
      ensures Tailed(EMPTY, o) && Counted(EMPTY, o)
    {
      assert Mine(EMPTY, o) == {};
    }
  }

  /** In every run an owner has at most one body at a time, which is its earliest
      unfinished call's, and bodies start in arrival order. */
  lemma {:induction false} OneBodyPerOwnerInArrivalOrder(events: seq<Event>)
    ensures var s := Run(EMPTY, events);
            && (forall t | CanSettle(s, t) :: First(s, t))
            && (forall t, u | CanSettle(s, t) && CanSettle(s, u) && s.calls[t].owner == s.calls[u].owner :: t == u)
            && (forall i, j | 0 <= i < j < |s.begun| && s.begun[i].1 == s.begun[j].1 ::
                  s.begun[i].0 < s.begun[j].0)
  {
    EmptyInv();
    RunKeepsInv(EMPTY, events);
    var s := Run(EMPTY, events);
    RunningIsFirst(s);
  }

  lemma {:induction false} RunningIsFirst(s: Lock)
    requires Inv(s)
    ensures forall t | CanSettle(s, t) :: First(s, t)
    ensures forall t, u | CanSettle(s, t) && CanSettle(s, u) && s.calls[t].owner == s.calls[u].owner :: t == u
  {
    forall t | CanSettle(s, t)
      ensures First(s, t)
    {
      assert Chained(s, t);
    }
  }

  /** Work never stalls: an owner with unfinished calls has one that is running
      or may start at once. */
  lemma {:induction false} SomeCallCanProceed(events: seq<Event>, owner: Owner)
    ensures var s := Run(EMPTY, events);
            Mine(s, owner) != {} ==> exists t :: t in Mine(s, owner) && (CanBegin(s, t) || CanSettle(s, t))
  {
    EmptyInv();
    RunKeepsInv(EMPTY, events);
    var s := Run(EMPTY, events);
    if Mine(s, owner) != {} {
      var t := Earliest(s, owner, s.issued);
      assert Chained(s, t);
    }
  }

  lemma {:induction false} Earliest(s: Lock, owner: Owner, bound: nat) returns (t: Ticket)
    requires exists u :: u in Mine(s, owner) && u <= bound
    ensures t in Mine(s, owner) && First(s, t)
    decreases bound
  {
    var u :| u in Mine(s, owner) && u <= bound;
    if First(s, u) {
      t := u;
    } else {
      var v :| v in s.calls && s.calls[v].owner == owner && v < u;
      assert v in Mine(s, owner) && v <= bound - 1;
      t := Earliest(s, owner, bound - 1);
    }
  }

  /** The sum of the per-owner counts. */
  ghost function Total(queued: map<Owner, nat>): nat
    decreases |queued|
  {
    if queued == map[] then 0 else
      var o :| o in queued;
      queued[o] + Total(queued - {o})
  }

  lemma {:induction false} TotalWithout(queued: map<Owner, nat>, o: Owner)
    requires o in queued
    ensures Total(queued) == queued[o] + Total(queued - {o})
    decreases |queued|
  {
    var p :| p in queued && Total(queued) == queued[p] + Total(queued - {p});
    if p != o {
      TotalWithout(queued - {p}, o);
      TotalWithout(queued - {o}, p);
      assert queued - {p} - {o} == queued - {o} - {p};
    }
  }

  lemma {:induction false} TotalCountsCalls(calls: map<Ticket, Call>, queued: map<Owner, nat>, tickets: set<Ticket>)
    requires tickets <= calls.Keys
    requires forall t | t in tickets :: calls[t].owner in queued
    requires forall o | o in queued :: queued[o] == |OwnedBy(calls, tickets, o)|
    ensures Total(queued) == |tickets|
    decreases |queued|
  {
    if queued == map[] {
      assert tickets == {};
    } else {
      var o :| o in queued;
      TotalWithout(queued, o);
      var mine := OwnedBy(calls, tickets, o);
      var rest := tickets - mine;
      forall p | p in queued - {o}
        ensures queued[p] == |OwnedBy(calls, rest, p)|
      {
        assert OwnedBy(calls, rest, p) == OwnedBy(calls, tickets, p);
      }
      TotalCountsCalls(calls, queued - {o}, rest);
      assert tickets == mine + rest && mine !! rest;
    }
  }

  /** What the counters mean: `inflight` is the sum of the per-owner counts and
      the number of unfinished calls, both limits hold, and an owner has a
      `locks` entry exactly while its count is positive. */
  lemma {:induction false} Accounting(s: Lock, o: Owner)
    requires Inv(s)
    ensures s.inflight == Total(s.queued) && s.inflight == |s.calls| <= TOTAL_LIMIT
    ensures QueuedFor(s, o) == |Mine(s, o)| <= OWNER_LIMIT
    ensures o in s.locks <==> QueuedFor(s, o) > 0
  {
    forall t | t in s.calls
      ensures s.calls[t].owner in s.queued
    {
      assert Counted(s, s.calls[t].owner);
      assert t in Mine(s, s.calls[t].owner);
    }
    forall p | p in s.queued
      ensures s.queued[p] == |OwnedBy(s.calls, s.calls.Keys, p)|
    {
      assert Counted(s, p);
    }
    TotalCountsCalls(s.calls, s.queued, s.calls.Keys);
    assert Tailed(s, o) && Counted(s, o);
    if o in s.locks {
      assert s.locks[o] in Mine(s, o);
    }
  }

  /** In every run `inflight` is the sum of the queues and the number of
      unfinished calls, at most 64. */
  lemma {:induction false} InflightIsTheSum(events: seq<Event>)
    ensures var s := Run(EMPTY, events); s.inflight == Total(s.queued) && s.inflight == |s.calls| <= TOTAL_LIMIT
  {
    EmptyInv();
    RunKeepsInv(EMPTY, events);
    Accounting(Run(EMPTY, events), "");
  }

  /** In every run an owner's queue counts its unfinished calls, at most 4. */
  lemma {:induction false} QueuesCountCalls(events: seq<Event>, o: Owner)
    ensures var s := Run(EMPTY, events); QueuedFor(s, o) == |Mine(s, o)| <= OWNER_LIMIT
  {
    EmptyInv();
    RunKeepsInv(EMPTY, events);
    Accounting(Run(EMPTY, events), o);
  }

  /** In every run an owner has a `locks` entry exactly while it is queued. */
  lemma {:induction false} LockedExactlyWhileQueued(events: seq<Event>, o: Owner)
    ensures var s := Run(EMPTY, events); o in s.locks <==> QueuedFor(s, o) > 0
  {
    EmptyInv();
    RunKeepsInv(EMPTY, events);
    Accounting(Run(EMPTY, events), o);
  }
}
