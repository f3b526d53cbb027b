/** What every run of the control pipe keeps, end to end. */
module SdkControlSafety {
  import opened Outcomes
  import opened SdkCodec
  import opened SdkControl

  // ---- Counting ----------------------------------------------------------------

  /** Requests the child took off `pending`, counted by id. */
  function TakenIn(invoked: seq<Invocation>): (m: multiset<Id>) {
    if invoked == [] then multiset{}
    else
      var last := invoked[|invoked| - 1];
      TakenIn(invoked[..|invoked| - 1]) + (if last.command.Respond? then multiset{last.command.request} else multiset{})
  }

  /** Request frames encoded within the limit, counted by id. */
  function EmittedIn(attempts: seq<Attempt<Payload>>): (m: multiset<Id>) {
    if attempts == [] then multiset{}
    else
      var last := attempts[|attempts| - 1];
      EmittedIn(attempts[..|attempts| - 1]) + RequestOf(last.payload, last.fits)
  }

  function RequestOf(payload: Payload, fits: bool): multiset<Id> {
    if fits && payload.Request? then multiset{payload.id} else multiset{}
  }

  function RequestsIn(accepted: seq<Payload>): (m: multiset<Id>) {
    if accepted == [] then multiset{}
    else RequestsIn(accepted[..|accepted| - 1]) + RequestOf(accepted[|accepted| - 1], true)
  }

  function RespondOf(payload: Payload): multiset<Id> {
    if payload.Call? && payload.command.Respond? then multiset{payload.command.request} else multiset{}
  }

  function RespondsIn(accepted: seq<Payload>): (m: multiset<Id>) {
    if accepted == [] then multiset{}
    else RespondsIn(accepted[..|accepted| - 1]) + RespondOf(accepted[|accepted| - 1])
  }

  function HeldSet(a: Approvals): multiset<Id> {
    match a
    case Holding(id) => multiset{id}
    case Faulting(Some(id)) => multiset{id}
    case Ended(Some(id)) => multiset{id}
    case _ => multiset{}
  }

  // ---- The invariant -------------------------------------------------------------

  ghost predicate NamesCommands(commands: map<Id, Command>, unsent: map<Id, Command>, attempts: seq<Attempt<Payload>>) {
    && (forall op | op in unsent :: op in commands && commands[op] == unsent[op])
    && forall i | 0 <= i < |attempts| :: IsCallOf(commands, attempts[i].payload)
  }

  predicate IsCallOf(commands: map<Id, Command>, payload: Payload) {
    payload.Call? && payload.id in commands && payload.command == commands[payload.id]
  }

  ghost predicate Fence(calls: set<Id>, dispatched: seq<Id>, commands: map<Id, Command>) {
    && (forall i, j | 0 <= i < j < |dispatched| :: dispatched[i] != dispatched[j])
    && (forall i | 0 <= i < |dispatched| :: dispatched[i] in calls)
    && (forall op | op in calls :: op in dispatched)
    && forall op | op in calls :: op in commands
  }

  ghost predicate Calls(invoked: seq<Invocation>, calls: set<Id>, commands: map<Id, Command>) {
    && (forall i | 0 <= i < |invoked| :: IsInvoked(invoked[i], calls, commands))
    && forall i, j | 0 <= i < j < |invoked| :: invoked[i].op != invoked[j].op
  }

  predicate IsInvoked(v: Invocation, calls: set<Id>, commands: map<Id, Command>) {
    v.op in calls && v.op in commands && commands[v.op] == v.command
  }

  ghost predicate Single(invoked: seq<Invocation>, started: bool, running: bool) {
    && (forall i | 0 <= i < |invoked| ::
          (invoked[i].command.Start? ==> started) && (invoked[i].command.Run? ==> running))
    && forall i, j | 0 <= i < j < |invoked| ::
         && !(invoked[i].command.Start? && invoked[j].command.Start?)
         && !(invoked[i].command.Run? && invoked[j].command.Run?)
  }

  ghost predicate Busy(main: Main, run: Running, invoked: seq<Invocation>, yielded: map<Id, Value>) {
    && (main.Doing? ==> Invocation(main.op, main.command) in invoked && !main.command.Run? && main.op !in yielded)
    && (run.Executing? ==> run.op !in yielded && exists v :: v in invoked && v.op == run.op && v.command.Run?)
    && (main.Replying? ==> Yields(yielded, main.op, Nothing))
    && (run.Returned? ==> Yields(yielded, run.op, Finished(run.text)))
  }

  predicate Yields(yielded: map<Id, Value>, op: Id, value: Value) {
    op in yielded && yielded[op] == value
  }

  ghost predicate Fruits(invoked: seq<Invocation>, yielded: map<Id, Value>) {
    forall op | op in yielded :: exists v :: v in invoked && v.op == op && (v.command.Run? <==> yielded[op].Finished?)
  }

  ghost predicate Truthful(attempts: seq<Attempt<Payload>>, yielded: map<Id, Value>) {
    forall i | 0 <= i < |attempts| :: Honest(attempts[i].payload, yielded)
  }

  predicate Honest(payload: Payload, yielded: map<Id, Value>) {
    payload.Response? && payload.ok ==> Yields(yielded, payload.id, payload.value)
  }

  ghost predicate Sourced(queues: map<Id, seq<Reply>>, results: map<Id, Result<Value, RpcError>>,
                          accepted: seq<Payload>) {
    && (forall op, i | op in queues && 0 <= i < |queues[op]| :: FromFrame(op, ResultOf(queues[op][i]), accepted))
    && forall op | op in results :: FromFrame(op, results[op], accepted)
  }

  predicate FromFrame(op: Id, r: Result<Value, RpcError>, accepted: seq<Payload>) {
    r.Success? ==> Response(op, true, r.value) in accepted
  }

  ghost predicate Balanced(c: Child, up: Pipe<Payload>) {
    TakenIn(c.invoked) + multiset(c.pending) == EmittedIn(up.attempts) + HeldSet(c.approvals)
  }

  ghost predicate Inv(s: State) {
    && Faithful(s.down) && Faithful(s.up)
    && NamesCommands(s.parent.commands, s.parent.unsent, s.down.attempts)
    && Fence(s.child.calls, s.child.dispatched, s.parent.commands)
    && Calls(s.child.invoked, s.child.calls, s.parent.commands)
    && Single(s.child.invoked, s.child.started, s.child.running)
    && Busy(s.child.main, s.child.run, s.child.invoked, s.child.yielded)
    && Fruits(s.child.invoked, s.child.yielded)
    && Truthful(s.up.attempts, s.child.yielded)
    && Sourced(s.parent.queues, s.parent.results, s.up.accepted)
    && Cradle(s.child)
    && Balanced(s.child, s.up)
    && TakenIn(s.child.invoked) <= RespondsIn(s.down.accepted)
  }

  // ---- Steps of the child ----------------------------------------------------------

  /** The approvals thread is born by the one call that starts the harness. */
  predicate Cradle(c: Child) {
    && (!c.started ==> c.approvals.Unborn?)
    && (c.main.Doing? && c.main.command.Start? ==> c.approvals.Unborn?)
  }

  /** The child's own conjuncts, against the calls it has accepted. */
  ghost predicate ChildInv(c: Child, commands: map<Id, Command>) {
    && Fence(c.calls, c.dispatched, commands)
    && Calls(c.invoked, c.calls, commands)
    && Single(c.invoked, c.started, c.running)
    && Busy(c.main, c.run, c.invoked, c.yielded)
    && Fruits(c.invoked, c.yielded)
  }

  lemma {:induction false} TakenGrows(invoked: seq<Invocation>, v: Invocation)
    ensures TakenIn(invoked + [v])
      == TakenIn(invoked) + (if v.command.Respond? then multiset{v.command.request} else multiset{})
  {
    assert (invoked + [v])[..|invoked|] == invoked;
  }

  lemma {:induction false} FenceGrows(calls: set<Id>, dispatched: seq<Id>, commands: map<Id, Command>, op: Id)
    requires Fence(calls, dispatched, commands) && op !in calls && op in commands
    ensures Fence(calls + {op}, dispatched + [op], commands)
  {
    var d := dispatched + [op];
    assert d[|dispatched|] == op;
    forall x | x in calls + {op} ensures x in d { if x != op { assert x in dispatched; } }
  }

  lemma {:induction false} CallsGrow(invoked: seq<Invocation>, calls: set<Id>, commands: map<Id, Command>,
                                     v: Invocation)
    requires Calls(invoked, calls, commands) && v.op !in calls && v.op in commands && commands[v.op] == v.command
    ensures Calls(invoked + [v], calls + {v.op}, commands)
  {
    forall i | 0 <= i < |invoked| ensures IsInvoked(invoked[i], calls + {v.op}, commands) {
      assert IsInvoked(invoked[i], calls, commands);
    }
  }

  lemma {:induction false} SingleGrows(invoked: seq<Invocation>, started: bool, running: bool, v: Invocation)
    requires Single(invoked, started, running)
    requires (v.command.Start? ==> !started) && (v.command.Run? ==> !running)
    ensures Single(invoked + [v], started || v.command.Start?, running || v.command.Run?)
  {
  }

  lemma {:induction false} NotYetInvoked(invoked: seq<Invocation>, yielded: map<Id, Value>, calls: set<Id>,
                                         commands: map<Id, Command>, op: Id)
    requires Calls(invoked, calls, commands) && Fruits(invoked, yielded) && op !in calls
    ensures op !in yielded
  {
    forall v | v in invoked ensures v.op != op {
      assert IsInvoked(v, calls, commands);
    }
  }

  lemma {:induction false} FruitsSurvive(invoked: seq<Invocation>, yielded: map<Id, Value>, v: Invocation)
    requires Fruits(invoked, yielded)
    ensures Fruits(invoked + [v], yielded)
  {
    forall op | op in yielded
      ensures exists w :: w in invoked + [v] && w.op == op && (w.command.Run? <==> yielded[op].Finished?)
    {
      var w :| w in invoked && w.op == op && (w.command.Run? <==> yielded[op].Finished?);
      assert w in invoked + [v];
    }
  }

  lemma {:induction false} BusyGrows(main: Main, run: Running, invoked: seq<Invocation>, yielded: map<Id, Value>,
                                     v: Invocation)
    requires Busy(main, run, invoked, yielded) && main.Listening? && v.op !in yielded
    requires v.command.Run? ==> !run.Executing?
    ensures !v.command.Run? ==> Busy(Doing(v.op, v.command), run, invoked + [v], yielded)
    ensures v.command.Run? ==> Busy(main, Executing(v.op), invoked + [v], yielded)
  {
    assert v in invoked + [v];
    if run.Executing? {
      var w :| w in invoked && w.op == run.op && w.command.Run?;
      assert w in invoked + [v];
    }
  }

  lemma {:induction false} RunningWhileExecuting(c: Child)
    requires Single(c.invoked, c.started, c.running) && Busy(c.main, c.run, c.invoked, c.yielded) && c.run.Executing?
    ensures c.running
  {
  }

  lemma {:induction false} EnteringKeeps(c: Child, op: Id, command: Command, commands: map<Id, Command>, n: Child)
    requires ChildInv(c, commands) && c.main.Listening? && op !in c.calls && Admissible(c, command)
    requires op in commands && commands[op] == command
    requires n == Entered(Fenced(c, op), op, command)
    ensures ChildInv(n, commands)
  {
    var v := Invocation(op, command);
    FenceGrows(c.calls, c.dispatched, commands, op);
    CallsGrow(c.invoked, c.calls, commands, v);
    SingleGrows(c.invoked, c.started, c.running, v);
    NotYetInvoked(c.invoked, c.yielded, c.calls, commands, op);
    FruitsSurvive(c.invoked, c.yielded, v);
    if c.run.Executing? { RunningWhileExecuting(c); }
    BusyGrows(c.main, c.run, c.invoked, c.yielded, v);
  }

  lemma {:induction false} EnteringTakes(c: Child, op: Id, command: Command, n: Child)
    requires Admissible(c, command) && n == Entered(Fenced(c, op), op, command)
    ensures TakenIn(n.invoked) + multiset(n.pending) == TakenIn(c.invoked) + multiset(c.pending)
    ensures TakenIn(n.invoked) == TakenIn(c.invoked) + RespondOf(Call(op, command))
  {
    TakenGrows(c.invoked, Invocation(op, command));
    if command.Respond? {
      assert multiset(c.pending) == multiset(c.pending - {command.request}) + multiset{command.request};
    }
  }

  lemma {:induction false} HaltingKeeps(c: Child, commands: map<Id, Command>)
    requires ChildInv(c, commands)
    ensures ChildInv(Halting(c), commands)
  {
  }

  lemma {:induction false} FencingKeeps(c: Child, op: Id, commands: map<Id, Command>)
    requires ChildInv(c, commands) && op !in c.calls && op in commands
    ensures ChildInv(Fenced(c, op), commands)
  {
    FenceGrows(c.calls, c.dispatched, commands, op);
    forall i | 0 <= i < |c.invoked| ensures IsInvoked(c.invoked[i], c.calls + {op}, commands) {
      assert IsInvoked(c.invoked[i], c.calls, commands);
    }
  }

  /** One line decoded by the child, whatever it asks for. */
  lemma {:induction false} DispatchKeeps(c: Child, payload: Payload, commands: map<Id, Command>, n: Child)
    requires ChildInv(c, commands) && c.main.Listening? && IsCallOf(commands, payload)
    requires n == Dispatched(c, payload)
    ensures ChildInv(n, commands)
  {
    var op, command := payload.id, payload.command;
    if op in c.calls {
      HaltingKeeps(c, commands);
    } else if Admissible(c, command) {
      EnteringKeeps(c, op, command, commands, n);
    } else {
      FencingKeeps(c, op, commands);
      HaltingKeeps(Fenced(c, op), commands);
    }
  }

  lemma {:induction false} DispatchTakes(c: Child, payload: Payload, n: Child)
    requires Cradle(c) && payload.Call? && n == Dispatched(c, payload)
    ensures Cradle(n) && n.yielded == c.yielded && n.approvals == c.approvals
    ensures TakenIn(n.invoked) + multiset(n.pending) == TakenIn(c.invoked) + multiset(c.pending)
    ensures TakenIn(n.invoked) <= TakenIn(c.invoked) + RespondOf(payload)
  {
    var op, command := payload.id, payload.command;
    if op !in c.calls && Admissible(c, command) {
      EnteringTakes(c, op, command, n);
    }
  }

  /** A fresh yield for an operation under way. */
  lemma {:induction false} YieldKeeps(invoked: seq<Invocation>, yielded: map<Id, Value>, v: Invocation, value: Value)
    requires Fruits(invoked, yielded) && v in invoked && (v.command.Run? <==> value.Finished?)
    ensures Fruits(invoked, yielded[v.op := value])
  {
  }

  lemma {:induction false} SameInvocation(invoked: seq<Invocation>, calls: set<Id>, commands: map<Id, Command>,
                                          v: Invocation, w: Invocation)
    requires Calls(invoked, calls, commands) && v in invoked && w in invoked && v.op == w.op
    ensures v == w
  {
    assert IsInvoked(v, calls, commands) && IsInvoked(w, calls, commands);
  }

  lemma {:induction false} StartedBy(c: Child)
    requires Single(c.invoked, c.started, c.running) && Busy(c.main, c.run, c.invoked, c.yielded)
    ensures c.main.Doing? && c.main.command.Start? ==> c.started
  {
  }

  lemma {:induction false} PerformedKeeps(c: Child, ok: bool, commands: map<Id, Command>, n: Child)
    requires ChildInv(c, commands) && Cradle(c) && c.main.Doing? && n == Performed(c, c.main.op, c.main.command, ok)
    ensures ChildInv(n, commands) && n.invoked == c.invoked && n.pending == c.pending
    ensures Cradle(n) && HeldSet(n.approvals) == HeldSet(c.approvals)
    ensures n.yielded == c.yielded || (c.main.op !in c.yielded && n.yielded == c.yielded[c.main.op := Nothing])
  {
    if ok {
      StartedBy(c);
      var v := Invocation(c.main.op, c.main.command);
      YieldKeeps(c.invoked, c.yielded, v, Nothing);
      if c.run.Executing? {
        var w :| w in c.invoked && w.op == c.run.op && w.command.Run?;
        if w.op == v.op { SameInvocation(c.invoked, c.calls, commands, v, w); }
      }
    }
  }

  lemma {:induction false} RunOverKeeps(c: Child, text: Option<string>, commands: map<Id, Command>, n: Child)
    requires ChildInv(c, commands) && c.run.Executing? && n == RunOver(c, c.run.op, text)
    ensures ChildInv(n, commands) && n.invoked == c.invoked && n.pending == c.pending && n.approvals == c.approvals
    ensures n.yielded == c.yielded
      || (c.run.op !in c.yielded && text.Some? && n.yielded == c.yielded[c.run.op := Finished(text.value)])
  {
    var w :| w in c.invoked && w.op == c.run.op && w.command.Run?;
    if text.Some? {
      YieldKeeps(c.invoked, c.yielded, w, Finished(text.value));
      if c.main.Doing? && c.main.op == w.op {
        SameInvocation(c.invoked, c.calls, commands, Invocation(c.main.op, c.main.command), w);
      }
    }
  }

  // ---- Steps of the parent ---------------------------------------------------------

  lemma {:induction false} CommandsGrow(c: Child, commands: map<Id, Command>, unsent: map<Id, Command>,
                                        attempts: seq<Attempt<Payload>>, op: Id, command: Command)
    requires ChildInv(c, commands) && NamesCommands(commands, unsent, attempts) && op !in commands
    ensures ChildInv(c, commands[op := command])
    ensures NamesCommands(commands[op := command], unsent[op := command], attempts)
  {
    var grown := commands[op := command];
    forall i | 0 <= i < |attempts| ensures IsCallOf(grown, attempts[i].payload) {
      assert IsCallOf(commands, attempts[i].payload);
    }
    forall i | 0 <= i < |c.invoked| ensures IsInvoked(c.invoked[i], c.calls, grown) {
      assert IsInvoked(c.invoked[i], c.calls, commands);
    }
  }

  lemma {:induction false} QueueOpens(p: Parent, op: Id, accepted: seq<Payload>)
    requires Sourced(p.queues, p.results, accepted)
    ensures Sourced(p.queues[op := []], p.results, accepted)
  {
  }

  lemma {:induction false} QueueGrows(p: Parent, op: Id, reply: Reply, accepted: seq<Payload>)
    requires Sourced(p.queues, p.results, accepted) && op in p.queues && FromFrame(op, ResultOf(reply), accepted)
    ensures Sourced(p.queues[op := p.queues[op] + [reply]], p.results, accepted)
  {
  }

  lemma {:induction false} ClosingKeeps(p: Parent, accepted: seq<Payload>)
    requires Sourced(p.queues, p.results, accepted)
    ensures Sourced(Closed(p).queues, p.results, accepted)
  {
    var q := Closed(p).queues;
    forall op, i | op in q && 0 <= i < |q[op]| ensures FromFrame(op, ResultOf(q[op][i]), accepted) {
      if i < |p.queues[op]| { assert FromFrame(op, ResultOf(p.queues[op][i]), accepted); }
    }
  }

  lemma {:induction false} FinishingKeeps(p: Parent, op: Id, r: Result<Value, RpcError>, accepted: seq<Payload>)
    requires Sourced(p.queues, p.results, accepted) && FromFrame(op, r, accepted)
    ensures Sourced(p.queues - {op}, p.results[op := r], accepted)
  {
  }

  lemma {:induction false} AcceptedGrows(p: Parent, accepted: seq<Payload>, payload: Payload)
    requires Sourced(p.queues, p.results, accepted)
    ensures Sourced(p.queues, p.results, accepted + [payload])
  {
    var more := accepted + [payload];
    forall op, i | op in p.queues && 0 <= i < |p.queues[op]| ensures FromFrame(op, ResultOf(p.queues[op][i]), more) {
      assert FromFrame(op, ResultOf(p.queues[op][i]), accepted);
    }
    forall op | op in p.results ensures FromFrame(op, p.results[op], more) {
      assert FromFrame(op, p.results[op], accepted);
    }
  }

  lemma {:induction false} HearingKeeps(p: Parent, accepted: seq<Payload>, payload: Payload, n: Parent)
    requires Sourced(p.queues, p.results, accepted) && n == Heard(p, payload)
    ensures Sourced(n.queues, n.results, accepted + [payload]) && n.commands == p.commands && n.unsent == p.unsent
  {
    AcceptedGrows(p, accepted, payload);
    var more := accepted + [payload];
    if payload.Response? && payload.id in p.queues {
      assert payload in more;
      QueueGrows(p, payload.id, Reply(payload.ok, payload.value), more);
    } else {
      ClosingKeeps(p, more);
    }
  }

  lemma {:induction false} SendingKeeps(commands: map<Id, Command>, unsent: map<Id, Command>,
                                        attempts: seq<Attempt<Payload>>, op: Id, fits: bool)
    requires NamesCommands(commands, unsent, attempts) && op in unsent
    ensures NamesCommands(commands, unsent - {op}, attempts + [Attempt(Call(op, unsent[op]), fits)])
  {
    assert IsCallOf(commands, Call(op, unsent[op]));
  }

  // ---- The pipes -------------------------------------------------------------------

  lemma {:induction false} EmittedGrows(attempts: seq<Attempt<Payload>>, payload: Payload, fits: bool)
    ensures EmittedIn(attempts + [Attempt(payload, fits)]) == EmittedIn(attempts) + RequestOf(payload, fits)
  {
    assert (attempts + [Attempt(payload, fits)])[..|attempts|] == attempts;
  }

  lemma {:induction false} RespondsGrow(accepted: seq<Payload>, payload: Payload)
    ensures RespondsIn(accepted + [payload]) == RespondsIn(accepted) + RespondOf(payload)
  {
    assert (accepted + [payload])[..|accepted|] == accepted;
  }

  lemma {:induction false} TruthGrows(attempts: seq<Attempt<Payload>>, yielded: map<Id, Value>, payload: Payload,
                                      fits: bool)
    requires Truthful(attempts, yielded) && Honest(payload, yielded)
    ensures Truthful(attempts + [Attempt(payload, fits)], yielded)
  {
  }

  lemma {:induction false} TruthSurvives(attempts: seq<Attempt<Payload>>, yielded: map<Id, Value>, op: Id, value: Value)
    requires Truthful(attempts, yielded) && op !in yielded
    ensures Truthful(attempts, yielded[op := value])
  {
    forall i | 0 <= i < |attempts| ensures Honest(attempts[i].payload, yielded[op := value]) {
      assert Honest(attempts[i].payload, yielded);
    }
  }

  /** A line accepted from the parent is a call the parent made. */
  lemma {:induction false} AcceptedCall(p: Pipe<Payload>, raw: Wire<Payload>, commands: map<Id, Command>,
                                        unsent: map<Id, Command>)
    requires Faithful(p) && Possible(p, raw) && Accepts(p, raw) && NamesCommands(commands, unsent, p.attempts)
    ensures IsCallOf(commands, raw.frame.payload)
  {
    StepIsFaithful(p, Deliver(raw));
    var q := DeliverStep(p, raw);
    assert q.accepted[|p.accepted|] == raw.frame.payload;
    assert IsCallOf(commands, p.attempts[|p.accepted|].payload);
  }

  // ---- Every step ------------------------------------------------------------------

  lemma {:induction false} OpeningKeeps(s: State, p: Parent, op: Id, command: Command)
    requires Inv(s) && op !in s.parent.commands && p == s.parent.(started := p.started)
    ensures Inv(s.(parent := Opened(p, op, command)))
  {
    CommandsGrow(s.child, s.parent.commands, s.parent.unsent, s.down.attempts, op, command);
    QueueOpens(s.parent, op, s.up.accepted);
  }

  lemma {:induction false} PeerKeeps(s: State, e: Event)
    requires Inv(s) && Enabled(s, e) && (e.PeerStart? || e.PeerCall? || e.PeerTake? || e.PeerTimeout? || e.PeerClose?)
    ensures Inv(Step(s, e))
  {
    match e
    case PeerStart(op) => OpeningKeeps(s, s.parent.(started := true), op, Start(true));
    case PeerCall(op, command) => OpeningKeeps(s, s.parent, op, command);
    case PeerTake(op) =>
      assert FromFrame(op, ResultOf(s.parent.queues[op][0]), s.up.accepted);
      FinishingKeeps(s.parent, op, ResultOf(s.parent.queues[op][0]), s.up.accepted);
    case PeerTimeout(op) => FinishingKeeps(s.parent, op, Failure(Refused), s.up.accepted);
    case PeerClose => ClosingKeeps(s.parent, s.up.accepted);
  }

  lemma {:induction false} PeerSendKeeps(s: State, op: Id, fits: bool, sent: bool)
    requires Inv(s) && op in s.parent.unsent
    ensures Inv(Sent(s, op, fits, sent))
  {
    SendingKeeps(s.parent.commands, s.parent.unsent, s.down.attempts, op, fits);
    StepIsFaithful(s.down, Send(Call(op, s.parent.unsent[op]), fits));
    FinishingKeeps(s.parent, op, Failure(Refused), s.up.accepted);
  }

  lemma {:induction false} PeerReadKeeps(s: State, raw: Wire<Payload>)
    requires Inv(s) && Possible(s.up, raw)
    ensures Inv(Read(s, raw))
  {
    StepIsFaithful(s.up, Deliver(raw));
    if Accepts(s.up, raw) {
      HearingKeeps(s.parent, s.up.accepted, raw.frame.payload, Heard(s.parent, raw.frame.payload));
    } else {
      ClosingKeeps(s.parent, s.up.accepted);
    }
  }

  lemma {:induction false} ReceiveKeeps(s: State, raw: Wire<Payload>)
    requires Inv(s) && s.child.main.Listening? && Possible(s.down, raw)
    ensures Inv(Received(s, raw))
  {
    StepIsFaithful(s.down, Deliver(raw));
    if Accepts(s.down, raw) {
      var payload := raw.frame.payload;
      AcceptedCall(s.down, raw, s.parent.commands, s.parent.unsent);
      var n := Dispatched(s.child, payload);
      DispatchKeeps(s.child, payload, s.parent.commands, n);
      DispatchTakes(s.child, payload, n);
      RespondsGrow(s.down.accepted, payload);
    } else {
      HaltingKeeps(s.child, s.parent.commands);
    }
  }

  /** A step of the child that moves no frame. */
  lemma {:induction false} ChildMoves(s: State, c: Child)
    requires Inv(s) && ChildInv(c, s.parent.commands) && Cradle(c) && Truthful(s.up.attempts, c.yielded)
    requires c.invoked == s.child.invoked
    requires multiset(c.pending) + HeldSet(s.child.approvals) == multiset(s.child.pending) + HeldSet(c.approvals)
    ensures Inv(s.(child := c))
  {
    Cancel(TakenIn(c.invoked), multiset(s.child.pending), EmittedIn(s.up.attempts), HeldSet(s.child.approvals),
           multiset(c.pending), HeldSet(c.approvals));
  }

  lemma {:induction false} Cancel(t: multiset<Id>, p: multiset<Id>, e: multiset<Id>, h: multiset<Id>, p': multiset<Id>,
                                  h': multiset<Id>)
    requires t + p == e + h && p' + h == p + h'
    ensures t + p' == e + h'
  {
    forall id ensures (t + p')[id] == (e + h')[id] {
      assert (t + p)[id] == (e + h)[id] && (p' + h)[id] == (p + h')[id];
    }
  }

  lemma {:induction false} PerformKeeps(s: State, ok: bool)
    requires Inv(s) && s.child.main.Doing?
    ensures Inv(s.(child := Performed(s.child, s.child.main.op, s.child.main.command, ok)))
  {
    var n := Performed(s.child, s.child.main.op, s.child.main.command, ok);
    PerformedKeeps(s.child, ok, s.parent.commands, n);
    if n.yielded != s.child.yielded { TruthSurvives(s.up.attempts, s.child.yielded, s.child.main.op, Nothing); }
    ChildMoves(s, n);
  }

  lemma {:induction false} RunEndKeeps(s: State, text: Option<string>)
    requires Inv(s) && s.child.run.Executing?
    ensures Inv(s.(child := RunOver(s.child, s.child.run.op, text)))
  {
    var n := RunOver(s.child, s.child.run.op, text);
    RunOverKeeps(s.child, text, s.parent.commands, n);
    if n.yielded != s.child.yielded {
      TruthSurvives(s.up.attempts, s.child.yielded, s.child.run.op, Finished(text.value));
    }
    ChildMoves(s, n);
  }

  lemma {:induction false} RegisterKeeps(s: State, id: Id, supported: bool)
    requires Inv(s) && s.child.approvals.Waiting?
    ensures Inv(s.(child := Registered(s.child, id, supported)))
  {
    if id !in s.child.pending {
      assert multiset(s.child.pending + {id}) == multiset(s.child.pending) + multiset{id};
    }
    ChildMoves(s, Registered(s.child, id, supported));
  }

  lemma {:induction false} EmitKeeps(s: State, c: Child, payload: Payload, fits: bool)
    requires Inv(s) && Honest(payload, s.child.yielded)
    requires c == s.child.(main := c.main, approvals := c.approvals, run := c.run, closed := c.closed)
    requires Busy(c.main, c.run, c.invoked, c.yielded) && Cradle(c)
    requires RequestOf(payload, fits) + HeldSet(c.approvals) == HeldSet(s.child.approvals)
    ensures Inv(Emitted(s, c, payload, fits))
  {
    TruthGrows(s.up.attempts, s.child.yielded, payload, fits);
    EmittedGrows(s.up.attempts, payload, fits);
    StepIsFaithful(s.up, Send(payload, fits));
  }

  lemma {:induction false} ReplyKeeps(s: State, fits: bool, sent: bool)
    requires Inv(s) && s.child.main.Replying?
    ensures Inv(Emitted(s, if fits && sent then s.child.(main := Listening) else Halting(s.child),
                        Response(s.child.main.op, true, Nothing), fits))
  {
    var c := s.child;
    EmitKeeps(s, if fits && sent then c.(main := Listening) else Halting(c), Response(c.main.op, true, Nothing), fits);
  }

  lemma {:induction false} RequestLeavesHand(c: Child, fits: bool, sent: bool, n: Child)
    requires c.approvals.Holding? && n == RequestEmitted(c, c.approvals.id, fits, sent) && Cradle(c)
    ensures n == c.(approvals := n.approvals, closed := n.closed) && Cradle(n)
    ensures RequestOf(Request(c.approvals.id), fits) + HeldSet(n.approvals) == HeldSet(c.approvals)
  {
  }

  lemma {:induction false} EmitRequestKeeps(s: State, c: Child, fits: bool, sent: bool)
    requires Inv(s) && s.child.approvals.Holding? && c == RequestEmitted(s.child, s.child.approvals.id, fits, sent)
    ensures Inv(Emitted(s, c, Request(s.child.approvals.id), fits))
  {
    RequestLeavesHand(s.child, fits, sent, c);
    EmitKeeps(s, c, Request(s.child.approvals.id), fits);
  }

  lemma {:induction false} EmitFaultKeeps(s: State, fits: bool)
    requires Inv(s) && s.child.approvals.Faulting?
    ensures Inv(Emitted(s, s.child.(approvals := Ended(s.child.approvals.held)), Fault, fits))
  {
    EmitKeeps(s, s.child.(approvals := Ended(s.child.approvals.held)), Fault, fits);
  }

  lemma {:induction false} RunReplyKeeps(s: State, c: Child, payload: Payload, fits: bool)
    requires Inv(s) && c == s.child.(run := c.run) && (c.run.Finish? || c.run.Raised?)
    requires Honest(payload, s.child.yielded) && !payload.Request?
    ensures Inv(Emitted(s, c, payload, fits))
  {
    EmitKeeps(s, c, payload, fits);
  }

  lemma {:induction false} ParentStepKeeps(s: State, e: Event)
    requires Inv(s) && Enabled(s, e) && !ByChild(e)
    ensures Inv(Step(s, e))
  {
    match e
    case PeerSend(op, fits, sent) => PeerSendKeeps(s, op, fits, sent);
    case PeerRead(raw) => PeerReadKeeps(s, raw);
    case PeerStart(_) => if !s.parent.started { PeerKeeps(s, e); }
    case _ => PeerKeeps(s, e);
  }

  predicate ByChild(e: Event) {
    || e.ChildReceive? || e.ChildPerformed? || e.ChildReply?
    || e.NativeRequest? || e.NativeFault? || e.EmitRequest? || e.EmitFault?
    || e.RunEnds? || e.RunReplies?
  }

  lemma {:induction false} ChildStepKeeps(s: State, e: Event)
    requires Inv(s) && Enabled(s, e) && ByChild(e)
    ensures Inv(Step(s, e))
  {
    match e
    case ChildReceive(raw) => ReceiveKeeps(s, raw);
    case ChildPerformed(ok) => PerformKeeps(s, ok);
    case NativeRequest(id, supported) => RegisterKeeps(s, id, supported);
    case NativeFault => ChildMoves(s, s.child.(approvals := Faulting(None), closed := true));
    case RunEnds(text) => RunEndKeeps(s, text);
    case ChildReply(fits, sent) => ReplyKeeps(s, fits, sent);
    case EmitRequest(fits, sent) =>
      EmitRequestKeeps(s, RequestEmitted(s.child, s.child.approvals.id, fits, sent), fits, sent);
    case EmitFault(fits) => EmitFaultKeeps(s, fits);
    case RunReplies(fits, sent) =>
      var c := s.child;
      if c.run.Raised? {
        RunReplyKeeps(s, c.(run := Finish), Response(c.run.op, false, Nothing), fits);
      } else {
        RunReplyKeeps(s, c.(run := if fits && sent then Finish else Raised(c.run.op)),
                      Response(c.run.op, true, Finished(c.run.text)), fits);
      }
  }

  lemma {:induction false} StepKeepsInv(s: State, e: Event)
    requires Inv(s) && Enabled(s, e)
    ensures Inv(Step(s, e))
  {
    if ByChild(e) { ChildStepKeeps(s, e); } else { ParentStepKeeps(s, e); }
  }

  // ---- Whole runs ------------------------------------------------------------------

  ghost predicate IsRun(key: Key, binding: Binding, session: string, states: seq<State>, events: seq<Event>) {
    && |states| == |events| + 1
    && states[0] == Initial(key, binding, session)
    && forall i | 0 <= i < |events| :: Follows(states, events, i)
  }

  ghost predicate Follows(states: seq<State>, events: seq<Event>, i: nat)
    requires i < |events| && i + 1 < |states|
  {
    Enabled(states[i], events[i]) && states[i + 1] == Step(states[i], events[i])
  }

  lemma {:induction false} RunKeepsInv(key: Key, binding: Binding, session: string, states: seq<State>,
                                       events: seq<Event>, i: nat)
    requires IsRun(key, binding, session, states, events) && i < |states|
    ensures Inv(states[i])
  {
    if i > 0 {
      RunKeepsInv(key, binding, session, states, events, i - 1);
      assert Follows(states, events, i - 1);
      StepKeepsInv(states[i - 1], events[i - 1]);
    }
  }

  /** In every run the harness is started at most once and run at most once, each
      call passes the child's fence at most once, and everything the harness is
      asked to do is a call the parent made, entered once. */
  lemma {:induction false} AtMostOnce(key: Key, binding: Binding, session: string, states: seq<State>,
                                      events: seq<Event>, k: nat)
    requires IsRun(key, binding, session, states, events) && k < |states|
    ensures var c := states[k].child; forall i, j | 0 <= i < j < |c.invoked| ::
      && !(c.invoked[i].command.Start? && c.invoked[j].command.Start?)
      && !(c.invoked[i].command.Run? && c.invoked[j].command.Run?)
      && c.invoked[i].op != c.invoked[j].op
    ensures var c := states[k].child; forall i, j | 0 <= i < j < |c.dispatched| :: c.dispatched[i] != c.dispatched[j]
    ensures forall v | v in states[k].child.invoked ::
      v.op in states[k].parent.commands && states[k].parent.commands[v.op] == v.command
  {
    RunKeepsInv(key, binding, session, states, events, k);
    var s := states[k];
    forall v | v in s.child.invoked ensures v.op in s.parent.commands && s.parent.commands[v.op] == v.command {
      assert IsInvoked(v, s.child.calls, s.parent.commands);
    }
  }

  /** A call that succeeds at the parent got its value from an accepted response
      frame with its own id, and that value is what the harness gave for exactly
      the command the parent had sent under that id. */
  lemma {:induction false} ResultsComeFromTheirOwnCall(key: Key, binding: Binding, session: string, states: seq<State>,
                                                       events: seq<Event>, k: nat, op: Id)
    requires IsRun(key, binding, session, states, events) && k < |states|
    requires op in states[k].parent.results && states[k].parent.results[op].Success?
    ensures var s, value := states[k], states[k].parent.results[op].value;
      && Response(op, true, value) in s.up.accepted
      && op in s.parent.commands && Invocation(op, s.parent.commands[op]) in s.child.invoked
      && Yields(s.child.yielded, op, value)
      && (s.parent.commands[op].Run? <==> value.Finished?)
  {
    RunKeepsInv(key, binding, session, states, events, k);
    var s, value := states[k], states[k].parent.results[op].value;
    assert FromFrame(op, s.parent.results[op], s.up.accepted);
    var i :| 0 <= i < |s.up.accepted| && s.up.accepted[i] == Response(op, true, value);
    assert Honest(s.up.attempts[i].payload, s.child.yielded);
    var v :| v in s.child.invoked && v.op == op && (v.command.Run? <==> s.child.yielded[op].Finished?);
    assert IsInvoked(v, s.child.calls, s.parent.commands);
    assert v == Invocation(op, s.parent.commands[op]);
  }

  /** So at most one run call ever succeeds, and it is the harness's only run. */
  lemma {:induction false} OneRunSucceeds(key: Key, binding: Binding, session: string, states: seq<State>,
                                          events: seq<Event>, k: nat, op: Id, other: Id)
    requires IsRun(key, binding, session, states, events) && k < |states|
    requires op in states[k].parent.results && states[k].parent.results[op].Success?
    requires other in states[k].parent.results && states[k].parent.results[other].Success?
    requires states[k].parent.results[op].value.Finished? && states[k].parent.results[other].value.Finished?
    ensures op == other
  {
    ResultsComeFromTheirOwnCall(key, binding, session, states, events, k, op);
    ResultsComeFromTheirOwnCall(key, binding, session, states, events, k, other);
    AtMostOnce(key, binding, session, states, events, k);
  }

  /** Requests the child answered against requests it emitted, for every id: the
      answers lag behind, unless the very id the approvals thread still holds
      registered was answered before its frame was encoded. */
  lemma {:induction false} AnswersAgainstRequests(key: Key, binding: Binding, session: string, states: seq<State>,
                                                  events: seq<Event>, k: nat, id: Id)
    requires IsRun(key, binding, session, states, events) && k < |states|
    ensures var s := states[k];
      && (TakenIn(s.child.invoked)[id] <= EmittedIn(s.up.attempts)[id]
          <==> !(id in HeldSet(s.child.approvals) && id !in s.child.pending))
      && TakenIn(s.child.invoked)[id] <= EmittedIn(s.up.attempts)[id] + 1
  {
    RunKeepsInv(key, binding, session, states, events, k);
    var s := states[k];
    assert (TakenIn(s.child.invoked) + multiset(s.child.pending))[id]
        == (EmittedIn(s.up.attempts) + HeldSet(s.child.approvals))[id];
  }

  // ---- When answers stay behind requests in every run --------------------------------

  /** A parent that answers a request only while it has received it more often
      than it has sent an answer for it. */
  ghost predicate Disciplined(s: State, e: Event) {
    e.PeerSend? && e.op in s.parent.unsent && s.parent.unsent[e.op].Respond? ==>
      var request := s.parent.unsent[e.op].request;
      RespondsTried(s.down.attempts)[request] < RequestsIn(s.up.accepted)[request]
  }

  function RespondsTried(attempts: seq<Attempt<Payload>>): (m: multiset<Id>) {
    if attempts == [] then multiset{}
    else RespondsTried(attempts[..|attempts| - 1]) + RespondOf(attempts[|attempts| - 1].payload)
  }

  /** The accepted payloads are those of as many attempts, each of which fitted. */
  ghost predicate From(accepted: seq<Payload>, attempts: seq<Attempt<Payload>>) {
    && |accepted| == |attempts|
    && forall i | 0 <= i < |accepted| :: attempts[i].fits && accepted[i] == attempts[i].payload
  }

  lemma {:induction false} AcceptedWereTried(accepted: seq<Payload>, attempts: seq<Attempt<Payload>>)
    requires From(accepted, attempts)
    ensures RequestsIn(accepted) <= EmittedIn(attempts) && RespondsIn(accepted) <= RespondsTried(attempts)
  {
    if accepted != [] {
      var n := |accepted| - 1;
      AcceptedWereTried(accepted[..n], attempts[..n]);
    }
  }

  lemma {:induction false} EmittedPrefix(attempts: seq<Attempt<Payload>>, n: nat)
    requires n <= |attempts|
    ensures EmittedIn(attempts[..n]) <= EmittedIn(attempts) && RespondsTried(attempts[..n]) <= RespondsTried(attempts)
    decreases |attempts| - n
  {
    if n < |attempts| {
      EmittedPrefix(attempts, n + 1);
      assert attempts[..n + 1][..n] == attempts[..n];
    } else {
      assert attempts[..n] == attempts;
    }
  }

  lemma {:induction false} TriedGrows(attempts: seq<Attempt<Payload>>, a: Attempt<Payload>)
    ensures RespondsTried(attempts + [a]) == RespondsTried(attempts) + RespondOf(a.payload)
  {
    assert (attempts + [a])[..|attempts|] == attempts;
  }

  lemma {:induction false} ReceivedGrows(accepted: seq<Payload>, payload: Payload)
    ensures RequestsIn(accepted) <= RequestsIn(accepted + [payload])
  {
    assert (accepted + [payload])[..|accepted|] == accepted;
  }

  lemma {:induction false} DisciplinedSend(s: State, op: Id, fits: bool)
    requires op in s.parent.unsent && RespondsTried(s.down.attempts) <= RequestsIn(s.up.accepted)
    requires s.parent.unsent[op].Respond? ==>
      RespondsTried(s.down.attempts)[s.parent.unsent[op].request]
        < RequestsIn(s.up.accepted)[s.parent.unsent[op].request]
    ensures RespondsTried(s.down.attempts + [Attempt(Call(op, s.parent.unsent[op]), fits)]) <= RequestsIn(s.up.accepted)
  {
    TriedGrows(s.down.attempts, Attempt(Call(op, s.parent.unsent[op]), fits));
  }

  lemma {:induction false} DisciplineStep(s: State, e: Event, n: State)
    requires Enabled(s, e) && Disciplined(s, e) && n == Step(s, e)
    requires RespondsTried(s.down.attempts) <= RequestsIn(s.up.accepted)
    ensures RespondsTried(n.down.attempts) <= RequestsIn(n.up.accepted)
  {
    if e.PeerSend? {
      DisciplinedSend(s, e.op, e.fits);
    } else if e.PeerRead? && Accepts(s.up, e.raw) {
      ReceivedGrows(s.up.accepted, e.raw.frame.payload);
    } else {
      assert n.down.attempts == s.down.attempts && n.up.accepted == s.up.accepted;
    }
  }

  lemma {:induction false} DisciplineHolds(key: Key, binding: Binding, session: string, states: seq<State>,
                                           events: seq<Event>, k: nat)
    requires IsRun(key, binding, session, states, events) && k < |states|
    requires forall i | 0 <= i < k :: Disciplined(states[i], events[i])
    ensures RespondsTried(states[k].down.attempts) <= RequestsIn(states[k].up.accepted)
  {
    if k > 0 {
      DisciplineHolds(key, binding, session, states, events, k - 1);
      assert Disciplined(states[k - 1], events[k - 1]) && Follows(states, events, k - 1);
      DisciplineStep(states[k - 1], events[k - 1], states[k]);
    }
  }

  lemma {:induction false} AcceptedResponds(p: Pipe<Payload>)
    requires Faithful(p)
    ensures RespondsIn(p.accepted) <= RespondsTried(p.attempts)
  {
    AcceptedWereTried(p.accepted, p.attempts[..|p.accepted|]);
    EmittedPrefix(p.attempts, |p.accepted|);
  }

  lemma {:induction false} AcceptedRequests(p: Pipe<Payload>)
    requires Faithful(p)
    ensures RequestsIn(p.accepted) <= EmittedIn(p.attempts)
  {
    AcceptedWereTried(p.accepted, p.attempts[..|p.accepted|]);
    EmittedPrefix(p.attempts, |p.accepted|);
  }

  /** With such a parent the answers never exceed the emitted requests, in any run. */
  lemma {:induction false} DisciplinedParentNeverOverAnswers(key: Key, binding: Binding, session: string,
                                                             states: seq<State>, events: seq<Event>, k: nat)
    requires IsRun(key, binding, session, states, events) && k < |states|
    requires forall i | 0 <= i < k :: Disciplined(states[i], events[i])
    ensures TakenIn(states[k].child.invoked) <= EmittedIn(states[k].up.attempts)
  {
    RunKeepsInv(key, binding, session, states, events, k);
    DisciplineHolds(key, binding, session, states, events, k);
    AcceptedResponds(states[k].down);
    AcceptedRequests(states[k].up);
  }

  // ---- A parent without that discipline -----------------------------------------------

  const START_A := Call("a", Start(true))
  const ANSWER_B := Call("b", Respond(true, "r", "yes"))

  /** The harness is started, raises request "r", and is still about to emit it
      when the parent, which chose the same id, answers it. */
  function EagerEvents(key: Key, binding: Binding): seq<Event> {
    [PeerStart("a"), PeerSend("a", true, true), ChildReceive(Parsed(Sealed(key, binding, 1, START_A))),
     ChildPerformed(true), ChildReply(true, true), NativeRequest("r", true),
     PeerCall("b", ANSWER_B.command), PeerSend("b", true, true),
     ChildReceive(Parsed(Sealed(key, binding, 2, ANSWER_B)))]
  }

  function EagerParent(i: nat): Parent {
    var p := Parent(false, false, true, map[], map[], map[], map[]);
    var p1 := p.(started := true, commands := map["a" := Start(true)], unsent := map["a" := Start(true)],
                 queues := map["a" := []]);
    var p2 := p1.(unsent := map[]);
    if i == 0 then p else if i == 1 then p1 else if i <= 6 then p2
    else Opened(p2, "b", ANSWER_B.command).(unsent := if i == 7 then map["b" := ANSWER_B.command] else map[])
  }

  function EagerChild(i: nat): Child {
    var c := Child("s", {}, [], false, false, false, {}, Listening, Unborn, Idle, [], map[]);
    var c3 := Entered(Fenced(c, "a"), "a", Start(true));
    var c4 := Performed(c3, "a", Start(true), true);
    var c5 := c4.(main := Listening);
    var c6 := Registered(c5, "r", true);
    if i <= 2 then c else if i == 3 then c3 else if i == 4 then c4 else if i == 5 then c5 else if i <= 8 then c6
    else Entered(Fenced(c6, "b"), "b", ANSWER_B.command)
  }

  function EagerDown(key: Key, binding: Binding, i: nat): Pipe<Payload> {
    Pipe(key, binding,
         if i <= 1 then []
         else if i <= 7 then [Attempt(START_A, true)]
         else [Attempt(START_A, true), Attempt(ANSWER_B, true)],
         if i <= 2 then [] else if i <= 8 then [START_A] else [START_A, ANSWER_B])
  }

  function EagerUp(key: Key, binding: Binding, i: nat): Pipe<Payload> {
    Pipe(key, binding, if i <= 4 then [] else [Attempt(Response("a", true, Nothing), true)], [])
  }

  function EagerState(key: Key, binding: Binding, i: nat): State {
    State(EagerParent(i), EagerChild(i), EagerDown(key, binding, i), EagerUp(key, binding, i))
  }

  lemma {:induction false} EagerParentStep(key: Key, binding: Binding, i: nat, s: State, e: Event, n: State)
    requires i in {0, 1, 6, 7} && s == EagerState(key, binding, i) && n == EagerState(key, binding, i + 1)
    requires e == EagerEvents(key, binding)[i]
    ensures Enabled(s, e) && n == Step(s, e)
  {
    assert n.parent.unsent
        == if i in {0, 6} then s.parent.unsent[e.op := n.parent.commands[e.op]] else s.parent.unsent - {e.op};
    var sent := Attempt(if i == 1 then START_A else ANSWER_B, true);
    assert n.down.attempts == if i in {0, 6} then s.down.attempts else s.down.attempts + [sent];
    assert n.parent == Step(s, e).parent;
    assert n == Step(s, e);
  }

  lemma {:induction false} EagerChildStep(key: Key, binding: Binding, i: nat, s: State, e: Event, n: State)
    requires i in {2, 3, 4, 5, 8} && s == EagerState(key, binding, i) && n == EagerState(key, binding, i + 1)
    requires e == EagerEvents(key, binding)[i]
    ensures Enabled(s, e) && n == Step(s, e)
  {
    if i == 2 { assert s.down.attempts[0] == Attempt(START_A, true); }
    if i == 8 { assert s.down.attempts[1] == Attempt(ANSWER_B, true); }
    assert n.child == Step(s, e).child;
    assert n == Step(s, e);
  }

  lemma {:induction false} EagerCounts(key: Key, binding: Binding)
    ensures TakenIn(EagerChild(9).invoked)["r"] == 1 && EmittedIn(EagerUp(key, binding, 9).attempts)["r"] == 0
  {
    assert EagerChild(9).invoked == [Invocation("a", Start(true)), Invocation("b", ANSWER_B.command)];
    TakenGrows([Invocation("a", Start(true))], Invocation("b", ANSWER_B.command));
    EmittedGrows([], Response("a", true, Nothing), true);
    assert [] + [Attempt(Response("a", true, Nothing), true)] == EagerUp(key, binding, 9).attempts;
  }

  lemma {:induction false} EagerAt(key: Key, binding: Binding, i: nat)
    requires i < 9
    ensures var s, e := EagerState(key, binding, i), EagerEvents(key, binding)[i];
      Enabled(s, e) && EagerState(key, binding, i + 1) == Step(s, e)
  {
    var s, e, n := EagerState(key, binding, i), EagerEvents(key, binding)[i], EagerState(key, binding, i + 1);
    if i in {0, 1, 6, 7} {
      EagerParentStep(key, binding, i, s, e, n);
    } else {
      EagerChildStep(key, binding, i, s, e, n);
    }
  }

  /** So the bound is not one the two processes keep by themselves. */
  lemma {:induction false} AnEagerParentIsAheadOfTheChild(key: Key, binding: Binding)
    ensures var states := seq(10, i requires 0 <= i < 10 => EagerState(key, binding, i));
      && IsRun(key, binding, "s", states, EagerEvents(key, binding))
      && TakenIn(states[9].child.invoked)["r"] == 1 && EmittedIn(states[9].up.attempts)["r"] == 0
  {
    EagerCounts(key, binding);
    var states := seq(10, i requires 0 <= i < 10 => EagerState(key, binding, i));
    forall i: nat | i < 9
      ensures Follows(states, EagerEvents(key, binding), i)
    {
      EagerAt(key, binding, i);
    }
  }
}
