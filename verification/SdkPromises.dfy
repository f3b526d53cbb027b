/** Which calls the child enters, told from what it decoded, registered and entered
    before; and what each step of either end does to its frames and replies. */
module SdkPromises {
  import opened Outcomes
  import opened SdkCodec
  import opened SdkControl
  import opened SdkControlSafety

  // ---- What has been entered -----------------------------------------------------

  /** The start is bare, the run is for the child's own session with a prompt of
      allowed length, and an answer has exactly its fields. */
  predicate WellMade(command: Command, session: string) {
    match command
    case Start(bare) => bare
    case Run(shaped, of, prompt) => shaped && of == session && 1 <= |prompt| && |prompt| <= 65536
    case Respond(shaped, _, _) => shaped
    case Unsupported => false
  }

  ghost predicate HasStart(invoked: seq<Invocation>) { exists v :: v in invoked && v.command.Start? }
  ghost predicate HasRun(invoked: seq<Invocation>) { exists v :: v in invoked && v.command.Run? }

  ghost predicate Kept(c: Child, session: string) {
    && c.session == session
    && (forall v | v in c.invoked :: WellMade(v.command, session))
    && (c.started <==> HasStart(c.invoked)) && (c.running <==> HasRun(c.invoked))
    && (HasRun(c.invoked) ==> HasStart(c.invoked))
    && (forall op :: op in c.calls <==> op in c.dispatched)
  }

  lemma EnteredHas(invoked: seq<Invocation>, v: Invocation)
    ensures HasStart(invoked + [v]) <==> HasStart(invoked) || v.command.Start?
    ensures HasRun(invoked + [v]) <==> HasRun(invoked) || v.command.Run?
  {
    assert v in invoked + [v];
    assert forall w | w in invoked :: w in invoked + [v];
  }

  lemma EnteredKept(c: Child, op: Id, command: Command, session: string, n: Child)
    requires Kept(c, session) && Admissible(c, command) && n == Entered(Fenced(c, op), op, command)
    ensures Kept(n, session)
  {
    EnteredHas(c.invoked, Invocation(op, command));
    FencedKept(c, op);
  }

  lemma FencedKept(c: Child, op: Id)
    requires forall x :: x in c.calls <==> x in c.dispatched
    ensures forall x :: x in Fenced(c, op).calls <==> x in Fenced(c, op).dispatched
  {
    assert forall x :: x in c.dispatched + [op] <==> x in c.dispatched || x == op;
  }

  lemma DispatchedKept(c: Child, payload: Payload, session: string)
    requires Kept(c, session)
    ensures Kept(Dispatched(c, payload), session)
  {
    if payload.Call? && payload.id !in c.calls {
      FencedKept(c, payload.id);
      if Admissible(c, payload.command) {
        EnteredKept(c, payload.id, payload.command, session, Dispatched(c, payload));
      }
    }
  }

  predicate SameCalls(c: Child, n: Child) {
    && n.session == c.session && n.invoked == c.invoked && n.started == c.started && n.running == c.running
    && n.calls == c.calls && n.dispatched == c.dispatched
  }

  lemma OthersEnterNothing(s: State, e: Event)
    requires Enabled(s, e) && !e.ChildReceive?
    ensures SameCalls(s.child, Step(s, e).child)
    ensures Step(s, e).child.pending == s.child.pending || e.NativeRequest?
  {
    if ByChild(e) {
      match e
      case ChildPerformed(ok) =>
      case ChildReply(_, _) =>
      case NativeRequest(_, _) =>
      case NativeFault =>
      case EmitRequest(_, _) =>
      case EmitFault(_) =>
      case RunEnds(_) =>
      case RunReplies(_, _) =>
    } else {
      ParentLeavesChild(s, e);
    }
  }

  lemma ParentLeavesChild(s: State, e: Event)
    requires Enabled(s, e) && !ByChild(e)
    ensures Step(s, e).child == s.child
  {
  }

  lemma StepKept(s: State, e: Event, session: string)
    requires Enabled(s, e) && Kept(s.child, session)
    ensures Kept(Step(s, e).child, session)
  {
    if e.ChildReceive? {
      if Accepts(s.down, e.raw) { DispatchedKept(s.child, e.raw.frame.payload, session); }
    } else {
      OthersEnterNothing(s, e);
    }
  }

  lemma {:induction false} RunKept(key: Key, binding: Binding, session: string, states: seq<State>, events: seq<Event>,
                                   i: nat)
    requires IsRun(key, binding, session, states, events) && i < |states|
    ensures Kept(states[i].child, session)
  {
    if i > 0 {
      RunKept(key, binding, session, states, events, i - 1);
      assert Follows(states, events, i - 1);
      StepKept(states[i - 1], events[i - 1], session);
    }
  }

  /** In every run the child enters the harness only with well-made commands, a run
      only for its own session and only when started. */
  lemma OnlyWellMadeIsEntered(key: Key, binding: Binding, session: string, states: seq<State>, events: seq<Event>,
                              i: nat)
    requires IsRun(key, binding, session, states, events) && i < |states|
    ensures forall v | v in states[i].child.invoked :: WellMade(v.command, session)
    ensures HasRun(states[i].child.invoked) ==> HasStart(states[i].child.invoked)
  {
    RunKept(key, binding, session, states, events, i);
  }

  // ---- Native requests: registered and not answered -----------------------------------

  /** At this step the approvals thread takes the request `r` in hand. */
  predicate Registers(states: seq<State>, events: seq<Event>, j: nat, r: Id)
    requires j < |events| && j + 1 < |states|
  {
    events[j].NativeRequest? && events[j].id == r && states[j + 1].child.approvals == Holding(r)
  }

  ghost predicate Answers(invoked: seq<Invocation>, from: nat, r: Id) {
    exists k :: from <= k < |invoked| && invoked[k].command.Respond? && invoked[k].command.request == r
  }

  /** Registered at some step before `i`, and not answered since. */
  ghost predicate Outstanding(states: seq<State>, events: seq<Event>, i: nat, r: Id)
    requires i < |states| && |states| == |events| + 1
  {
    exists j: nat :: j < i && Registers(states, events, j, r)
                     && !Answers(states[i].child.invoked, |states[j + 1].child.invoked|, r)
  }

  /** What one step does to the set of registered requests. */
  ghost predicate Moves(c: Child, n: Child, taken: bool, r: Id) {
    && c.invoked <= n.invoked
    && (taken ==> r in n.pending)
    && (r in n.pending && r !in c.pending ==> taken)
    && (r in c.pending ==> (r in n.pending <==> !Answers(n.invoked, |c.invoked|, r)))
  }

  lemma DispatchMoves(c: Child, payload: Payload, r: Id)
    ensures Moves(c, Dispatched(c, payload), false, r)
  {
    var n := Dispatched(c, payload);
    if n.invoked != c.invoked {
      assert n.invoked[|c.invoked|] == Invocation(payload.id, payload.command);
    }
  }

  lemma StepMoves(s: State, e: Event, r: Id)
    requires Enabled(s, e)
    ensures var n := Step(s, e).child; Moves(s.child, n, e.NativeRequest? && e.id == r && n.approvals == Holding(r), r)
  {
    if e.ChildReceive? {
      if Accepts(s.down, e.raw) { DispatchMoves(s.child, e.raw.frame.payload, r); }
    } else {
      OthersEnterNothing(s, e);
    }
  }

  lemma NextMoves(key: Key, binding: Binding, session: string, states: seq<State>, events: seq<Event>, i: nat, r: Id)
    requires IsRun(key, binding, session, states, events) && i < |events|
    ensures Moves(states[i].child, states[i + 1].child, Registers(states, events, i, r), r)
  {
    assert Follows(states, events, i);
    StepMoves(states[i], events[i], r);
  }

  lemma AnswersSplit(invoked: seq<Invocation>, from: nat, to_: nat, r: Id)
    requires from <= to_ <= |invoked|
    ensures Answers(invoked, from, r) <==> Answers(invoked[..to_], from, r) || Answers(invoked, to_, r)
  {
  }

  lemma {:induction false} StaysOutstanding(key: Key, binding: Binding, session: string, states: seq<State>,
                                            events: seq<Event>, j: nat, i: nat, r: Id)
    requires IsRun(key, binding, session, states, events) && j < i < |states| && Registers(states, events, j, r)
    ensures |states[j + 1].child.invoked| <= |states[i].child.invoked|
    ensures r in states[i].child.pending || Answers(states[i].child.invoked, |states[j + 1].child.invoked|, r)
    decreases i
  {
    NextMoves(key, binding, session, states, events, i - 1, r);
    if j + 1 < i {
      StaysOutstanding(key, binding, session, states, events, j, i - 1, r);
      AnswersGoOn(states[i - 1].child.invoked, states[i].child.invoked, |states[j + 1].child.invoked|, r);
    }
  }

  lemma AnswersGoOn(before: seq<Invocation>, after: seq<Invocation>, from: nat, r: Id)
    requires from <= |before| && before <= after
    ensures Answers(after, from, r) <==> Answers(before, from, r) || Answers(after, |before|, r)
  {
    AnswersSplit(after, from, |before|, r);
    assert after[..|before|] == before;
  }

  lemma {:induction false} IsOutstanding(key: Key, binding: Binding, session: string, states: seq<State>,
                                         events: seq<Event>, i: nat, r: Id)
    requires IsRun(key, binding, session, states, events) && i < |states| && r in states[i].child.pending
    ensures Outstanding(states, events, i, r)
    decreases i
  {
    if i > 0 {
      NextMoves(key, binding, session, states, events, i - 1, r);
      var before, after := states[i - 1].child.invoked, states[i].child.invoked;
      if r in states[i - 1].child.pending {
        IsOutstanding(key, binding, session, states, events, i - 1, r);
        var j: nat :|
          j < i - 1 && Registers(states, events, j, r) && !Answers(before, |states[j + 1].child.invoked|, r);
        StaysOutstanding(key, binding, session, states, events, j, i - 1, r);
        AnswersGoOn(before, after, |states[j + 1].child.invoked|, r);
      } else {
        assert Registers(states, events, i - 1, r) && !Answers(after, |after|, r);
      }
    }
  }

  /** The requests the child will take an answer for are exactly those registered and
      not answered since. */
  lemma PendingIsOutstanding(key: Key, binding: Binding, session: string, states: seq<State>, events: seq<Event>,
                             i: nat, r: Id)
    requires IsRun(key, binding, session, states, events) && i < |states|
    ensures r in states[i].child.pending <==> Outstanding(states, events, i, r)
  {
    if r in states[i].child.pending {
      IsOutstanding(key, binding, session, states, events, i, r);
    } else if Outstanding(states, events, i, r) {
      var j: nat :| j < i && Registers(states, events, j, r)
                    && !Answers(states[i].child.invoked, |states[j + 1].child.invoked|, r);
      StaysOutstanding(key, binding, session, states, events, j, i, r);
    }
  }

  /** A supported native request is registered exactly when it is not outstanding. */
  lemma RegistersExactlyWhen(key: Key, binding: Binding, session: string, states: seq<State>, events: seq<Event>,
                             i: nat)
    requires IsRun(key, binding, session, states, events) && i < |events| && events[i].NativeRequest?
    ensures var n := states[i + 1].child;
      if events[i].supported && !Outstanding(states, events, i, events[i].id)
      then n.approvals == Holding(events[i].id) && n.closed == states[i].child.closed
      else n.approvals == Faulting(None) && n.closed
  {
    PendingIsOutstanding(key, binding, session, states, events, i, events[i].id);
    assert Follows(states, events, i);
  }

  // ---- Exactly the calls that are entered --------------------------------------------------

  /** The call is well made and comes at its time: one start, one run after it, an
      answer to an outstanding request. */
  ghost predicate MayEnter(states: seq<State>, events: seq<Event>, i: nat, session: string, command: Command)
    requires i < |states| && |states| == |events| + 1
  {
    var invoked := states[i].child.invoked;
    && WellMade(command, session)
    && (command.Start? ==> !HasStart(invoked))
    && (command.Run? ==> HasStart(invoked) && !HasRun(invoked))
    && (command.Respond? ==> Outstanding(states, events, i, command.request))
  }

  /** Decoded: the pipe accepted the line, and it held this payload. */
  predicate Decodes(s: State, e: Event, payload: Payload) {
    && e.ChildReceive? && e.raw.Parsed? && e.raw.frame.payload == payload
    && e.raw.frame.v == 1 && e.raw.frame.number == |s.down.accepted| + 1 && e.raw.frame.binding == s.down.binding
    && e.raw.frame.mac == Tag(s.down.key, 1, |s.down.accepted| + 1, s.down.binding, payload)
  }

  /** A decoded call is entered exactly when its id was not decoded in a call before
      and it may enter; anything else decoded, or not decodable, ends the child. */
  lemma EntersExactlyWhen(key: Key, binding: Binding, session: string, states: seq<State>, events: seq<Event>, i: nat,
                          op: Id, command: Command)
    requires IsRun(key, binding, session, states, events) && i < |events|
    requires Decodes(states[i], events[i], Call(op, command))
    ensures var c, n := states[i].child, states[i + 1].child;
      if op !in c.dispatched && MayEnter(states, events, i, session, command)
      then && n.invoked == c.invoked + [Invocation(op, command)] && n.dispatched == c.dispatched + [op]
           && n.closed == c.closed && n.approvals == c.approvals && n.yielded == c.yielded
           && (command.Run? ==> n.run == Executing(op) && n.main == c.main)
           && (!command.Run? ==> n.main == Doing(op, command) && n.run == c.run)
      else n.invoked == c.invoked && n.main == Halted && n.closed && n.yielded == c.yielded
  {
    RunKept(key, binding, session, states, events, i);
    assert Follows(states, events, i);
    if command.Respond? { PendingIsOutstanding(key, binding, session, states, events, i, command.request); }
  }

  lemma AllElseEndsTheChild(s: State, e: Event, n: State)
    requires Enabled(s, e) && e.ChildReceive? && n == Step(s, e)
    requires !exists op: Id, command: Command :: Decodes(s, e, Call(op, command))
    ensures n.child.invoked == s.child.invoked && n.child.main == Halted && n.child.closed
  {
    if Accepts(s.down, e.raw) && e.raw.frame.payload.Call? {
      assert Decodes(s, e, Call(e.raw.frame.payload.id, e.raw.frame.payload.command));
    }
  }

  // ---- What the child sends ------------------------------------------------------------------

  /** A harness call that returns is answered with success; one that raises ends the
      child. A start that returned lets native requests be taken. */
  lemma ReturnsAreAnswered(s: State, ok: bool)
    requires Enabled(s, ChildPerformed(ok))
    ensures var n, op := Step(s, ChildPerformed(ok)), s.child.main.op;
      && n.up == s.up && n.parent == s.parent && n.child.invoked == s.child.invoked
      && (ok ==> && n.child.main == Replying(op) && n.child.yielded == s.child.yielded[op := Nothing]
                 && n.child.approvals == (if s.child.main.command.Start? then Approvals.Waiting else s.child.approvals))
      && (!ok ==> n.child.main == Halted && n.child.closed && n.child.yielded == s.child.yielded)
  {
  }

  function Tried(p: Pipe<Payload>, payload: Payload, fits: bool): Pipe<Payload> {
    p.(attempts := p.attempts + [Attempt(payload, fits)])
  }

  lemma RepliesAreSent(s: State, fits: bool, sent: bool)
    requires Enabled(s, ChildReply(fits, sent))
    ensures var n := Step(s, ChildReply(fits, sent));
      && n.up == Tried(s.up, Response(s.child.main.op, true, Nothing), fits)
      && n.child.main == (if fits && sent then Listening else Halted)
      && (fits && sent ==> n.child.closed == s.child.closed) && (!(fits && sent) ==> n.child.closed)
  {
  }

  /** The run's text is what is answered; if it raised or its answer could not be
      sent, failure is. */
  lemma RunIsAnswered(s: State, e: Event)
    requires Enabled(s, e) && (e.RunEnds? || e.RunReplies?)
    ensures var n := Step(s, e);
      && n.child.main == s.child.main && n.child.closed == s.child.closed
      && (e.RunEnds? && e.text.Some? ==>
            && n.child.run == Returned(s.child.run.op, e.text.value) && n.up == s.up
            && n.child.yielded == s.child.yielded[s.child.run.op := Finished(e.text.value)])
      && (e.RunEnds? && e.text.None? ==>
            n.child.run == Raised(s.child.run.op) && n.up == s.up && n.child.yielded == s.child.yielded)
      && (e.RunReplies? && s.child.run.Returned? ==>
            && n.up == Tried(s.up, Response(s.child.run.op, true, Finished(s.child.run.text)), e.fits)
            && n.child.run == (if e.fits && e.sent then Finish else Raised(s.child.run.op)))
      && (e.RunReplies? && s.child.run.Raised? ==>
            n.up == Tried(s.up, Response(s.child.run.op, false, Nothing), e.fits) && n.child.run == Finish)
  {
  }

  /** A registered request goes out under its id; where it cannot, a fault does. */
  lemma RequestsAreSent(s: State, e: Event)
    requires Enabled(s, e) && (e.EmitRequest? || e.EmitFault?)
    ensures var n := Step(s, e);
      && (e.EmitRequest? ==>
            && n.up == Tried(s.up, Request(s.child.approvals.id), e.fits)
            && (n.child.approvals == Approvals.Waiting <==> e.fits && e.sent)
            && (!(e.fits && e.sent) ==> n.child.approvals.Faulting? && n.child.closed))
      && (e.EmitFault? ==> n.up == Tried(s.up, Fault, e.fits) && n.child.approvals.Ended?)
      && n.child.main == s.child.main && n.child.pending == s.child.pending
  {
  }

  // ---- What the parent does ---------------------------------------------------------------------

  /** Only the first start makes a call, with bare parameters; any other call is made
      as given. Both are then waited for. */
  lemma CallsAreMade(s: State, e: Event)
    requires Enabled(s, e) && (e.PeerStart? || e.PeerCall?)
    ensures var n, command := Step(s, e), if e.PeerCall? then e.command else Start(true);
      if e.PeerStart? && s.parent.started then n == s
      else && n.parent.unsent == s.parent.unsent[e.op := command] && n.parent.queues == s.parent.queues[e.op := []]
           && n.parent.results == s.parent.results && n.parent.closed == s.parent.closed
           && (e.PeerStart? ==> n.parent.started) && n.child == s.child && n.up == s.up && n.down == s.down
  {
  }

  /** A call goes out as its own frame; one that cannot fails at once. */
  lemma CallsAreSent(s: State, op: Id, fits: bool, sent: bool)
    requires Enabled(s, PeerSend(op, fits, sent))
    ensures var n := Step(s, PeerSend(op, fits, sent));
      && n.down == Tried(s.down, Call(op, s.parent.unsent[op]), fits) && n.parent.unsent == s.parent.unsent - {op}
      && (fits && sent ==> n.parent.queues == s.parent.queues && n.parent.results == s.parent.results)
      && (!(fits && sent) ==> && n.parent.queues == s.parent.queues - {op}
                              && n.parent.results == s.parent.results[op := Failure(Refused)])
  {
  }

  /** The reader passes a response on to the call that waits for it and lets native
      requests by; anything else closes the peer and fails every waiting call. */
  lemma LinesAreHeard(s: State, raw: Wire<Payload>)
    requires Enabled(s, PeerRead(raw))
    ensures var n, p := Step(s, PeerRead(raw)).parent, s.parent;
      if && raw.Parsed? && raw.frame.v == 1
         && raw.frame.number == |s.up.accepted| + 1 && raw.frame.binding == s.up.binding
         && raw.frame.mac == Tag(s.up.key, 1, |s.up.accepted| + 1, s.up.binding, raw.frame.payload)
         && (raw.frame.payload.Request? || (raw.frame.payload.Response? && raw.frame.payload.id in p.queues))
      then && n.closed == p.closed && n.reading == p.reading
           && n.queues == (match raw.frame.payload
                           case Response(id, ok, value) => p.queues[id := p.queues[id] + [Reply(ok, value)]]
                           case _ => p.queues)
      else n.closed && !n.reading && n.queues == map op | op in p.queues :: p.queues[op] + [Reply(false, Nothing)]
  {
  }

  /** The first reply decides a call; waiting too long fails it. */
  lemma RepliesDecide(s: State, e: Event)
    requires Enabled(s, e) && (e.PeerTake? || e.PeerTimeout?)
    ensures var n, p := Step(s, e).parent, s.parent;
      && n.queues == p.queues - {e.op} && n.closed == p.closed
      && n.results == p.results[e.op := if e.PeerTake? && p.queues[e.op][0].ok then Success(p.queues[e.op][0].value)
                                        else Failure(Refused)]
  {
  }

  lemma ClosingFailsAll(s: State)
    ensures var n := Step(s, PeerClose).parent;
      n.closed && n.queues == map op | op in s.parent.queues :: s.parent.queues[op] + [Reply(false, Nothing)]
  {
  }
}
