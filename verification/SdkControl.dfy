/** The parent's RPC peer and the child's controller, joined by two authenticated
    pipes, as a machine of interleaved steps. Each lock-protected section of either
    process is one step, and so is each frame encoded or decoded. */
module SdkControl {
  import opened Outcomes
  import opened SdkCodec

  type Id = string

  /** What a call asks for. `shaped` and `bare` tell whether its parameters have
      exactly the fields the method demands. */
  datatype Command =
    | Start(bare: bool)
    | Run(shaped: bool, session: string, prompt: string)
    | Respond(shaped: bool, request: Id, answer: string)
    | Unsupported

  datatype Value = Nothing | Finished(text: string)

  datatype Payload =
    | Call(id: Id, command: Command)
    | Response(id: Id, ok: bool, value: Value)
    | Request(id: Id)
    | Fault

  datatype RpcError = Refused

  datatype Reply = Reply(ok: bool, value: Value)

  datatype Parent = Parent(
    started: bool,
    closed: bool,
    reading: bool,
    commands: map<Id, Command>,      // every operation ever made
    unsent: map<Id, Command>,        // made, not yet encoded
    queues: map<Id, seq<Reply>>,     // `pending`: one queue for each waiting operation
    results: map<Id, Result<Value, RpcError>>)

  /** The main thread: reading lines, inside a harness call, or about to reply. */
  datatype Main = Listening | Doing(op: Id, command: Command) | Replying(op: Id) | Halted

  /** The approvals thread; `held` is a request registered and not emitted. */
  datatype Approvals = Unborn | Waiting | Holding(id: Id) | Faulting(held: Option<Id>) | Ended(held: Option<Id>)

  /** The run thread. */
  datatype Running = Idle | Executing(op: Id) | Returned(op: Id, text: string) | Raised(op: Id) | Finish

  datatype Invocation = Invocation(op: Id, command: Command)

  datatype Child = Child(
    session: string,
    calls: set<Id>,
    dispatched: seq<Id>,             // history: calls that passed the replay fence
    started: bool,
    running: bool,
    closed: bool,
    pending: set<Id>,
    main: Main,
    approvals: Approvals,
    run: Running,
    invoked: seq<Invocation>,        // history: calls into the harness
    yielded: map<Id, Value>)         // history: what those that returned gave

  datatype State = State(parent: Parent, child: Child, down: Pipe<Payload>, up: Pipe<Payload>)

  function Initial(key: Key, binding: Binding, session: string): State {
    State(Parent(false, false, true, map[], map[], map[], map[]),
          Child(session, {}, [], false, false, false, {}, Listening, Unborn, Idle, [], map[]),
          Pipe(key, binding, [], []), Pipe(key, binding, [], []))
  }

  datatype Event =
    | PeerStart(op: Id)
    | PeerCall(op: Id, command: Command)
    | PeerSend(op: Id, fits: bool, sent: bool)
    | PeerRead(raw: Wire<Payload>)
    | PeerTake(op: Id)
    | PeerTimeout(op: Id)
    | PeerClose
    | ChildReceive(raw: Wire<Payload>)
    | ChildPerformed(ok: bool)
    | ChildReply(fits: bool, sent: bool)
    | NativeRequest(id: Id, supported: bool)
    | NativeFault
    | EmitRequest(fits: bool, sent: bool)
    | EmitFault(fits: bool)
    | RunEnds(text: Option<string>)
    | RunReplies(fits: bool, sent: bool)

  // ---- The parent ------------------------------------------------------------

  function Opened(p: Parent, op: Id, command: Command): Parent {
    p.(commands := p.commands[op := command], unsent := p.unsent[op := command], queues := p.queues[op := []])
  }

  function Settled(p: Parent, op: Id, r: Result<Value, RpcError>): Parent {
    p.(queues := p.queues - {op}, results := p.results[op := r])
  }

  function Closed(p: Parent): Parent {
    p.(closed := true, queues := map op | op in p.queues :: p.queues[op] + [Reply(false, Nothing)])
  }

  /** The reader's handling of one decoded payload. */
  function Heard(p: Parent, payload: Payload): Parent {
    match payload
    case Response(id, ok, value) =>
      if id in p.queues then p.(queues := p.queues[id := p.queues[id] + [Reply(ok, value)]])
      else Closed(p).(reading := false)
    case Request(_) => p
    case _ => Closed(p).(reading := false)
  }

  function ResultOf(reply: Reply): Result<Value, RpcError> {
    if reply.ok then Success(reply.value) else Failure(Refused)
  }

  // ---- The child -------------------------------------------------------------

  predicate Admissible(c: Child, command: Command) {
    match command
    case Start(bare) => !c.started && bare
    case Run(shaped, session, prompt) =>
      c.started && !c.running && shaped && session == c.session && 1 <= |prompt| <= 65536
    case Respond(shaped, request, _) => shaped && request in c.pending
    case Unsupported => false
  }

  function Halting(c: Child): Child {
    c.(main := Halted, closed := true)
  }

  /** Passing the replay fence. */
  function Fenced(c: Child, op: Id): Child {
    c.(calls := c.calls + {op}, dispatched := c.dispatched + [op])
  }

  /** A call that passed every check: the harness is entered. */
  function Entered(c: Child, op: Id, command: Command): Child {
    var c := c.(invoked := c.invoked + [Invocation(op, command)]);
    match command
    case Start(_) => c.(started := true, main := Doing(op, command))
    case Run(_, _, _) => c.(running := true, run := Executing(op))
    case Respond(_, request, _) => c.(pending := c.pending - {request}, main := Doing(op, command))
    case Unsupported => c
  }

  function Dispatched(c: Child, payload: Payload): Child {
    if !payload.Call? || payload.id in c.calls then Halting(c)
    else if Admissible(c, payload.command) then Entered(Fenced(c, payload.id), payload.id, payload.command)
    else Halting(Fenced(c, payload.id))
  }

  /** A harness call of the main thread returns, or raises and ends the child. */
  function Performed(c: Child, op: Id, command: Command, ok: bool): Child {
    if !ok then Halting(c)
    else c.(yielded := c.yielded[op := Nothing], main := Replying(op),
            approvals := if command.Start? then Waiting else c.approvals)
  }

  function Registered(c: Child, id: Id, supported: bool): Child {
    if !supported || id in c.pending then c.(approvals := Faulting(None), closed := true)
    else c.(approvals := Holding(id), pending := c.pending + {id})
  }

  function RequestEmitted(c: Child, id: Id, fits: bool, sent: bool): Child {
    if !fits then c.(approvals := Faulting(Some(id)), closed := true)
    else if !sent then c.(approvals := Faulting(None), closed := true)
    else c.(approvals := Waiting)
  }

  function RunOver(c: Child, op: Id, text: Option<string>): Child {
    match text
    case None => c.(run := Raised(op))
    case Some(t) => c.(run := Returned(op, t), yielded := c.yielded[op := Finished(t)])
  }

  // ---- The whole system ------------------------------------------------------

  ghost predicate Enabled(s: State, e: Event) {
    match e
    case PeerStart(op) => op !in s.parent.commands
    case PeerCall(op, _) => op !in s.parent.commands
    case PeerSend(op, _, _) => op in s.parent.unsent
    case PeerRead(raw) => s.parent.reading && Possible(s.up, raw)
    case PeerTake(op) => op in s.parent.queues && |s.parent.queues[op]| > 0
    case PeerTimeout(op) => op in s.parent.queues
    case PeerClose => true
    case ChildReceive(raw) => s.child.main == Listening && Possible(s.down, raw)
    case ChildPerformed(_) => s.child.main.Doing?
    case ChildReply(_, _) => s.child.main.Replying?
    case NativeRequest(_, _) => s.child.approvals == Waiting
    case NativeFault => s.child.approvals == Waiting
    case EmitRequest(_, _) => s.child.approvals.Holding?
    case EmitFault(_) => s.child.approvals.Faulting?
    case RunEnds(_) => s.child.run.Executing?
    case RunReplies(_, _) => s.child.run.Raised? || s.child.run.Returned?
  }

  function Sent(s: State, op: Id, fits: bool, sent: bool): State
    requires op in s.parent.unsent
  {
    var p := s.parent.(unsent := s.parent.unsent - {op});
    s.(down := SendStep(s.down, Call(op, s.parent.unsent[op]), fits),
       parent := if fits && sent then p else Settled(p, op, Failure(Refused)))
  }

  function Read(s: State, raw: Wire<Payload>): State {
    if Accepts(s.up, raw) then s.(up := DeliverStep(s.up, raw), parent := Heard(s.parent, raw.frame.payload))
    else s.(parent := Closed(s.parent).(reading := false))
  }

  function Received(s: State, raw: Wire<Payload>): State {
    if Accepts(s.down, raw) then s.(down := DeliverStep(s.down, raw), child := Dispatched(s.child, raw.frame.payload))
    else s.(child := Halting(s.child))
  }

  function Emitted(s: State, c: Child, payload: Payload, fits: bool): State {
    s.(child := c, up := SendStep(s.up, payload, fits))
  }

  ghost function Step(s: State, e: Event): State
    requires Enabled(s, e)
  {
    match e
    case PeerStart(op) =>
      if s.parent.started then s else s.(parent := Opened(s.parent.(started := true), op, Start(true)))
    case PeerCall(op, command) => s.(parent := Opened(s.parent, op, command))
    case PeerSend(op, fits, sent) => Sent(s, op, fits, sent)
    case PeerRead(raw) => Read(s, raw)
    case PeerTake(op) => s.(parent := Settled(s.parent, op, ResultOf(s.parent.queues[op][0])))
    case PeerTimeout(op) => s.(parent := Settled(s.parent, op, Failure(Refused)))
    case PeerClose => s.(parent := Closed(s.parent))
    case ChildReceive(raw) => Received(s, raw)
    case ChildPerformed(ok) => s.(child := Performed(s.child, s.child.main.op, s.child.main.command, ok))
    case ChildReply(fits, sent) =>
      Emitted(s, if fits && sent then s.child.(main := Listening) else Halting(s.child),
              Response(s.child.main.op, true, Nothing), fits)
    case NativeRequest(id, supported) => s.(child := Registered(s.child, id, supported))
    case NativeFault => s.(child := s.child.(approvals := Faulting(None), closed := true))
    case EmitRequest(fits, sent) =>
      var id := s.child.approvals.id;
      Emitted(s, RequestEmitted(s.child, id, fits, sent), Request(id), fits)
    case EmitFault(fits) => Emitted(s, s.child.(approvals := Ended(s.child.approvals.held)), Fault, fits)
    case RunEnds(text) => s.(child := RunOver(s.child, s.child.run.op, text))
    case RunReplies(fits, sent) =>
      var op := s.child.run.op;
      if s.child.run.Raised? then Emitted(s, s.child.(run := Finish), Response(op, false, Nothing), fits)
      else Emitted(s, s.child.(run := if fits && sent then Finish else Raised(op)),
                   Response(op, true, Finished(s.child.run.text)), fits)
  }
}
