/** The two ends of the control pipe as objects. Each method is one step of the
    machine in SdkControl: its contract gives the whole new state by the step's
    own function, and says what its codec counted. */
module SdkObjects {
  import opened Outcomes
  import opened SdkCodec
  import opened SdkControl

  class Controller {
    const codec: SDKFrameCodec<Payload>
    const session: string
    var calls: set<Id>
    var started: bool
    var running: bool
    var closed: bool
    var pending: set<Id>
    var main: Main
    var approvals: Approvals
    var run: Running
    ghost var dispatched: seq<Id>
    ghost var invoked: seq<Invocation>
    ghost var yielded: map<Id, Value>

    ghost function View(): Child
      reads this
    {
      Child(session, calls, dispatched, started, running, closed, pending, main, approvals, run, invoked, yielded)
    }

    constructor (codec: SDKFrameCodec<Payload>, session: string)
      ensures this.codec == codec
      ensures View() == Initial(codec.key, codec.binding, session).child
    {
      this.codec, this.session := codec, session;
      calls, started, running, closed, pending := {}, false, false, false, {};
      main, approvals, run := Listening, Unborn, Idle;
      dispatched, invoked, yielded := [], [], map[];
    }

    /** Encodes and writes one frame; false when either raised. */
    method Emit(payload: Payload, fits: bool, sent: bool) returns (ok: bool)
      modifies codec`sent
      ensures ok == (fits && sent) && codec.sent == old(codec.sent) + 1
    {
      var frame := codec.Encode(payload, fits);
      ok := frame.Success? && sent;
    }

    /** The fence and the checks of one call; false where the original raises. */
    method Dispatch(payload: Payload) returns (ok: bool)
      modifies this
      ensures ok ==> View() == Dispatched(old(View()), payload)
      ensures !ok ==> Halting(View()) == Dispatched(old(View()), payload)
    {
      if !payload.Call? { return false; }
      var operation := payload.id;
      if operation in calls { return false; }
      calls := calls + {operation};
      dispatched := dispatched + [operation];
      match payload.command {
        case Start(bare) =>
          if started || !bare { return false; }
          started := true;
          main := Doing(operation, payload.command);
        case Run(shaped, forSession, prompt) =>
          if !started || running || !shaped { return false; }
          if forSession != session || !(1 <= |prompt| <= 65536) { return false; }
          running := true;
          run := Executing(operation);
        case Respond(shaped, request, answer) =>
          if !shaped || request !in pending { return false; }
          pending := pending - {request};
          main := Doing(operation, payload.command);
        case Unsupported =>
          return false;
      }
      invoked := invoked + [Invocation(operation, payload.command)];
      ok := true;
    }

    /** One turn of the main loop: a line is decoded and dispatched, and any
        failure ends the child. */
    method Receive(raw: Wire<Payload>)
      modifies this, codec`received
      ensures Admits(codec.key, codec.binding, old(codec.received), raw) ==>
        View() == Dispatched(old(View()), raw.frame.payload) && codec.received == old(codec.received) + 1
      ensures !Admits(codec.key, codec.binding, old(codec.received), raw) ==>
        View() == Halting(old(View())) && codec.received == old(codec.received)
    {
      var payload := codec.Decode(raw);
      var ok := false;
      if payload.Success? {
        ok := Dispatch(payload.value);
      }
      if !ok {
        main, closed := Halted, true;
      }
    }

    method Performed(ok: bool)
      requires main.Doing?
      modifies this
      ensures View() == SdkControl.Performed(old(View()), old(main.op), old(main.command), ok)
    {
      if !ok {
        main, closed := Halted, true;
        return;
      }
      if main.command.Start? { approvals := Waiting; }
      yielded := yielded[main.op := Nothing];
      main := Replying(main.op);
    }

    method Reply(fits: bool, sent: bool)
      requires main.Replying?
      modifies this, codec`sent
      ensures View() == if fits && sent then old(View()).(main := Listening) else Halting(old(View()))
      ensures codec.sent == old(codec.sent) + 1
    {
      var ok := Emit(Response(main.op, true, Nothing), fits, sent);
      if ok { main := Listening; } else { main, closed := Halted, true; }
    }

    /** The approvals thread takes a native request and registers it. */
    method Register(id: Id, supported: bool)
      requires approvals.Waiting?
      modifies this
      ensures View() == Registered(old(View()), id, supported)
    {
      if !supported || id in pending {
        approvals, closed := Faulting(None), true;
        return;
      }
      pending := pending + {id};
      approvals := Holding(id);
    }

    method EmitRequest(fits: bool, sent: bool)
      requires approvals.Holding?
      modifies this, codec`sent
      ensures View() == RequestEmitted(old(View()), old(approvals.id), fits, sent)
      ensures codec.sent == old(codec.sent) + 1
    {
      var ok := Emit(Request(approvals.id), fits, sent);
      if ok {
        approvals := Waiting;
      } else {
        approvals, closed := Faulting(if fits then None else Some(approvals.id)), true;
      }
    }

    /** The harness's run returns a text, or raises. */
    method RunEnds(text: Option<string>)
      requires run.Executing?
      modifies this
      ensures View() == RunOver(old(View()), old(run.op), text)
    {
      if text.Some? {
        yielded := yielded[run.op := Finished(text.value)];
        run := Returned(run.op, text.value);
      } else {
        run := Raised(run.op);
      }
    }
  }

  class SDKControlPeer {
    const codec: SDKFrameCodec<Payload>
    var started: bool
    var closed: bool
    var reading: bool
    var queues: map<Id, seq<Reply>>
    var requests: seq<Option<Id>>
    ghost var commands: map<Id, Command>
    ghost var unsent: map<Id, Command>
    ghost var results: map<Id, Result<Value, RpcError>>

    ghost function View(): Parent
      reads this
    {
      Parent(started, closed, reading, commands, unsent, queues, results)
    }

    constructor (codec: SDKFrameCodec<Payload>)
      ensures this.codec == codec && requests == []
      ensures View() == Initial(codec.key, codec.binding, "").parent
    {
      this.codec := codec;
      started, closed, reading, queues, requests := false, false, true, map[], [];
      commands, unsent, results := map[], map[], map[];
    }

    /** The replay check of `start`. */
    method Start() returns (ok: bool)
      modifies this
      ensures ok == !old(started) && View() == old(View()).(started := true)
      ensures requests == old(requests)
    {
      ok := !started;
      started := true;
    }

    /** The first half of a call: a fresh operation gets its own queue. */
    method Open(op: Id, command: Command) returns (ok: bool)
      requires op !in commands
      modifies this
      ensures ok == !old(closed)
      ensures View() == if old(closed) then old(View()) else Opened(old(View()), op, command)
      ensures requests == old(requests)
    {
      if closed { return false; }
      queues := queues[op := []];
      commands, unsent := commands[op := command], unsent[op := command];
      ok := true;
    }

    /** The frame goes out, or the call fails and gives up its queue. */
    method Send(op: Id, command: Command, fits: bool, sent: bool) returns (ok: bool)
      requires op in unsent && unsent[op] == command
      modifies this, codec`sent
      ensures ok == (fits && sent) && codec.sent == old(codec.sent) + 1
      ensures var p := old(View()).(unsent := old(unsent) - {op});
        View() == if ok then p else Settled(p, op, Failure(Refused))
      ensures requests == old(requests)
    {
      var frame := codec.Encode(Call(op, command), fits);
      unsent := unsent - {op};
      ok := frame.Success? && sent;
      if !ok {
        queues := queues - {op};
        results := results[op := Failure(Refused)];
      }
    }

    /** The second half of a call: its first reply decides. */
    method Take(op: Id) returns (r: Result<Value, RpcError>)
      requires op in queues && |queues[op]| > 0
      modifies this
      ensures r == ResultOf(old(queues)[op][0]) && View() == Settled(old(View()), op, r)
      ensures requests == old(requests)
    {
      var reply := queues[op][0];
      r := if reply.ok then Success(reply.value) else Failure(Refused);
      queues := queues - {op};
      results := results[op := r];
    }

    /** Everyone still waiting is told; a waiter for native requests wakes too. */
    method Close()
      modifies this
      ensures View() == Closed(old(View())) && requests == old(requests) + [None]
    {
      closed := true;
      requests := requests + [None];
      var todo := queues.Keys;
      while todo != {}
        invariant todo <= queues.Keys && queues.Keys == old(queues).Keys
        invariant forall op | op in queues ::
          queues[op] == if op in todo then old(queues)[op] else old(queues)[op] + [Reply(false, Nothing)]
        invariant View() == old(View()).(closed := true, queues := queues) && requests == old(requests) + [None]
        decreases todo
      {
        var op :| op in todo;
        queues := queues[op := queues[op] + [Reply(false, Nothing)]];
        todo := todo - {op};
      }
      assert queues == Closed(old(View())).queues;
    }

    /** One turn of the reader. */
    method Read(raw: Wire<Payload>)
      modifies this, codec`received
      ensures Admits(codec.key, codec.binding, old(codec.received), raw) ==>
        View() == Heard(old(View()), raw.frame.payload) && codec.received == old(codec.received) + 1
      ensures !Admits(codec.key, codec.binding, old(codec.received), raw) ==>
        View() == Closed(old(View())).(reading := false) && codec.received == old(codec.received)
      ensures Admits(codec.key, codec.binding, old(codec.received), raw) && raw.frame.payload.Request? ==>
        requests == old(requests) + [Some(raw.frame.payload.id)]
    {
      var payload := codec.Decode(raw);
      if payload.Success? {
        if payload.value.Response? && payload.value.id in queues {
          var id := payload.value.id;
          queues := queues[id := queues[id] + [Reply(payload.value.ok, payload.value.value)]];
          return;
        } else if payload.value.Request? {
          requests := requests + [Some(payload.value.id)];
          return;
        }
      }
      Close();
      reading := false;
    }
  }
}
