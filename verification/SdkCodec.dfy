/** The authenticated, sequence-numbered frames of the SDK control pipe. */
module SdkCodec {
  import opened Outcomes

  type Key = nat
  type Binding = map<string, string>

  /** An ideal MAC: a tag stands for the key and the text it was made from, and
      nothing else has that value. */
  datatype Mac<P> = Tag(key: Key, v: int, number: int, binding: Binding, payload: P) | Noise(bits: nat)

  datatype Frame<P> = Frame(v: int, number: int, binding: Binding, payload: P, mac: Mac<P>)

  /** What a line of the channel turns out to be: text beyond the frame limit,
      text that is no frame (malformed, repeated or missing fields), or a frame. */
  datatype Wire<P> = Oversize | Unparsable | Parsed(frame: Frame<P>)

  datatype CodecError = FrameTooLarge | InvalidFrame | ForeignReplayedOrUnauthenticated

  function Sealed<P>(key: Key, binding: Binding, n: int, payload: P): Frame<P> {
    Frame(1, n, binding, payload, Tag(key, 1, n, binding, payload))
  }

  predicate Authentic<P(==)>(key: Key, f: Frame<P>) {
    f.mac == Tag(key, f.v, f.number, f.binding, f.payload)
  }

  /** The codec object: one for each end, with a counter for each direction. */
  class SDKFrameCodec<P(==)> {
    const key: Key
    const binding: Binding
    var sent: nat
    var received: nat

    constructor (key: Key, binding: Binding)
      ensures this.key == key && this.binding == binding && sent == 0 && received == 0
    {
      this.key, this.binding := key, binding;
      sent, received := 0, 0;
    }

    /** `fits` tells whether the serialised frame is within the limit. The
        counter has advanced even when it is not. */
    method Encode(payload: P, fits: bool) returns (r: Result<Frame<P>, CodecError>)
      modifies this`sent
      ensures sent == old(sent) + 1
      ensures r == if fits then Success(Sealed(key, binding, sent, payload)) else Failure(FrameTooLarge)
    {
      sent := sent + 1;
      var frame := Frame(1, sent, binding, payload, Tag(key, 1, sent, binding, payload));
      if !fits {
        return Failure(FrameTooLarge);
      }
      r := Success(frame);
    }

    method Decode(raw: Wire<P>) returns (r: Result<P, CodecError>)
      modifies this`received
      ensures r.Success? <==> Admits(key, binding, old(received), raw)
      ensures r.Success? ==> r.value == raw.frame.payload && received == old(received) + 1
      ensures r.Failure? ==> received == old(received)
    {
      match raw
      case Oversize => r := Failure(FrameTooLarge);
      case Unparsable => r := Failure(InvalidFrame);
      case Parsed(frame) =>
        var expected := Tag(key, frame.v, frame.number, frame.binding, frame.payload);
        if frame.mac != expected || frame.v != 1 || frame.number != received + 1 || frame.binding != binding {
          return Failure(ForeignReplayedOrUnauthenticated);
        }
        received := frame.number;
        r := Success(frame.payload);
    }
  }

  predicate Admits<P(==)>(key: Key, binding: Binding, received: nat, raw: Wire<P>) {
    && raw.Parsed? && raw.frame.v == 1
    && raw.frame.number == received + 1 && raw.frame.binding == binding && Authentic(key, raw.frame)
  }

  // ---- One direction of the pipe -------------------------------------------

  datatype Attempt<P> = Attempt(payload: P, fits: bool)

  /** Everything one end tried to send and the other end accepted; `sent` and
      `received` are the two lengths. */
  datatype Pipe<P> = Pipe(key: Key, binding: Binding, attempts: seq<Attempt<P>>, accepted: seq<P>)

  datatype PipeEvent<P> = Send(payload: P, fits: bool) | Deliver(raw: Wire<P>)

  function SendStep<P>(p: Pipe<P>, payload: P, fits: bool): Pipe<P> {
    p.(attempts := p.attempts + [Attempt(payload, fits)])
  }

  /** The channel may lose, repeat, reorder and invent lines, but it can only
      copy a tag made with the key: the sender put it on a frame that fitted. */
  ghost predicate Possible<P>(p: Pipe<P>, raw: Wire<P>) {
    raw.Parsed? && raw.frame.mac.Tag? && raw.frame.mac.key == p.key ==>
      exists i :: 0 <= i < |p.attempts| && p.attempts[i].fits
                  && raw.frame.mac == Sealed(p.key, p.binding, i + 1, p.attempts[i].payload).mac
  }

  predicate Accepts<P(==)>(p: Pipe<P>, raw: Wire<P>) {
    Admits(p.key, p.binding, |p.accepted|, raw)
  }

  function DeliverStep<P(==)>(p: Pipe<P>, raw: Wire<P>): Pipe<P> {
    if Accepts(p, raw) then p.(accepted := p.accepted + [raw.frame.payload]) else p
  }

  function PipeStep<P(==)>(p: Pipe<P>, e: PipeEvent<P>): Pipe<P> {
    match e
    case Send(payload, fits) => SendStep(p, payload, fits)
    case Deliver(raw) => DeliverStep(p, raw)
  }

  /** What was accepted is a prefix of what was sent, and all of it fitted. */
  ghost predicate Faithful<P>(p: Pipe<P>) {
    && |p.accepted| <= |p.attempts|
    && forall i | 0 <= i < |p.accepted| :: p.attempts[i].fits && p.accepted[i] == p.attempts[i].payload
  }

  /** A run of the pipe: every state in order, from an empty one. */
  ghost predicate IsPipeRun<P>(key: Key, binding: Binding, states: seq<Pipe<P>>, events: seq<PipeEvent<P>>) {
    && |states| == |events| + 1
    && states[0] == Pipe(key, binding, [], [])
    && forall i | 0 <= i < |events| ::
         && states[i + 1] == PipeStep(states[i], events[i])
         && (events[i].Deliver? ==> Possible(states[i], events[i].raw))
  }

  lemma StepIsFaithful<P>(p: Pipe<P>, e: PipeEvent<P>)
    requires Faithful(p) && (e.Deliver? ==> Possible(p, e.raw))
    ensures Faithful(PipeStep(p, e))
  {
    if e.Deliver? && Accepts(p, e.raw) {
      var i :| 0 <= i < |p.attempts| && p.attempts[i].fits
               && e.raw.frame.mac == Sealed(p.key, p.binding, i + 1, p.attempts[i].payload).mac;
      assert i == |p.accepted|;
    }
  }

  /** A line the channel can bring is accepted exactly when it is the sealed frame
      of the next payload, encoded by the sender and within the limit: that one is
      always taken, and no other ever. */
  lemma AcceptedExactlyWhen<P>(p: Pipe<P>, raw: Wire<P>, n: nat)
    requires Faithful(p) && Possible(p, raw) && n == |p.accepted| + 1
    ensures Accepts(p, raw) <==>
      && n <= |p.attempts| && p.attempts[n - 1].fits
      && var payload := p.attempts[n - 1].payload;
        raw == Parsed(Frame(1, n, p.binding, payload, Tag(p.key, 1, n, p.binding, payload)))
    ensures DeliverStep(p, raw).accepted ==
      if Accepts(p, raw) then p.accepted + [p.attempts[n - 1].payload] else p.accepted
  {
    if Accepts(p, raw) {
      var i :| 0 <= i < |p.attempts| && p.attempts[i].fits
               && raw.frame.mac == Sealed(p.key, p.binding, i + 1, p.attempts[i].payload).mac;
      assert i == n - 1;
    }
  }

  /** In every run the accepted payloads are a prefix of those encoded, whatever
      the channel does. */
  lemma {:induction false} AcceptedIsAPrefix<P>(key: Key, binding: Binding, states: seq<Pipe<P>>,
                                                events: seq<PipeEvent<P>>, i: nat)
    requires IsPipeRun(key, binding, states, events) && i < |states|
    ensures Faithful(states[i]) && states[i].key == key && states[i].binding == binding
  {
    if i > 0 {
      AcceptedIsAPrefix(key, binding, states, events, i - 1);
      StepIsFaithful(states[i - 1], events[i - 1]);
    }
  }

  lemma {:induction false} AttemptsOnlyGrow<P>(key: Key, binding: Binding, states: seq<Pipe<P>>,
                                               events: seq<PipeEvent<P>>, i: nat, j: nat)
    requires IsPipeRun(key, binding, states, events) && i <= j < |states|
    ensures states[i].attempts <= states[j].attempts
    decreases j
  {
    if i < j {
      AttemptsOnlyGrow(key, binding, states, events, i, j - 1);
    }
  }

  /** Once an encode has failed after advancing the counter, the other end never
      again accepts a frame numbered from there on: the direction is dead. */
  lemma OversizeEndsTheDirection<P>(key: Key, binding: Binding, states: seq<Pipe<P>>, events: seq<PipeEvent<P>>, i: nat,
                                    j: nat)
    requires IsPipeRun(key, binding, states, events) && i < |events| && i < j < |states|
    requires events[i].Send? && !events[i].fits
    ensures |states[j].accepted| <= |states[i].attempts|
    ensures states[j].accepted <= Payloads(states[i].attempts)
  {
    AttemptsOnlyGrow(key, binding, states, events, i + 1, j);
    AcceptedIsAPrefix(key, binding, states, events, j);
    var k := |states[i].attempts|;
    assert states[i + 1].attempts[k] == Attempt(events[i].payload, false);
    assert states[j].attempts[k] == Attempt(events[i].payload, false);
    assert forall m | 0 <= m < k :: states[j].attempts[m] == states[i].attempts[m];
  }

  function Payloads<P>(attempts: seq<Attempt<P>>): seq<P> {
    seq(|attempts|, i requires 0 <= i < |attempts| => attempts[i].payload)
  }
}
