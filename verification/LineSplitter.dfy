/** Incremental reading of an event stream that arrives in arbitrary chunks. */
module LineSplitter {
  import opened Outcomes
  import opened Basics

  type Line = seq<byte>

  const NEWLINE: byte := 10
  const DATA_PREFIX: Line := [100, 97, 116, 97, 58, 32]       // "data: "
  const DONE_MARK: Line := [91, 68, 79, 78, 69, 93]           // "[DONE]"
  const PENDING_LIMIT := 131072

  // ---- Complete lines of a text ---------------------------------------------------

  function FirstNewline(s: Line): (i: nat)
    ensures i <= |s| && (forall j | 0 <= j < i :: s[j] != NEWLINE) && (i < |s| ==> s[i] == NEWLINE)
  {
    if s == [] || s[0] == NEWLINE then 0 else 1 + FirstNewline(s[1..])
  }

  /** The lines that are complete. */
  function Lines(s: Line): seq<Line> {
    if s == [] then []
    else
      var front := s[..|s| - 1];
      if s[|s| - 1] == NEWLINE then Lines(front) + [Rest(front)] else Lines(front)
  }

  /** What follows the last newline. */
  function Rest(s: Line): Line {
    if s == [] || s[|s| - 1] == NEWLINE then [] else Rest(s[..|s| - 1]) + [s[|s| - 1]]
  }

  lemma OneMore(s: Line, c: byte)
    ensures Lines(s + [c]) == if c == NEWLINE then Lines(s) + [Rest(s)] else Lines(s)
    ensures Rest(s + [c]) == if c == NEWLINE then [] else Rest(s) + [c]
  {
    assert (s + [c])[..|s|] == s;
  }

  lemma SplitOneLater(first: seq<Line>, x: Line, y: Line, c: byte)
    requires Lines(x) == first + Lines(y) && Rest(x) == Rest(y)
    ensures Lines(x + [c]) == first + Lines(y + [c]) && Rest(x + [c]) == Rest(y + [c])
  {
    OneMore(x, c);
    OneMore(y, c);
    if c == NEWLINE { Regrouped(first, Lines(y), [Rest(y)]); }
  }

  /** Splitting may stop anywhere and go on with what was left. */
  lemma {:induction false} SplitAnywhere(a: Line, b: Line)
    ensures Lines(a + b) == Lines(a) + Lines(Rest(a) + b)
    ensures Rest(a + b) == Rest(Rest(a) + b)
  {
    if b == [] {
      RestHasNoLine(a);
      assert a + b == a && Rest(a) + b == Rest(a);
    } else {
      var front, c := b[..|b| - 1], b[|b| - 1];
      assert b == front + [c];
      SplitAnywhere(a, front);
      Regrouped(a, front, [c]);
      Regrouped(Rest(a), front, [c]);
      SplitOneLater(Lines(a), a + front, Rest(a) + front, c);
    }
  }

  lemma {:induction false} RestHasNoLine(s: Line)
    ensures Lines(Rest(s)) == [] && Rest(Rest(s)) == Rest(s)
  {
    if s != [] && s[|s| - 1] != NEWLINE {
      RestHasNoLine(s[..|s| - 1]);
      OneMore(Rest(s[..|s| - 1]), s[|s| - 1]);
    }
  }

  lemma {:induction false} NoLine(s: Line)
    requires forall j | 0 <= j < |s| :: s[j] != NEWLINE
    ensures Lines(s) == [] && Rest(s) == s
  {
    if s != [] {
      NoLine(s[..|s| - 1]);
      assert s == s[..|s| - 1] + [s[|s| - 1]];
    }
  }

  lemma LineThen(line: Line, rest: Line)
    requires NEWLINE !in line
    ensures Lines(line + [NEWLINE] + rest) == [line] + Lines(rest) && Rest(line + [NEWLINE] + rest) == Rest(rest)
  {
    NoLine(line);
    OneMore(line, NEWLINE);
    SplitAnywhere(line + [NEWLINE], rest);
    assert [] + rest == rest;
  }

  lemma CutAt(s: Line, i: nat)
    requires i < |s| && s[i] == NEWLINE
    ensures s == s[..i] + [NEWLINE] + s[i + 1..]
  {
  }

  /** One turn of every splitting loop. */
  lemma FirstLine(s: Line, i: nat)
    requires i == FirstNewline(s) && i < |s|
    ensures Lines(s) == [s[..i]] + Lines(s[i + 1..]) && Rest(s) == Rest(s[i + 1..])
  {
    CutAt(s, i);
    LineThen(s[..i], s[i + 1..]);
  }

  lemma {:induction false} RestIsShort(s: Line)
    ensures |Rest(s)| <= |s|
  {
    if s != [] { RestIsShort(s[..|s| - 1]); }
  }

  function Concat(chunks: seq<Line>): Line {
    if chunks == [] then [] else Concat(chunks[..|chunks| - 1]) + chunks[|chunks| - 1]
  }

  // ---- What a line means -------------------------------------------------------------

  predicate IsSpace(b: byte) { b == 32 || 9 <= b <= 13 }

  function StripLeft(s: Line): Line {
    if s != [] && IsSpace(s[0]) then StripLeft(s[1..]) else s
  }

  function StripRight(s: Line): Line {
    if s != [] && IsSpace(s[|s| - 1]) then StripRight(s[..|s| - 1]) else s
  }

  /** A line carrying data other than the closing mark. */
  predicate IsData(line: Line) {
    |line| >= 6 && line[..6] == DATA_PREFIX && StripRight(StripLeft(line[6..])) != DONE_MARK
  }

  /** What reading one data line gives, whatever the packets are. */
  datatype Verdict<P> = Unreadable | CarriesError | Packet(value: P)

  datatype Failure = BadPacket | UpstreamError

  datatype Collected<P> = Collected(packets: seq<P>, failure: Option<Failure>)

  /** Reading complete lines in order, up to the first failure. */
  function Take<P>(parse: Line -> Verdict<P>, lines: seq<Line>): (c: Collected<P>) {
    if lines == [] then Collected([], None)
    else if !IsData(lines[0]) then Take(parse, lines[1..])
    else match parse(lines[0][6..])
      case Unreadable => Collected([], Some(BadPacket))
      case CarriesError => Collected([], Some(UpstreamError))
      case Packet(p) => var c := Take(parse, lines[1..]); c.(packets := [p] + c.packets)
  }

  lemma {:induction false} TakeGoesOn<P>(parse: Line -> Verdict<P>, a: seq<Line>, b: seq<Line>)
    ensures Take(parse, a + b) ==
      if Take(parse, a).failure.Some? then Take(parse, a)
      else Collected(Take(parse, a).packets + Take(parse, b).packets, Take(parse, b).failure)
  {
    if a == [] {
      assert a + b == b;
    } else {
      assert (a + b)[0] == a[0] && (a + b)[1..] == a[1..] + b;
      TakeGoesOn(parse, a[1..], b);
    }
  }

  // ---- The collector ------------------------------------------------------------------

  /** The loop that assembles a whole response. */
  class Collector<P> {
    const parse: Line -> Verdict<P>
    var buffer: Line
    var packets: seq<P>
    var failure: Option<Failure>
    ghost var chunks: seq<Line>

    ghost predicate Valid()
      reads this
    {
      && Collected(packets, failure) == Take(parse, Lines(Concat(chunks)))
      && (failure.None? ==> buffer == Rest(Concat(chunks)))
    }

    constructor (parse: Line -> Verdict<P>)
      ensures Valid() && chunks == [] && this.parse == parse
    {
      this.parse := parse;
      buffer, packets, failure, chunks := [], [], None, [];
    }

    /** One chunk. After a failure the stream is no longer read. */
    method Feed(chunk: Line)
      requires Valid()
      modifies this
      ensures Valid() && chunks == old(chunks) + [chunk]
    {
      ghost var before := Concat(chunks);
      chunks := chunks + [chunk];
      assert chunks[..|chunks| - 1] == old(chunks);
      TakeMore(parse, before, chunk);
      if failure.Some? { return; }
      buffer := buffer + chunk;
      Drain();
    }

    /** Reads every complete line of the buffer. */
    method Drain()
      requires failure.None?
      modifies this`buffer, this`packets, this`failure
      ensures var c := Take(parse, Lines(old(buffer))); packets == old(packets) + c.packets && failure == c.failure
      ensures failure.None? ==> buffer == Rest(old(buffer))
    {
      ghost var target, fed: seq<P> := Take(parse, Lines(buffer)), [];
      while FirstNewline(buffer) < |buffer|
        invariant failure.None? && packets == old(packets) + fed
        invariant fed + Take(parse, Lines(buffer)).packets == target.packets
        invariant Take(parse, Lines(buffer)).failure == target.failure
        invariant Rest(buffer) == Rest(old(buffer))
        decreases |buffer|
      {
        var i := FirstNewline(buffer);
        FirstLine(buffer, i);
        var line := buffer[..i];
        TakeFirst(parse, line, Lines(buffer[i + 1..]));
        buffer := buffer[i + 1..];
        if !IsData(line) { continue; }
        match parse(line[6..])
        case Unreadable =>
          failure := Some(BadPacket);
          return;
        case CarriesError =>
          failure := Some(UpstreamError);
          return;
        case Packet(p) =>
          Regrouped(fed, [p], Take(parse, Lines(buffer)).packets);
          assert old(packets) + (fed + [p]) == old(packets) + fed + [p];
          packets := packets + [p];
          fed := fed + [p];
      }
      NoLine(buffer);
    }
  }

  lemma TakeMore<P>(parse: Line -> Verdict<P>, before: Line, chunk: Line)
    ensures Take(parse, Lines(before + chunk)) ==
      if Take(parse, Lines(before)).failure.Some? then Take(parse, Lines(before))
      else Collected(Take(parse, Lines(before)).packets + Take(parse, Lines(Rest(before) + chunk)).packets,
                     Take(parse, Lines(Rest(before) + chunk)).failure)
    ensures Rest(before + chunk) == Rest(Rest(before) + chunk)
  {
    SplitAnywhere(before, chunk);
    TakeGoesOn(parse, Lines(before), Lines(Rest(before) + chunk));
  }

  lemma TakeFirst<P>(parse: Line -> Verdict<P>, line: Line, rest: seq<Line>)
    ensures Take(parse, [line] + rest) ==
      if !IsData(line) then Take(parse, rest)
      else match parse(line[6..])
        case Unreadable => Collected([], Some(BadPacket))
        case CarriesError => Collected([], Some(UpstreamError))
        case Packet(p) => Collected([p] + Take(parse, rest).packets, Take(parse, rest).failure)
  {
    assert ([line] + rest)[1..] == rest;
  }

  /** What is collected depends on the bytes alone, not on how they were cut. */
  lemma ChunksDoNotMatter<P>(a: Collector<P>, b: Collector<P>)
    requires a.Valid() && b.Valid() && a.parse == b.parse && Concat(a.chunks) == Concat(b.chunks)
    ensures a.packets == b.packets && a.failure == b.failure
    ensures a.failure.None? ==> a.buffer == b.buffer
  {
  }

  // ---- A stream as it is written -------------------------------------------------------

  function Event(payload: Line): Line { DATA_PREFIX + payload + [NEWLINE, NEWLINE] }

  function Stream(payloads: seq<Line>): Line {
    if payloads == [] then Event(DONE_MARK) else Event(payloads[0]) + Stream(payloads[1..])
  }

  predicate Writable<P(!new)>(parse: Line -> Verdict<P>, payload: Line) {
    NEWLINE !in payload && StripRight(StripLeft(payload)) != DONE_MARK && parse(payload).Packet?
  }

  lemma Regroup(a: Line, rest: Line)
    ensures a + [NEWLINE, NEWLINE] + rest == a + [NEWLINE] + ([NEWLINE] + rest)
    ensures [] + [NEWLINE] + rest == [NEWLINE] + rest
  {
  }

  lemma OneEvent(payload: Line, rest: Line)
    requires NEWLINE !in payload
    ensures Lines(Event(payload) + rest) == [DATA_PREFIX + payload] + ([[]] + Lines(rest))
  {
    LineThen(DATA_PREFIX + payload, [NEWLINE] + rest);
    LineThen([], rest);
    Regroup(DATA_PREFIX + payload, rest);
  }

  lemma TakeEvent<P>(parse: Line -> Verdict<P>, payload: Line, rest: seq<Line>)
    ensures var line := DATA_PREFIX + payload;
      Take(parse, [line] + ([[]] + rest)) ==
        if StripRight(StripLeft(payload)) == DONE_MARK then Take(parse, rest)
        else match parse(payload)
          case Unreadable => Collected([], Some(BadPacket))
          case CarriesError => Collected([], Some(UpstreamError))
          case Packet(p) => Collected([p] + Take(parse, rest).packets, Take(parse, rest).failure)
  {
    TakeFirst(parse, DATA_PREFIX + payload, [[]] + rest);
    TakeFirst(parse, [], rest);
    assert (DATA_PREFIX + payload)[6..] == payload && (DATA_PREFIX + payload)[..6] == DATA_PREFIX;
  }

  function Values<P>(parse: Line -> Verdict<P>, payloads: seq<Line>): seq<P>
    requires forall p | p in payloads :: parse(p).Packet?
  {
    if payloads == [] then [] else [parse(payloads[0]).value] + Values(parse, payloads[1..])
  }

  /** Every stream of well-formed packets is collected packet by packet, wherever
      the channel cut it. */
  lemma {:induction false} StreamIsCollected<P(!new)>(parse: Line -> Verdict<P>, payloads: seq<Line>)
    requires forall p | p in payloads :: Writable(parse, p) && parse(p).Packet?
    ensures Take(parse, Lines(Stream(payloads))) == Collected(Values(parse, payloads), None)
  {
    if payloads == [] {
      OneEvent(DONE_MARK, []);
      assert Event(DONE_MARK) + [] == Stream([]);
      assert StripLeft(DONE_MARK) == DONE_MARK && StripRight(DONE_MARK) == DONE_MARK;
      TakeEvent(parse, DONE_MARK, Lines([]));
    } else {
      var p, more := payloads[0], payloads[1..];
      assert Writable(parse, p);
      StreamIsCollected(parse, more);
      OneEvent(p, Stream(more));
      TakeEvent(parse, p, Lines(Stream(more)));
    }
  }

  // ---- The handoff detector --------------------------------------------------------------

  /** Some data line carries model output. */
  predicate SomeDelta(isDelta: Line -> bool, lines: seq<Line>) {
    lines != [] && (SomeDelta(isDelta, lines[..|lines| - 1]) || ShowsDelta(isDelta, lines[|lines| - 1]))
  }

  predicate ShowsDelta(isDelta: Line -> bool, line: Line) {
    IsData(line) && isDelta(line[6..])
  }

  /** The stream's own watch for the first model output. `isDelta` is false where
      reading the packet raises. */
  class FirstOutput {
    const isDelta: Line -> bool
    var first: bool
    var buffer: Line
    ghost var chunks: seq<Line>

    ghost predicate Valid()
      reads this
    {
      first == SomeDelta(isDelta, Lines(Concat(chunks))) && (!first ==> buffer == Rest(Concat(chunks)))
    }

    constructor (isDelta: Line -> bool)
      ensures Valid() && chunks == [] && this.isDelta == isDelta
    {
      this.isDelta := isDelta;
      first, buffer, chunks := false, [], [];
    }

    /** True from the chunk on that completes the first output line. */
    method Feed(chunk: Line)
      requires Valid()
      modifies this
      ensures Valid() && chunks == old(chunks) + [chunk] && (old(first) ==> first)
      ensures first <==> exists i :: 0 <= i < |Lines(Concat(chunks))| && ShowsDelta(isDelta, Lines(Concat(chunks))[i])
    {
      ghost var before := Concat(chunks);
      chunks := chunks + [chunk];
      assert chunks[..|chunks| - 1] == old(chunks);
      SplitAnywhere(before, chunk);
      SomeDeltaJoins(isDelta, Lines(before), Lines(Rest(before) + chunk));
      if !first {
        buffer := buffer + chunk;
        Drain();
      }
      SomeDeltaMeans(isDelta, Lines(Concat(chunks)));
    }

    method Drain()
      requires !first
      modifies this`buffer, this`first
      ensures first == SomeDelta(isDelta, Lines(old(buffer))) && buffer == Rest(old(buffer))
    {
      ghost var all, done := Lines(buffer), [];
      while FirstNewline(buffer) < |buffer|
        invariant all == done + Lines(buffer) && Rest(buffer) == Rest(old(buffer))
        invariant first == SomeDelta(isDelta, done)
        decreases |buffer|
      {
        var i := FirstNewline(buffer);
        FirstLine(buffer, i);
        var line := buffer[..i];
        buffer := buffer[i + 1..];
        SomeDeltaGrows(isDelta, done, line);
        done := done + [line];
        if IsData(line) { first := first || isDelta(line[6..]); }
      }
      NoLine(buffer);
      assert all == done;
    }
  }

  lemma SomeDeltaGrows(isDelta: Line -> bool, done: seq<Line>, line: Line)
    ensures SomeDelta(isDelta, done + [line]) <==> SomeDelta(isDelta, done) || ShowsDelta(isDelta, line)
  {
    assert (done + [line])[..|done|] == done;
  }

  lemma {:induction false} SomeDeltaJoins(isDelta: Line -> bool, a: seq<Line>, b: seq<Line>)
    ensures SomeDelta(isDelta, a + b) <==> SomeDelta(isDelta, a) || SomeDelta(isDelta, b)
  {
    if b == [] {
      assert a + b == a;
    } else {
      var fewer, last := b[..|b| - 1], b[|b| - 1];
      assert a + b == (a + fewer) + [last];
      SomeDeltaJoins(isDelta, a, fewer);
      SomeDeltaGrows(isDelta, a + fewer, last);
    }
  }

  /** In terms of the lines: one of them shows it. */
  lemma {:induction false} SomeDeltaMeans(isDelta: Line -> bool, lines: seq<Line>)
    ensures SomeDelta(isDelta, lines) <==> exists i :: 0 <= i < |lines| && ShowsDelta(isDelta, lines[i])
  {
    if lines != [] {
      var n := |lines| - 1;
      SomeDeltaMeans(isDelta, lines[..n]);
      if SomeDelta(isDelta, lines[..n]) {
        var i :| 0 <= i < n && ShowsDelta(isDelta, lines[..n][i]);
        assert ShowsDelta(isDelta, lines[i]);
      }
      forall i | 0 <= i < n && ShowsDelta(isDelta, lines[i]) ensures ShowsDelta(isDelta, lines[..n][i]) {}
    }
  }

  // ---- The timing parser -------------------------------------------------------------------

  /** No chunk ever takes the pending bytes over the limit. */
  predicate Fits(chunks: seq<Line>) {
    || chunks == []
    || (&& Fits(chunks[..|chunks| - 1])
        && |Rest(Concat(chunks[..|chunks| - 1]))| + |chunks[|chunks| - 1]| <= PENDING_LIMIT)
  }

  /** The measurements of one response; `seen` lists the lines looked into. */
  class RequestTiming {
    var pending: Line
    var seen: seq<Line>
    var oversize: bool
    var upstreamChunks: nat
    var upstreamBytes: nat
    ghost var chunks: seq<Line>

    ghost predicate Valid()
      reads this
    {
      && oversize == !Fits(chunks)
      && (!oversize ==> seen == Lines(Concat(chunks)) && pending == Rest(Concat(chunks)))
      && upstreamChunks == |chunks| && upstreamBytes == |Concat(chunks)|
      && |pending| <= PENDING_LIMIT
    }

    constructor ()
      ensures Valid() && chunks == []
    {
      pending, seen, oversize, upstreamChunks, upstreamBytes, chunks := [], [], false, 0, 0, [];
    }

    /** One chunk; nothing that exceeds the limit is kept, and the lines looked
        into are those of the whole text exactly until that happens. */
    method Observe(chunk: Line)
      requires Valid()
      modifies this
      ensures Valid() && chunks == old(chunks) + [chunk] && old(seen) <= seen
    {
      ghost var before := Concat(chunks);
      chunks := chunks + [chunk];
      assert chunks[..|chunks| - 1] == old(chunks);
      SplitAnywhere(before, chunk);
      upstreamChunks := upstreamChunks + 1;
      upstreamBytes := upstreamBytes + |chunk|;
      pending := pending + chunk;
      if |pending| > PENDING_LIMIT {
        pending, oversize := [], true;
        return;
      }
      RestIsShort(pending);
      Drain();
    }

    method Drain()
      modifies this`pending, this`seen
      ensures seen == old(seen) + Lines(old(pending)) && pending == Rest(old(pending))
    {
      ghost var all, done := Lines(pending), [];
      while FirstNewline(pending) < |pending|
        invariant all == done + Lines(pending) && seen == old(seen) + done && Rest(pending) == Rest(old(pending))
        decreases |pending|
      {
        var i := FirstNewline(pending);
        FirstLine(pending, i);
        var line := pending[..i];
        pending := pending[i + 1..];
        done := done + [line];
        seen := seen + [line];
      }
      NoLine(pending);
    }
  }

  /** While nothing overflowed, the timing parser has looked into exactly the lines
      the collector read. */
  lemma TimingAgrees<P>(t: RequestTiming, c: Collector<P>)
    requires t.Valid() && c.Valid() && Concat(t.chunks) == Concat(c.chunks) && !t.oversize
    ensures Collected(c.packets, c.failure) == Take(c.parse, t.seen)
  {
  }
}
