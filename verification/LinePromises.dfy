/** What reading an event stream promises, said of the bytes alone. */
module LinePromises {
  import opened Outcomes
  import opened Basics
  import opened LineSplitter

  // ---- Lines ------------------------------------------------------------------------------

  function Ended(lines: seq<Line>): Line {
    if lines == [] then [] else Ended(lines[..|lines| - 1]) + lines[|lines| - 1] + [10]
  }

  predicate NoneEnds(lines: seq<Line>) { forall i | 0 <= i < |lines| :: 10 !in lines[i] }

  lemma ThenLine(x: Line, front: seq<Line>, last: Line, rest: Line)
    requires Lines(x) == front && Rest(x) == [] && 10 !in last && 10 !in rest
    ensures Lines(x + (last + [10] + rest)) == front + [last] && Rest(x + (last + [10] + rest)) == rest
  {
    NoLine(rest);
    LineThen(last, rest);
    SplitAnywhere(x, last + [10] + rest);
    assert [] + (last + [10] + rest) == last + [10] + rest;
    assert [last] + [] == [last];
  }

  lemma Together(x: Line, last: Line, rest: Line)
    ensures (x + last + [10]) + rest == x + (last + [10] + rest)
  {
  }

  lemma {:induction false} EndedHasLines(lines: seq<Line>, rest: Line)
    requires NoneEnds(lines) && 10 !in rest
    ensures Lines(Ended(lines) + rest) == lines && Rest(Ended(lines) + rest) == rest
    decreases |lines|
  {
    if lines == [] {
      NoLine(rest);
      assert Ended(lines) + rest == rest;
    } else {
      var front, last := lines[..|lines| - 1], lines[|lines| - 1];
      EndedHasLines(front, []);
      assert Ended(front) + [] == Ended(front);
      ThenLine(Ended(front), front, last, rest);
      Together(Ended(front), last, rest);
      assert front + [last] == lines;
    }
  }

  lemma {:induction false} LinesEnd(s: Line)
    ensures s == Ended(Lines(s)) + Rest(s) && NoneEnds(Lines(s)) && 10 !in Rest(s)
  {
    if s != [] {
      var front, last := s[..|s| - 1], s[|s| - 1];
      LinesEnd(front);
      assert s == front + [last];
      if last == 10 {
        assert Lines(s)[..|Lines(s)| - 1] == Lines(front);
        assert s == Ended(Lines(front)) + Rest(front) + [10];
      }
    }
  }

  /** The complete lines and what is left are the only way to write the bytes as
      lines that end in a newline each, and a last part without one. */
  lemma LinesExactlyWhen(s: Line, lines: seq<Line>, rest: Line)
    ensures lines == Lines(s) && rest == Rest(s) <==>
            s == Ended(lines) + rest && NoneEnds(lines) && 10 !in rest
  {
    LinesEnd(s);
    if s == Ended(lines) + rest && NoneEnds(lines) && 10 !in rest { EndedHasLines(lines, rest); }
  }

  // ---- Data lines ----------------------------------------------------------------------------

  /** "data: " */
  const DATA: Line := [100, 97, 116, 97, 58, 32]

  /** "[DONE]" */
  const CLOSING: Line := [91, 68, 79, 78, 69, 93]

  predicate AllSpace(s: Line) { forall i | 0 <= i < |s| :: s[i] in {9, 10, 11, 12, 13, 32} }

  ghost predicate OnlyCloses(body: Line) {
    exists a, b :: AllSpace(a) && AllSpace(b) && body == a + CLOSING + b
  }

  lemma SpacesAre(b: byte)
    ensures IsSpace(b) <==> b in {9, 10, 11, 12, 13, 32}
  {
  }

  lemma {:induction false} StrippedLeft(s: Line) returns (a: Line)
    ensures AllSpace(a) && s == a + StripLeft(s) && (StripLeft(s) != [] ==> !IsSpace(StripLeft(s)[0]))
  {
    if s != [] && IsSpace(s[0]) {
      SpacesAre(s[0]);
      var more := StrippedLeft(s[1..]);
      a := [s[0]] + more;
      assert s == [s[0]] + s[1..];
    } else {
      a := [];
      assert s == [] + s;
    }
  }

  lemma {:induction false} StrippedRight(s: Line) returns (b: Line)
    ensures AllSpace(b) && s == StripRight(s) + b
  {
    if s != [] && IsSpace(s[|s| - 1]) {
      var front := s[..|s| - 1];
      SpacesAre(s[|s| - 1]);
      var fewer := StrippedRight(front);
      b := fewer + [s[|s| - 1]];
      assert s == front + [s[|s| - 1]];
    } else {
      b := [];
      assert s == s + [];
    }
  }

  lemma {:induction false} StripsLeft(a: Line, s: Line)
    requires AllSpace(a) && (s == [] || !IsSpace(s[0]))
    ensures StripLeft(a + s) == s
  {
    if a == [] {
      assert a + s == s;
    } else {
      SpacesAre(a[0]);
      assert (a + s)[0] == a[0] && (a + s)[1..] == a[1..] + s;
      StripsLeft(a[1..], s);
    }
  }

  lemma {:induction false} StripsRight(s: Line, b: Line)
    requires AllSpace(b) && (s == [] || !IsSpace(s[|s| - 1]))
    ensures StripRight(s + b) == s
  {
    if b == [] {
      assert s + b == s;
    } else {
      var n := |b| - 1;
      SpacesAre(b[n]);
      assert (s + b)[|s + b| - 1] == b[n] && (s + b)[..|s + b| - 1] == s + b[..n];
      StripsRight(s, b[..n]);
    }
  }

  lemma CloserIsStripped(a: Line, b: Line)
    requires AllSpace(a) && AllSpace(b)
    ensures StripRight(StripLeft(a + (CLOSING + b))) == DONE_MARK
  {
    StripsLeft(a, CLOSING + b);
    StripsRight(CLOSING, b);
  }

  lemma StripsToCloser(body: Line)
    requires StripRight(StripLeft(body)) == DONE_MARK
    ensures OnlyCloses(body)
  {
    var a := StrippedLeft(body);
    var b := StrippedRight(StripLeft(body));
    assert body == a + CLOSING + b;
  }

  lemma ClosesExactlyWhen(body: Line)
    ensures StripRight(StripLeft(body)) == DONE_MARK <==> OnlyCloses(body)
  {
    if StripRight(StripLeft(body)) == DONE_MARK { StripsToCloser(body); }
    if OnlyCloses(body) {
      var a, b :| AllSpace(a) && AllSpace(b) && body == a + CLOSING + b;
      assert body == a + (CLOSING + b);
      CloserIsStripped(a, b);
    }
  }

  /** A line carries data exactly when it is "data: " and a body that is not the
      closing mark with white space around it. */
  lemma DataExactlyWhen(line: Line)
    ensures IsData(line) <==> exists body :: line == DATA + body && !OnlyCloses(body)
  {
    if DATA <= line {
      assert line == DATA + line[6..];
      ClosesExactlyWhen(line[6..]);
    }
    if body :| line == DATA + body && !OnlyCloses(body) {
      assert line[6..] == body && line[..6] == DATA;
    }
  }

  // ---- What is collected --------------------------------------------------------------------------

  function DataBefore(lines: seq<Line>, i: nat): nat
    requires i <= |lines|
  {
    if i == 0 then 0 else DataBefore(lines, i - 1) + (if IsData(lines[i - 1]) then 1 else 0)
  }

  ghost predicate Readable<P(!new)>(parse: Line -> Verdict<P>, lines: seq<Line>, n: nat)
    requires n <= |lines|
  {
    forall i | 0 <= i < n && IsData(lines[i]) :: parse(lines[i][6..]).Packet?
  }

  /** The packets of the first `n` lines, in their order. */
  ghost predicate PacketsOf<P(!new)>(parse: Line -> Verdict<P>, lines: seq<Line>, n: nat, packets: seq<P>)
    requires n <= |lines|
  {
    && |packets| == DataBefore(lines, n)
    && forall i | 0 <= i < n && IsData(lines[i]) ::
         DataBefore(lines, i) < |packets| && parse(lines[i][6..]) == Packet(packets[DataBefore(lines, i)])
  }

  /** What is read of one line more. */
  function Onward<P>(parse: Line -> Verdict<P>, c: Collected<P>, line: Line): Collected<P> {
    if c.failure.Some? || !IsData(line) then c
    else match parse(line[6..])
      case Unreadable => c.(failure := Some(BadPacket))
      case CarriesError => c.(failure := Some(UpstreamError))
      case Packet(p) => c.(packets := c.packets + [p])
  }

  lemma OneLineOn<P>(parse: Line -> Verdict<P>, lines: seq<Line>, line: Line)
    ensures Take(parse, lines + [line]) == Onward(parse, Take(parse, lines), line)
  {
    TakeGoesOn(parse, lines, [line]);
    TakeFirst(parse, line, []);
    assert [line] + [] == [line];
    var c := Take(parse, lines);
    assert c.packets + [] == c.packets;
  }

  /** What is collected, of any lines: every data line's packet, in order, up to the
      first data line that is unreadable or carries an error, which is the
      failure. */
  ghost predicate CollectedUpTo<P(!new)>(parse: Line -> Verdict<P>, lines: seq<Line>, c: Collected<P>, n: nat) {
    && n <= |lines| && Readable(parse, lines, n) && PacketsOf(parse, lines, n, c.packets)
    && (n == |lines| <==> c.failure.None?)
    && (n < |lines| ==>
          && IsData(lines[n]) && !parse(lines[n][6..]).Packet?
          && c.failure == Some(if parse(lines[n][6..]).Unreadable? then BadPacket else UpstreamError))
  }

  lemma {:induction false} CountInPrefix(lines: seq<Line>, n: nat, i: nat)
    requires i <= n <= |lines|
    ensures DataBefore(lines[..n], i) == DataBefore(lines, i)
  {
    if i > 0 {
      CountInPrefix(lines, n, i - 1);
      assert lines[..n][i - 1] == lines[i - 1];
    }
  }

  lemma PacketsInPrefix<P(!new)>(parse: Line -> Verdict<P>, lines: seq<Line>, m: nat, n: nat, packets: seq<P>)
    requires n <= m <= |lines| && Readable(parse, lines[..m], n) && PacketsOf(parse, lines[..m], n, packets)
    ensures Readable(parse, lines, n) && PacketsOf(parse, lines, n, packets)
  {
    CountInPrefix(lines, m, n);
    forall i | 0 <= i < n && IsData(lines[i])
      ensures DataBefore(lines, i) < |packets| && parse(lines[i][6..]) == Packet(packets[DataBefore(lines, i)])
    {
      CountInPrefix(lines, m, i);
      assert lines[..m][i] == lines[i];
    }
  }

  lemma UpToStays<P(!new)>(parse: Line -> Verdict<P>, lines: seq<Line>, m: nat, c: Collected<P>, n: nat)
    requires m < |lines| && c.failure.Some? && CollectedUpTo(parse, lines[..m], c, n)
    ensures CollectedUpTo(parse, lines, c, n)
  {
    PacketsInPrefix(parse, lines, m, n, c.packets);
    assert lines[..m][n] == lines[n];
  }

  lemma UpToGrows<P(!new)>(parse: Line -> Verdict<P>, lines: seq<Line>, m: nat, c: Collected<P>) returns (n: nat)
    requires m + 1 == |lines| && c.failure.None? && CollectedUpTo(parse, lines[..m], c, m)
    ensures CollectedUpTo(parse, lines, Onward(parse, c, lines[m]), n)
  {
    PacketsInPrefix(parse, lines, m, m, c.packets);
    n := if IsData(lines[m]) && !parse(lines[m][6..]).Packet? then m else m + 1;
  }

  lemma {:induction false} CollectsUpTo<P(!new)>(parse: Line -> Verdict<P>, lines: seq<Line>) returns (n: nat)
    ensures CollectedUpTo(parse, lines, Take(parse, lines), n)
    decreases |lines|
  {
    if lines == [] {
      n := 0;
    } else {
      var m := |lines| - 1;
      n := CollectsUpTo(parse, lines[..m]);
      assert lines == lines[..m] + [lines[m]];
      OneLineOn(parse, lines[..m], lines[m]);
      var c := Take(parse, lines[..m]);
      if c.failure.Some? { UpToStays(parse, lines, m, c, n); } else { n := UpToGrows(parse, lines, m, c); }
    }
  }

  /** The collector, after any chunks. */
  lemma CollectorHas<P(!new)>(c: Collector<P>) returns (n: nat)
    requires c.Valid()
    ensures CollectedUpTo(c.parse, Lines(Concat(c.chunks)), Collected(c.packets, c.failure), n)
  {
    n := CollectsUpTo(c.parse, Lines(Concat(c.chunks)));
  }

  // ---- The limit of the timing parser ------------------------------------------------------------

  ghost predicate FitsAt(chunks: seq<Line>, k: nat)
    requires k < |chunks|
  {
    |Rest(Concat(chunks[..k]))| + |chunks[k]| <= 128 * 1024
  }

  lemma FitsAtPrefix(chunks: seq<Line>, n: nat, k: nat)
    requires k < n <= |chunks|
    ensures FitsAt(chunks[..n], k) <==> FitsAt(chunks, k)
  {
    assert chunks[..n][..k] == chunks[..k] && chunks[..n][k] == chunks[k];
  }

  /** The timing parser gives up exactly when some chunk, with what was left of the
      bytes before it, passes 128 KiB. */
  lemma {:induction false} FitsExactlyWhen(chunks: seq<Line>)
    ensures Fits(chunks) <==> forall k | 0 <= k < |chunks| :: FitsAt(chunks, k)
    decreases |chunks|
  {
    if chunks != [] {
      var n := |chunks| - 1;
      FitsExactlyWhen(chunks[..n]);
      forall k | 0 <= k < n ensures FitsAt(chunks[..n], k) <==> FitsAt(chunks, k) { FitsAtPrefix(chunks, n, k); }
      assert Fits(chunks) <==> Fits(chunks[..n]) && FitsAt(chunks, n);
    }
  }
}
