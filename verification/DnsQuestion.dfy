/** The DNS relay's question parser and the queries it rebuilds. */
module DnsQuestion {
  import opened Outcomes
  import opened Basics

  type Bytes = seq<byte>

  const DOT: byte := 46

  datatype Question = Question(labels: seq<Bytes>, kind: byte)

  datatype QueryError =
    | InvalidLength | UnsupportedQuery | Truncated | InvalidName | NotAscii | MissingType | UnsupportedType

  predicate IsAscii(s: Bytes) { forall i | 0 <= i < |s| :: s[i] < 128 }

  function LowerByte(b: byte): byte { if 65 <= b <= 90 then b + 32 else b }

  function Lower(s: Bytes): (l: Bytes)
    ensures |l| == |s| && forall i | 0 <= i < |s| :: l[i] == LowerByte(s[i])
  {
    seq(|s|, i requires 0 <= i < |s| => LowerByte(s[i]))
  }

  function LowerEach(labels: seq<Bytes>): (l: seq<Bytes>)
    ensures |l| == |labels| && forall i | 0 <= i < |labels| :: l[i] == Lower(labels[i])
  {
    seq(|labels|, i requires 0 <= i < |labels| => Lower(labels[i]))
  }

  /** A label with its length before it. */
  function Prefixed(l: Bytes): Bytes {
    [if |l| < 256 then |l| as byte else 0] + l
  }

  function Encoded(labels: seq<Bytes>): Bytes {
    if labels == [] then [] else Prefixed(labels[0]) + Encoded(labels[1..])
  }

  lemma SizedMore(labels: seq<Bytes>, l: Bytes)
    requires Sized(labels) && 1 <= |l| <= 63
    ensures Sized(labels + [l])
  {
  }

  predicate Sized(labels: seq<Bytes>) { forall i | 0 <= i < |labels| :: 1 <= |labels[i]| <= 63 }

  /** What the parser makes of a label list, and the wire form it is sent in. */
  function Wire(q: Question): Bytes {
    Encoded(q.labels) + [0] + [0, q.kind] + [0, 1]
  }

  /** Labels joined by dots. */
  function Name(labels: seq<Bytes>): Bytes {
    if labels == [] then [] else if |labels| == 1 then labels[0] else labels[0] + [DOT] + Name(labels[1..])
  }

  datatype Labels = Labels(labels: seq<Bytes>, end: nat)

  /** The label list from a position on. */
  function LabelsFrom(p: Bytes, pos: nat, acc: seq<Bytes>): (r: Result<Labels, QueryError>)
    ensures r.Success? ==> pos < r.value.end <= |p|
    decreases |p| - pos
  {
    if pos >= |p| then Failure(Truncated)
    else
      var length := p[pos] as nat;
      if length == 0 then Success(Labels(acc, pos + 1))
      else if length > 63 || pos + 1 + length > |p| then Failure(InvalidName)
      else if !IsAscii(p[pos + 1..pos + 1 + length]) then Failure(NotAscii)
      else LabelsFrom(p, pos + 1 + length, acc + [Lower(p[pos + 1..pos + 1 + length])])
  }

  predicate KnownKind(k: byte) { k == 1 || k == 28 || k == 33 }

  /** Query, standard opcode, one question. */
  predicate GoodHeader(p: Bytes) {
    |p| >= 12 && p[2] < 8 && p[4] == 0 && p[5] == 1
  }

  function Parse(p: Bytes): (r: Result<Question, QueryError>) {
    if |p| < 12 || |p| > 512 then Failure(InvalidLength)
    else if !GoodHeader(p) then Failure(UnsupportedQuery)
    else match LabelsFrom(p, 12, [])
      case Failure(e) => Failure(e)
      case Success(l) =>
        if l.end + 4 > |p| then Failure(MissingType)
        else if p[l.end] != 0 || !KnownKind(p[l.end + 1]) || p[l.end + 2] != 0 || p[l.end + 3] != 1
        then Failure(UnsupportedType)
        else Success(Question(l.labels, p[l.end + 1]))
  }

  function U16(hi: byte, lo: byte): int { hi as int * 256 + lo as int }

  /** The bits of 0xF800 in a header's flags. */
  function Masked(flags: int): int { flags / 2048 % 32 * 2048 }

  /** The parsing loop. */
  method ParseQuestion(packet: Bytes) returns (r: Result<Question, QueryError>)
    ensures r == Parse(packet)
  {
    if |packet| < 12 || |packet| > 512 { return Failure(InvalidLength); }
    var flags, count := U16(packet[2], packet[3]), U16(packet[4], packet[5]);
    if Masked(flags) != 0 || count != 1 { return Failure(UnsupportedQuery); }
    var position, labels: seq<Bytes> := 12, [];
    while true
      invariant 12 <= position <= |packet|
      invariant LabelsFrom(packet, 12, []) == LabelsFrom(packet, position, labels)
      decreases |packet| - position
    {
      if position >= |packet| { return Failure(Truncated); }
      var length := packet[position] as nat;
      position := position + 1;
      if length == 0 { break; }
      if length > 63 || position + length > |packet| { return Failure(InvalidName); }
      if !IsAscii(packet[position..position + length]) { return Failure(NotAscii); }
      labels := labels + [Lower(packet[position..position + length])];
      position := position + length;
    }
    if position + 4 > |packet| { return Failure(MissingType); }
    var kind, class_ := U16(packet[position], packet[position + 1]), U16(packet[position + 2], packet[position + 3]);
    if kind !in {1, 28, 33} || class_ != 1 { return Failure(UnsupportedType); }
    r := Success(Question(labels, packet[position + 1]));
  }

  // ---- What an accepted query is -----------------------------------------------------------

  lemma {:induction false} EncodedMore(a: seq<Bytes>, l: Bytes)
    ensures Encoded(a + [l]) == Encoded(a) + Prefixed(l)
  {
    if a == [] {
      assert [l][1..] == [] && a + [l] == [l];
    } else {
      EncodedMore(a[1..], l);
      assert (a + [l])[1..] == a[1..] + [l] && (a + [l])[0] == a[0];
      Regrouped(Prefixed(a[0]), Encoded(a[1..]), Prefixed(l));
    }
  }

  lemma LowerJoins(a: Bytes, b: Bytes)
    ensures Lower(a + b) == Lower(a) + Lower(b)
  {
  }

  lemma SliceGrows(p: Bytes, start: nat, pos: nat, length: nat)
    requires start <= pos && pos + 1 + length <= |p|
    ensures p[start..pos + 1 + length] == p[start..pos] + ([p[pos]] + p[pos + 1..pos + 1 + length])
  {
  }

  lemma OneLabelBytes(p: Bytes, pos: nat, acc: seq<Bytes>, start: nat, length: nat, piece: Bytes)
    requires start <= pos && pos + 1 + length <= |p| && 1 <= length <= 63 && p[pos] as nat == length
    requires piece == p[pos + 1..pos + 1 + length] && Sized(acc) && Encoded(acc) == Lower(p[start..pos])
    ensures Sized(acc + [Lower(piece)]) && Encoded(acc + [Lower(piece)]) == Lower(p[start..pos + 1 + length])
  {
    SizedMore(acc, Lower(piece));
    EncodedMore(acc, Lower(piece));
    LowerSlice(p, start, pos, length, piece);
  }

  lemma LowerSlice(p: Bytes, start: nat, pos: nat, length: nat, piece: Bytes)
    requires start <= pos && pos + 1 + length <= |p| && p[pos] < 65 && piece == p[pos + 1..pos + 1 + length]
    ensures Lower(p[start..pos + 1 + length]) == Lower(p[start..pos]) + ([p[pos]] + Lower(piece))
  {
    SliceGrows(p, start, pos, length);
    LowerChain(p[start..pos], p[pos], piece);
  }

  lemma LowerChain(before: Bytes, b: byte, piece: Bytes)
    requires b < 65
    ensures Lower(before + ([b] + piece)) == Lower(before) + ([b] + Lower(piece))
  {
    LowerJoins(before, [b] + piece);
    LowerJoins([b], piece);
    assert Lower([b]) == [b];
  }

  /** Every label read is of allowed size and lower case, and writing the list back
      gives the bytes read, lowered; length bytes are no letters. */
  lemma {:induction false} LabelsAreTheBytes(p: Bytes, pos: nat, acc: seq<Bytes>, start: nat)
    requires start <= pos <= |p| && Sized(acc) && Encoded(acc) == Lower(p[start..pos])
    requires LabelsFrom(p, pos, acc).Success?
    ensures var l := LabelsFrom(p, pos, acc).value;
      Sized(l.labels) && l.end >= start + 1 && Encoded(l.labels) == Lower(p[start..l.end - 1]) && p[l.end - 1] == 0
    decreases |p| - pos
  {
    var length := p[pos] as nat;
    if length > 0 {
      var piece := p[pos + 1..pos + 1 + length];
      OneLabelBytes(p, pos, acc, start, length, piece);
      LabelsAreTheBytes(p, pos + 1 + length, acc + [Lower(piece)], start);
    }
  }

  /** The re-encoded question of every accepted query is the packet's own question
      with its letters lowered, and nothing of what comes after it. */
  lemma WireIsTheQuestion(p: Bytes)
    requires Parse(p).Success?
    ensures var q := Parse(p).value;
      Sized(q.labels) && 12 + |Wire(q)| <= |p| && Wire(q) == Lower(p[12..12 + |Wire(q)|]) && KnownKind(q.kind)
  {
    assert p[12..12] == [] && Lower([]) == [];
    LabelsAreTheBytes(p, 12, [], 12);
    QuestionSlice(p, LabelsFrom(p, 12, []).value.end, Parse(p).value);
  }

  lemma QuestionSlice(p: Bytes, end: nat, q: Question)
    requires 13 <= end && end + 4 <= |p| && Encoded(q.labels) == Lower(p[12..end - 1]) && KnownKind(q.kind)
    requires p[end - 1] == 0 && p[end] == 0 && p[end + 1] == q.kind && p[end + 2] == 0 && p[end + 3] == 1
    ensures 12 + |Wire(q)| == end + 4 && Wire(q) == Lower(p[12..end + 4])
  {
    var tail: Bytes := [0, 0, q.kind, 0, 1];
    assert Wire(q) == Lower(p[12..end - 1]) + tail;
    assert p[12..end + 4] == p[12..end - 1] + tail;
    LowerJoins(p[12..end - 1], tail);
    assert Lower(tail) == tail;
  }

  // ---- What is accepted -----------------------------------------------------------------------

  lemma FirstPiece(p: Bytes, pos: nat, l: Bytes, rest: Bytes)
    requires pos <= |p| && |l| <= 63 && p[pos..] == Prefixed(l) + rest
    ensures pos + 1 + |l| <= |p| && p[pos] == |l| as byte && p[pos + 1..pos + 1 + |l|] == l
    ensures p[pos + 1 + |l|..] == rest
  {
    var here := p[pos..];
    assert p[pos] == here[0];
    assert p[pos + 1..pos + 1 + |l|] == here[1..1 + |l|];
    assert p[pos + 1 + |l|..] == here[1 + |l|..];
  }

  lemma ReadOne(p: Bytes, pos: nat, l: Bytes, rest: Bytes, acc: seq<Bytes>)
    requires pos <= |p| && 1 <= |l| <= 63 && IsAscii(l) && p[pos..] == Prefixed(l) + rest
    ensures pos + 1 + |l| <= |p| && p[pos + 1 + |l|..] == rest
    ensures LabelsFrom(p, pos, acc) == LabelsFrom(p, pos + 1 + |l|, acc + [Lower(l)])
  {
    FirstPiece(p, pos, l, rest);
  }

  lemma ReadEnd(p: Bytes, pos: nat, tail: Bytes, acc: seq<Bytes>)
    requires pos <= |p| && p[pos..] == [0] + tail
    ensures |tail| <= |p| && p[|p| - |tail|..] == tail && LabelsFrom(p, pos, acc) == Success(Labels(acc, |p| - |tail|))
  {
    assert p[pos] == p[pos..][0];
    assert p[pos + 1..] == p[pos..][1..];
  }

  lemma EncodedHead(raw: seq<Bytes>, tail: Bytes)
    requires raw != []
    ensures Encoded(raw) + ([0] + tail) == Prefixed(raw[0]) + (Encoded(raw[1..]) + ([0] + tail))
  {
    Regrouped(Prefixed(raw[0]), Encoded(raw[1..]), [0] + tail);
  }

  lemma {:induction false} LabelsAreRead(p: Bytes, pos: nat, raw: seq<Bytes>, acc: seq<Bytes>, tail: Bytes)
    requires Sized(raw) && (forall i | 0 <= i < |raw| :: IsAscii(raw[i]))
    requires pos <= |p| && p[pos..] == Encoded(raw) + ([0] + tail)
    ensures |tail| <= |p| && p[|p| - |tail|..] == tail
    ensures LabelsFrom(p, pos, acc) == Success(Labels(acc + LowerEach(raw), |p| - |tail|))
    decreases |raw|
  {
    if raw == [] {
      assert Encoded(raw) + ([0] + tail) == [0] + tail;
      ReadEnd(p, pos, tail, acc);
      assert acc + LowerEach(raw) == acc;
    } else {
      var l, more := raw[0], raw[1..];
      EncodedHead(raw, tail);
      ReadOne(p, pos, l, Encoded(more) + ([0] + tail), acc);
      LabelsAreRead(p, pos + 1 + |l|, more, acc + [Lower(l)], tail);
      assert LowerEach(raw) == [Lower(l)] + LowerEach(more);
      Regrouped(acc, [Lower(l)], LowerEach(more));
    }
  }

  /** Every well-formed uncompressed question of a known type and class IN, behind
      a standard query header and within the size limit, is accepted as itself in
      lower case, whatever sections follow. */
  lemma {:induction false} WellFormedIsAccepted(header: Bytes, raw: seq<Bytes>, kind: byte, rest: Bytes, p: Bytes)
    requires |header| == 12 && header[2] < 8 && header[4] == 0 && header[5] == 1
    requires (forall i | 0 <= i < |raw| :: 1 <= |raw[i]| <= 63 && IsAscii(raw[i]))
    requires (kind == 1 || kind == 28 || kind == 33)
    requires p == header + (Encoded(raw) + ([0] + ([0, kind, 0, 1] + rest))) && |p| <= 512
    ensures Parse(p) == Success(Question(LowerEach(raw), kind))
  {
    var tail := [0, kind, 0, 1] + rest;
    var body := Encoded(raw) + ([0] + tail);
    HeaderThenRest(header, body, p);
    LabelsAreRead(p, 12, raw, [], tail);
    FromNothing(LowerEach(raw));
    TailAt(p, tail, kind, rest);
    ParseOf(p, LowerEach(raw), |p| - |tail|, kind);
  }

  lemma FromNothing(labels: seq<Bytes>)
    ensures [] + labels == labels
  {
  }

  lemma ParseOf(p: Bytes, labels: seq<Bytes>, end: nat, kind: byte)
    requires 12 <= |p| <= 512 && GoodHeader(p) && KnownKind(kind)
    requires LabelsFrom(p, 12, []) == Success(Labels(labels, end))
    requires end + 4 <= |p| && p[end] == 0 && p[end + 1] == kind && p[end + 2] == 0 && p[end + 3] == 1
    ensures Parse(p) == Success(Question(labels, kind))
  {
  }

  lemma HeaderThenRest(header: Bytes, rest: Bytes, p: Bytes)
    requires p == header + rest && |header| == 12 && GoodHeader(header)
    ensures p[12..] == rest && GoodHeader(p)
  {
    assert p[2] == header[2] && p[4] == header[4] && p[5] == header[5];
  }

  lemma TailAt(p: Bytes, tail: Bytes, kind: byte, rest: Bytes)
    requires |tail| <= |p| && p[|p| - |tail|..] == tail && tail == [0, kind, 0, 1] + rest
    ensures var end := |p| - |tail|;
      end + 4 <= |p| && p[end] == 0 && p[end + 1] == kind && p[end + 2] == 0 && p[end + 3] == 1
  {
    var end := |p| - |tail|;
    assert p[end] == tail[0] && p[end + 1] == tail[1] && p[end + 2] == tail[2] && p[end + 3] == tail[3];
  }

  /** The relay's own query for a question: a fresh nonce and a recursive header. */
  function Rebuilt(nonce: Bytes, q: Question): Bytes {
    nonce + [1, 0, 0, 1, 0, 0, 0, 0, 0, 0] + Wire(q)
  }

  predicate Canonical(q: Question) {
    && Sized(q.labels) && KnownKind(q.kind)
    && forall i | 0 <= i < |q.labels| :: IsAscii(q.labels[i]) && Lower(q.labels[i]) == q.labels[i]
  }

  lemma LowerIsIdempotent(s: Bytes)
    ensures Lower(Lower(s)) == Lower(s)
  {
  }

  lemma {:induction false} LabelsAreLow(p: Bytes, pos: nat, acc: seq<Bytes>)
    requires LabelsFrom(p, pos, acc).Success? && forall i | 0 <= i < |acc| :: IsAscii(acc[i]) && Lower(acc[i]) == acc[i]
    ensures forall i | 0 <= i < |LabelsFrom(p, pos, acc).value.labels| ::
      && IsAscii(LabelsFrom(p, pos, acc).value.labels[i])
      && Lower(LabelsFrom(p, pos, acc).value.labels[i]) == LabelsFrom(p, pos, acc).value.labels[i]
    decreases |p| - pos
  {
    var length := p[pos] as nat;
    if length > 0 {
      var piece := p[pos + 1..pos + 1 + length];
      LowerIsIdempotent(piece);
      LabelsAreLow(p, pos + 1 + length, acc + [Lower(piece)]);
    }
  }

  lemma WireInParts(q: Question)
    ensures Wire(q) == Encoded(q.labels) + ([0] + ([0, q.kind, 0, 1] + []))
  {
    var tail: Bytes := [0, q.kind, 0, 1];
    assert tail + [] == tail;
    assert Wire(q) == Encoded(q.labels) + ([0] + tail);
  }

  /** A rebuilt query of a canonical question is accepted as that question. */
  lemma CanonicalIsAccepted(nonce: Bytes, q: Question)
    requires |nonce| == 2 && Canonical(q) && 12 + |Wire(q)| <= 512
    ensures Parse(Rebuilt(nonce, q)) == Success(q)
  {
    var header: Bytes := nonce + [1, 0, 0, 1, 0, 0, 0, 0, 0, 0];
    assert LowerEach(q.labels) == q.labels;
    WireInParts(q);
    WellFormedIsAccepted(header, q.labels, q.kind, [], Rebuilt(nonce, q));
  }

  lemma ParsedIsCanonical(p: Bytes)
    requires Parse(p).Success?
    ensures Canonical(Parse(p).value) && 12 + |Wire(Parse(p).value)| <= 512
  {
    WireIsTheQuestion(p);
    LabelsAreLow(p, 12, []);
  }

  /** What the relay sends upstream parses back to the same name and wire. */
  lemma RebuiltParsesBack(p: Bytes, nonce: Bytes)
    requires Parse(p).Success? && |nonce| == 2
    ensures Sized(Parse(p).value.labels) && Parse(Rebuilt(nonce, Parse(p).value)) == Parse(p)
  {
    ParsedIsCanonical(p);
    CanonicalIsAccepted(nonce, Parse(p).value);
  }

  // ---- Names and questions ------------------------------------------------------------------

  predicate NoDots(labels: seq<Bytes>) { forall i | 0 <= i < |labels| :: DOT !in labels[i] }

  /** The pieces of a name between its dots. */
  function Pieces(name: Bytes): (ps: seq<Bytes>)
    ensures |ps| >= 1 && forall i | 0 <= i < |ps| :: DOT !in ps[i]
  {
    if name == [] then [[]]
    else
      var ps := Pieces(name[1..]);
      if name[0] == DOT then [[]] + ps else [[name[0]] + ps[0]] + ps[1..]
  }

  lemma {:induction false} PiecesOf(piece: Bytes, rest: Bytes)
    requires DOT !in piece
    ensures Pieces(piece) == [piece] && Pieces(piece + [DOT] + rest) == [piece] + Pieces(rest)
  {
    if piece == [] {
      assert piece + [DOT] + rest == [DOT] + rest && ([DOT] + rest)[1..] == rest;
    } else {
      PiecesOf(piece[1..], rest);
      assert piece == [piece[0]] + piece[1..];
      assert (piece + [DOT] + rest)[1..] == piece[1..] + [DOT] + rest;
    }
  }

  lemma FirstAndMore(labels: seq<Bytes>, first: Bytes, more: seq<Bytes>)
    requires |labels| >= 2 && first == labels[0] && more == labels[1..]
    ensures Name(labels) == first + [DOT] + Name(more) && [first] + more == labels
  {
  }

  lemma {:induction false} PiecesBack(labels: seq<Bytes>)
    requires labels != [] && NoDots(labels)
    ensures Pieces(Name(labels)) == labels
  {
    if |labels| == 1 {
      PiecesOf(labels[0], []);
    } else {
      var first, more := labels[0], labels[1..];
      assert NoDots(more) && DOT !in first;
      PiecesBack(more);
      PiecesOf(first, Name(more));
      FirstAndMore(labels, first, more);
    }
  }

  /** The dotted name, which is what is looked up, gives back the labels, which are
      what is sent, exactly when no label holds a dot of its own. */
  lemma NameTellsTheLabels(labels: seq<Bytes>)
    requires labels != []
    ensures Pieces(Name(labels)) == labels <==> NoDots(labels)
  {
    if NoDots(labels) { PiecesBack(labels); }
  }

  /** Two packets that are both accepted, whose questions have one name and
      different wires: one label with a dot in it, and the two labels it is made of. */
  lemma OneNameTwoWires() returns (p: Bytes, r: Bytes)
    ensures Parse(p).Success? && Parse(r).Success?
    ensures Name(Parse(p).value.labels) == Name(Parse(r).value.labels) && Wire(Parse(p).value) != Wire(Parse(r).value)
  {
    var a, b := Question([[97, DOT, 98]], 1), Question([[97], [98]], 1);
    DottedWires(a, b);
    p, r := Rebuilt([0, 0], a), Rebuilt([0, 0], b);
    CanonicalIsAccepted([0, 0], a);
    CanonicalIsAccepted([0, 0], b);
  }

  lemma DottedWires(a: Question, b: Question)
    requires a == Question([[97, DOT, 98]], 1) && b == Question([[97], [98]], 1)
    ensures Canonical(a) && Canonical(b) && 12 + |Wire(a)| <= 512 && 12 + |Wire(b)| <= 512
    ensures Name(a.labels) == Name(b.labels) && Wire(a) != Wire(b)
  {
    assert Name(b.labels) == [97] + [DOT] + Name([[98]]);
    assert Encoded(a.labels) == Prefixed(a.labels[0]) + Encoded([]);
    assert Encoded(b.labels) == Prefixed(b.labels[0]) + Encoded(b.labels[1..]);
    assert b.labels[1..] == [[98]] && Encoded([[98]]) == Prefixed([98]) + Encoded([]);
    assert Wire(a)[0] == 3 && Wire(b)[0] == 1;
  }

  // ---- The relay -------------------------------------------------------------------------------

  /** What the network gives: the datagram reply and, if asked for again over a
      stream, that reply; None where the exchange fails. */
  datatype Upstream = Upstream(datagram: Option<Bytes>, framed: Option<Bytes>)

  predicate Truncation(reply: Bytes) {
    |reply| > 2 && reply[2] as int / 2 % 2 == 1
  }

  /** The truncation bit, 0x0200 of the reply's flags. */
  predicate TruncationBit(reply: Bytes)
    requires |reply| >= 4
  {
    U16(reply[2], reply[3]) / 0x0200 % 2 == 1
  }

  predicate Echoes(reply: Option<Bytes>, nonce: Bytes)
    requires |nonce| == 2
  {
    reply.Some? && |reply.value| >= 2 && reply.value[0] == nonce[0] && reply.value[1] == nonce[1]
  }

  /** What is passed on: the datagram's reply unless it is truncated, then the stream's;
      each must repeat the nonce. */
  predicate PassedOn(nonce: Bytes, up: Upstream, reply: Bytes)
    requires |nonce| == 2
  {
    && Echoes(up.datagram, nonce) && |up.datagram.value| >= 12
    && if TruncationBit(up.datagram.value)
       then Echoes(up.framed, nonce) && |up.framed.value| <= 4096 && reply == up.framed.value
       else reply == up.datagram.value
  }

  lemma TruncationIsTheBit(reply: Bytes)
    requires |reply| >= 4
    ensures Truncation(reply) <==> TruncationBit(reply)
  {
    BitOfByte(reply[2] as int, reply[3] as int);
  }

  lemma BitOfByte(hi: int, lo: int)
    requires 0 <= hi < 256 && 0 <= lo < 256
    ensures (hi * 256 + lo) / 0x0200 % 2 == hi / 2 % 2
  {
    assert hi == hi / 2 * 2 + hi % 2;
    assert hi * 256 + lo == hi / 2 * 512 + (hi % 2 * 256 + lo);
  }

  lemma FirstTwo(reply: Bytes, nonce: Bytes)
    requires |reply| >= 2 && |nonce| == 2
    ensures reply[..2] == nonce <==> reply[0] == nonce[0] && reply[1] == nonce[1]
  {
  }

  function Identifier(packet: Bytes): Bytes {
    if |packet| >= 2 then packet[..2] else [0, 0]
  }

  class Relay {
    const allowed: set<Bytes>
    var allowedCount: nat
    var denied: nat
    var errors: nat

    constructor (names: set<Bytes>)
      ensures allowed == names && allowedCount == 0 && denied == 0 && errors == 0
    {
      allowed := names;
      allowedCount, denied, errors := 0, 0, 0;
    }

    /** A reply starts with the query's own identifier and exactly one counter
        goes up. Only a question whose name is on the list is ever sent on, and
        then as the relay's own query for it; a question that is not is refused
        with itself in the answer. `runtime` tells names of private runtimes. */
    method Answer(packet: Bytes, runtime: Bytes -> bool, capacity: bool, nonce: Bytes, up: Upstream)
      returns (reply: Bytes, sent: Option<Bytes>)
      requires |nonce| == 2
      modifies this
      ensures (if |packet| >= 2 then packet[..2] else [0, 0]) <= reply
      ensures allowedCount + denied + errors == old(allowedCount + denied + errors) + 1
      ensures allowedCount >= old(allowedCount) && denied >= old(denied) && errors >= old(errors)
      ensures sent.Some? ==>
        && Parse(packet).Success? && Sized(Parse(packet).value.labels)
        && (Name(Parse(packet).value.labels) in allowed || runtime(Name(Parse(packet).value.labels)))
        && sent.value == Rebuilt(nonce, Parse(packet).value) && Parse(sent.value) == Parse(packet)
      ensures sent.Some? <==>
        && Parse(packet).Success? && capacity
        && (Name(Parse(packet).value.labels) in allowed || runtime(Name(Parse(packet).value.labels)))
      ensures allowedCount == old(allowedCount) + 1 <==> sent.Some? && exists r :: PassedOn(nonce, up, r)
      ensures allowedCount == old(allowedCount) + 1 ==>
        forall r | PassedOn(nonce, up, r) :: |r| >= 2 && reply == Identifier(packet) + r[2..]
      ensures errors == old(errors) + 1 ==> reply == Identifier(packet) + [0x81, 0x82, 0, 0, 0, 0, 0, 0, 0, 0]
      ensures denied == old(denied) + 1 <==>
        && Parse(packet).Success?
        && !(Name(Parse(packet).value.labels) in allowed || runtime(Name(Parse(packet).value.labels)))
      ensures denied == old(denied) + 1 ==>
        && Sized(Parse(packet).value.labels)
        && reply == Identifier(packet) + [0x81, 0x83, 0, 1, 0, 0, 0, 0, 0, 0] + Wire(Parse(packet).value)
    {
      var identifier := Identifier(packet);
      var failure := identifier + [0x81, 0x82, 0, 0, 0, 0, 0, 0, 0, 0];
      sent := None;
      var q := ParseQuestion(packet);
      if q.Failure? {
        errors := errors + 1;
        return failure, None;
      }
      WireIsTheQuestion(packet);
      RebuiltParsesBack(packet, nonce);
      var name := Name(q.value.labels);
      if name !in allowed && !runtime(name) {
        denied := denied + 1;
        return identifier + [0x81, 0x83, 0, 1, 0, 0, 0, 0, 0, 0] + Wire(q.value), None;
      }
      if !capacity {
        errors := errors + 1;
        return failure, None;
      }
      sent := Some(Rebuilt(nonce, q.value));
      if up.datagram.Some? && |up.datagram.value| >= 12 {
        FirstTwo(up.datagram.value, nonce);
        TruncationIsTheBit(up.datagram.value);
      }
      if up.framed.Some? && |up.framed.value| >= 2 { FirstTwo(up.framed.value, nonce); }
      if up.datagram.None? || |up.datagram.value| < 12 || up.datagram.value[..2] != nonce {
        errors := errors + 1;
        return failure, sent;
      }
      var response := up.datagram.value;
      if Truncation(response) {
        if up.framed.None? || |up.framed.value| > 4096 || |up.framed.value| < 2 || up.framed.value[..2] != nonce {
          errors := errors + 1;
          return failure, sent;
        }
        response := up.framed.value;
      }
      assert PassedOn(nonce, up, response);
      allowedCount := allowedCount + 1;
      reply := identifier + response[2..];
    }
  }
}
