/** Which packets the relay takes as questions and which replies it passes on, byte by
    byte. */
module DnsPromises {
  import opened Outcomes
  import opened Basics
  import opened DnsQuestion

  // ---- Questions --------------------------------------------------------------------

  /** From `pos` on stand one label of 1 to 63 ASCII bytes after the other, each behind
      its length, up to a zero byte; `raw` lists them. */
  predicate Labelled(p: Bytes, pos: nat, raw: seq<Bytes>, end: nat)
    decreases |raw|
  {
    if raw == [] then pos < |p| && p[pos] == 0 && end == pos + 1
    else
      && pos < |p| && 1 <= p[pos] <= 63 && pos + 1 + p[pos] as nat <= |p|
      && raw[0] == p[pos + 1..pos + 1 + p[pos] as nat]
      && (forall i | 0 <= i < |raw[0]| :: raw[0][i] < 128)
      && Labelled(p, pos + 1 + p[pos] as nat, raw[1..], end)
  }

  /** ASCII capitals become small letters; nothing else changes. */
  predicate Lowered(l: Bytes, raw: Bytes) {
    |l| == |raw| && forall i | 0 <= i < |raw| :: l[i] == if 65 <= raw[i] <= 90 then raw[i] + 32 else raw[i]
  }

  predicate AllLowered(labels: seq<Bytes>, raw: seq<Bytes>) {
    |labels| == |raw| && forall i | 0 <= i < |raw| :: Lowered(labels[i], raw[i])
  }

  lemma {:induction false} LabelsFound(p: Bytes, pos: nat, acc: seq<Bytes>) returns (raw: seq<Bytes>)
    requires LabelsFrom(p, pos, acc).Success?
    ensures var l := LabelsFrom(p, pos, acc).value;
      Labelled(p, pos, raw, l.end) && acc <= l.labels && AllLowered(l.labels[|acc|..], raw)
    decreases |p| - pos
  {
    var length := p[pos] as nat;
    if length == 0 {
      raw := [];
    } else {
      var piece := p[pos + 1..pos + 1 + length];
      var more := LabelsFound(p, pos + 1 + length, acc + [Lower(piece)]);
      raw := [piece] + more;
      var labels := LabelsFrom(p, pos, acc).value.labels;
      assert raw[1..] == more;
      assert labels[|acc|..] == [Lower(piece)] + labels[|acc| + 1..];
    }
  }

  lemma {:induction false} LabelledIsRead(p: Bytes, pos: nat, acc: seq<Bytes>, raw: seq<Bytes>, end: nat)
    requires Labelled(p, pos, raw, end)
    ensures LabelsFrom(p, pos, acc).Success? && LabelsFrom(p, pos, acc).value.end == end
    decreases |raw|
  {
    if raw != [] {
      LabelledIsRead(p, pos + 1 + p[pos] as nat, acc + [Lower(raw[0])], raw[1..], end);
    }
  }

  /** A packet of 12 to 512 bytes whose header has no response bit, opcode 0 and one
      question, and whose question ends in type A, AAAA or SRV and class IN. */
  predicate IsQuery(p: Bytes, raw: seq<Bytes>, end: nat) {
    && 12 <= |p| <= 512 && p[2] / 8 == 0 && p[4] == 0 && p[5] == 1
    && Labelled(p, 12, raw, end) && end + 4 <= |p|
    && p[end] == 0 && (p[end + 1] == 1 || p[end + 1] == 28 || p[end + 1] == 33) && p[end + 2] == 0 && p[end + 3] == 1
  }

  /** Exactly such packets are accepted, as their own labels in lower case and their
      own type. */
  lemma AcceptedExactlyWhen(p: Bytes) returns (raw: seq<Bytes>, end: nat)
    ensures Parse(p).Success? <==> exists raw: seq<Bytes>, end: nat :: IsQuery(p, raw, end)
    ensures Parse(p).Success? ==> && IsQuery(p, raw, end) && AllLowered(Parse(p).value.labels, raw)
                                  && Parse(p).value.kind == p[end + 1]
  {
    raw, end := [], 0;
    if Parse(p).Success? {
      raw := LabelsFound(p, 12, []);
      end := LabelsFrom(p, 12, []).value.end;
      assert Parse(p).value.labels[0..] == Parse(p).value.labels;
      assert IsQuery(p, raw, end);
    }
    if r: seq<Bytes>, e: nat :| IsQuery(p, r, e) { LabelledIsRead(p, 12, [], r, e); }
  }

  /** The looked-up name is the labels with a dot, byte 46, between each two. */
  lemma NameIsDotted(first: Bytes, more: seq<Bytes>)
    ensures Name([first]) == first
    ensures more != [] ==> Name([first] + more) == first + [46] + Name(more)
  {
    if more != [] { assert ([first] + more)[1..] == more; }
  }

  // ---- The query sent on -----------------------------------------------------------------

  /** The relay's own query: the nonce, recursion desired, one question, nothing else. */
  lemma RebuiltIs(nonce: Bytes, q: Question)
    requires |nonce| == 2
    ensures Rebuilt(nonce, q) == nonce + [0x01, 0x00, 0, 1, 0, 0, 0, 0, 0, 0] + Wire(q)
  {
  }
}
