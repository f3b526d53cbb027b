/** The scanner that finds the end of an object by counting brackets. */
module JsonScan {
  import opened Outcomes
  import opened JsonText

  datatype Scan = Scan(depth: int, quoted: bool, escaped: bool)

  datatype ScanError = ExpectedObject | Incomplete

  /** The count after one more unit. */
  function Advance(s: Scan, c: unit): Scan {
    if s.quoted then s.(quoted := s.escaped || c != QUOTE, escaped := !s.escaped && c == BACKSLASH)
    else if c == QUOTE then s.(quoted := true)
    else if c == OPEN_BRACE || c == OPEN_BRACKET then s.(depth := s.depth + 1)
    else if c == CLOSE_BRACE || c == CLOSE_BRACKET then s.(depth := s.depth - 1)
    else s
  }

  predicate Ends(s: Scan, c: unit) {
    !s.quoted && (c == CLOSE_BRACE || c == CLOSE_BRACKET) && s.depth == 1
  }

  /** What is left after the bracket that brings the count to zero. */
  function After(t: Text, s: Scan): (r: Option<Text>)
    ensures r.Some? ==> |r.value| < |t|
  {
    if t == [] then None else if Ends(s, t[0]) then Some(t[1..]) else After(t[1..], Advance(s, t[0]))
  }

  function Outside(depth: int): Scan { Scan(depth, false, false) }
  function Inside(depth: int): Scan { Scan(depth, true, false) }

  lemma AfterOne(text: Text, i: nat, s: Scan)
    requires i < |text|
    ensures After(text[i..], s)
         == if Ends(s, text[i]) then Some(text[i + 1..]) else After(text[i + 1..], Advance(s, text[i]))
  {
    assert text[i..][0] == text[i] && text[i..][1..] == text[i + 1..];
  }

  /** The loop: it answers the position at which After's remainder begins. */
  method JsonEnd(text: Text, start: nat) returns (r: Result<nat, ScanError>)
    ensures start >= |text| || text[start] != OPEN_BRACE ==> r == Failure(ExpectedObject)
    ensures start < |text| && text[start] == OPEN_BRACE ==>
      match After(text[start..], Outside(0))
      case None => r == Failure(Incomplete)
      case Some(rest) => r.Success? && start < r.value <= |text| && text[r.value..] == rest
  {
    if start >= |text| || text[start] != OPEN_BRACE { return Failure(ExpectedObject); }
    var depth, quoted, escaped := 0, false, false;
    ghost var all := After(text[start..], Outside(0));
    for i := start to |text|
      invariant all == After(text[i..], Scan(depth, quoted, escaped))
      invariant escaped ==> quoted
    {
      var c := text[i];
      AfterOne(text, i, Scan(depth, quoted, escaped));
      if quoted {
        if escaped {
          escaped := false;
        } else if c == BACKSLASH {
          escaped := true;
        } else if c == QUOTE {
          quoted := false;
        }
      } else if c == QUOTE {
        quoted := true;
      } else if c == OPEN_BRACE || c == OPEN_BRACKET {
        depth := depth + 1;
      } else if c == CLOSE_BRACE || c == CLOSE_BRACKET {
        depth := depth - 1;
        if depth == 0 { return Success(i + 1); }
      }
    }
    r := Failure(Incomplete);
  }

  // ---- It ends every object text exactly -------------------------------------------------

  /** Text that brackets and quotes do not touch. */
  predicate Neutral(t: Text) {
    forall i | 0 <= i < |t| :: t[i] !in {QUOTE, OPEN_BRACE, CLOSE_BRACE, OPEN_BRACKET, CLOSE_BRACKET}
  }

  lemma {:induction false} NeutralScans(t: Text, k: Text, d: int)
    requires Neutral(t)
    ensures After(t + k, Outside(d)) == After(k, Outside(d))
  {
    if t == [] {
      assert t + k == k;
    } else {
      assert (t + k)[0] == t[0] && (t + k)[1..] == t[1..] + k;
      NeutralScans(t[1..], k, d);
    }
  }

  lemma CharScans(c: Char, k: Text, d: int)
    requires ValidChar(c)
    ensures After(Written(c) + k, Inside(d)) == After(k, Inside(d))
  {
    var t := Written(c) + k;
    match c
    case Plain(u) => assert t[0] == u && t[1..] == k;
    case Short(e) => {
      assert t[0] == BACKSLASH && t[1..][0] == e && t[1..][1..] == k;
      assert After(t, Inside(d)) == After(t[1..], Scan(d, true, true));
    }
    case Hex(a, b, e, f) => {
      var h := [a, b, e, f];
      assert t[0] == BACKSLASH && t[1..][0] == LETTER_U && t[1..][1..] == h + k;
      assert After(t, Inside(d)) == After(t[1..], Scan(d, true, true)) == After(h + k, Inside(d));
      HexScans(h, k, d);
    }
  }

  lemma {:induction false} HexScans(h: Text, k: Text, d: int)
    requires forall i | 0 <= i < |h| :: IsHexDigit(h[i])
    ensures After(h + k, Inside(d)) == After(k, Inside(d))
  {
    if h == [] {
      assert h + k == k;
    } else {
      assert (h + k)[0] == h[0] && (h + k)[1..] == h[1..] + k;
      HexScans(h[1..], k, d);
    }
  }

  lemma {:induction false} CharsScan(s: seq<Char>, k: Text, d: int)
    requires ValidChars(s)
    ensures After(PrintChars(s, k), Inside(d)) == After(k, Inside(d))
  {
    if s != [] {
      CharScans(s[0], PrintChars(s[1..], k), d);
      CharsScan(s[1..], k, d);
    }
  }

  lemma StringScans(s: seq<Char>, k: Text, d: int)
    requires ValidChars(s)
    ensures After(PrintString(s, k), Outside(d)) == After(k, Outside(d))
  {
    var t := PrintString(s, k);
    assert t[1..] == PrintChars(s, [QUOTE] + k);
    CharsScan(s, [QUOTE] + k, d);
    assert ([QUOTE] + k)[1..] == k;
  }

  lemma WsIsNeutral(t: Text)
    requires AllWs(t)
    ensures Neutral(t)
  {
  }

  lemma OneScans(u: unit, k: Text, d: int)
    requires u == COMMA || u == COLON
    ensures After([u] + k, Outside(d)) == After(k, Outside(d))
  {
    assert ([u] + k)[1..] == k;
  }

  lemma OpenScans(u: unit, k: Text, d: int)
    requires u == OPEN_BRACE || u == OPEN_BRACKET
    ensures After([u] + k, Outside(d)) == After(k, Outside(d + 1))
  {
    assert ([u] + k)[1..] == k;
  }

  lemma CloseScans(u: unit, k: Text, d: int)
    requires u == CLOSE_BRACE || u == CLOSE_BRACKET
    ensures After([u] + k, Outside(d)) == if d == 1 then Some(k) else After(k, Outside(d - 1))
  {
    assert ([u] + k)[1..] == k;
  }

  /** A value inside a container is passed over at the container's depth. */
  lemma {:induction false} ValueScans(v: Syntax, k: Text, d: int)
    requires Valid(v) && d >= 1
    ensures After(Print(v, k), Outside(d)) == After(k, Outside(d))
    decreases v, 2
  {
    match v
    case Num(t) => NumberScans(t, k, d);
    case Str(s) => StringScans(s, k, d);
    case Arr(_, _) => ArrayScans(v, k, d);
    case Obj(_, _) => ObjectScans(v, k, d);
    case _ => LiteralScans(k, d);
  }

  lemma {:induction false} ArrayScans(v: Syntax, k: Text, d: int)
    requires Valid(v) && d >= 1 && v.Arr?
    ensures After(Print(v, k), Outside(d)) == After(k, Outside(d))
    decreases v, 1
  {
    ArrayBody(v.inner, v.elems, [CLOSE_BRACKET] + k, d);
    CloseScans(CLOSE_BRACKET, k, d + 1);
  }

  lemma {:induction false} ObjectScans(v: Syntax, k: Text, d: int)
    requires Valid(v) && d >= 1 && v.Obj?
    ensures After(Print(v, k), Outside(d)) == After(k, Outside(d))
    decreases v, 1
  {
    ObjectBody(v.inner, v.members, [CLOSE_BRACE] + k, d);
    CloseScans(CLOSE_BRACE, k, d + 1);
  }

  lemma LiteralScans(k: Text, d: int)
    ensures After(NULL_TEXT + k, Outside(d)) == After(k, Outside(d))
    ensures After(TRUE_TEXT + k, Outside(d)) == After(k, Outside(d))
    ensures After(FALSE_TEXT + k, Outside(d)) == After(k, Outside(d))
  {
    NeutralScans(NULL_TEXT, k, d);
    NeutralScans(TRUE_TEXT, k, d);
    NeutralScans(FALSE_TEXT, k, d);
  }

  lemma NumberScans(t: Text, k: Text, d: int)
    requires IsNumber(t)
    ensures After(t + k, Outside(d)) == After(k, Outside(d))
  {
    assert forall i | 0 <= i < |t| :: IsNumberUnit(t[i]);
    NeutralScans(t, k, d);
  }

  lemma {:induction false} ArrayBody(inner: Text, elems: Elems, close: Text, d: int)
    requires AllWs(inner) && ValidElems(elems) && d >= 0
    ensures var body := if elems.NoElem? then inner + close else PrintElems(elems, close);
      After([OPEN_BRACKET] + body, Outside(d)) == After(close, Outside(d + 1))
    decreases elems, 1
  {
    OpenScans(OPEN_BRACKET, if elems.NoElem? then inner + close else PrintElems(elems, close), d);
    if elems.NoElem? {
      WsIsNeutral(inner);
      NeutralScans(inner, close, d + 1);
    } else {
      ElemsScan(elems, close, d + 1);
    }
  }

  /** From the opening brace up to the closing one. */
  lemma {:induction false} ObjectBody(inner: Text, members: Members, close: Text, d: int)
    requires AllWs(inner) && ValidMembers(members) && d >= 0
    ensures var body := if members.NoMember? then inner + close else PrintMembers(members, close);
      After([OPEN_BRACE] + body, Outside(d)) == After(close, Outside(d + 1))
    decreases members, 1
  {
    OpenScans(OPEN_BRACE, if members.NoMember? then inner + close else PrintMembers(members, close), d);
    if members.NoMember? {
      WsIsNeutral(inner);
      NeutralScans(inner, close, d + 1);
    } else {
      MembersScan(members, close, d + 1);
    }
  }

  lemma {:induction false} ElemsScan(e: Elems, k: Text, d: int)
    requires ValidElems(e) && d >= 1
    ensures After(PrintElems(e, k), Outside(d)) == After(k, Outside(d))
    decreases e, 0
  {
    if e.Elem? {
      var next := if e.more.NoElem? then k else [COMMA] + PrintElems(e.more, k);
      WsIsNeutral(e.before);
      WsIsNeutral(e.after);
      NeutralScans(e.before, Print(e.v, e.after + next), d);
      ValueScans(e.v, e.after + next, d);
      NeutralScans(e.after, next, d);
      if e.more.Elem? {
        OneScans(COMMA, PrintElems(e.more, k), d);
        ElemsScan(e.more, k, d);
      }
    }
  }

  lemma {:induction false} MembersScan(m: Members, k: Text, d: int)
    requires ValidMembers(m) && d >= 1
    ensures After(PrintMembers(m, k), Outside(d)) == After(k, Outside(d))
    decreases m, 0
  {
    if m.Member? {
      var next := if m.rest.NoMember? then k else [COMMA] + PrintMembers(m.rest, k);
      var value := Print(m.v, m.after + next);
      WsIsNeutral(m.before);
      WsIsNeutral(m.colon);
      WsIsNeutral(m.gap);
      WsIsNeutral(m.after);
      NeutralScans(m.before, PrintString(m.key, m.colon + ([COLON] + (m.gap + value))), d);
      StringScans(m.key, m.colon + ([COLON] + (m.gap + value)), d);
      NeutralScans(m.colon, [COLON] + (m.gap + value), d);
      OneScans(COLON, m.gap + value, d);
      NeutralScans(m.gap, value, d);
      ValueScans(m.v, m.after + next, d);
      NeutralScans(m.after, next, d);
      if m.rest.Member? {
        OneScans(COMMA, PrintMembers(m.rest, k), d);
        MembersScan(m.rest, k, d);
      }
    }
  }

  /** For every object text and whatever follows it, the count reaches zero exactly
      at the object's own closing brace. */
  lemma {:induction false} ObjectEnds(inner: Text, members: Members, k: Text)
    requires Valid(Obj(inner, members))
    ensures After(Print(Obj(inner, members), k), Outside(0)) == Some(k)
  {
    ObjectBody(inner, members, [CLOSE_BRACE] + k, 0);
    CloseScans(CLOSE_BRACE, k, 1);
  }
}
