/** The parser reads back every text of the syntax, with its meaning. */
module JsonParsing {
  import opened Outcomes
  import opened JsonText

  /** What may follow a value: nothing that could lengthen a number. */
  predicate Stops(k: Text) { k == [] || !IsNumberUnit(k[0]) }

  lemma {:induction false} SkipsAll(b: Text, t: Text)
    requires AllWs(b) && (t == [] || !IsWs(t[0]))
    ensures SkipWs(b + t) == t
  {
    if b == [] {
      assert b + t == t;
    } else {
      assert (b + t)[1..] == b[1..] + t;
      SkipsAll(b[1..], t);
    }
  }

  lemma {:induction false} CharsParse(s: seq<Char>, k: Text, acc: Text)
    requires ValidChars(s)
    ensures ParseChars(PrintChars(s, [QUOTE] + k), acc) == Some(Parsed(acc + Units(s), k))
  {
    var t := PrintChars(s, [QUOTE] + k);
    if s == [] {
      assert t[1..] == k && acc + [] == acc;
    } else {
      var rest := PrintChars(s[1..], [QUOTE] + k);
      assert ValidChar(s[0]);
      CharsParse(s[1..], k, acc + [UnitOf(s[0])]);
      assert acc + [UnitOf(s[0])] + Units(s[1..]) == acc + Units(s);
      CharParses(s[0], rest, acc);
    }
  }

  lemma CharParses(c: Char, rest: Text, acc: Text)
    requires ValidChar(c)
    ensures ParseChars(Written(c) + rest, acc) == ParseChars(rest, acc + [UnitOf(c)])
  {
    var t := Written(c) + rest;
    match c
    case Plain(u) => assert t[0] == u && t[1..] == rest;
    case Short(d) => assert t[0] == BACKSLASH && t[1] == d && t[2..] == rest;
    case Hex(a, b, d, e) =>
      assert t[0] == BACKSLASH && t[1] == LETTER_U && t[6..] == rest;
      assert t[2] == a && t[3] == b && t[4] == d && t[5] == e;
  }

  lemma {:induction false} NumberRuns(t: Text, k: Text)
    requires (forall i | 0 <= i < |t| :: IsNumberUnit(t[i])) && Stops(k)
    ensures NumberRun(t + k) == |t|
  {
    if t == [] {
      assert t + k == k;
    } else {
      assert (t + k)[1..] == t[1..] + k;
      NumberRuns(t[1..], k);
    }
  }

  lemma NumberParses(t: Text, k: Text)
    requires IsNumber(t) && Stops(k)
    ensures ParseValue(t + k) == Some(Parsed(Number(t), k))
  {
    NumberRuns(t, k);
    assert t != [];
    assert (t + k)[..|t|] == t && (t + k)[|t|..] == k && (t + k)[0] == t[0];
    assert IsNumberUnit(t[0]);
  }

  lemma LiteralParses(k: Text)
    ensures ParseValue(NULL_TEXT + k) == Some(Parsed(Null, k))
    ensures ParseValue(TRUE_TEXT + k) == Some(Parsed(Bool(true), k))
    ensures ParseValue(FALSE_TEXT + k) == Some(Parsed(Bool(false), k))
  {
    assert (NULL_TEXT + k)[0] == 110 && (NULL_TEXT + k)[..4] == NULL_TEXT && (NULL_TEXT + k)[4..] == k;
    assert (TRUE_TEXT + k)[0] == 116 && (TRUE_TEXT + k)[..4] == TRUE_TEXT && (TRUE_TEXT + k)[4..] == k;
    assert (FALSE_TEXT + k)[0] == 102 && (FALSE_TEXT + k)[..5] == FALSE_TEXT && (FALSE_TEXT + k)[5..] == k;
  }

  /** A value's text starts with no white space and closes nothing. */
  predicate Opens(t: Text) { t != [] && !IsWs(t[0]) && t[0] != CLOSE_BRACKET && t[0] != CLOSE_BRACE }

  lemma ValueOpens(v: Syntax, k: Text)
    requires Valid(v)
    ensures Opens(Print(v, k))
  {
    match v
    case Num(t) => {
      assert IsNumberUnit(t[0]);
      assert (t + k)[0] == t[0];
    }
    case LNull => assert (NULL_TEXT + k)[0] == 110;
    case LTrue => assert (TRUE_TEXT + k)[0] == 116;
    case LFalse => assert (FALSE_TEXT + k)[0] == 102;
    case _ =>
  }

  lemma WsStops(b: Text, k: Text)
    requires AllWs(b) && Stops(k)
    ensures Stops(b + k)
  {
    if b == [] { assert b + k == k; } else { assert (b + k)[0] == b[0]; }
  }

  /** Reading back a printed value gives its meaning and leaves what follows. */
  lemma {:induction false} ValueParses(v: Syntax, k: Text)
    requires Valid(v) && Stops(k)
    ensures ParseValue(Print(v, k)) == Some(Parsed(Meaning(v), k))
    decreases v, 1
  {
    match v
    case LNull => LiteralParses(k);
    case LTrue => LiteralParses(k);
    case LFalse => LiteralParses(k);
    case Num(t) => NumberParses(t, k);
    case Str(s) => {
      var t := Print(v, k);
      assert t[0] == QUOTE && t[1..] == PrintChars(s, [QUOTE] + k);
      CharsParse(s, k, []);
      assert [] + Units(s) == Units(s);
    }
    case Arr(inner, elems) => ArrayParses(v, inner, elems, k);
    case Obj(inner, members) => ObjectParses(v, inner, members, k);
  }

  lemma {:induction false} ArrayParses(v: Syntax, inner: Text, elems: Elems, k: Text)
    requires v == Arr(inner, elems) && Valid(v) && Stops(k)
    ensures ParseValue(Print(v, k)) == Some(Parsed(Meaning(v), k))
    decreases v, 0
  {
    var t, close := Print(v, k), [CLOSE_BRACKET] + k;
    assert close[0] == CLOSE_BRACKET && close[1..] == k;
    if elems.NoElem? {
      assert t[0] == OPEN_BRACKET && t[1..] == inner + close;
      SkipsAll(inner, close);
    } else {
      assert t[0] == OPEN_BRACKET && t[1..] == PrintElems(elems, close);
      ElemOpens(elems, close);
      ElemsParse(elems, k, NoItem);
    }
  }

  lemma {:induction false} ObjectParses(v: Syntax, inner: Text, members: Members, k: Text)
    requires v == Obj(inner, members) && Valid(v) && Stops(k)
    ensures ParseValue(Print(v, k)) == Some(Parsed(Meaning(v), k))
    decreases v, 0
  {
    var t, close := Print(v, k), [CLOSE_BRACE] + k;
    assert close[0] == CLOSE_BRACE && close[1..] == k;
    if members.NoMember? {
      assert t[0] == OPEN_BRACE && t[1..] == inner + close;
      SkipsAll(inner, close);
    } else {
      assert t[0] == OPEN_BRACE && t[1..] == PrintMembers(members, close);
      MemberOpens(members, close);
      MembersParse(members, k, NoField);
    }
  }

  lemma ElemOpens(e: Elems, k: Text)
    requires ValidElems(e) && e.Elem?
    ensures Opens(SkipWs(PrintElems(e, k)))
  {
    var t := Print(e.v, e.after + (if e.more.NoElem? then k else [COMMA] + PrintElems(e.more, k)));
    ValueOpens(e.v, e.after + (if e.more.NoElem? then k else [COMMA] + PrintElems(e.more, k)));
    SkipsAll(e.before, t);
  }

  lemma MemberOpens(m: Members, k: Text)
    requires ValidMembers(m) && m.Member?
    ensures Opens(SkipWs(PrintMembers(m, k))) && SkipWs(PrintMembers(m, k))[0] == QUOTE
  {
    SkipsAll(m.before, PrintString(m.key, MemberTail(m, k)));
  }

  /** A member's text after its name. */
  function MemberTail(m: Members, k: Text): Text
    requires m.Member?
  {
    var next := if m.rest.NoMember? then k else [COMMA] + PrintMembers(m.rest, k);
    m.colon + ([COLON] + (m.gap + Print(m.v, m.after + next)))
  }

  lemma {:induction false} ElemsParse(e: Elems, k: Text, acc: Items)
    requires ValidElems(e) && e.Elem?
    ensures ParseItems(PrintElems(e, [CLOSE_BRACKET] + k), acc) == Some(Parsed(Elements(e, acc), k))
    decreases e
  {
    var close := [CLOSE_BRACKET] + k;
    var next := if e.more.NoElem? then close else [COMMA] + PrintElems(e.more, close);
    assert next != [] && !IsWs(next[0]) && Stops(next);
    WsStops(e.after, next);
    ValueOpens(e.v, e.after + next);
    SkipsAll(e.before, Print(e.v, e.after + next));
    ValueParses(e.v, e.after + next);
    SkipsAll(e.after, next);
    if e.more.NoElem? {
      assert next[1..] == k;
    } else {
      assert next[1..] == PrintElems(e.more, close);
      ElemsParse(e.more, k, Append(acc, Meaning(e.v)));
    }
  }

  lemma {:induction false} MembersParse(m: Members, k: Text, acc: Fields)
    requires ValidMembers(m) && m.Member?
    ensures ParseFields(PrintMembers(m, [CLOSE_BRACE] + k), acc) == Some(Parsed(Properties(m, acc), k))
    decreases m
  {
    var close := [CLOSE_BRACE] + k;
    var next := if m.rest.NoMember? then close else [COMMA] + PrintMembers(m.rest, close);
    assert next != [] && !IsWs(next[0]) && Stops(next);
    WsStops(m.after, next);
    ValueParses(m.v, m.after + next);
    MemberHead(m, close, m.after + next);
    SkipsAll(m.after, next);
    if m.rest.NoMember? {
      assert next[1..] == k;
    } else {
      assert next[1..] == PrintMembers(m.rest, close);
      MembersParse(m.rest, k, Put(acc, Units(m.key), Meaning(m.v)));
    }
  }

  /** The name, the colon and the white space before a member's value. */
  lemma MemberHead(m: Members, close: Text, tail: Text)
    requires ValidMembers(m) && m.Member?
    requires tail == m.after + (if m.rest.NoMember? then close else [COMMA] + PrintMembers(m.rest, close))
    ensures var q := SkipWs(PrintMembers(m, close));
      && q != [] && q[0] == QUOTE
      && var key := ParseChars(q[1..], []);
        && key.Some? && key.value.value == Units(m.key)
        && var c := SkipWs(key.value.rest);
          c != [] && c[0] == COLON && SkipWs(c[1..]) == Print(m.v, tail)
  {
    var value := Print(m.v, tail);
    var colon := [COLON] + (m.gap + value);
    var q := PrintString(m.key, m.colon + colon);
    SkipsAll(m.before, q);
    assert q[1..] == PrintChars(m.key, [QUOTE] + (m.colon + colon));
    CharsParse(m.key, m.colon + colon, []);
    assert [] + Units(m.key) == Units(m.key);
    SkipsAll(m.colon, colon);
    assert colon[1..] == m.gap + value;
    ValueOpens(m.v, tail);
    SkipsAll(m.gap, value);
  }

  /** Every text of the syntax, in any white space, is accepted with its meaning. */
  lemma TextParses(before: Text, v: Syntax, after: Text)
    requires AllWs(before) && Valid(v) && AllWs(after)
    ensures Parse(before + Print(v, after)) == Some(Meaning(v))
  {
    ValueOpens(v, after);
    SkipsAll(before, Print(v, after));
    assert after + [] == after;
    WsStops(after, []);
    ValueParses(v, after);
    SkipsAll(after, []);
  }
}
