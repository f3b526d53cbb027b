/** The parser accepts nothing but texts of the syntax, so that it accepts exactly
    those. */
module JsonGrammar {
  import opened Outcomes
  import opened JsonText
  import opened JsonParsing

  lemma {:induction false} SkippedIsWs(t: Text) returns (b: Text)
    ensures AllWs(b) && t == b + SkipWs(t)
  {
    if t != [] && IsWs(t[0]) {
      var more := SkippedIsWs(t[1..]);
      b := [t[0]] + more;
      assert t == [t[0]] + t[1..];
    } else {
      b := [];
      assert t == [] + t;
    }
  }

  lemma OneCharMore(c: Char, s: seq<Char>, t: Text, rest: Text, k: Text, acc: Text, value: Text)
    requires ValidChar(c) && t == Written(c) + rest
    requires ValidChars(s) && rest == PrintChars(s, [QUOTE] + k) && value == acc + [UnitOf(c)] + Units(s)
    ensures ValidChars([c] + s) && t == PrintChars([c] + s, [QUOTE] + k) && value == acc + Units([c] + s)
  {
    assert ([c] + s)[0] == c && ([c] + s)[1..] == s;
    assert acc + [UnitOf(c)] + Units(s) == acc + ([UnitOf(c)] + Units(s));
    forall i | 0 <= i < |[c] + s| ensures ValidChar(([c] + s)[i]) { if i > 0 { assert ([c] + s)[i] == s[i - 1]; } }
  }

  /** The character a string text goes on with. */
  lemma FirstChar(t: Text, acc: Text) returns (c: Char, rest: Text)
    requires ParseChars(t, acc).Some? && t[0] != QUOTE
    ensures ValidChar(c) && t == Written(c) + rest && |rest| < |t|
    ensures ParseChars(t, acc) == ParseChars(rest, acc + [UnitOf(c)])
  {
    if t[0] != BACKSLASH {
      c, rest := Plain(t[0]), t[1..];
    } else if t[1] == LETTER_U {
      c, rest := Hex(t[2], t[3], t[4], t[5]), t[6..];
      assert t[..6] == [t[0], t[1], t[2], t[3], t[4], t[5]];
    } else {
      c, rest := Short(t[1]), t[2..];
      assert t[..2] == [t[0], t[1]];
    }
    assert t == Written(c) + rest;
  }

  lemma {:induction false} CharsAreWritten(t: Text, acc: Text) returns (s: seq<Char>)
    requires ParseChars(t, acc).Some?
    ensures ValidChars(s) && t == PrintChars(s, [QUOTE] + ParseChars(t, acc).value.rest)
    ensures ParseChars(t, acc).value.value == acc + Units(s)
    decreases |t|
  {
    if t[0] == QUOTE {
      s := [];
      assert t == [QUOTE] + t[1..] && acc == acc + [];
    } else {
      var c, rest := FirstChar(t, acc);
      var r := ParseChars(t, acc).value;
      var more := CharsAreWritten(rest, acc + [UnitOf(c)]);
      s := [c] + more;
      OneCharMore(c, more, t, rest, r.rest, acc, r.value);
    }
  }

  /** A text read as a value is that value written out, and what follows. */
  lemma {:induction false} ValueIsWritten(t: Text) returns (v: Syntax)
    requires ParseValue(t).Some?
    ensures Valid(v) && Meaning(v) == ParseValue(t).value.value && t == Print(v, ParseValue(t).value.rest)
    decreases |t|, 1
  {
    var r := ParseValue(t).value;
    assert t == [t[0]] + t[1..];
    if t[0] == QUOTE {
      var s := CharsAreWritten(t[1..], []);
      assert [] + Units(s) == Units(s);
      v := Str(s);
    } else if t[0] == OPEN_BRACE {
      v := ObjectIsWritten(t);
    } else if t[0] == OPEN_BRACKET {
      v := ArrayIsWritten(t);
    } else {
      v := AtomIsWritten(t);
    }
  }

  lemma AtomIsWritten(t: Text) returns (v: Syntax)
    requires ParseValue(t).Some? && t[0] !in {QUOTE, OPEN_BRACE, OPEN_BRACKET}
    ensures Valid(v) && Meaning(v) == ParseValue(t).value.value && t == Print(v, ParseValue(t).value.rest)
  {
    if NULL_TEXT <= t {
      v := LNull;
      WordThen(NULL_TEXT, t);
    } else if TRUE_TEXT <= t {
      v := LTrue;
      WordThen(TRUE_TEXT, t);
    } else if FALSE_TEXT <= t {
      v := LFalse;
      WordThen(FALSE_TEXT, t);
    } else {
      v := Num(t[..NumberRun(t)]);
      WordThen(t[..NumberRun(t)], t);
    }
  }

  lemma WordThen(word: Text, t: Text)
    requires word <= t
    ensures t == word + t[|word|..]
  {
  }

  lemma {:induction false} ArrayIsWritten(t: Text) returns (v: Syntax)
    requires ParseValue(t).Some? && t[0] == OPEN_BRACKET
    ensures Valid(v) && Meaning(v) == ParseValue(t).value.value && t == Print(v, ParseValue(t).value.rest)
    decreases |t|, 0
  {
    var r := ParseValue(t).value;
    var inner := SkippedIsWs(t[1..]);
    var u := SkipWs(t[1..]);
    if u != [] && u[0] == CLOSE_BRACKET {
      v := Arr(inner, NoElem);
      assert u == [CLOSE_BRACKET] + r.rest;
    } else {
      var e := ItemsAreWritten(t[1..], NoItem);
      v := Arr([], e);
    }
    assert t == [OPEN_BRACKET] + t[1..];
  }

  lemma {:induction false} ObjectIsWritten(t: Text) returns (v: Syntax)
    requires ParseValue(t).Some? && t[0] == OPEN_BRACE
    ensures Valid(v) && Meaning(v) == ParseValue(t).value.value && t == Print(v, ParseValue(t).value.rest)
    decreases |t|, 0
  {
    var r := ParseValue(t).value;
    var inner := SkippedIsWs(t[1..]);
    var u := SkipWs(t[1..]);
    if u != [] && u[0] == CLOSE_BRACE {
      v := Obj(inner, NoMember);
      assert u == [CLOSE_BRACE] + r.rest;
    } else {
      var m := FieldsAreWritten(t[1..], NoField);
      v := Obj([], m);
    }
    assert t == [OPEN_BRACE] + t[1..];
  }

  lemma {:induction false} ItemsAreWritten(t: Text, acc: Items) returns (e: Elems)
    requires ParseItems(t, acc).Some?
    ensures e.Elem? && ValidElems(e) && Elements(e, acc) == ParseItems(t, acc).value.value
    ensures t == PrintElems(e, [CLOSE_BRACKET] + ParseItems(t, acc).value.rest)
    decreases |t|, 2
  {
    var r := ParseItems(t, acc).value;
    var before := SkippedIsWs(t);
    var v := ValueIsWritten(SkipWs(t));
    var p := ParseValue(SkipWs(t)).value;
    var after := SkippedIsWs(p.rest);
    var u := SkipWs(p.rest);
    var more := NoElem;
    if u[0] == COMMA { more := ItemsAreWritten(u[1..], Append(acc, p.value)); }
    e := Elem(before, v, after, more);
    assert u == [u[0]] + u[1..];
  }

  /** A member's name, the colon, and the white space around them. */
  lemma NameIsWritten(t: Text, q: Text, name: Parsed<Text>, c: Text)
    returns (before: Text, key: seq<Char>, colon: Text, gap: Text)
    requires q == SkipWs(t) && q != [] && q[0] == QUOTE && ParseChars(q[1..], []) == Some(name)
    requires c == SkipWs(name.rest) && c != [] && c[0] == COLON
    ensures AllWs(before) && ValidChars(key) && AllWs(colon) && AllWs(gap) && Units(key) == name.value
    ensures t == before + PrintString(key, colon + ([COLON] + (gap + SkipWs(c[1..]))))
  {
    before := SkippedIsWs(t);
    key := CharsAreWritten(q[1..], []);
    assert [] + Units(key) == Units(key);
    colon := SkippedIsWs(name.rest);
    gap := SkippedIsWs(c[1..]);
    assert c == [COLON] + c[1..] && q == [QUOTE] + q[1..];
  }

  lemma {:induction false} FieldsAreWritten(t: Text, acc: Fields) returns (m: Members)
    requires ParseFields(t, acc).Some?
    ensures m.Member? && ValidMembers(m) && Properties(m, acc) == ParseFields(t, acc).value.value
    ensures t == PrintMembers(m, [CLOSE_BRACE] + ParseFields(t, acc).value.rest)
    decreases |t|, 2
  {
    var q := SkipWs(t);
    var name := ParseChars(q[1..], []).value;
    var c := SkipWs(name.rest);
    var before, key, colon, gap := NameIsWritten(t, q, name, c);
    var text := SkipWs(c[1..]);
    var v := ValueIsWritten(text);
    var p := ParseValue(text).value;
    var after := SkippedIsWs(p.rest);
    var u := SkipWs(p.rest);
    var rest := NoMember;
    if u[0] == COMMA { rest := FieldsAreWritten(u[1..], Put(acc, name.value, p.value)); }
    m := Member(before, key, colon, gap, v, after, rest);
    assert u == [u[0]] + u[1..];
  }

  /** The text is of the syntax, with this meaning. */
  ghost predicate Means(t: Text, d: Data) {
    exists before, v, after :: AllWs(before) && Valid(v) && AllWs(after) && t == before + Print(v, after)
                               && Meaning(v) == d
  }

  /** The parser accepts a text exactly when it is white space, a value of the
      syntax and white space, and gives what that value means. */
  lemma ParsesExactlyTheGrammar(t: Text, d: Data)
    ensures Parse(t) == Some(d) <==> Means(t, d)
  {
    if Means(t, d) {
      var before, v, after :| AllWs(before) && Valid(v) && AllWs(after) && t == before + Print(v, after)
                              && Meaning(v) == d;
      TextParses(before, v, after);
    }
    if Parse(t) == Some(d) {
      var before := SkippedIsWs(t);
      var v := ValueIsWritten(SkipWs(t));
      var after := SkippedIsWs(ParseValue(SkipWs(t)).value.rest);
      assert after + [] == after;
      assert t == before + Print(v, after);
    }
  }

  /** So a text has at most one meaning. */
  lemma OneMeaning(t: Text, d: Data, e: Data)
    requires Means(t, d) && Means(t, e)
    ensures d == e
  {
    ParsesExactlyTheGrammar(t, d);
    ParsesExactlyTheGrammar(t, e);
  }

  // ---- The characters of the syntax (RFC 8259) ------------------------------------------

  /** The two-character escapes (section 7 of RFC 8259). */
  const ESCAPES: map<unit, unit> :=
    map[34 := 34, 92 := 92, 47 := 47, 98 := 8, 102 := 12, 110 := 10, 114 := 13, 116 := 9]

  lemma EscapesAreRead(c: unit)
    ensures c in ESCAPES ==> Parse([34, 92, c, 34]) == Some(String([ESCAPES[c]]))
    ensures c !in ESCAPES && c != 117 ==> Parse([34, 92, c, 34]).None?
  {
    var t: Text := [34, 92, c, 34];
    var inner, last: Text := [92, c, 34], [34];
    assert t[1..] == inner && inner[2..] == last && last[1..] == [];
    if c in ESCAPES {
      assert [] + [ShortUnit(c)] == [ESCAPES[c]];
      assert ParseChars(inner, []) == ParseChars(last, [ESCAPES[c]]) == Some(Parsed([ESCAPES[c]], []));
    }
  }

  /** The hexadecimal digits. */
  const HEX: map<unit, int> :=
    map[48 := 0, 49 := 1, 50 := 2, 51 := 3, 52 := 4, 53 := 5, 54 := 6, 55 := 7, 56 := 8, 57 := 9, 65 := 10, 66 := 11,
        67 := 12, 68 := 13, 69 := 14, 70 := 15, 97 := 10, 98 := 11, 99 := 12, 100 := 13, 101 := 14, 102 := 15]

  lemma DigitsAreHex(u: unit)
    ensures IsHexDigit(u) <==> u in HEX
    ensures u in HEX ==> HexValue(u) as int == HEX[u]
  {
  }

  /** After a backslash and a `u` stand four of them, for the unit they write. */
  lemma HexIsRead(a: unit, b: unit, c: unit, d: unit)
    ensures var t: Text := [34, 92, 117, a, b, c, d, 34];
      if a in HEX && b in HEX && c in HEX && d in HEX
      then Parse(t).Some? && Parse(t).value.String? && |Parse(t).value.s| == 1
           && Parse(t).value.s[0] as int == 4096 * HEX[a] + 256 * HEX[b] + 16 * HEX[c] + HEX[d]
      else Parse(t).None?
  {
    var t: Text := [34, 92, 117, a, b, c, d, 34];
    var inner, last: Text := [92, 117, a, b, c, d, 34], [34];
    DigitsAreHex(a);
    DigitsAreHex(b);
    DigitsAreHex(c);
    DigitsAreHex(d);
    assert t[1..] == inner && inner[6..] == last && last[1..] == [];
    if ValidChar(Hex(a, b, c, d)) {
      var u := HexUnit(a, b, c, d);
      assert [] + [u] == [u];
      assert ParseChars(inner, []) == ParseChars(last, [u]) == Some(Parsed([u], []));
    }
  }

  /** Only blank, tab, line feed and return may stand around a value. */
  lemma SpacesAreRead(u: unit)
    ensures Parse([u, 48]) == Some(Number([48])) <==> u in {9, 10, 13, 32}
    ensures Parse([48, u]) == Some(Number([48])) <==> u in {9, 10, 13, 32}
  {
    var before, after, zero: Text := [u, 48], [48, u], [48];
    assert before[1..] == zero && after[1..] == [u] && zero[..1] == zero && zero[1..] == [] && [u][1..] == [];
    ZeroParses(zero);
    if IsWs(u) {
      TextParses([u], Num(zero), []);
      TextParses([], Num(zero), [u]);
      assert before == [u] + Print(Num(zero), []) && after == [] + Print(Num(zero), [u]);
    }
    if Parse(before) == Some(Number(zero)) { SpaceNeeded(before, zero); }
    if Parse(after) == Some(Number(zero)) { SpaceNeeded(after, zero); }
  }

  lemma ZeroParses(zero: Text)
    requires zero == [48]
    ensures IsNumber(zero) && Valid(Num(zero)) && Meaning(Num(zero)) == Number(zero)
  {
    assert zero[1..] == [];
  }

  /** Two units read as this number are it and white space. */
  lemma SpaceNeeded(t: Text, zero: Text)
    requires |t| == 2 && zero == [48] && Parse(t) == Some(Number(zero))
    ensures IsWs(if t[0] == 48 then t[1] else t[0])
  {
    ParsesExactlyTheGrammar(t, Number(zero));
    var before, v, after :| AllWs(before) && Valid(v) && AllWs(after) && t == before + Print(v, after)
                            && Meaning(v) == Number(zero);
    assert v == Num(zero) && |before| + 1 + |after| == 2;
    if |before| == 1 { assert t[0] == before[0]; } else { assert t[0] == 48 && t[1] == after[0]; }
  }

  lemma TextIsRead(t: Text, v: Syntax, d: Data)
    requires Valid(v) && t == Print(v, []) && Meaning(v) == d
    ensures Parse(t) == Some(d)
  {
    TextParses([], v, []);
    assert [] + t == t;
  }

  lemma WordsAreRead()
    ensures Parse([110, 117, 108, 108]) == Some(Null)
    ensures Parse([116, 114, 117, 101]) == Some(Bool(true)) && Parse([102, 97, 108, 115, 101]) == Some(Bool(false))
  {
    TextIsRead([110, 117, 108, 108], LNull, Null);
    TextIsRead([116, 114, 117, 101], LTrue, Bool(true));
    TextIsRead([102, 97, 108, 115, 101], LFalse, Bool(false));
  }

  lemma EmptyStringIs(k: Text)
    ensures Valid(Str([])) && Meaning(Str([])) == String([]) && Print(Str([]), k) == [34, 34] + k
  {
  }

  /** Braces, brackets, comma and colon. */
  lemma BracesAreRead()
    ensures Parse([123, 125]) == Some(Object(NoField)) && Parse([91, 93]) == Some(Array(NoItem))
  {
    TextIsRead([123, 125], Obj([], NoMember), Object(NoField));
    TextIsRead([91, 93], Arr([], NoElem), Array(NoItem));
  }

  lemma CommaIsRead()
    ensures Parse([91, 34, 34, 44, 34, 34, 93]) == Some(Array(Item(String([]), Item(String([]), NoItem))))
  {
    var empty := Str([]);
    var second := Elem([], empty, [], NoElem);
    var both := Elem([], empty, [], second);
    EmptyStringIs([93]);
    assert PrintElems(second, [93]) == [34, 34, 93];
    EmptyStringIs([44, 34, 34, 93]);
    assert PrintElems(both, [93]) == [34, 34, 44, 34, 34, 93];
    assert [93] + [] == [93];
    assert Elements(both, NoItem) == Item(String([]), Item(String([]), NoItem));
    TextIsRead([91, 34, 34, 44, 34, 34, 93], Arr([], both), Array(Item(String([]), Item(String([]), NoItem))));
  }

  lemma ColonIsRead()
    ensures Parse([123, 34, 34, 58, 34, 34, 125]) == Some(Object(Field([], String([]), NoField)))
  {
    var one := Member([], [], [], [], Str([]), [], NoMember);
    EmptyStringIs([125]);
    assert [125] + [] == [125];
    assert PrintMembers(one, [125]) == [34, 34, 58, 34, 34, 125];
    assert Properties(one, NoField) == Field([], String([]), NoField);
    TextIsRead([123, 34, 34, 58, 34, 34, 125], Obj([], one), Object(Field([], String([]), NoField)));
  }
}
