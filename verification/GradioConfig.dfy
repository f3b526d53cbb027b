/** Rewriting the pinned configuration: parse, set the root, write it back so
    that it is safe inside a script element, and splice it in. */
module GradioConfig {
  import opened Outcomes
  import opened Basics
  import opened JsonText
  import opened JsonParsing
  import opened JsonScan
  import opened JsonNumbers

  const ROOT: Text := [114, 111, 111, 116]
  const LESS_THAN: unit := 60
  const LINE_SEPARATOR: unit := 0x2028
  const PARAGRAPH_SEPARATOR: unit := 0x2029

  predicate Unsafe(u: unit) { u == LESS_THAN || u == LINE_SEPARATOR || u == PARAGRAPH_SEPARATOR }

  // ---- Writing values -----------------------------------------------------------------

  function HexDigit(n: unit): unit
    requires n < 16
  {
    if n < 10 then 48 + n else 87 + n
  }

  function HexOf(u: unit): Char {
    Hex(HexDigit(u / 4096), HexDigit(u / 256 % 16), HexDigit(u / 16 % 16), HexDigit(u % 16))
  }

  /** Half of a surrogate pair without its other half. */
  predicate Lone(s: Text, i: nat)
    requires i < |s|
  {
    if 0xD800 <= s[i] < 0xDC00 then i + 1 == |s| || !(0xDC00 <= s[i + 1] < 0xE000)
    else 0xDC00 <= s[i] < 0xE000 && (i == 0 || !(0xD800 <= s[i - 1] < 0xDC00))
  }

  function CharFor(s: Text, i: nat): Char
    requires i < |s|
  {
    var u := s[i];
    if u == QUOTE || u == BACKSLASH then Short(u)
    else if u == 8 then Short(98)
    else if u == 9 then Short(116)
    else if u == 10 then Short(110)
    else if u == 12 then Short(102)
    else if u == 13 then Short(114)
    else if u < 32 || Lone(s, i) then HexOf(u)
    else Plain(u)
  }

  function CharsFrom(s: Text, i: nat): seq<Char>
    requires i <= |s|
    decreases |s| - i
  {
    if i == |s| then [] else [CharFor(s, i)] + CharsFrom(s, i + 1)
  }

  function SyntaxOf(d: Data): Syntax {
    match d
    case Null => LNull
    case Bool(b) => if b then LTrue else LFalse
    case Number(t) => Num(t)
    case Infinite(_) => LNull
    case String(s) => Str(CharsFrom(s, 0))
    case Array(items) => Arr([], ElemsOf(items))
    case Object(fields) => Obj([], MembersOf(fields))
  }

  function ElemsOf(i: Items): Elems {
    match i
    case NoItem => NoElem
    case Item(v, more) => Elem([], SyntaxOf(v), [], ElemsOf(more))
  }

  function MembersOf(f: Fields): Members {
    match f
    case NoField => NoMember
    case Field(key, value, rest) => Member([], CharsFrom(key, 0), [], [], SyntaxOf(value), [], MembersOf(rest))
  }

  function Stringify(d: Data): Text { Print(SyntaxOf(d), []) }

  // ---- Replacing --------------------------------------------------------------------------

  function Replaced(t: Text, u: unit): Text {
    if t == [] then [] else (if t[0] == u then Written(HexOf(u)) else [t[0]]) + Replaced(t[1..], u)
  }

  function Escaped(t: Text): Text {
    Replaced(Replaced(Replaced(t, LESS_THAN), LINE_SEPARATOR), PARAGRAPH_SEPARATOR)
  }

  datatype Refusal = InvalidJson | UnexpectedRoot | BadScan(error: ScanError) | UnexpectedSyntax

  function Rewritten(canon: Conversion, text: Text, upstream: Text, alias: Text): Result<Text, Refusal> {
    var config := Read(canon, text);
    if config.None? then Failure(InvalidJson)
    else if !config.value.Object? || Get(config.value.fields, ROOT) != Some(String(upstream))
    then Failure(UnexpectedRoot)
    else Success(Escaped(Stringify(Object(Put(config.value.fields, ROOT, String(alias))))))
  }

  // ---- Values that can be written ------------------------------------------------------------

  lemma {:induction false} PutSound(f: Fields, key: Text, value: Data)
    requires SoundFields(f) && Sound(value)
    ensures SoundFields(Put(f, key, value))
    ensures forall k :: Get(Put(f, key, value), k) == if k == key then Some(value) else Get(f, k)
  {
    if f.Field? && f.key != key { PutSound(f.rest, key, value); }
  }

  lemma {:induction false} AppendSound(i: Items, v: Data)
    requires SoundItems(i) && Sound(v)
    ensures SoundItems(Append(i, v))
  {
    if i.Item? { AppendSound(i.more, v); }
  }

  /** Whatever the parser gives can be written. */
  lemma {:induction false} ParsedIsSound(t: Text)
    ensures ParseValue(t).Some? ==> Sound(ParseValue(t).value.value)
    decreases |t|, 1
  {
    if t != [] && ParseValue(t).Some? {
      if t[0] == OPEN_BRACE {
        FieldsAreSound(t[1..], NoField);
      } else if t[0] == OPEN_BRACKET {
        ItemsAreSound(t[1..], NoItem);
      }
    }
  }

  lemma {:induction false} ItemsAreSound(t: Text, acc: Items)
    requires SoundItems(acc)
    ensures ParseItems(t, acc).Some? ==> SoundItems(ParseItems(t, acc).value.value)
    decreases |t|, 2
  {
    var v := ParseValue(SkipWs(t));
    if v.Some? {
      ParsedIsSound(SkipWs(t));
      AppendSound(acc, v.value.value);
      var u := SkipWs(v.value.rest);
      if u != [] && u[0] == COMMA { ItemsAreSound(u[1..], Append(acc, v.value.value)); }
    }
  }

  lemma {:induction false} FieldsAreSound(t: Text, acc: Fields)
    requires SoundFields(acc)
    ensures ParseFields(t, acc).Some? ==> SoundFields(ParseFields(t, acc).value.value)
    decreases |t|, 2
  {
    if ParseFields(t, acc).Some? {
      var q := SkipWs(t);
      var key := ParseChars(q[1..], []);
      var c := SkipWs(key.value.rest);
      var v := ParseValue(SkipWs(c[1..]));
      ParsedIsSound(SkipWs(c[1..]));
      PutSound(acc, key.value.value, v.value.value);
      var u := SkipWs(v.value.rest);
      if u[0] == COMMA { FieldsAreSound(u[1..], Put(acc, key.value.value, v.value.value)); }
    }
  }

  // ---- Written values read back -----------------------------------------------------------------

  lemma HexParts(n: int)
    requires 0 <= n < 65536
    ensures n / 4096 < 16 && n / 4096 * 4096 + n / 256 % 16 * 256 + n / 16 % 16 * 16 + n % 16 == n
  {
    assert n / 256 == n / 4096 * 16 + n / 256 % 16;
    assert n / 16 == n / 256 * 16 + n / 16 % 16;
  }

  lemma HexUnitOf(u: unit, a: unit, b: unit, c: unit, d: unit)
    requires HexValue(a) as int == u as int / 4096 && HexValue(b) as int == u as int / 256 % 16
    requires HexValue(c) as int == u as int / 16 % 16 && HexValue(d) as int == u as int % 16
    ensures HexUnit(a, b, c, d) == u
  {
    HexParts(u as int);
  }

  lemma HexRoundTrip(u: unit)
    ensures ValidChar(HexOf(u)) && UnitOf(HexOf(u)) == u
  {
    var a, b, c, d := u / 4096, u / 256 % 16, u / 16 % 16, u % 16;
    DigitRoundTrip(a);
    DigitRoundTrip(b);
    DigitRoundTrip(c);
    DigitRoundTrip(d);
    HexUnitOf(u, HexDigit(a), HexDigit(b), HexDigit(c), HexDigit(d));
  }

  lemma DigitRoundTrip(n: unit)
    requires n < 16
    ensures IsHexDigit(HexDigit(n)) && HexValue(HexDigit(n)) == n
  {
  }

  lemma CharRoundTrip(s: Text, i: nat)
    requires i < |s|
    ensures ValidChar(CharFor(s, i)) && UnitOf(CharFor(s, i)) == s[i]
  {
    HexRoundTrip(s[i]);
  }

  lemma {:induction false} CharsRoundTrip(s: Text, i: nat)
    requires i <= |s|
    ensures ValidChars(CharsFrom(s, i)) && Units(CharsFrom(s, i)) == s[i..]
    decreases |s| - i
  {
    if i < |s| {
      CharsRoundTrip(s, i + 1);
      CharRoundTrip(s, i);
      assert s[i..] == [s[i]] + s[i + 1..];
      assert CharsFrom(s, i)[1..] == CharsFrom(s, i + 1);
    }
  }

  lemma {:induction false} WrittenIsValid(d: Data)
    requires Sound(d)
    ensures Valid(SyntaxOf(d)) && Meaning(SyntaxOf(d)) == Nulled(d)
  {
    match d
    case String(s) => CharsRoundTrip(s, 0);
    case Array(items) => ElemsAreValid(items); ElementsBack(items, NoItem);
    case Object(fields) => MembersAreValid(fields); PropertiesBack(fields, NoField);
    case _ =>
  }

  lemma {:induction false} ElemsAreValid(i: Items)
    requires SoundItems(i)
    ensures ValidElems(ElemsOf(i))
  {
    if i.Item? {
      WrittenIsValid(i.v);
      ElemsAreValid(i.more);
    }
  }

  lemma {:induction false} MembersAreValid(f: Fields)
    requires SoundFields(f)
    ensures ValidMembers(MembersOf(f))
  {
    if f.Field? {
      WrittenIsValid(f.value);
      CharsRoundTrip(f.key, 0);
      MembersAreValid(f.rest);
    }
  }

  function Joined(a: Items, b: Items): Items {
    match a
    case NoItem => b
    case Item(v, more) => Item(v, Joined(more, b))
  }

  lemma {:induction false} JoinAppend(a: Items, v: Data, b: Items)
    ensures Joined(Append(a, v), b) == Joined(a, Item(v, b))
  {
    if a.Item? { JoinAppend(a.more, v, b); }
  }

  lemma {:induction false} JoinNone(a: Items)
    ensures Joined(a, NoItem) == a
  {
    if a.Item? { JoinNone(a.more); }
  }

  lemma {:induction false} ElementsBack(i: Items, acc: Items)
    requires SoundItems(i)
    ensures Elements(ElemsOf(i), acc) == Joined(acc, NulledItems(i))
  {
    if i.NoItem? {
      JoinNone(acc);
    } else {
      WrittenIsValid(i.v);
      ElementsBack(i.more, Append(acc, Nulled(i.v)));
      JoinAppend(acc, Nulled(i.v), NulledItems(i.more));
    }
  }

  function Chained(a: Fields, b: Fields): Fields {
    match a
    case NoField => b
    case Field(k, v, rest) => Field(k, v, Chained(rest, b))
  }

  lemma {:induction false} ChainPut(a: Fields, k: Text, v: Data, b: Fields)
    requires !HasKey(a, k)
    ensures Chained(Put(a, k, v), b) == Chained(a, Field(k, v, b))
  {
    if a.Field? { ChainPut(a.rest, k, v, b); }
  }

  lemma {:induction false} PutKeys(a: Fields, k: Text, v: Data, x: Text)
    ensures HasKey(Put(a, k, v), x) <==> HasKey(a, x) || x == k
  {
    if a.Field? { PutKeys(a.rest, k, v, x); }
  }

  lemma {:induction false} ChainNone(a: Fields)
    ensures Chained(a, NoField) == a
  {
    if a.Field? { ChainNone(a.rest); }
  }

  lemma {:induction false} PropertiesBack(f: Fields, acc: Fields)
    requires SoundFields(f) && forall k | HasKey(f, k) :: !HasKey(acc, k)
    ensures Properties(MembersOf(f), acc) == Chained(acc, NulledFields(f))
  {
    if f.NoField? {
      ChainNone(acc);
    } else {
      var v := Nulled(f.value);
      WrittenIsValid(f.value);
      CharsRoundTrip(f.key, 0);
      assert HasKey(f, f.key);
      ChainPut(acc, f.key, v, NulledFields(f.rest));
      forall k | HasKey(f.rest, k) ensures !HasKey(Put(acc, f.key, v), k) {
        assert HasKey(f, k);
        PutKeys(acc, f.key, v, k);
      }
      PropertiesBack(f.rest, Put(acc, f.key, v));
    }
  }

  // ---- Replacing touches only string characters ------------------------------------------------

  predicate Without(t: Text, u: unit) { forall i | 0 <= i < |t| :: t[i] != u }

  lemma {:induction false} ReplacedRemoves(t: Text, u: unit, x: unit)
    requires Without(Written(HexOf(u)), x) && (x == u || Without(t, x))
    ensures Without(Replaced(t, u), x)
  {
    if t != [] { ReplacedRemoves(t[1..], u, x); }
  }

  lemma {:induction false} ReplacedPasses(a: Text, k: Text, u: unit)
    requires Without(a, u)
    ensures Replaced(a + k, u) == a + Replaced(k, u)
  {
    if a == [] {
      assert a + k == k && a + Replaced(k, u) == Replaced(k, u);
    } else {
      assert (a + k)[0] == a[0] && (a + k)[1..] == a[1..] + k;
      ReplacedPasses(a[1..], k, u);
      assert a + Replaced(k, u) == [a[0]] + (a[1..] + Replaced(k, u));
    }
  }

  lemma PassesOne(c: unit, k: Text, u: unit)
    requires c != u
    ensures Replaced([c] + k, u) == [c] + Replaced(k, u)
  {
    ReplacedPasses([c], k, u);
  }

  function EscChar(c: Char, u: unit): Char { if c == Plain(u) then HexOf(u) else c }

  function EscChars(s: seq<Char>, u: unit): (r: seq<Char>) {
    if s == [] then [] else [EscChar(s[0], u)] + EscChars(s[1..], u)
  }

  function Esc(v: Syntax, u: unit): Syntax {
    match v
    case Str(s) => Str(EscChars(s, u))
    case Arr(inner, elems) => Arr(inner, EscElems(elems, u))
    case Obj(inner, members) => Obj(inner, EscMembers(members, u))
    case _ => v
  }

  function EscElems(e: Elems, u: unit): Elems {
    match e
    case NoElem => NoElem
    case Elem(before, v, after, more) => Elem(before, Esc(v, u), after, EscElems(more, u))
  }

  function EscMembers(m: Members, u: unit): Members {
    match m
    case NoMember => NoMember
    case Member(before, key, colon, gap, v, after, rest) =>
        Member(before, EscChars(key, u), colon, gap, Esc(v, u), after, EscMembers(rest, u))
  }

  /** Escaping a character of a string leaves every meaning as it was. */
  lemma {:induction false} EscCharsKeeps(s: seq<Char>, u: unit)
    requires ValidChars(s)
    ensures ValidChars(EscChars(s, u)) && Units(EscChars(s, u)) == Units(s)
  {
    if s != [] {
      EscCharsKeeps(s[1..], u);
      HexRoundTrip(u);
      var r := EscChars(s, u);
      assert r[0] == EscChar(s[0], u) && r[1..] == EscChars(s[1..], u);
      assert ValidChar(s[0]);
      forall i | 0 <= i < |r| ensures ValidChar(r[i]) { if i > 0 { assert r[i] == EscChars(s[1..], u)[i - 1]; } }
    }
  }

  lemma {:induction false} EscKeeps(v: Syntax, u: unit)
    requires Valid(v)
    ensures Valid(Esc(v, u)) && Meaning(Esc(v, u)) == Meaning(v)
  {
    match v
    case Str(s) => EscCharsKeeps(s, u);
    case Arr(_, elems) => EscElemsKeeps(elems, u, NoItem);
    case Obj(_, members) => EscMembersKeeps(members, u, NoField);
    case _ =>
  }

  lemma {:induction false} EscElemsKeeps(e: Elems, u: unit, acc: Items)
    requires ValidElems(e)
    ensures ValidElems(EscElems(e, u)) && Elements(EscElems(e, u), acc) == Elements(e, acc)
  {
    if e.Elem? {
      EscKeeps(e.v, u);
      EscElemsKeeps(e.more, u, Append(acc, Meaning(e.v)));
    }
  }

  lemma {:induction false} EscMembersKeeps(m: Members, u: unit, acc: Fields)
    requires ValidMembers(m)
    ensures ValidMembers(EscMembers(m, u)) && Properties(EscMembers(m, u), acc) == Properties(m, acc)
  {
    if m.Member? {
      EscKeeps(m.v, u);
      EscCharsKeeps(m.key, u);
      EscMembersKeeps(m.rest, u, Put(acc, Units(m.key), Meaning(m.v)));
    }
  }

  lemma CharReplaced(c: Char, k: Text, u: unit)
    requires ValidChar(c) && Unsafe(u)
    ensures Replaced(Written(c) + k, u) == Written(EscChar(c, u)) + Replaced(k, u)
  {
    if c == Plain(u) {
      assert ([u] + k)[1..] == k;
    } else {
      ReplacedPasses(Written(c), k, u);
    }
  }

  lemma {:induction false} CharsReplaced(s: seq<Char>, k: Text, u: unit)
    requires ValidChars(s) && Unsafe(u)
    ensures Replaced(PrintChars(s, k), u) == PrintChars(EscChars(s, u), Replaced(k, u))
  {
    if s != [] {
      CharReplaced(s[0], PrintChars(s[1..], k), u);
      CharsReplaced(s[1..], k, u);
      assert EscChars(s, u)[1..] == EscChars(s[1..], u);
    }
  }

  lemma StringReplaced(s: seq<Char>, k: Text, u: unit)
    requires ValidChars(s) && Unsafe(u)
    ensures Replaced(PrintString(s, k), u) == PrintString(EscChars(s, u), Replaced(k, u))
  {
    PassesOne(QUOTE, PrintChars(s, [QUOTE] + k), u);
    CharsReplaced(s, [QUOTE] + k, u);
    PassesOne(QUOTE, k, u);
  }

  /** Replacing in a text is escaping in its syntax. */
  lemma {:induction false} ValueReplaced(v: Syntax, k: Text, u: unit)
    requires Valid(v) && Unsafe(u)
    ensures Replaced(Print(v, k), u) == Print(Esc(v, u), Replaced(k, u))
    decreases v, 2
  {
    match v
    case LNull => ReplacedPasses(NULL_TEXT, k, u);
    case LTrue => ReplacedPasses(TRUE_TEXT, k, u);
    case LFalse => ReplacedPasses(FALSE_TEXT, k, u);
    case Num(t) => NumberReplaced(t, k, u);
    case Str(s) => StringReplaced(s, k, u);
    case Arr(_, _) => ArrayReplaced(v, k, u);
    case Obj(_, _) => ObjectReplaced(v, k, u);
  }

  lemma NumberReplaced(t: Text, k: Text, u: unit)
    requires IsNumber(t) && Unsafe(u)
    ensures Replaced(t + k, u) == t + Replaced(k, u)
  {
    forall i | 0 <= i < |t| ensures t[i] != u { assert IsNumberUnit(t[i]); }
    ReplacedPasses(t, k, u);
  }

  lemma WsReplaced(b: Text, k: Text, u: unit)
    requires AllWs(b) && Unsafe(u)
    ensures Replaced(b + k, u) == b + Replaced(k, u)
  {
    forall i | 0 <= i < |b| ensures b[i] != u { assert IsWs(b[i]); }
    ReplacedPasses(b, k, u);
  }

  lemma {:induction false} ArrayReplaced(v: Syntax, k: Text, u: unit)
    requires v.Arr? && Valid(v) && Unsafe(u)
    ensures Replaced(Print(v, k), u) == Print(Esc(v, u), Replaced(k, u))
    decreases v, 1
  {
    var close := [CLOSE_BRACKET] + k;
    PassesOne(CLOSE_BRACKET, k, u);
    if v.elems.NoElem? {
      PassesOne(OPEN_BRACKET, v.inner + close, u);
      WsReplaced(v.inner, close, u);
    } else {
      PassesOne(OPEN_BRACKET, PrintElems(v.elems, close), u);
      ElemsReplaced(v.elems, close, u);
    }
  }

  lemma {:induction false} ObjectReplaced(v: Syntax, k: Text, u: unit)
    requires v.Obj? && Valid(v) && Unsafe(u)
    ensures Replaced(Print(v, k), u) == Print(Esc(v, u), Replaced(k, u))
    decreases v, 1
  {
    var close := [CLOSE_BRACE] + k;
    PassesOne(CLOSE_BRACE, k, u);
    if v.members.NoMember? {
      PassesOne(OPEN_BRACE, v.inner + close, u);
      WsReplaced(v.inner, close, u);
    } else {
      PassesOne(OPEN_BRACE, PrintMembers(v.members, close), u);
      MembersReplaced(v.members, close, u);
    }
  }

  lemma {:induction false} ElemsReplaced(e: Elems, k: Text, u: unit)
    requires ValidElems(e) && Unsafe(u)
    ensures Replaced(PrintElems(e, k), u) == PrintElems(EscElems(e, u), Replaced(k, u))
    decreases e, 0
  {
    if e.Elem? {
      var next := if e.more.NoElem? then k else [COMMA] + PrintElems(e.more, k);
      WsReplaced(e.before, Print(e.v, e.after + next), u);
      ValueReplaced(e.v, e.after + next, u);
      WsReplaced(e.after, next, u);
      if e.more.Elem? {
        PassesOne(COMMA, PrintElems(e.more, k), u);
        ElemsReplaced(e.more, k, u);
      }
    }
  }

  lemma {:induction false} MembersReplaced(m: Members, k: Text, u: unit)
    requires ValidMembers(m) && Unsafe(u)
    ensures Replaced(PrintMembers(m, k), u) == PrintMembers(EscMembers(m, u), Replaced(k, u))
    decreases m, 0
  {
    if m.Member? {
      var next := if m.rest.NoMember? then k else [COMMA] + PrintMembers(m.rest, k);
      var value := Print(m.v, m.after + next);
      WsReplaced(m.before, PrintString(m.key, m.colon + ([COLON] + (m.gap + value))), u);
      StringReplaced(m.key, m.colon + ([COLON] + (m.gap + value)), u);
      WsReplaced(m.colon, [COLON] + (m.gap + value), u);
      PassesOne(COLON, m.gap + value, u);
      WsReplaced(m.gap, value, u);
      ValueReplaced(m.v, m.after + next, u);
      WsReplaced(m.after, next, u);
      if m.rest.Member? {
        PassesOne(COMMA, PrintMembers(m.rest, k), u);
        MembersReplaced(m.rest, k, u);
      }
    }
  }

  // ---- The rewritten configuration ---------------------------------------------------------------

  /** Escaping a written value: it still reads back to the same value, infinities
      as null, and holds none of the characters a script element could take for its
      own. */
  lemma EscapedReadsBack(canon: Conversion, d: Data)
    requires Sound(d) && Converted(canon, d) == d
    ensures Read(canon, Escaped(Stringify(d))) == Some(Nulled(d))
    ensures var t := Escaped(Stringify(d));
      Without(t, LESS_THAN) && Without(t, LINE_SEPARATOR) && Without(t, PARAGRAPH_SEPARATOR)
  {
    EscapedParses(d);
    NulledStays(canon, d);
    NoneUnsafe(Stringify(d));
  }

  lemma EscapedParses(d: Data)
    requires Sound(d)
    ensures Parse(Escaped(Stringify(d))) == Some(Nulled(d))
  {
    var v := SyntaxOf(d);
    WrittenIsValid(d);
    var v1 := Esc(v, LESS_THAN);
    var v2 := Esc(v1, LINE_SEPARATOR);
    var v3 := Esc(v2, PARAGRAPH_SEPARATOR);
    ValueReplaced(v, [], LESS_THAN);
    EscKeeps(v, LESS_THAN);
    ValueReplaced(v1, [], LINE_SEPARATOR);
    EscKeeps(v1, LINE_SEPARATOR);
    ValueReplaced(v2, [], PARAGRAPH_SEPARATOR);
    EscKeeps(v2, PARAGRAPH_SEPARATOR);
    TextParses([], v3, []);
    assert [] + Print(v3, []) == Print(v3, []);
  }

  lemma NoneUnsafe(t: Text)
    ensures var e := Escaped(t); Without(e, LESS_THAN) && Without(e, LINE_SEPARATOR) && Without(e, PARAGRAPH_SEPARATOR)
  {
    var a := Replaced(t, LESS_THAN);
    var b := Replaced(a, LINE_SEPARATOR);
    ReplacedRemoves(t, LESS_THAN, LESS_THAN);
    ReplacedRemoves(a, LINE_SEPARATOR, LESS_THAN);
    ReplacedRemoves(b, PARAGRAPH_SEPARATOR, LESS_THAN);
    ReplacedRemoves(a, LINE_SEPARATOR, LINE_SEPARATOR);
    ReplacedRemoves(b, PARAGRAPH_SEPARATOR, LINE_SEPARATOR);
    ReplacedRemoves(b, PARAGRAPH_SEPARATOR, PARAGRAPH_SEPARATOR);
  }

  // What a rewritten configuration says of each property.

  lemma {:induction false} NulledGet(f: Fields, k: Text)
    ensures Get(NulledFields(f), k) == if Get(f, k).None? then None else Some(Nulled(Get(f, k).value))
  {
    if f.Field? && f.key != k { NulledGet(f.rest, k); }
  }

  lemma {:induction false} SomeValueChanges(f: Fields) returns (k: Text)
    requires SoundFields(f) && NulledFields(f) != f
    ensures Get(f, k).Some? && Nulled(Get(f, k).value) != Get(f, k).value
  {
    if Nulled(f.value) != f.value {
      k := f.key;
    } else {
      k := SomeValueChanges(f.rest);
    }
  }

  /** What is read can be written, and its numbers are as they will be read again. */
  lemma ReadIsSound(canon: Conversion, text: Text)
    requires Canonical(canon) && Read(canon, text).Some?
    ensures var d := Read(canon, text).value; Sound(d) && Converted(canon, d) == d
  {
    ParsedIsSound(SkipWs(text));
    ConvertedIsSound(canon, Parse(text).value);
    ConvertedTwice(canon, Parse(text).value);
  }

  lemma {:induction false} ConvertedPut(canon: Conversion, f: Fields, key: Text, value: Data)
    ensures ConvertedFields(canon, Put(f, key, value)) == Put(ConvertedFields(canon, f), key, Converted(canon, value))
  {
    if f.Field? && f.key != key { ConvertedPut(canon, f.rest, key, value); }
  }

  /** The rewritten text reads back as the same configuration, its root replaced and
      infinities null. */
  lemma RewrittenReadsBack(canon: Conversion, text: Text, upstream: Text, alias: Text, f: Fields)
    requires Canonical(canon) && Rewritten(canon, text, upstream, alias).Success?
    requires Read(canon, text) == Some(Object(f))
    ensures var out := Rewritten(canon, text, upstream, alias).value;
      && Without(out, LESS_THAN) && Without(out, LINE_SEPARATOR) && Without(out, PARAGRAPH_SEPARATOR)
      && Read(canon, out) == Some(Object(NulledFields(Put(f, ROOT, String(alias)))))
    ensures SoundFields(f) && Get(f, ROOT) == Some(String(upstream))
  {
    ReadIsSound(canon, text);
    PutSound(f, ROOT, String(alias));
    ConvertedPut(canon, f, ROOT, String(alias));
    EscapedReadsBack(canon, Object(Put(f, ROOT, String(alias))));
  }

  /** The rewritten text is safe inside a script element and reads back with the
      alias as root. Every other property reads back as it was, exactly when no
      number of the configuration overflows. */
  lemma OnlyTheRootChanges(canon: Conversion, text: Text, upstream: Text, alias: Text)
    requires Canonical(canon) && Exact(canon) && Rewritten(canon, text, upstream, alias).Success?
    ensures var out := Rewritten(canon, text, upstream, alias).value;
      && Without(out, LESS_THAN) && Without(out, LINE_SEPARATOR) && Without(out, PARAGRAPH_SEPARATOR)
      && Read(canon, text).Some? && Read(canon, text).value.Object?
      && Read(canon, out).Some? && Read(canon, out).value.Object?
      && Get(Read(canon, text).value.fields, ROOT) == Some(String(upstream))
      && Get(Read(canon, out).value.fields, ROOT) == Some(String(alias))
      && (OthersStay(Read(canon, text).value.fields, Read(canon, out).value.fields) <==>
            NoneOverflows(Parse(text).value))
  {
    var f := Read(canon, text).value.fields;
    RewrittenReadsBack(canon, text, upstream, alias, f);
    PutSound(f, ROOT, String(alias));
    NulledGet(Put(f, ROOT, String(alias)), ROOT);
    ParsedIsSound(SkipWs(text));
    NulledExactly(canon, Parse(text).value);
    OthersStayExactly(f, upstream, alias);
  }

  ghost predicate OthersStay(before: Fields, after: Fields) {
    forall k | k != ROOT :: Get(after, k) == Get(before, k)
  }

  lemma OthersStayExactly(f: Fields, upstream: Text, alias: Text)
    requires SoundFields(f) && Get(f, ROOT) == Some(String(upstream))
    ensures OthersStay(f, NulledFields(Put(f, ROOT, String(alias)))) <==> NulledFields(f) == f
  {
    var after := NulledFields(Put(f, ROOT, String(alias)));
    PutSound(f, ROOT, String(alias));
    forall k | k != ROOT ensures Get(after, k) == if Get(f, k).None? then None else Some(Nulled(Get(f, k).value)) {
      NulledGet(Put(f, ROOT, String(alias)), k);
    }
    if NulledFields(f) == f {
      forall k | k != ROOT ensures Get(after, k) == Get(f, k) { NulledGet(f, k); }
    } else {
      var k := SomeValueChanges(f);
      assert k != ROOT && Get(after, k) != Get(f, k);
    }
  }

  // A configuration with a number that overflows.

  const OTHER: Text := [110]

  function NumberMember(key: seq<Char>, t: Text): Members {
    Member([], key, [], [], Num(t), [], NoMember)
  }

  function StringMember(key: seq<Char>, chars: seq<Char>, more: Members): Members {
    Member([], key, [], [], Str(chars), [], more)
  }

  lemma NumberMemberMeans(key: seq<Char>, t: Text, acc: Fields)
    requires ValidChars(key) && IsNumber(t)
    ensures ValidMembers(NumberMember(key, t))
    ensures Properties(NumberMember(key, t), acc) == Put(acc, Units(key), Number(t))
  {
    assert ValidMembers(NoMember) && Valid(Num(t)) && Meaning(Num(t)) == Number(t);
    assert Properties(NoMember, Put(acc, Units(key), Number(t))) == Put(acc, Units(key), Number(t));
  }

  lemma StringMemberMeans(key: seq<Char>, chars: seq<Char>, more: Members)
    requires ValidChars(key) && ValidChars(chars) && ValidMembers(more)
    ensures ValidMembers(StringMember(key, chars, more))
    ensures Properties(StringMember(key, chars, more), NoField)
         == Properties(more, Field(Units(key), String(Units(chars)), NoField))
  {
    assert Valid(Str(chars)) && Meaning(Str(chars)) == String(Units(chars));
    assert Put(NoField, Units(key), String(Units(chars))) == Field(Units(key), String(Units(chars)), NoField);
  }

  lemma MembersAreRead(m: Members, f: Fields, v: Syntax)
    requires ValidMembers(m) && Properties(m, NoField) == f && v == Obj([], m)
    ensures Parse(Print(v, [])) == Some(Object(f))
  {
    TextParses([], v, []);
    assert [] + Print(v, []) == Print(v, []);
  }

  lemma TwoPropertiesParse(a: seq<Char>, s: seq<Char>, b: seq<Char>, t: Text, v: Syntax)
    requires ValidChars(a) && ValidChars(s) && ValidChars(b) && IsNumber(t) && Units(a) != Units(b)
    requires v == Obj([], StringMember(a, s, NumberMember(b, t)))
    ensures Parse(Print(v, [])) == Some(Object(Field(Units(a), String(Units(s)), Field(Units(b), Number(t), NoField))))
  {
    var first := Field(Units(a), String(Units(s)), NoField);
    NumberMemberMeans(b, t, first);
    StringMemberMeans(a, s, NumberMember(b, t));
    assert Put(NoField, Units(b), Number(t)) == Field(Units(b), Number(t), NoField);
    MembersAreRead(StringMember(a, s, NumberMember(b, t)), Put(first, Units(b), Number(t)), v);
  }

  lemma NumberIsRead(upstream: Text, t: Text) returns (text: Text)
    requires IsNumber(t)
    ensures Parse(text) == Some(Object(Field(ROOT, String(upstream), Field(OTHER, Number(t), NoField))))
  {
    CharsRoundTrip(ROOT, 0);
    CharsRoundTrip(OTHER, 0);
    CharsRoundTrip(upstream, 0);
    assert ROOT[0..] == ROOT && OTHER[0..] == OTHER && upstream[0..] == upstream;
    var v := Obj([], StringMember(CharsFrom(ROOT, 0), CharsFrom(upstream, 0), NumberMember(CharsFrom(OTHER, 0), t)));
    TwoPropertiesParse(CharsFrom(ROOT, 0), CharsFrom(upstream, 0), CharsFrom(OTHER, 0), t, v);
    text := Print(v, []);
  }

  /** Any number that overflows, as a property `n`, is read as an infinity and is
      null once rewritten. */
  lemma OverflowBecomesNull(canon: Conversion, upstream: Text, alias: Text, t: Text) returns (text: Text)
    requires Canonical(canon) && Exact(canon) && IsNumber(t) && Overflows(t)
    ensures Read(canon, text).Some? && Read(canon, text).value.Object?
    ensures Rewritten(canon, text, upstream, alias).Success?
    ensures Get(Read(canon, text).value.fields, OTHER) == Some(Infinite(t[0] == 45))
    ensures var out := Rewritten(canon, text, upstream, alias).value;
      && Read(canon, out).Some? && Read(canon, out).value.Object?
      && Get(Read(canon, out).value.fields, OTHER) == Some(Null)
  {
    text := NumberIsRead(upstream, t);
    var f := Field(ROOT, String(upstream), Field(OTHER, Infinite(t[0] == 45), NoField));
    assert t != [] && canon(t).None?;
    InfiniteIsRead(canon, upstream, t, f, alias);
    assert Get(f, ROOT) == Some(String(upstream));
    RewrittenReadsBack(canon, text, upstream, alias, f);
  }

  lemma InfiniteIsRead(canon: Conversion, upstream: Text, t: Text, f: Fields, alias: Text)
    requires t != [] && canon(t).None?
    requires f == Field(ROOT, String(upstream), Field(OTHER, Infinite(t[0] == 45), NoField))
    ensures ConvertedFields(canon, Field(ROOT, String(upstream), Field(OTHER, Number(t), NoField))) == f
    ensures Get(f, OTHER) == Some(Infinite(t[0] == 45))
    ensures Get(NulledFields(Put(f, ROOT, String(alias))), OTHER) == Some(Null)
  {
    var rest := Field(OTHER, Infinite(t[0] == 45), NoField);
    assert Converted(canon, Number(t)) == Infinite(t[0] == 45) && ConvertedFields(canon, NoField) == NoField;
    assert ConvertedFields(canon, Field(OTHER, Number(t), NoField)) == rest;
    assert Put(f, ROOT, String(alias)) == Field(ROOT, String(alias), rest);
    assert NulledFields(rest) == Field(OTHER, Null, NoField);
  }

  /** 1e400 does. */
  lemma AnOverflowBecomesNull(canon: Conversion, upstream: Text, alias: Text) returns (text: Text)
    requires Canonical(canon) && Exact(canon)
    ensures Read(canon, text).Some? && Read(canon, text).value.Object?
    ensures Rewritten(canon, text, upstream, alias).Success?
    ensures Get(Read(canon, text).value.fields, OTHER) == Some(Infinite(false))
    ensures var out := Rewritten(canon, text, upstream, alias).value;
      && Read(canon, out).Some? && Read(canon, out).value.Object?
      && Get(Read(canon, out).value.fields, OTHER) == Some(Null)
  {
    HugeOverflows();
    text := OverflowBecomesNull(canon, upstream, alias, HUGE);
  }

  // ---- The splice -----------------------------------------------------------------------------------

  /** White space as a regular expression's class has it. */
  predicate IsJsSpace(u: unit) {
    9 <= u <= 13 || u == 32 || u == 160 || u == 0x1680 || 0x2000 <= u <= 0x200A || u == 0x2028 || u == 0x2029
        || u == 0x202F || u == 0x205F
    || u == 0x3000 || u == 0xFEFF
  }

  predicate EndsStatement(t: Text) {
    t == [] || t[0] == 59 || (IsJsSpace(t[0]) && EndsStatement(t[1..]))
  }

  /** The page with the object at `start` rewritten, in a script ending at
      `scriptEnd`. */
  function Splice(canon: Conversion, text: Text, start: nat, scriptEnd: nat, upstream: Text, alias: Text)
    : Result<Text, Refusal>
    requires start <= scriptEnd <= |text|
  {
    if start == |text| || text[start] != OPEN_BRACE then Failure(BadScan(ExpectedObject))
    else match After(text[start..], Outside(0))
      case None => Failure(BadScan(Incomplete))
      case Some(rest) =>
        var end := |text| - |rest|;
        if end > scriptEnd || !EndsStatement(text[end..scriptEnd]) then Failure(UnexpectedSyntax)
        else match Rewritten(canon, text[start..end], upstream, alias)
          case Failure(e) => Failure(e)
          case Success(out) => Success(text[..start] + out + text[end..])
  }

  method Spliced(canon: Conversion, text: Text, start: nat, scriptEnd: nat, upstream: Text, alias: Text)
    returns (r: Result<Text, Refusal>)
    requires start <= scriptEnd <= |text|
    ensures r == Splice(canon, text, start, scriptEnd, upstream, alias)
  {
    var end := JsonEnd(text, start);
    if end.Failure? { return Failure(BadScan(end.error)); }
    var e := end.value;
    if e > scriptEnd || !EndsStatement(text[e..scriptEnd]) { return Failure(UnexpectedSyntax); }
    var rewritten := Rewritten(canon, text[start..e], upstream, alias);
    if rewritten.Failure? { return Failure(rewritten.error); }
    r := Success(text[..start] + rewritten.value + text[e..]);
  }

  /** The splice succeeds exactly when the text at `start` has an object that ends
      its statement within the script and can be rewritten, and then changes
      nothing outside that object. */
  lemma SplicedExactlyWhen(canon: Conversion, text: Text, start: nat, scriptEnd: nat, upstream: Text, alias: Text,
                           end: nat)
    requires start < end <= scriptEnd <= |text| && text[start] == OPEN_BRACE
    requires After(text[start..], Outside(0)) == Some(text[end..])
    ensures var out := Rewritten(canon, text[start..end], upstream, alias);
      var r := Splice(canon, text, start, scriptEnd, upstream, alias);
      && (r.Success? <==> EndsStatement(text[end..scriptEnd]) && out.Success?)
      && (r.Success? ==> r.value == text[..start] + out.value + text[end..])
  {
    assert |text| - |text[end..]| == end;
  }

  lemma {:induction false} PrintAppends(v: Syntax, k: Text)
    ensures Print(v, k) == Print(v, []) + k
    decreases v, 1
  {
    match v
    case Str(s) => StringAppends(s, k);
    case Arr(inner, elems) => {
      assert [CLOSE_BRACKET] + k == [CLOSE_BRACKET] + [] + k;
      if elems.Elem? {
        ElemsAppend(elems, [CLOSE_BRACKET] + k);
        ElemsAppend(elems, [CLOSE_BRACKET] + []);
        Regroup(PrintElems(elems, []), [CLOSE_BRACKET], k);
      } else {
        Regroup(inner, [CLOSE_BRACKET], k);
      }
    }
    case Obj(inner, members) => {
      assert [CLOSE_BRACE] + k == [CLOSE_BRACE] + [] + k;
      if members.Member? {
        MembersAppend(members, [CLOSE_BRACE] + k);
        MembersAppend(members, [CLOSE_BRACE] + []);
        Regroup(PrintMembers(members, []), [CLOSE_BRACE], k);
      } else {
        Regroup(inner, [CLOSE_BRACE], k);
      }
    }
    case _ =>
  }

  lemma Regroup(a: Text, b: Text, k: Text)
    ensures a + (b + k) == (a + (b + [])) + k
  {
  }

  lemma {:induction false} CharsAppend(s: seq<Char>, k: Text)
    ensures PrintChars(s, k) == PrintChars(s, []) + k
  {
    if s != [] { CharsAppend(s[1..], k); }
  }

  lemma StringAppends(s: seq<Char>, k: Text)
    ensures PrintString(s, k) == PrintString(s, []) + k
  {
    CharsAppend(s, [QUOTE] + k);
    CharsAppend(s, [QUOTE] + []);
    Regroup(PrintChars(s, []), [QUOTE], k);
  }

  lemma {:induction false} ElemsAppend(e: Elems, k: Text)
    ensures PrintElems(e, k) == PrintElems(e, []) + k
    decreases e, 0
  {
    if e.Elem? {
      var bare := if e.more.NoElem? then [] else [COMMA] + PrintElems(e.more, []);
      var next := if e.more.NoElem? then k else [COMMA] + PrintElems(e.more, k);
      if e.more.Elem? {
        ElemsAppend(e.more, k);
        Regrouped([COMMA], PrintElems(e.more, []), k);
      }
      assert next == bare + k;
      ElemAppends(e.before, e.v, e.after, bare, k);
    }
  }

  lemma {:induction false} ElemAppends(before: Text, v: Syntax, after: Text, bare: Text, k: Text)
    ensures before + Print(v, after + (bare + k)) == (before + Print(v, after + bare)) + k
    decreases v, 2
  {
    Regrouped(after, bare, k);
    PrintAppends(v, after + bare + k);
    PrintAppends(v, after + bare);
    Regrouped(Print(v, []), after + bare, k);
    Regrouped(before, Print(v, after + bare), k);
  }

  lemma {:induction false} MembersAppend(m: Members, k: Text)
    ensures PrintMembers(m, k) == PrintMembers(m, []) + k
    decreases m, 0
  {
    if m.Member? {
      var bare := if m.rest.NoMember? then [] else [COMMA] + PrintMembers(m.rest, []);
      var next := if m.rest.NoMember? then k else [COMMA] + PrintMembers(m.rest, k);
      if m.rest.Member? {
        MembersAppend(m.rest, k);
        Regrouped([COMMA], PrintMembers(m.rest, []), k);
      }
      assert next == bare + k;
      ElemAppends(m.gap, m.v, m.after, bare, k);
      KeyAppends(m.before, m.key, m.colon, m.gap + Print(m.v, m.after + bare), k);
    }
  }

  lemma KeyAppends(before: Text, key: seq<Char>, colon: Text, t: Text, k: Text)
    ensures before + PrintString(key, colon + ([COLON] + (t + k)))
      == (before + PrintString(key, colon + ([COLON] + t))) + k
  {
    Regrouped([COLON], t, k);
    Regrouped(colon, [COLON] + t, k);
    StringAppends(key, colon + ([COLON] + t) + k);
    StringAppends(key, colon + ([COLON] + t));
    Regrouped(PrintString(key, []), colon + ([COLON] + t), k);
    Regrouped(before, PrintString(key, colon + ([COLON] + t)), k);
  }

  /** A written object with the pinned root is rewritten, whatever its spacing. */
  lemma WrittenObjectIsRewritten(canon: Conversion, inner: Text, members: Members, config: Text, upstream: Text,
                                 alias: Text, f: Fields)
    requires Canonical(canon) && Valid(Obj(inner, members)) && config == Print(Obj(inner, members), [])
    requires f == ConvertedFields(canon, Properties(members, NoField)) && Get(f, ROOT) == Some(String(upstream))
    ensures Rewritten(canon, config, upstream, alias).Success?
    ensures Read(canon, Rewritten(canon, config, upstream, alias).value)
      == Some(Object(NulledFields(Put(f, ROOT, String(alias)))))
  {
    TextParses([], Obj(inner, members), []);
    assert [] + config == config;
    assert Read(canon, config) == Some(Object(f));
    RewrittenReadsBack(canon, config, upstream, alias, f);
  }

  lemma Cut(before: Text, config: Text, suffix: Text, text: Text)
    requires text == before + config + suffix
    ensures text[..|before|] == before && text[|before|..|before| + |config|] == config
    ensures text[|before| + |config|..] == suffix
    ensures text[|before|..] == config + suffix
  {
  }

  lemma SplicedThere(canon: Conversion, before: Text, config: Text, suffix: Text, upstream: Text, alias: Text,
                     text: Text, scriptEnd: nat)
    requires config != [] && config[0] == OPEN_BRACE && After(config + suffix, Outside(0)) == Some(suffix)
    requires text == before + config + suffix
    requires |before| + |config| <= scriptEnd <= |text| && EndsStatement(text[|before| + |config|..scriptEnd])
    ensures var out := Rewritten(canon, config, upstream, alias);
      var r := Splice(canon, text, |before|, scriptEnd, upstream, alias);
      && (r.Success? <==> out.Success?)
      && (r.Success? ==> r.value == before + out.value + suffix)
  {
    Cut(before, config, suffix, text);
    assert text[|before|] == config[0];
    SplicedExactlyWhen(canon, text, |before|, scriptEnd, upstream, alias, |before| + |config|);
  }

  /** The splice on the page the upstream writes: an object text with the pinned
      root, between two texts, the second of which ends the statement within the
      script. It succeeds and leaves both texts exactly as they were. */
  lemma OnlyTheObjectIsReplaced(canon: Conversion, before: Text, inner: Text, members: Members, suffix: Text,
                                upstream: Text, alias: Text, config: Text, text: Text, scriptEnd: nat)
    requires Canonical(canon) && Valid(Obj(inner, members))
    requires Get(ConvertedFields(canon, Properties(members, NoField)), ROOT) == Some(String(upstream))
    requires config == Print(Obj(inner, members), []) && text == before + config + suffix
    requires |before| + |config| <= scriptEnd <= |text| && EndsStatement(text[|before| + |config|..scriptEnd])
    ensures var out := Rewritten(canon, config, upstream, alias);
      && out.Success?
      && Splice(canon, text, |before|, scriptEnd, upstream, alias) == Success(before + out.value + suffix)
      && Read(canon, out.value)
         == Some(Object(NulledFields(Put(ConvertedFields(canon, Properties(members, NoField)), ROOT, String(alias)))))
  {
    PrintAppends(Obj(inner, members), suffix);
    ObjectEnds(inner, members, suffix);
    assert config[0] == OPEN_BRACE;
    SplicedThere(canon, before, config, suffix, upstream, alias, text, scriptEnd);
    WrittenObjectIsRewritten(canon, inner, members, config, upstream, alias,
                             ConvertedFields(canon, Properties(members, NoField)));
  }
}
