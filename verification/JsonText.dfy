/** JSON texts over UTF-16 code units: their syntax with every choice of white
    space and escapes, their values, and a parser. */
module JsonText {
  import opened Outcomes

  newtype unit = x: int | 0 <= x < 65536

  type Text = seq<unit>

  const QUOTE: unit := 34
  const BACKSLASH: unit := 92
  const OPEN_BRACE: unit := 123
  const CLOSE_BRACE: unit := 125
  const OPEN_BRACKET: unit := 91
  const CLOSE_BRACKET: unit := 93
  const COMMA: unit := 44
  const COLON: unit := 58
  const LETTER_U: unit := 117

  // ---- Values ------------------------------------------------------------------------

  /** The parser gives a number as written; an infinity only comes of converting
      one. */
  datatype Data =
    | Null | Bool(b: bool) | Number(token: Text) | Infinite(negative: bool) | String(s: Text)
    | Array(items: Items) | Object(fields: Fields)
  datatype Items = NoItem | Item(v: Data, more: Items)
  datatype Fields = NoField | Field(key: Text, value: Data, rest: Fields)

  /** Assignment of a property: a present key keeps its place. */
  function Put(f: Fields, key: Text, value: Data): Fields {
    match f
    case NoField => Field(key, value, NoField)
    case Field(k, v, rest) => if k == key then Field(k, value, rest) else Field(k, v, Put(rest, key, value))
  }

  function Get(f: Fields, key: Text): Option<Data> {
    match f
    case NoField => None
    case Field(k, v, rest) => if k == key then Some(v) else Get(rest, key)
  }

  function Append(i: Items, v: Data): Items {
    match i
    case NoItem => Item(v, NoItem)
    case Item(w, more) => Item(w, Append(more, v))
  }

  // ---- Syntax --------------------------------------------------------------------------

  /** One character of a string as written. */
  datatype Char = Plain(u: unit) | Short(c: unit) | Hex(a: unit, b: unit, c: unit, d: unit)

  datatype Syntax =
    | LNull | LTrue | LFalse | Num(token: Text) | Str(chars: seq<Char>) | Arr(inner: Text, elems: Elems)
    | Obj(inner: Text, members: Members)
  datatype Elems = NoElem | Elem(before: Text, v: Syntax, after: Text, more: Elems)
  datatype Members =
    | NoMember | Member(before: Text, key: seq<Char>, colon: Text, gap: Text, v: Syntax, after: Text, rest: Members)

  predicate IsWs(u: unit) { u == 32 || u == 9 || u == 10 || u == 13 }
  predicate AllWs(t: Text) { forall i | 0 <= i < |t| :: IsWs(t[i]) }

  predicate IsDigit(u: unit) { 48 <= u <= 57 }
  predicate IsNumberUnit(u: unit) { IsDigit(u) || u == 43 || u == 45 || u == 46 || u == 69 || u == 101 }
  predicate IsHexDigit(u: unit) { IsDigit(u) || 97 <= u <= 102 || 65 <= u <= 70 }

  /** The number syntax: sign, integer part, fraction, exponent. */
  predicate IsNumber(t: Text) {
    (forall i | 0 <= i < |t| :: IsNumberUnit(t[i])) && IsUnsigned(if t != [] && t[0] == 45 then t[1..] else t)
  }

  predicate IsUnsigned(t: Text) {
    t != [] && IsDigit(t[0]) && (if t[0] == 48 then IsFraction(t[1..]) else IsFraction(SkipDigits(t)))
  }

  function SkipDigits(t: Text): (r: Text)
    ensures |r| <= |t|
  {
    if t != [] && IsDigit(t[0]) then SkipDigits(t[1..]) else t
  }

  predicate IsFraction(t: Text) {
    if t != [] && t[0] == 46 then |t| > 1 && IsDigit(t[1]) && IsExponent(SkipDigits(t[1..])) else IsExponent(t)
  }

  predicate IsExponent(t: Text) {
    t == [] || ((t[0] == 69 || t[0] == 101)
      && var d := if |t| > 1 && (t[1] == 43 || t[1] == 45) then t[2..] else t[1..]; d != [] && SkipDigits(d) == [])
  }

  predicate ValidChar(c: Char) {
    match c
    case Plain(u) => u >= 32 && u != QUOTE && u != BACKSLASH
    case Short(c) => c in {34, 92, 47, 98, 102, 110, 114, 116}
    case Hex(a, b, c, d) => IsHexDigit(a) && IsHexDigit(b) && IsHexDigit(c) && IsHexDigit(d)
  }

  predicate ValidChars(s: seq<Char>) { forall i | 0 <= i < |s| :: ValidChar(s[i]) }

  predicate Valid(v: Syntax) {
    match v
    case Num(t) => IsNumber(t)
    case Str(s) => ValidChars(s)
    case Arr(inner, elems) => AllWs(inner) && ValidElems(elems)
    case Obj(inner, members) => AllWs(inner) && ValidMembers(members)
    case _ => true
  }

  predicate ValidElems(e: Elems) {
    match e
    case NoElem => true
    case Elem(before, v, after, more) => AllWs(before) && Valid(v) && AllWs(after) && ValidElems(more)
  }

  predicate ValidMembers(m: Members) {
    match m
    case NoMember => true
    case Member(before, key, colon, gap, v, after, rest) =>
      AllWs(before) && ValidChars(key) && AllWs(colon) && AllWs(gap) && Valid(v) && AllWs(after) && ValidMembers(rest)
  }

  // ---- Texts -----------------------------------------------------------------------------
  // Every printing function takes what follows the printed part.

  function Written(c: Char): (t: Text)
    ensures |t| >= 1
  {
    match c
    case Plain(u) => [u]
    case Short(c) => [BACKSLASH, c]
    case Hex(a, b, c, d) => [BACKSLASH, LETTER_U, a, b, c, d]
  }

  function PrintChars(s: seq<Char>, k: Text): Text {
    if s == [] then k else Written(s[0]) + PrintChars(s[1..], k)
  }

  function PrintString(s: seq<Char>, k: Text): Text {
    [QUOTE] + PrintChars(s, [QUOTE] + k)
  }

  const NULL_TEXT: Text := [110, 117, 108, 108]
  const TRUE_TEXT: Text := [116, 114, 117, 101]
  const FALSE_TEXT: Text := [102, 97, 108, 115, 101]

  function Print(v: Syntax, k: Text): Text {
    match v
    case LNull => NULL_TEXT + k
    case LTrue => TRUE_TEXT + k
    case LFalse => FALSE_TEXT + k
    case Num(t) => t + k
    case Str(s) => PrintString(s, k)
    case Arr(inner, elems) =>
      var close := [CLOSE_BRACKET] + k;
      [OPEN_BRACKET] + (if elems.NoElem? then inner + close else PrintElems(elems, close))
    case Obj(inner, members) =>
      var close := [CLOSE_BRACE] + k;
      [OPEN_BRACE] + (if members.NoMember? then inner + close else PrintMembers(members, close))
  }

  function PrintElems(e: Elems, k: Text): Text {
    match e
    case NoElem => k
    case Elem(before, v, after, more) =>
      before + Print(v, after + (if more.NoElem? then k else [COMMA] + PrintElems(more, k)))
  }

  function PrintMembers(m: Members, k: Text): Text {
    match m
    case NoMember => k
    case Member(before, key, colon, gap, v, after, rest) =>
      var next := if rest.NoMember? then k else [COMMA] + PrintMembers(rest, k);
      before + PrintString(key, colon + ([COLON] + (gap + Print(v, after + next))))
  }

  // ---- Meanings -----------------------------------------------------------------------------

  function HexValue(u: unit): unit {
    if IsDigit(u) then u - 48 else if 97 <= u <= 102 then u - 87 else if 65 <= u <= 70 then u - 55 else 0
  }

  function HexUnit(a: unit, b: unit, c: unit, d: unit): unit {
    var value := HexValue(a) as int * 4096 + HexValue(b) as int * 256 + HexValue(c) as int * 16 + HexValue(d) as int;
    if value < 65536 then value as unit else 0
  }

  function UnitOf(c: Char): unit {
    match c
    case Plain(u) => u
    case Short(c) => ShortUnit(c)
    case Hex(a, b, c, d) => HexUnit(a, b, c, d)
  }

  function ShortUnit(c: unit): unit {
    if c == 98 then 8
    else if c == 102 then 12
    else if c == 110 then 10
    else if c == 114 then 13
    else if c == 116 then 9
    else c
  }

  function Units(s: seq<Char>): Text {
    if s == [] then [] else [UnitOf(s[0])] + Units(s[1..])
  }

  function Meaning(v: Syntax): Data {
    match v
    case LNull => Null
    case LTrue => Bool(true)
    case LFalse => Bool(false)
    case Num(t) => Number(t)
    case Str(s) => String(Units(s))
    case Arr(_, elems) => Array(Elements(elems, NoItem))
    case Obj(_, members) => Object(Properties(members, NoField))
  }

  function Elements(e: Elems, acc: Items): Items {
    match e
    case NoElem => acc
    case Elem(_, v, _, more) => Elements(more, Append(acc, Meaning(v)))
  }

  /** Later members of the same name replace earlier ones. */
  function Properties(m: Members, acc: Fields): Fields {
    match m
    case NoMember => acc
    case Member(_, key, _, _, v, _, rest) => Properties(rest, Put(acc, Units(key), Meaning(v)))
  }

  // ---- The parser ------------------------------------------------------------------------------

  datatype Parsed<T> = Parsed(value: T, rest: Text)

  function SkipWs(t: Text): (r: Text)
    ensures |r| <= |t|
  {
    if t != [] && IsWs(t[0]) then SkipWs(t[1..]) else t
  }

  /** The rest of a string after its opening quote. */
  function ParseChars(t: Text, acc: Text): (r: Option<Parsed<Text>>)
    ensures r.Some? ==> |r.value.rest| < |t|
  {
    if t == [] then None
    else if t[0] == QUOTE then Some(Parsed(acc, t[1..]))
    else if t[0] == BACKSLASH then
      if |t| < 2 then None
      else if t[1] == LETTER_U then
        if |t| < 6 || !ValidChar(Hex(t[2], t[3], t[4], t[5])) then None
        else ParseChars(t[6..], acc + [HexUnit(t[2], t[3], t[4], t[5])])
      else if !ValidChar(Short(t[1])) then None
      else ParseChars(t[2..], acc + [ShortUnit(t[1])])
    else if t[0] < 32 then None
    else ParseChars(t[1..], acc + [t[0]])
  }

  function NumberRun(t: Text): (n: nat)
    ensures n <= |t|
  {
    if t != [] && IsNumberUnit(t[0]) then 1 + NumberRun(t[1..]) else 0
  }

  function ParseValue(t: Text): (r: Option<Parsed<Data>>)
    ensures r.Some? ==> |r.value.rest| < |t|
    decreases |t|, 1
  {
    if t == [] then None
    else if t[0] == QUOTE then
      var s := ParseChars(t[1..], []);
      if s.None? then None else Some(Parsed(String(s.value.value), s.value.rest))
    else if t[0] == OPEN_BRACE then
      var u := SkipWs(t[1..]);
      if u != [] && u[0] == CLOSE_BRACE then Some(Parsed(Object(NoField), u[1..]))
      else
        var f := ParseFields(t[1..], NoField);
        if f.None? then None else Some(Parsed(Object(f.value.value), f.value.rest))
    else if t[0] == OPEN_BRACKET then
      var u := SkipWs(t[1..]);
      if u != [] && u[0] == CLOSE_BRACKET then Some(Parsed(Array(NoItem), u[1..]))
      else
        var i := ParseItems(t[1..], NoItem);
        if i.None? then None else Some(Parsed(Array(i.value.value), i.value.rest))
    else if NULL_TEXT <= t then Some(Parsed(Null, t[4..]))
    else if TRUE_TEXT <= t then Some(Parsed(Bool(true), t[4..]))
    else if FALSE_TEXT <= t then Some(Parsed(Bool(false), t[5..]))
    else
      var n := NumberRun(t);
      if n > 0 && IsNumber(t[..n]) then Some(Parsed(Number(t[..n]), t[n..])) else None
  }

  /** Elements up to the closing bracket. */
  function ParseItems(t: Text, acc: Items): (r: Option<Parsed<Items>>)
    ensures r.Some? ==> |r.value.rest| < |t|
    decreases |t|, 2
  {
    var v := ParseValue(SkipWs(t));
    if v.None? then None
    else
      var u, now := SkipWs(v.value.rest), Append(acc, v.value.value);
      if u == [] then None
      else if u[0] == CLOSE_BRACKET then Some(Parsed(now, u[1..]))
      else if u[0] == COMMA then ParseItems(u[1..], now)
      else None
  }

  /** Members up to the closing brace. */
  function ParseFields(t: Text, acc: Fields): (r: Option<Parsed<Fields>>)
    ensures r.Some? ==> |r.value.rest| < |t|
    decreases |t|, 2
  {
    var q := SkipWs(t);
    if q == [] || q[0] != QUOTE then None
    else
      var key := ParseChars(q[1..], []);
      if key.None? then None
      else
        var c := SkipWs(key.value.rest);
        if c == [] || c[0] != COLON then None
        else
          var v := ParseValue(SkipWs(c[1..]));
          if v.None? then None
          else
            var u, now := SkipWs(v.value.rest), Put(acc, key.value.value, v.value.value);
            if u == [] then None
            else if u[0] == CLOSE_BRACE then Some(Parsed(now, u[1..]))
            else if u[0] == COMMA then ParseFields(u[1..], now)
            else None
  }

  /** A whole text: one value with white space around it. */
  function Parse(t: Text): Option<Data> {
    var v := ParseValue(SkipWs(t));
    if v.None? || SkipWs(v.value.rest) != [] then None else Some(v.value.value)
  }
}
