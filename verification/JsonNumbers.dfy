/** From a number's text to the value a double can hold. The shortest text of a
    double is a parameter; which texts overflow is computed exactly. */
module JsonNumbers {
  import opened Outcomes
  import opened JsonText

  function Power(base: nat, n: nat): nat { if n == 0 then 1 else base * Power(base, n - 1) }

  function DigitsValue(t: Text): nat
    requires forall i | 0 <= i < |t| :: IsDigit(t[i])
  {
    if t == [] then 0
    else
      assert IsDigit(t[|t| - 1]);
      10 * DigitsValue(t[..|t| - 1]) + (t[|t| - 1] as nat - 48)
  }

  /** The digits at the start of a text. */
  function Leading(t: Text): (d: Text)
    ensures forall i | 0 <= i < |d| :: IsDigit(d[i])
  {
    if t != [] && IsDigit(t[0]) then [t[0]] + Leading(t[1..]) else []
  }

  function Fraction(t: Text): Text {
    if t != [] && t[0] == 46 then Leading(t[1..]) else []
  }

  function AfterFraction(t: Text): Text {
    if t != [] && t[0] == 46 then SkipDigits(t[1..]) else t
  }

  function ExponentOf(t: Text): int {
    if |t| < 2 then 0
    else if t[1] == 45 then -(DigitsValue(Leading(t[2..])) as int)
    else if t[1] == 43 then DigitsValue(Leading(t[2..]))
    else DigitsValue(Leading(t[1..]))
  }

  /** All digits as one integer, and the power of ten it is scaled by. */
  datatype Decimal = Decimal(digits: nat, exponent: int)

  function DecimalOf(t: Text): Decimal {
    var u := if t != [] && t[0] == 45 then t[1..] else t;
    var rest := SkipDigits(u);
    Decimal(DigitsValue(Leading(u) + Fraction(rest)), ExponentOf(AfterFraction(rest)) - |Fraction(rest)|)
  }

  /** Half way from the largest double to the next power of two: from here on
      rounding gives an infinity. */
  function Limit(bits: nat): int
    requires bits >= 54
  {
    Power(2, bits) - Power(2, bits - 54)
  }

  predicate AtLeast(d: Decimal, limit: int) {
    if d.exponent >= 0 then d.digits * Power(10, d.exponent) >= limit else d.digits >= limit * Power(10, -d.exponent)
  }

  const EXPONENT_RANGE: nat := 1024

  predicate Overflows(t: Text) { AtLeast(DecimalOf(t), Limit(EXPONENT_RANGE)) }

  /** The shortest text of the double that a number's text denotes; None where it
      overflows. */
  type Conversion = Text -> Option<Text>

  /** What is written reads as the same double. */
  ghost predicate Canonical(canon: Conversion) {
    forall t | IsNumber(t) && canon(t).Some? :: IsNumber(canon(t).value) && canon(canon(t).value) == canon(t)
  }

  ghost predicate Exact(canon: Conversion) {
    forall t | IsNumber(t) :: canon(t).None? <==> Overflows(t)
  }

  // ---- Values with their numbers converted ----------------------------------------------

  function NumberOf(canon: Conversion, t: Text): Data {
    match canon(t)
    case Some(c) => Number(c)
    case None => Infinite(t != [] && t[0] == 45)
  }

  function Converted(canon: Conversion, d: Data): Data {
    match d
    case Number(t) => NumberOf(canon, t)
    case Array(items) => Array(ConvertedItems(canon, items))
    case Object(fields) => Object(ConvertedFields(canon, fields))
    case _ => d
  }

  function ConvertedItems(canon: Conversion, i: Items): Items {
    match i
    case NoItem => NoItem
    case Item(v, more) => Item(Converted(canon, v), ConvertedItems(canon, more))
  }

  function ConvertedFields(canon: Conversion, f: Fields): Fields {
    match f
    case NoField => NoField
    case Field(key, value, rest) => Field(key, Converted(canon, value), ConvertedFields(canon, rest))
  }

  /** What the program reads: the text's value, its numbers as doubles. */
  function Read(canon: Conversion, t: Text): Option<Data> {
    match Parse(t)
    case None => None
    case Some(d) => Some(Converted(canon, d))
  }

  /** An infinity is written as null. */
  function Nulled(d: Data): Data {
    match d
    case Infinite(_) => Null
    case Array(items) => Array(NulledItems(items))
    case Object(fields) => Object(NulledFields(fields))
    case _ => d
  }

  function NulledItems(i: Items): Items {
    match i
    case NoItem => NoItem
    case Item(v, more) => Item(Nulled(v), NulledItems(more))
  }

  function NulledFields(f: Fields): Fields {
    match f
    case NoField => NoField
    case Field(key, value, rest) => Field(key, Nulled(value), NulledFields(rest))
  }

  /** No number of the value, as written, overflows. */
  predicate NoneOverflows(d: Data) {
    match d
    case Number(t) => !Overflows(t)
    case Infinite(_) => false
    case Array(items) => NoItemOverflows(items)
    case Object(fields) => NoFieldOverflows(fields)
    case _ => true
  }

  predicate NoItemOverflows(i: Items) {
    match i
    case NoItem => true
    case Item(v, more) => NoneOverflows(v) && NoItemOverflows(more)
  }

  predicate NoFieldOverflows(f: Fields) {
    match f
    case NoField => true
    case Field(_, value, rest) => NoneOverflows(value) && NoFieldOverflows(rest)
  }

  /** Values that can be written: names once each, numbers of the syntax. */
  predicate HasKey(f: Fields, key: Text) { Get(f, key).Some? }

  predicate Sound(d: Data) {
    match d
    case Number(t) => IsNumber(t)
    case Array(items) => SoundItems(items)
    case Object(fields) => SoundFields(fields)
    case _ => true
  }

  predicate SoundItems(i: Items) {
    match i
    case NoItem => true
    case Item(v, more) => Sound(v) && SoundItems(more)
  }

  predicate SoundFields(f: Fields) {
    match f
    case NoField => true
    case Field(key, value, rest) => Sound(value) && !HasKey(rest, key) && SoundFields(rest)
  }

  lemma {:induction false} ConvertedKeys(canon: Conversion, f: Fields, k: Text)
    ensures HasKey(ConvertedFields(canon, f), k) <==> HasKey(f, k)
  {
    if f.Field? && f.key != k { ConvertedKeys(canon, f.rest, k); }
  }

  lemma {:induction false} ConvertedIsSound(canon: Conversion, d: Data)
    requires Canonical(canon) && Sound(d)
    ensures Sound(Converted(canon, d))
  {
    match d
    case Array(items) => ConvertedItemsAreSound(canon, items);
    case Object(fields) => ConvertedFieldsAreSound(canon, fields);
    case _ =>
  }

  lemma {:induction false} ConvertedItemsAreSound(canon: Conversion, i: Items)
    requires Canonical(canon) && SoundItems(i)
    ensures SoundItems(ConvertedItems(canon, i))
  {
    if i.Item? {
      ConvertedIsSound(canon, i.v);
      ConvertedItemsAreSound(canon, i.more);
    }
  }

  lemma {:induction false} ConvertedFieldsAreSound(canon: Conversion, f: Fields)
    requires Canonical(canon) && SoundFields(f)
    ensures SoundFields(ConvertedFields(canon, f))
  {
    if f.Field? {
      ConvertedIsSound(canon, f.value);
      ConvertedKeys(canon, f.rest, f.key);
      ConvertedFieldsAreSound(canon, f.rest);
    }
  }

  lemma {:induction false} ConvertedTwice(canon: Conversion, d: Data)
    requires Canonical(canon) && Sound(d)
    ensures Converted(canon, Converted(canon, d)) == Converted(canon, d)
  {
    match d
    case Array(items) => ItemsTwice(canon, items);
    case Object(fields) => FieldsTwice(canon, fields);
    case _ =>
  }

  lemma {:induction false} ItemsTwice(canon: Conversion, i: Items)
    requires Canonical(canon) && SoundItems(i)
    ensures ConvertedItems(canon, ConvertedItems(canon, i)) == ConvertedItems(canon, i)
  {
    if i.Item? {
      ConvertedTwice(canon, i.v);
      ItemsTwice(canon, i.more);
    }
  }

  lemma {:induction false} FieldsTwice(canon: Conversion, f: Fields)
    requires Canonical(canon) && SoundFields(f)
    ensures ConvertedFields(canon, ConvertedFields(canon, f)) == ConvertedFields(canon, f)
  {
    if f.Field? {
      ConvertedTwice(canon, f.value);
      FieldsTwice(canon, f.rest);
    }
  }

  /** Writing infinities as null leaves the other numbers as they are. */
  lemma {:induction false} NulledStays(canon: Conversion, d: Data)
    requires Converted(canon, d) == d
    ensures Converted(canon, Nulled(d)) == Nulled(d)
  {
    match d
    case Array(items) => NulledItemsStay(canon, items);
    case Object(fields) => NulledFieldsStay(canon, fields);
    case _ =>
  }

  lemma {:induction false} NulledItemsStay(canon: Conversion, i: Items)
    requires ConvertedItems(canon, i) == i
    ensures ConvertedItems(canon, NulledItems(i)) == NulledItems(i)
  {
    if i.Item? {
      NulledStays(canon, i.v);
      NulledItemsStay(canon, i.more);
    }
  }

  lemma {:induction false} NulledFieldsStay(canon: Conversion, f: Fields)
    requires ConvertedFields(canon, f) == f
    ensures ConvertedFields(canon, NulledFields(f)) == NulledFields(f)
  {
    if f.Field? {
      NulledStays(canon, f.value);
      NulledFieldsStay(canon, f.rest);
    }
  }

  /** Writing changes the value exactly when a number overflowed. */
  lemma {:induction false} NulledExactly(canon: Conversion, d: Data)
    requires Exact(canon) && Sound(d)
    ensures Nulled(Converted(canon, d)) == Converted(canon, d) <==> NoneOverflows(d)
  {
    match d
    case Array(items) => NulledItemsExactly(canon, items);
    case Object(fields) => NulledFieldsExactly(canon, fields);
    case _ =>
  }

  lemma {:induction false} NulledItemsExactly(canon: Conversion, i: Items)
    requires Exact(canon) && SoundItems(i)
    ensures NulledItems(ConvertedItems(canon, i)) == ConvertedItems(canon, i) <==> NoItemOverflows(i)
  {
    if i.Item? {
      NulledExactly(canon, i.v);
      NulledItemsExactly(canon, i.more);
    }
  }

  lemma {:induction false} NulledFieldsExactly(canon: Conversion, f: Fields)
    requires Exact(canon) && SoundFields(f)
    ensures NulledFields(ConvertedFields(canon, f)) == ConvertedFields(canon, f) <==> NoFieldOverflows(f)
  {
    if f.Field? {
      NulledExactly(canon, f.value);
      NulledFieldsExactly(canon, f.rest);
    }
  }

  // ---- A number that overflows --------------------------------------------------------

  lemma {:induction false} PowersGrow(base: nat, m: nat, n: nat)
    requires base >= 1 && m <= n
    ensures Power(base, m) <= Power(base, n)
    decreases n
  {
    if m < n { PowersGrow(base, m, n - 1); }
  }

  lemma {:induction false} FourTensThirteenTwos(n: nat)
    ensures Power(10, 4 * n) >= Power(2, 13 * n)
  {
    if n > 0 {
      FourTensThirteenTwos(n - 1);
      FourMore(4 * (n - 1));
      ThirteenMore(13 * (n - 1));
    }
  }

  lemma TwoMore(base: nat, k: nat)
    ensures Power(base, k + 2) == base * (base * Power(base, k))
  {
    assert Power(base, k + 1) == base * Power(base, k);
  }

  lemma FourMore(k: nat)
    ensures Power(10, k + 4) == 10000 * Power(10, k)
  {
    TwoMore(10, k);
    TwoMore(10, k + 2);
  }

  lemma ThirteenMore(k: nat)
    ensures Power(2, k + 13) == 8192 * Power(2, k)
  {
    TwoMore(2, k);
    TwoMore(2, k + 2);
    TwoMore(2, k + 4);
    TwoMore(2, k + 6);
    TwoMore(2, k + 8);
    TwoMore(2, k + 10);
  }

  lemma TensPassTwos(m: nat, bits: nat)
    requires 54 <= bits && 13 * (m / 4) >= bits
    ensures Power(10, m) >= Limit(bits)
  {
    FourTensThirteenTwos(m / 4);
    PowersGrow(10, 4 * (m / 4), m);
    PowersGrow(2, bits, 13 * (m / 4));
  }

  /** 1e400 */
  const HUGE: Text := [49, 101, 52, 48, 48]

  lemma HugeIsANumber()
    ensures IsNumber(HUGE) && DecimalOf(HUGE) == Decimal(1, 400)
  {
    var t := HUGE;
    assert t[1..] == [101, 52, 48, 48] && t[2..] == [52, 48, 48];
    assert SkipDigits(t) == t[1..] && Leading(t) == [49];
    var d := t[2..];
    assert t[1..][1..] == d;
    assert d[1..] == [48, 48] && d[2..] == [48] && d[3..] == [];
    assert d[1..][1..] == d[2..] && d[2..][1..] == d[3..];
    assert SkipDigits(d[3..]) == SkipDigits(d[2..]) == SkipDigits(d[1..]) == [];
    assert Leading(d[3..]) == [] && Leading(d[2..]) == [48] && Leading(d[1..]) == [48, 48];
    assert SkipDigits(d) == [] && Leading(d) == d;
    assert d[..2] == [52, 48] && d[..2][..1] == [52] && d[..2][..1][..0] == [];
    assert DigitsValue([52]) == 4;
    assert DigitsValue(d[..2]) == 40;
    assert DigitsValue(d) == 400;
    assert [49][..0] == [] && DigitsValue([49]) == 1;
    assert [49] + [] == [49];
  }

  lemma HugeOverflows()
    ensures IsNumber(HUGE) && Overflows(HUGE)
  {
    HugeIsANumber();
    TensPassTwos(400, EXPONENT_RANGE);
  }
}
