/** What rewriting the configuration promises, said of texts alone: neither the
    scanner nor the parser nor the splice is named in the conditions. */
module GradioPromises {
  import opened Outcomes
  import opened JsonText
  import opened JsonParsing
  import opened JsonGrammar
  import opened JsonScan
  import opened JsonNumbers
  import opened GradioConfig

  // ---- Where a statement ends --------------------------------------------------------------

  /** White space of the language: a tab, line feed, vertical tab, form feed or
      return, the space separators, the two line separators, the byte order mark. */
  const SPACES: set<unit> :=
    {9, 10, 11, 12, 13, 32, 0xA0, 0x1680, 0x2000, 0x2001, 0x2002, 0x2003, 0x2004, 0x2005, 0x2006, 0x2007, 0x2008,
     0x2009, 0x200A, 0x2028, 0x2029, 0x202F, 0x205F, 0x3000, 0xFEFF}

  ghost predicate ClosesAt(t: Text, n: nat) {
    n <= |t| && (forall i | 0 <= i < n :: t[i] in SPACES) && (n == |t| || t[n] == 59)
  }

  /** After some white space the text is over or goes on with a semicolon. */
  ghost predicate Closes(t: Text) { exists n :: ClosesAt(t, n) }

  lemma SpaceFirst(t: Text, n: nat)
    requires t != [] && t[0] in SPACES
    ensures ClosesAt(t[1..], n) <==> ClosesAt(t, n + 1)
  {
    var rest := t[1..];
    if ClosesAt(rest, n) {
      forall i | 0 <= i < n + 1 ensures t[i] in SPACES { if i > 0 { assert t[i] == rest[i - 1]; } }
    }
    if ClosesAt(t, n + 1) {
      forall i | 0 <= i < n ensures rest[i] in SPACES { assert rest[i] == t[i + 1]; }
    }
  }

  lemma {:induction false} EndsExactlyWhen(t: Text)
    ensures EndsStatement(t) <==> Closes(t)
    decreases |t|
  {
    if t == [] || t[0] == 59 {
      assert ClosesAt(t, 0);
    } else {
      EndsExactlyWhen(t[1..]);
      if EndsStatement(t) {
        var n: nat :| ClosesAt(t[1..], n);
        SpaceFirst(t, n);
      }
      if Closes(t) {
        var n: nat :| ClosesAt(t, n);
        SpaceFirst(t, n - 1);
      }
    }
  }

  // ---- When the splice succeeds --------------------------------------------------------------

  /** "root" */
  const NAME: Text := [114, 111, 111, 116]

  /** At `start` stands an object text with the pinned root, and what follows it
      up to the end of the script ends the statement. */
  ghost predicate Spliceable(canon: Conversion, text: Text, start: nat, scriptEnd: nat, upstream: Text, inner: Text,
                             members: Members, suffix: Text)
    requires start <= scriptEnd <= |text|
  {
    && Valid(Obj(inner, members)) && text[start..] == Print(Obj(inner, members), suffix)
    && Get(ConvertedFields(canon, Properties(members, NoField)), NAME) == Some(String(upstream))
    && |text| - scriptEnd <= |suffix|
    && Closes(suffix[..|suffix| - (|text| - scriptEnd)])
  }

  lemma WsFirst(before: Text, k: Text)
    requires AllWs(before)
    ensures before != [] ==> IsWs((before + k)[0])
  {
  }

  lemma LeadingObject(t: Text, before: Text, v: Syntax, after: Text)
    requires t != [] && t[0] == OPEN_BRACE && t == before + Print(v, after) && AllWs(before) && Valid(v)
    requires Meaning(v).Object?
    ensures before == [] && v.Obj? && t == Print(v, after)
  {
    WsFirst(before, Print(v, after));
    assert [] + Print(v, after) == Print(v, after);
  }

  lemma {:induction false} EndedEarlier(t: Text, inner: Text, members: Members, after: Text)
    requires t == Print(Obj(inner, members), after) && Valid(Obj(inner, members))
    requires After(t + [0], Outside(0)) == Some([0])
    ensures after == []
  {
    ObjectEnds(inner, members, after + [0]);
    PrintAppends(Obj(inner, members), after + [0]);
    PrintAppends(Obj(inner, members), after);
    assert Print(Obj(inner, members), []) + (after + [0]) == t + [0];
    assert |after + [0]| == |[0]|;
  }

  /** The end the scanner finds does not depend on what follows it. */
  lemma {:induction false} EndIsLocal(t: Text, s: Scan, rest: Text, other: Text)
    requires After(t, s) == Some(rest)
    ensures |rest| <= |t| && t == t[..|t| - |rest|] + rest
    ensures After(t[..|t| - |rest|] + other, s) == Some(other)
    decreases |t|
  {
    var a := t[..|t| - |rest|];
    if Ends(s, t[0]) {
      assert a == [t[0]] && (a + other)[0] == t[0] && (a + other)[1..] == other;
    } else {
      EndIsLocal(t[1..], Advance(s, t[0]), rest, other);
      var b := t[1..][..|t[1..]| - |rest|];
      assert a == [t[0]] + b && (a + other)[0] == t[0] && (a + other)[1..] == b + other;
    }
  }

  /** What the splice cuts out and accepts is an object text. */
  lemma CutIsAnObject(canon: Conversion, tail: Text, rest: Text, upstream: Text, alias: Text)
    returns (inner: Text, members: Members)
    requires tail != [] && tail[0] == OPEN_BRACE && After(tail, Outside(0)) == Some(rest)
    requires Rewritten(canon, tail[..|tail| - |rest|], upstream, alias).Success?
    ensures Valid(Obj(inner, members)) && tail == Print(Obj(inner, members), rest)
    ensures Get(ConvertedFields(canon, Properties(members, NoField)), ROOT) == Some(String(upstream))
  {
    EndIsLocal(tail, Outside(0), rest, [0]);
    var config, after := tail[..|tail| - |rest|], [];
    assert config != [] && config[0] == tail[0];
    inner, members, after := ObjectIsPrinted(config, Parse(config).value);
    EndedEarlier(config, inner, members, after);
    PrintAppends(Obj(inner, members), rest);
  }

  lemma ObjectIsPrinted(config: Text, d: Data) returns (inner: Text, members: Members, after: Text)
    requires config != [] && config[0] == OPEN_BRACE && Parse(config) == Some(d) && d.Object?
    ensures Valid(Obj(inner, members)) && config == Print(Obj(inner, members), after)
    ensures Object(Properties(members, NoField)) == d
  {
    ParsesExactlyTheGrammar(config, d);
    var before, v, end :|
      AllWs(before) && Valid(v) && AllWs(end) && config == before + Print(v, end) && Meaning(v) == d;
    LeadingObject(config, before, v, end);
    inner, members, after := v.inner, v.members, end;
  }

  /** The splice succeeds exactly when an object text with the pinned root stands
      at `start` and its statement ends in the script. */
  lemma SplicesExactlyWhen(canon: Conversion, text: Text, start: nat, scriptEnd: nat, upstream: Text, alias: Text)
    requires Canonical(canon) && start <= scriptEnd <= |text|
    ensures Splice(canon, text, start, scriptEnd, upstream, alias).Success? <==>
      exists inner, members, suffix :: Spliceable(canon, text, start, scriptEnd, upstream, inner, members, suffix)
  {
    if inner, members, suffix :|
      Spliceable(canon, text, start, scriptEnd, upstream, inner, members, suffix)
    {
      SpliceableIsSpliced(canon, text, start, scriptEnd, upstream, alias, inner, members, suffix);
    }
    if Splice(canon, text, start, scriptEnd, upstream, alias).Success? {
      var inner, members, suffix := SplicedIsSpliceable(canon, text, start, scriptEnd, upstream, alias);
    }
  }

  /** What a successful splice went by. */
  lemma SpliceGoesBy(canon: Conversion, text: Text, start: nat, scriptEnd: nat, upstream: Text, alias: Text)
    returns (rest: Text, end: nat)
    requires start <= scriptEnd <= |text| && Splice(canon, text, start, scriptEnd, upstream, alias).Success?
    ensures text[start..] != [] && text[start..][0] == OPEN_BRACE && After(text[start..], Outside(0)) == Some(rest)
    ensures |rest| <= |text| - start && end == |text| - |rest| && end <= scriptEnd
    ensures EndsStatement(text[end..scriptEnd])
    ensures Rewritten(canon, text[start..end], upstream, alias).Success?
  {
    rest := After(text[start..], Outside(0)).value;
    end := |text| - |rest|;
  }

  lemma SplicedIsSpliceable(canon: Conversion, text: Text, start: nat, scriptEnd: nat, upstream: Text, alias: Text)
    returns (inner: Text, members: Members, suffix: Text)
    requires start <= scriptEnd <= |text| && Splice(canon, text, start, scriptEnd, upstream, alias).Success?
    ensures Spliceable(canon, text, start, scriptEnd, upstream, inner, members, suffix)
  {
    var tail, end := text[start..], 0;
    suffix, end := SpliceGoesBy(canon, text, start, scriptEnd, upstream, alias);
    assert text[start..end] == tail[..|tail| - |suffix|];
    inner, members := CutIsAnObject(canon, tail, suffix, upstream, alias);
    EndIsLocal(tail, Outside(0), suffix, suffix);
    SameCut(text, start, end, scriptEnd, suffix);
    EndsExactlyWhen(text[end..scriptEnd]);
  }

  lemma SameCut(text: Text, start: nat, end: nat, scriptEnd: nat, rest: Text)
    requires start <= end <= scriptEnd <= |text| && |rest| == |text| - end
    requires text[start..] == text[start..][..end - start] + rest
    ensures text[end..scriptEnd] == rest[..|rest| - (|text| - scriptEnd)]
  {
    assert text[end..] == text[start..][end - start..] == rest;
  }

  lemma SpliceableIsSpliced(canon: Conversion, text: Text, start: nat, scriptEnd: nat, upstream: Text, alias: Text,
                            inner: Text, members: Members, suffix: Text)
    requires Canonical(canon) && start <= scriptEnd <= |text|
    requires Spliceable(canon, text, start, scriptEnd, upstream, inner, members, suffix)
    ensures Splice(canon, text, start, scriptEnd, upstream, alias).Success?
  {
    var config := Print(Obj(inner, members), []);
    PrintAppends(Obj(inner, members), suffix);
    var end := start + |config|;
    CutAfter(text, start, config, suffix, scriptEnd);
    EndsExactlyWhen(text[end..scriptEnd]);
    OnlyTheObjectIsReplaced(canon, text[..start], inner, members, suffix, upstream, alias, config, text, scriptEnd);
  }

  lemma CutAfter(text: Text, start: nat, config: Text, suffix: Text, scriptEnd: nat)
    requires start <= scriptEnd <= |text| && text[start..] == config + suffix && |text| - scriptEnd <= |suffix|
    ensures text == text[..start] + config + suffix
    ensures text[start + |config|..scriptEnd] == suffix[..|suffix| - (|text| - scriptEnd)]
  {
    assert text == text[..start] + text[start..];
  }

  // ---- What is put in ---------------------------------------------------------------------

  /** A rewritten text holds no "<" and no line separator U+2028 or U+2029, and reads
      back as an object whose "root" is the alias. */
  lemma SafeInScript(canon: Conversion, text: Text, upstream: Text, alias: Text)
    requires Canonical(canon) && Exact(canon) && Rewritten(canon, text, upstream, alias).Success?
    ensures var out := Rewritten(canon, text, upstream, alias).value;
      && (forall i | 0 <= i < |out| :: out[i] !in {60, 0x2028, 0x2029})
      && Read(canon, out).Some? && Read(canon, out).value.Object?
      && Get(Read(canon, out).value.fields, NAME) == Some(String(alias))
  {
    OnlyTheRootChanges(canon, text, upstream, alias);
  }

  // ---- The written text has no broken surrogate pair -------------------------------------------

  predicate High(u: unit) { 0xD800 <= u < 0xDC00 }
  predicate Low(u: unit) { 0xDC00 <= u < 0xE000 }

  /** Half of a pair without its other half. */
  predicate Broken(s: Text, i: nat)
    requires i < |s|
  {
    || (High(s[i]) && !(i + 1 < |s| && Low(s[i + 1])))
    || (Low(s[i]) && !(i > 0 && High(s[i - 1])))
  }

  /** A character is written as itself exactly when it is no control character, quote
      or backslash and no broken half of a pair. */
  lemma PlainExactlyWhen(s: Text, i: nat)
    requires i < |s|
    ensures CharFor(s, i) == Plain(s[i]) <==> s[i] >= 32 && s[i] != 34 && s[i] != 92 && !Broken(s, i)
    ensures CharFor(s, i).Plain? ==> CharFor(s, i) == Plain(s[i])
  {
  }

  /** Every high surrogate is followed by a low one, and every low one follows a
      high one, so that the text survives its encoding as UTF-8. */
  predicate Paired(t: Text)
    decreases |t|
  {
    if t == [] then true
    else if High(t[0]) then |t| >= 2 && Low(t[1]) && Paired(t[2..])
    else !Low(t[0]) && Paired(t[1..])
  }

  predicate NoSurrogate(t: Text) { forall i | 0 <= i < |t| :: !High(t[i]) && !Low(t[i]) }

  lemma {:induction false} PairedAfter(a: Text, k: Text)
    requires NoSurrogate(a) && Paired(k)
    ensures Paired(a + k)
  {
    if a == [] {
      assert a + k == k;
    } else {
      assert (a + k)[0] == a[0] && (a + k)[1..] == a[1..] + k;
      PairedAfter(a[1..], k);
    }
  }

  lemma NumbersAreAscii(t: Text)
    requires IsNumber(t)
    ensures NoSurrogate(t)
  {
    forall i | 0 <= i < |t| ensures !High(t[i]) && !Low(t[i]) { assert IsNumberUnit(t[i]); }
  }

  lemma PairFirst(high: unit, low: unit, rest: Text)
    requires High(high) && Low(low) && Paired(rest)
    ensures Paired([high] + ([low] + rest))
  {
    assert ([high] + ([low] + rest))[2..] == rest;
  }

  lemma NotAlone(s: Text, i: nat)
    requires i < |s| && High(s[i]) && !Lone(s, i)
    ensures i + 1 < |s| && Low(s[i + 1]) && CharFor(s, i) == Plain(s[i]) && CharFor(s, i + 1) == Plain(s[i + 1])
  {
  }

  lemma NoSurrogateInChar(s: Text, i: nat)
    requires i < |s| && (High(s[i]) ==> Lone(s, i)) && (0 < i && Low(s[i]) ==> !High(s[i - 1]))
    ensures NoSurrogate(Written(CharFor(s, i)))
  {
  }

  lemma OneCharThen(s: Text, i: nat, k: Text)
    requires i < |s|
    ensures PrintChars(CharsFrom(s, i), k) == Written(CharFor(s, i)) + PrintChars(CharsFrom(s, i + 1), k)
  {
    assert CharsFrom(s, i)[0] == CharFor(s, i) && CharsFrom(s, i)[1..] == CharsFrom(s, i + 1);
  }

  lemma PairThen(s: Text, i: nat, k: Text, rest: Text)
    requires i + 1 < |s| && High(s[i]) && !Lone(s, i)
    requires rest == PrintChars(CharsFrom(s, i + 2), k) && Paired(rest)
    ensures Paired(PrintChars(CharsFrom(s, i), k))
  {
    NotAlone(s, i);
    OneCharThen(s, i, k);
    OneCharThen(s, i + 1, k);
    PairFirst(s[i], s[i + 1], rest);
  }

  lemma OtherThen(s: Text, i: nat, k: Text, more: Text)
    requires i < |s| && (High(s[i]) ==> Lone(s, i)) && (0 < i && Low(s[i]) ==> !High(s[i - 1]))
    requires more == PrintChars(CharsFrom(s, i + 1), k) && Paired(more)
    ensures Paired(PrintChars(CharsFrom(s, i), k))
  {
    OneCharThen(s, i, k);
    NoSurrogateInChar(s, i);
    PairedAfter(Written(CharFor(s, i)), more);
  }

  lemma {:induction false} CharsArePaired(s: Text, i: nat, k: Text)
    requires i <= |s| && Paired(k) && (0 < i < |s| && Low(s[i]) ==> !High(s[i - 1]))
    ensures Paired(PrintChars(CharsFrom(s, i), k))
    decreases |s| - i
  {
    if i < |s| {
      if High(s[i]) && !Lone(s, i) {
        NotAlone(s, i);
        CharsArePaired(s, i + 2, k);
        PairThen(s, i, k, PrintChars(CharsFrom(s, i + 2), k));
      } else {
        CharsArePaired(s, i + 1, k);
        OtherThen(s, i, k, PrintChars(CharsFrom(s, i + 1), k));
      }
    }
  }

  lemma StringIsPaired(s: Text, k: Text)
    requires Paired(k)
    ensures Paired(PrintString(CharsFrom(s, 0), k))
  {
    PairedAfter([QUOTE], k);
    CharsArePaired(s, 0, [QUOTE] + k);
    PairedAfter([QUOTE], PrintChars(CharsFrom(s, 0), [QUOTE] + k));
  }

  lemma {:induction false} ValueIsPaired(d: Data, k: Text)
    requires Sound(d) && Paired(k)
    ensures Paired(Print(SyntaxOf(d), k))
    decreases d, 1
  {
    match d
    case String(s) => StringIsPaired(s, k);
    case Number(t) => NumbersAreAscii(t); PairedAfter(t, k);
    case Array(items) => {
      PairedAfter([CLOSE_BRACKET], k);
      ItemsArePaired(items, [CLOSE_BRACKET] + k);
      assert [] + ([CLOSE_BRACKET] + k) == [CLOSE_BRACKET] + k;
      PairedAfter([OPEN_BRACKET], PrintElems(ElemsOf(items), [CLOSE_BRACKET] + k));
    }
    case Object(fields) => {
      PairedAfter([CLOSE_BRACE], k);
      FieldsArePaired(fields, [CLOSE_BRACE] + k);
      assert [] + ([CLOSE_BRACE] + k) == [CLOSE_BRACE] + k;
      PairedAfter([OPEN_BRACE], PrintMembers(MembersOf(fields), [CLOSE_BRACE] + k));
    }
    case Null => PairedAfter(NULL_TEXT, k);
    case Infinite(_) => PairedAfter(NULL_TEXT, k);
    case Bool(b) => PairedAfter(if b then TRUE_TEXT else FALSE_TEXT, k);
  }

  lemma {:induction false} ItemsArePaired(i: Items, k: Text)
    requires SoundItems(i) && Paired(k)
    ensures Paired(PrintElems(ElemsOf(i), k))
    decreases i, 0
  {
    if i.Item? {
      ItemsArePaired(i.more, k);
      PairedAfter([COMMA], PrintElems(ElemsOf(i.more), k));
      var next := if i.more.NoItem? then k else [COMMA] + PrintElems(ElemsOf(i.more), k);
      ValueIsPaired(i.v, next);
      assert [] + next == next && [] + Print(SyntaxOf(i.v), next) == Print(SyntaxOf(i.v), next);
    }
  }

  lemma {:induction false} FieldsArePaired(f: Fields, k: Text)
    requires SoundFields(f) && Paired(k)
    ensures Paired(PrintMembers(MembersOf(f), k))
    decreases f, 0
  {
    if f.Field? {
      FieldsArePaired(f.rest, k);
      PairedAfter([COMMA], PrintMembers(MembersOf(f.rest), k));
      var next := if f.rest.NoField? then k else [COMMA] + PrintMembers(MembersOf(f.rest), k);
      ValueIsPaired(f.value, next);
      var value := Print(SyntaxOf(f.value), next);
      PairedAfter([COLON], value);
      StringIsPaired(f.key, [COLON] + value);
      assert [] + next == next && [] + value == value && [] + ([COLON] + value) == [COLON] + value;
      var key := PrintString(CharsFrom(f.key, 0), [COLON] + value);
      assert [] + key == key;
    }
  }

  lemma {:induction false} ReplacedIsPaired(t: Text, u: unit)
    requires Paired(t) && NoSurrogate(Written(HexOf(u))) && !High(u) && !Low(u)
    ensures Paired(Replaced(t, u))
    decreases |t|
  {
    if t != [] {
      if High(t[0]) {
        ReplacedIsPaired(t[2..], u);
        assert t[1..][0] == t[1] && t[1..][1..] == t[2..];
        var r := Replaced(t, u);
        assert r == [t[0]] + ([t[1]] + Replaced(t[2..], u));
        assert r[2..] == Replaced(t[2..], u);
      } else {
        ReplacedIsPaired(t[1..], u);
        PairedAfter(if t[0] == u then Written(HexOf(u)) else [t[0]], Replaced(t[1..], u));
      }
    }
  }

  /** Whatever strings the configuration holds, broken surrogate pairs included,
      the rewritten text has none. */
  lemma RewrittenIsPaired(canon: Conversion, text: Text, upstream: Text, alias: Text)
    requires Canonical(canon) && Rewritten(canon, text, upstream, alias).Success?
    ensures Paired(Rewritten(canon, text, upstream, alias).value)
  {
    var f := Read(canon, text).value.fields;
    ReadIsSound(canon, text);
    PutSound(f, ROOT, String(alias));
    var d := Object(Put(f, ROOT, String(alias)));
    ValueIsPaired(d, []);
    var a := Replaced(Stringify(d), LESS_THAN);
    var b := Replaced(a, LINE_SEPARATOR);
    ReplacedIsPaired(Stringify(d), LESS_THAN);
    ReplacedIsPaired(a, LINE_SEPARATOR);
    ReplacedIsPaired(b, PARAGRAPH_SEPARATOR);
  }
}
