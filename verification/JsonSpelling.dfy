/** Which of the texts that read as a value the printer emits: the only shortest one. */
module JsonSpelling {
  import opened Options
  import opened Text
  import opened JsonValue
  import opened JsonText
  import opened CanonicalJson

  // ---- Tidy texts ----

  /** Every surrogate is half of a pair, so the text can be encoded. */
  predicate Paired(t: Text) {
    t == [] || if IsSurrogate(t[0]) then StartsWithPair(t) && Paired(t[2..]) else Paired(t[1..])
  }

  predicate IsUpperHex(c: CodeUnit) { 0x41 <= c < 0x47 }

  /** Four-digit escapes use no capital letters. */
  predicate LowerEscapes(t: Text) {
    if t == [] then true
    else if t[0] != BACKSLASH || |t| < 2 then LowerEscapes(t[1..])
    else if t[1] == 0x75 && |t| >= 6 then (forall i | 2 <= i < 6 :: !IsUpperHex(t[i])) && LowerEscapes(t[6..])
    else LowerEscapes(t[2..])
  }

  predicate Tidy(t: Text) { Paired(t) && LowerEscapes(t) }

  predicate IsPlainUnit(c: CodeUnit) { !IsSurrogate(c) && c != BACKSLASH }

  lemma TidyStep(c: CodeUnit, t: Text)
    requires IsPlainUnit(c)
    ensures Tidy([c] + t) <==> Tidy(t)
  {
    assert ([c] + t)[1..] == t;
  }

  lemma {:induction false} TidyBehind(p: Text, t: Text)
    requires forall c | c in p :: IsPlainUnit(c)
    ensures Tidy(p + t) <==> Tidy(t)
  {
    if p == [] {
      assert p + t == t;
    } else {
      assert p[0] in p && forall c | c in p[1..] :: c in p;
      TidyBehind(p[1..], t);
      TidyStep(p[0], p[1..] + t);
      assert p + t == [p[0]] + (p[1..] + t);
    }
  }

  // ---- Strings ----

  lemma EscapeCons(c: CodeUnit, s: Text)
    ensures |Escape([c] + s)| <= |EscapeUnit(c)| + |Escape(s)|
    ensures |Escape([c] + s)| == |EscapeUnit(c)| + |Escape(s)| ==> Escape([c] + s) == EscapeUnit(c) + Escape(s)
  {
    var u := [c] + s;
    assert u[1..] == s;
    if StartsWithPair(u) {
      assert u[2..] == s[1..];
      assert !StartsWithPair(s);
    }
  }

  lemma LowerHexDigit(h: CodeUnit)
    requires HexValue(h).Some? && !IsUpperHex(h)
    ensures HexDigit(HexValue(h).value) == h
  {
  }

  lemma FourDigits(a: int, b: int, c: int, d: int)
    requires 0 <= a < 16 && 0 <= b < 16 && 0 <= c < 16 && 0 <= d < 16
    ensures var n := 16 * (16 * (16 * a + b) + c) + d;
            n / 16 / 16 / 16 == a && n / 16 / 16 % 16 == b && n / 16 % 16 == c && n % 16 == d
  {
    var n := 16 * (16 * (16 * a + b) + c) + d;
    assert n / 16 == 16 * (16 * a + b) + c;
    assert n / 16 / 16 == 16 * a + b;
  }

  /** Four lower-case digits are those the printer would use. */
  lemma LowerHexUnit(h: Text)
    requires |h| == 4 && HexUnit(h).Some? && forall i | 0 <= i < 4 :: !IsUpperHex(h[i])
    ensures UnicodeEscape(HexUnit(h).value) == [BACKSLASH, 0x75] + h
  {
    var a, b, c, d := HexValue(h[0]).value, HexValue(h[1]).value, HexValue(h[2]).value, HexValue(h[3]).value;
    FourDigits(a, b, c, d);
    LowerHexDigit(h[0]);
    LowerHexDigit(h[1]);
    LowerHexDigit(h[2]);
    LowerHexDigit(h[3]);
  }

  ghost predicate Fits(text: Text, t: Text, rest: Text) {
    Tidy(rest) && |text| + |rest| <= |t| && (|text| + |rest| == |t| ==> t == text + rest)
  }

  /** No tidy spelling of a string is shorter than the printer's, and none other is as short. */
  lemma {:induction false} CharsSpelling(t: Text, s: Text, rest: Text)
    requires ParseChars(t) == Some((s, rest)) && Tidy(t)
    ensures Fits(Escape(s) + [QUOTE], t, rest)
    decreases |t|, 1
  {
    if t[0] == QUOTE {
      TidyStep(t[0], rest);
      assert t == [t[0]] + rest;
    } else if t[0] != BACKSLASH {
      RawSpelling(t, s, rest);
    } else {
      var n := if SimpleEscape(t[1]).Some? then 2 else 6;
      EscapePeels(t, s, rest);
      CharsSpelling(t[n..], s[1..], rest);
      EscapedFits(t, s[0], s[1..], rest, n);
      assert s == [s[0]] + s[1..];
    }
  }

  lemma {:induction false} RawSpelling(t: Text, s: Text, rest: Text)
    requires t != [] && t[0] >= 0x20 && t[0] != QUOTE && t[0] != BACKSLASH
    requires ParseChars(t) == Some((s, rest)) && Tidy(t)
    ensures Fits(Escape(s) + [QUOTE], t, rest)
    decreases |t|, 0
  {
    if IsSurrogate(t[0]) {
      PairPeels(t, s, rest);
      CharsSpelling(t[2..], s[2..], rest);
      assert s == [t[0], t[1]] + s[2..] && s[..2] == [t[0], t[1]];
      Prepended([t[0], t[1]], Escape(s[2..]) + [QUOTE], t, rest);
      Assoc3(s[..2], Escape(s[2..]), [QUOTE]);
    } else {
      CharsSpelling(t[1..], s[1..], rest);
      assert s == [t[0]] + s[1..];
      Prepended([t[0]], Escape(s[1..]) + [QUOTE], t, rest);
      Assoc3([t[0]], Escape(s[1..]), [QUOTE]);
    }
  }

  lemma PairPeels(t: Text, s: Text, rest: Text)
    requires StartsWithPair(t) && ParseChars(t) == Some((s, rest)) && Tidy(t)
    ensures Tidy(t[2..]) && StartsWithPair(s) && s[..2] == t[..2] && ParseChars(t[2..]) == Some((s[2..], rest))
  {
    var u := t[1..];
    assert u[1..] == t[2..] && u[0] == t[1];
    assert LowerEscapes(u) && LowerEscapes(u[1..]);
    assert ParseChars(t) == PrependUnit(t[0], ParseChars(u));
    assert ParseChars(u) == PrependUnit(u[0], ParseChars(u[1..]));
    var w := ParseChars(t[2..]).value.0;
    assert s == [t[0]] + ([t[1]] + w);
    assert s[2..] == w;
  }

  lemma Prepended(head: Text, text: Text, t: Text, rest: Text)
    requires head <= t && Fits(text, t[|head|..], rest)
    ensures Fits(head + text, t, rest)
  {
    assert t == head + t[|head|..];
    Assoc3(head, text, rest);
  }

  /** What remains after an escape is tidy, and what it stood for is what the printer would write at most as long. */
  lemma EscapePeels(t: Text, s: Text, rest: Text)
    requires t != [] && t[0] == BACKSLASH && ParseChars(t) == Some((s, rest)) && Tidy(t)
    ensures var n := if SimpleEscape(t[1]).Some? then 2 else 6;
            && n <= |t| && s != [] && ParseChars(t[n..]) == Some((s[1..], rest)) && Tidy(t[n..])
            && |EscapeUnit(s[0])| <= n && (|EscapeUnit(s[0])| == n ==> EscapeUnit(s[0]) == t[..n])
  {
    if SimpleEscape(t[1]).Some? {
      SimplePeels(t);
    } else {
      HexEscapePeels(t);
      LongEscape(t, HexUnit(t[2..6]).value);
    }
  }

  lemma {:induction false} PairedBehind(p: Text, t: Text)
    requires forall c | c in p :: !IsSurrogate(c)
    ensures Paired(p + t) <==> Paired(t)
  {
    if p == [] {
      assert p + t == t;
    } else {
      assert p[0] in p && forall c | c in p[1..] :: c in p;
      PairedBehind(p[1..], t);
      assert (p + t)[1..] == p[1..] + t;
    }
  }

  lemma SimplePeels(t: Text)
    requires |t| >= 2 && t[0] == BACKSLASH && SimpleEscape(t[1]).Some? && Tidy(t)
    ensures Tidy(t[2..])
    ensures |EscapeUnit(SimpleEscape(t[1]).value)| == 2 ==> EscapeUnit(SimpleEscape(t[1]).value) == t[..2]
    ensures |EscapeUnit(SimpleEscape(t[1]).value)| <= 2
  {
    PairedBehind(t[..2], t[2..]);
    assert t == t[..2] + t[2..];
  }

  lemma HexEscapePeels(t: Text)
    requires |t| >= 6 && t[0] == BACKSLASH && t[1] == 0x75 && HexUnit(t[2..6]).Some? && Tidy(t)
    ensures Tidy(t[6..])
  {
    var h := t[2..6];
    assert HexValue(h[0]).Some? && HexValue(h[1]).Some? && HexValue(h[2]).Some? && HexValue(h[3]).Some?;
    assert t[..6] == [BACKSLASH, 0x75, h[0], h[1], h[2], h[3]];
    PairedBehind(t[..6], t[6..]);
    assert t == t[..6] + t[6..];
  }

  lemma LongEscape(t: Text, c: CodeUnit)
    requires |t| >= 6 && t[0] == BACKSLASH && t[1] == 0x75 && HexUnit(t[2..6]) == Some(c)
    requires forall i | 2 <= i < 6 :: !IsUpperHex(t[i])
    ensures |EscapeUnit(c)| <= 6 && (|EscapeUnit(c)| == 6 ==> EscapeUnit(c) == t[..6])
  {
    LowerHexUnit(t[2..6]);
    assert t[..6] == [BACKSLASH, 0x75] + t[2..6];
  }

  lemma EscapedFits(t: Text, c: CodeUnit, s: Text, rest: Text, n: nat)
    requires n <= |t| && Fits(Escape(s) + [QUOTE], t[n..], rest)
    requires |EscapeUnit(c)| <= n && (|EscapeUnit(c)| == n ==> EscapeUnit(c) == t[..n])
    ensures Fits(Escape([c] + s) + [QUOTE], t, rest)
  {
    hide EscapeUnit, Escape, Tidy;
    EscapeCons(c, s);
    if |Escape([c] + s) + [QUOTE]| + |rest| == |t| {
      Assoc4(t[..n], Escape(s), [QUOTE], rest);
      Assoc3(Escape(s), [QUOTE], rest);
      assert t == t[..n] + t[n..];
    }
  }

  // ---- Values ----

  lemma LiteralSpelling(t: Text, literal: Text, v: Value, rest: Text)
    requires literal != [] && ParseLiteral(t, literal, v) == Some((v, rest)) && Tidy(t)
    requires forall c | c in literal :: IsPlainUnit(c)
    ensures Fits(literal, t, rest)
  {
    assert t == literal + rest;
    TidyBehind(literal, rest);
  }

  lemma NumberSpelling(t: Text, n: SafeInteger, rest: Text)
    requires ParseNumber(t) == Some((Num(n), rest)) && Tidy(t)
    ensures Fits(PrintNumber(n), t, rest)
  {
    hide Numeral, NumeralValue, Tidy;
    if t != [] && t[0] == MINUS {
      NumeralSpelling(t[1..], -n, rest);
      assert t == [MINUS] + Numeral(-n) + rest;
      TidyBehind([MINUS] + Numeral(-n), rest);
      if n == 0 { ValueOfNumeral(0); }
    } else {
      NumeralSpelling(t, n, rest);
      TidyBehind(Numeral(n), rest);
    }
  }

  lemma NumeralSpelling(t: Text, n: nat, rest: Text)
    requires ParseNumeral(t) == Some((n, rest))
    ensures t == Numeral(n) + rest && forall c | c in Numeral(n) :: IsPlainUnit(c)
  {
    var k := DigitRun(t);
    NumeralOfValue(t[..k]);
    assert t == t[..k] + t[k..];
    assert forall c | c in Numeral(n) :: IsDigit(c);
  }

  /** No tidy spelling of a value is shorter than the printer's, and none other is as short. */
  lemma {:induction false} ValueSpelling(t: Text, v: Value, rest: Text)
    requires ParseValue(t) == Some((v, rest)) && Tidy(t)
    ensures Fits(Print(v), t, rest)
    decreases |t|, 0
  {
    hide Tidy, Escape, ParseChars;
    assert t == [t[0]] + t[1..];
    if t[0] == QUOTE {
      TidyStep(t[0], t[1..]);
      CharsSpelling(t[1..], v.s, rest);
      Prepended([QUOTE], Escape(v.s) + [QUOTE], t, rest);
      Assoc3([QUOTE], Escape(v.s), [QUOTE]);
    } else if t[0] == LBRACKET && v.items != [] {
      TidyStep(t[0], t[1..]);
      ItemSpelling(t[1..], v.items, rest);
      Prepended([LBRACKET], Print(v.items[0]) + PrintItems(v.items[1..]), t, rest);
      Assoc3([LBRACKET], Print(v.items[0]), PrintItems(v.items[1..]));
    } else if t[0] == LBRACE && v.members != [] {
      TidyStep(t[0], t[1..]);
      MemberSpelling(t[1..], v.members, rest);
      Prepended([LBRACE], PrintMember(v.members[0]) + PrintMembers(v.members[1..]), t, rest);
      Assoc3([LBRACE], PrintMember(v.members[0]), PrintMembers(v.members[1..]));
    } else if t[0] == LBRACKET || t[0] == LBRACE {
      EmptySpelling(t, rest);
    } else {
      LeafSpelling(t, v, rest);
    }
  }

  lemma LeafSpelling(t: Text, v: Value, rest: Text)
    requires ParseValue(t) == Some((v, rest)) && Tidy(t) && t[0] != QUOTE && t[0] != LBRACKET && t[0] != LBRACE
    ensures Fits(Print(v), t, rest)
  {
    hide ParseNumber, ParseLiteral, Tidy, PrintNumber, NumeralValue;
    if t[0] == 0x6E {
      LiteralIs(t, Units("null"), Null, rest);
      LiteralSpelling(t, Units("null"), v, rest);
    } else if t[0] == 0x74 {
      LiteralIs(t, Units("true"), Bool(true), rest);
      LiteralSpelling(t, Units("true"), v, rest);
    } else if t[0] == 0x66 {
      LiteralIs(t, Units("false"), Bool(false), rest);
      LiteralSpelling(t, Units("false"), v, rest);
    } else {
      IsNumber(t, v, rest);
      NumberSpelling(t, v.n, rest);
    }
  }

  lemma LiteralIs(t: Text, literal: Text, v: Value, rest: Text)
    requires literal != [] && ParseLiteral(t, literal, v).Some? && ParseLiteral(t, literal, v).value.1 == rest
    ensures ParseLiteral(t, literal, v) == Some((v, rest))
  {
  }

  lemma IsNumber(t: Text, v: Value, rest: Text)
    requires ParseNumber(t) == Some((v, rest))
    ensures v.Num?
  {
  }

  lemma EmptySpelling(t: Text, rest: Text)
    requires |t| >= 2 && rest == t[2..] && IsPlainUnit(t[0]) && IsPlainUnit(t[1]) && Tidy(t)
    ensures Fits(t[..2], t, rest)
  {
    TidyBehind(t[..2], rest);
    assert t == t[..2] + rest;
  }

  lemma Follows(a: Text, b: Text, t: Text, mid: Text, rest: Text)
    requires Fits(a, t, mid) && Fits(b, mid, rest)
    ensures Fits(a + b, t, rest)
  {
    Assoc3(a, b, rest);
  }

  lemma {:induction false} ItemSpelling(t: Text, items: seq<Value>, rest: Text)
    requires ParseItem(t) == Some((items, rest)) && Tidy(t)
    ensures items != [] && Fits(Print(items[0]) + PrintItems(items[1..]), t, rest)
    decreases |t|, 1
  {
    hide Tidy;
    var mid := ParseValue(t).value.1;
    ValueSpelling(t, items[0], mid);
    ItemsSpelling(mid, items[1..], rest);
    Follows(Print(items[0]), PrintItems(items[1..]), t, mid, rest);
  }

  lemma {:induction false} ItemsSpelling(t: Text, items: seq<Value>, rest: Text)
    requires ParseItems(t) == Some((items, rest)) && Tidy(t)
    ensures Fits(PrintItems(items), t, rest)
    decreases |t|, 0
  {
    hide Tidy;
    TidyStep(t[0], t[1..]);
    assert t == [t[0]] + t[1..];
    if t[0] == COMMA {
      ItemSpelling(t[1..], items, rest);
      Prepended([COMMA], Print(items[0]) + PrintItems(items[1..]), t, rest);
      Assoc3([COMMA], Print(items[0]), PrintItems(items[1..]));
    }
  }

  lemma {:induction false} MemberSpelling(t: Text, ms: seq<Member>, rest: Text)
    requires ParseMember(t) == Some((ms, rest)) && Tidy(t)
    ensures ms != [] && Fits(PrintMember(ms[0]) + PrintMembers(ms[1..]), t, rest)
    decreases |t|, 1
  {
    hide Tidy;
    var u := ParseChars(t[1..]).value.1;
    var mid := ParseValue(u[1..]).value.1;
    var m := ms[0];
    TidyStep(t[0], t[1..]);
    assert t == [t[0]] + t[1..];
    CharsSpelling(t[1..], m.key, u);
    Prepended([QUOTE], Escape(m.key) + [QUOTE], t, u);
    Assoc3([QUOTE], Escape(m.key), [QUOTE]);
    TidyStep(COLON, u[1..]);
    assert u == [COLON] + u[1..];
    ValueSpelling(u[1..], m.value, mid);
    Prepended([COLON], Print(m.value), u, mid);
    Follows(Quoted(m.key), [COLON] + Print(m.value), t, u, mid);
    Assoc3(Quoted(m.key), [COLON], Print(m.value));
    MembersSpelling(mid, ms[1..], rest);
    Follows(PrintMember(m), PrintMembers(ms[1..]), t, mid, rest);
  }

  lemma {:induction false} MembersSpelling(t: Text, ms: seq<Member>, rest: Text)
    requires ParseMembers(t) == Some((ms, rest)) && Tidy(t)
    ensures Fits(PrintMembers(ms), t, rest)
    decreases |t|, 0
  {
    hide Tidy;
    TidyStep(t[0], t[1..]);
    assert t == [t[0]] + t[1..];
    if t[0] == COMMA {
      MemberSpelling(t[1..], ms, rest);
      Prepended([COMMA], PrintMember(ms[0]) + PrintMembers(ms[1..]), t, rest);
      Assoc3([COMMA], PrintMember(ms[0]), PrintMembers(ms[1..]));
    }
  }

  // ---- The printer's own spelling is tidy ----

  lemma UnitTidy(c: CodeUnit, t: Text)
    ensures Tidy(EscapeUnit(c) + t) <==> Tidy(t)
  {
    var e := EscapeUnit(c);
    if e == [c] {
      TidyStep(c, t);
    } else {
      PairedBehind(e, t);
      if |e| == 6 {
        assert (e + t)[6..] == t;
        assert forall i | 2 <= i < 6 :: !IsUpperHex(e[i]) && (e + t)[i] == e[i];
      } else {
        assert (e + t)[2..] == t;
      }
    }
  }

  lemma {:induction false} EscapeTidy(s: Text, t: Text)
    requires Tidy(t)
    ensures Tidy(Escape(s) + t)
    decreases |s|
  {
    hide EscapeUnit;
    if s == [] {
      assert Escape(s) + t == t;
    } else if StartsWithPair(s) {
      EscapeTidy(s[2..], t);
      PairTidy(s[..2], Escape(s[2..]) + t);
      Assoc3(s[..2], Escape(s[2..]), t);
    } else {
      EscapeTidy(s[1..], t);
      UnitTidy(s[0], Escape(s[1..]) + t);
      Assoc3(EscapeUnit(s[0]), Escape(s[1..]), t);
    }
  }

  lemma PairTidy(p: Text, t: Text)
    requires |p| == 2 && StartsWithPair(p) && Tidy(t)
    ensures Tidy(p + t)
  {
    var u := p + t;
    assert u[2..] == t && u[1..][1..] == t && u[1..][0] == p[1];
    assert LowerEscapes(u[1..]);
  }

  lemma QuotedTidy(s: Text, t: Text)
    requires Tidy(t)
    ensures Tidy(Quoted(s) + t)
  {
    TidyStep(QUOTE, t);
    EscapeTidy(s, [QUOTE] + t);
    TidyStep(QUOTE, Escape(s) + ([QUOTE] + t));
    Assoc4([QUOTE], Escape(s), [QUOTE], t);
  }

  lemma {:induction false} PrintTidy(v: Value, t: Text)
    requires Tidy(t)
    ensures Tidy(Print(v) + t)
    decreases v, 1
  {
    hide Tidy;
    match v
    case Str(s) => QuotedTidy(s, t);
    case Num(n) => NumberTidy(n, t);
    case Arr(items) =>
      if items == [] {
        TidyBehind([LBRACKET, RBRACKET], t);
      } else {
        ItemsTidy(items[1..], t);
        PrintTidy(items[0], PrintItems(items[1..]) + t);
        Wrapped(LBRACKET, Print(items[0]), PrintItems(items[1..]), t);
      }
    case Obj(ms) =>
      if ms == [] {
        TidyBehind([LBRACE, RBRACE], t);
      } else {
        MembersTidy(ms[1..], t);
        MemberTidy(ms[0], PrintMembers(ms[1..]) + t);
        Wrapped(LBRACE, PrintMember(ms[0]), PrintMembers(ms[1..]), t);
      }
    case _ => TidyBehind(Print(v), t);
  }

  lemma NumberTidy(n: SafeInteger, t: Text)
    requires Tidy(t)
    ensures Tidy(PrintNumber(n) + t)
  {
    hide Tidy;
    var d := Numeral(if n < 0 then -n else n);
    assert forall c | c in d :: IsDigit(c);
    TidyBehind(PrintNumber(n), t);
  }

  lemma Wrapped(c: CodeUnit, a: Text, b: Text, t: Text)
    requires IsPlainUnit(c) && Tidy(a + (b + t))
    ensures Tidy([c] + a + b + t)
  {
    Assoc4([c], a, b, t);
    TidyStep(c, a + (b + t));
  }

  lemma {:induction false} ItemsTidy(items: seq<Value>, t: Text)
    requires Tidy(t)
    ensures Tidy(PrintItems(items) + t)
    decreases items, 0
  {
    hide Tidy;
    if items == [] {
      TidyStep(RBRACKET, t);
    } else {
      ItemsTidy(items[1..], t);
      PrintTidy(items[0], PrintItems(items[1..]) + t);
      Wrapped(COMMA, Print(items[0]), PrintItems(items[1..]), t);
    }
  }

  lemma {:induction false} MemberTidy(m: Member, t: Text)
    requires Tidy(t)
    ensures Tidy(PrintMember(m) + t)
    decreases m, 0
  {
    hide Tidy;
    PrintTidy(m.value, t);
    TidyStep(COLON, Print(m.value) + t);
    QuotedTidy(m.key, [COLON] + (Print(m.value) + t));
    Assoc4(Quoted(m.key), [COLON], Print(m.value), t);
  }

  lemma {:induction false} MembersTidy(ms: seq<Member>, t: Text)
    requires Tidy(t)
    ensures Tidy(PrintMembers(ms) + t)
    decreases ms, 0
  {
    hide Tidy;
    if ms == [] {
      TidyStep(RBRACE, t);
    } else {
      MembersTidy(ms[1..], t);
      MemberTidy(ms[0], PrintMembers(ms[1..]) + t);
      Wrapped(COMMA, PrintMember(ms[0]), PrintMembers(ms[1..]), t);
    }
  }

  // ---- Main results ----

  /** A tidy text that reads as this value. */
  predicate Spells(t: Text, v: Value) { Tidy(t) && ParseValue(t) == Some((v, [])) }

  /** The printed text is the value's only shortest tidy spelling. */
  lemma PrintSpelling(v: Value, t: Text)
    requires IsJson(v)
    ensures Spells(Print(v), v)
    ensures Spells(t, v) ==> |Print(v)| < |t| || t == Print(v)
  {
    hide Tidy;
    assert Tidy([]) by { NothingTidy(); }
    PrintTidy(v, []);
    ParsePrinted(v, []);
    assert Print(v) + [] == Print(v);
    if Spells(t, v) {
      ValueSpelling(t, v, []);
    }
  }

  lemma NothingTidy()
    ensures Tidy([])
  {
  }

  /** So is the canonical text, of the canonical value. */
  lemma CanonicalSpelling(v: Value, t: Text)
    requires WellFormed(v) && CanonicalText(v).Some?
    ensures Spells(CanonicalText(v).value, Canonical(v).value)
    ensures Spells(t, Canonical(v).value) ==> |CanonicalText(v).value| < |t| || t == CanonicalText(v).value
  {
    CanonicalStable(v);
    PrintSpelling(Canonical(v).value, t);
  }

  /** A string that needs no lone surrogate is written no longer than in any text, tidy or not, that reads as it. */
  lemma {:induction false} ShortestWhenPaired(s: Text, t: Text, rest: Text)
    requires Paired(s) && ParseChars(t) == Some((s, rest))
    ensures |Escape(s)| + 1 + |rest| <= |t|
    decreases |t|
  {
    if s != [] {
      var n := FirstToken(t, s, rest);
      if IsSurrogate(s[0]) {
        assert s[1..][1..] == s[2..];
        var m := FirstToken(t[n..], s[1..], rest);
        ShortestWhenPaired(s[2..], t[n..][m..], rest);
      } else {
        ShortestWhenPaired(s[1..], t[n..], rest);
      }
    }
  }

  /** The first token of a text that reads as a string: what is left of it, and how long it is at least. */
  lemma {:induction false} FirstToken(t: Text, s: Text, rest: Text) returns (n: nat)
    requires ParseChars(t) == Some((s, rest)) && s != []
    ensures 1 <= n <= |t| && ParseChars(t[n..]) == Some((s[1..], rest))
    ensures !IsSurrogate(s[0]) ==> |EscapeUnit(s[0])| <= n
  {
    n := if t[0] != BACKSLASH then 1 else if SimpleEscape(t[1]).Some? then 2 else 6;
  }

  predicate ShortForm(c: CodeUnit) { c in [QUOTE, BACKSLASH, 0x08, 0x09, 0x0A, 0x0C, 0x0D] }

  predicate LowerHex(c: CodeUnit) { IsDigit(c) || 0x61 <= c <= 0x66 }

  /** One unit alone: most stand for themselves; control units without a short form, and lone surrogates, are four
      lower-case digits; the rest is a backslash and a letter. */
  lemma UnitForms(c: CodeUnit)
    ensures c >= 0x20 && !IsSurrogate(c) && !ShortForm(c) ==> Quoted([c]) == [QUOTE, c, QUOTE]
    ensures !ShortForm(c) && (c < 0x20 || IsSurrogate(c)) ==>
              exists h: Text :: |h| == 4 && (forall i | 0 <= i < 4 :: LowerHex(h[i])) && HexUnit(h) == Some(c)
                  && Quoted([c]) == [QUOTE, BACKSLASH, 0x75] + h + [QUOTE]
    ensures ShortForm(c) ==>
              exists x :: SimpleEscape(x) == Some(c) && Quoted([c]) == [QUOTE, BACKSLASH, x, QUOTE]
  {
    hide HexUnit, EscapeUnit;
    Alone(c);
    if ShortForm(c) {
      var x := ShortUnit(c);
    } else if c < 0x20 || IsSurrogate(c) {
      var h := LongUnit(c);
      Assoc4([QUOTE], [BACKSLASH, 0x75], h, [QUOTE]);
    } else {
      PlainUnit(c);
    }
  }

  lemma Alone(c: CodeUnit)
    ensures Quoted([c]) == [QUOTE] + EscapeUnit(c) + [QUOTE]
  {
    assert [c][1..] == [] && Escape([]) == [] && EscapeUnit(c) + [] == EscapeUnit(c);
  }

  lemma PlainUnit(c: CodeUnit)
    requires c >= 0x20 && !IsSurrogate(c) && !ShortForm(c)
    ensures EscapeUnit(c) == [c]
  {
  }

  lemma {:induction false} ShortUnit(c: CodeUnit) returns (x: CodeUnit)
    requires ShortForm(c)
    ensures SimpleEscape(x) == Some(c) && EscapeUnit(c) == [BACKSLASH, x]
  {
    x := EscapeUnit(c)[1];
  }

  lemma {:induction false} LongUnit(c: CodeUnit) returns (h: Text)
    requires !ShortForm(c) && (c < 0x20 || IsSurrogate(c))
    ensures |h| == 4 && (forall i | 0 <= i < 4 :: LowerHex(h[i])) && HexUnit(h) == Some(c)
    ensures EscapeUnit(c) == [BACKSLASH, 0x75] + h
  {
    h := UnicodeEscape(c)[2..6];
    HexOfUnit(c);
  }
}
