/** JSON text: the printer `JSON.stringify` applies to canonical values, and a parser
    for the whitespace-free grammar of RFC 8259 over integers. */
module JsonText {
  import opened Options
  import opened Text
  import opened JsonValue

  const QUOTE: CodeUnit := 0x22
  const COMMA: CodeUnit := 0x2C
  const MINUS: CodeUnit := 0x2D
  const COLON: CodeUnit := 0x3A
  const LBRACKET: CodeUnit := 0x5B
  const BACKSLASH: CodeUnit := 0x5C
  const RBRACKET: CodeUnit := 0x5D
  const LBRACE: CodeUnit := 0x7B
  const RBRACE: CodeUnit := 0x7D

  // ---- Strings ----

  predicate IsHighSurrogate(c: CodeUnit) { 0xD800 <= c < 0xDC00 }
  predicate IsLowSurrogate(c: CodeUnit) { 0xDC00 <= c < 0xE000 }
  predicate IsSurrogate(c: CodeUnit) { 0xD800 <= c < 0xE000 }

  function HexDigit(d: int): CodeUnit
    requires 0 <= d < 16
  {
    if d < 10 then 0x30 + d else 0x61 + (d - 10)
  }

  function HexValue(c: CodeUnit): (r: Option<int>)
    ensures r.Some? ==> 0 <= r.value < 16
  {
    if 0x30 <= c < 0x3A then Some(c - 0x30)
    else if 0x61 <= c < 0x67 then Some(c - 0x61 + 10)
    else if 0x41 <= c < 0x47 then Some(c - 0x41 + 10)
    else None
  }

  function UnicodeEscape(c: CodeUnit): Text {
    [BACKSLASH, 0x75, HexDigit(c / 16 / 16 / 16), HexDigit(c / 16 / 16 % 16), HexDigit(c / 16 % 16), HexDigit(c % 16)]
  }

  /** How one code unit is written when it is not half of a surrogate pair. */
  function EscapeUnit(c: CodeUnit): Text {
    if c == 0x08 then [BACKSLASH, 0x62]
    else if c == 0x09 then [BACKSLASH, 0x74]
    else if c == 0x0A then [BACKSLASH, 0x6E]
    else if c == 0x0C then [BACKSLASH, 0x66]
    else if c == 0x0D then [BACKSLASH, 0x72]
    else if c == QUOTE || c == BACKSLASH then [BACKSLASH, c]
    else if c < 0x20 || IsSurrogate(c) then UnicodeEscape(c)
    else [c]
  }

  predicate StartsWithPair(s: Text) {
    |s| >= 2 && IsHighSurrogate(s[0]) && IsLowSurrogate(s[1])
  }

  function Escape(s: Text): Text {
    if s == [] then []
    else if StartsWithPair(s) then s[..2] + Escape(s[2..])
    else EscapeUnit(s[0]) + Escape(s[1..])
  }

  function Quoted(s: Text): Text {
    [QUOTE] + Escape(s) + [QUOTE]
  }

  /** The unit a two-character escape stands for. */
  function SimpleEscape(c: CodeUnit): Option<CodeUnit> {
    if c == QUOTE || c == BACKSLASH || c == 0x2F then Some(c)
    else if c == 0x62 then Some(0x08)
    else if c == 0x74 then Some(0x09)
    else if c == 0x6E then Some(0x0A)
    else if c == 0x66 then Some(0x0C)
    else if c == 0x72 then Some(0x0D)
    else None
  }

  /** The body of a string up to and including its closing quote, and what follows. */
  function ParseChars(t: Text): (r: Option<(Text, Text)>)
    ensures r.Some? ==> |r.value.1| < |t|
    decreases |t|
  {
    if t == [] || t[0] < 0x20 then None
    else if t[0] == QUOTE then Some(([], t[1..]))
    else if t[0] != BACKSLASH then PrependUnit(t[0], ParseChars(t[1..]))
    else if |t| >= 2 && SimpleEscape(t[1]).Some? then PrependUnit(SimpleEscape(t[1]).value, ParseChars(t[2..]))
    else if |t| >= 6 && t[1] == 0x75 && HexUnit(t[2..6]).Some? then
        PrependUnit(HexUnit(t[2..6]).value, ParseChars(t[6..]))
    else None
  }

  function PrependUnit(c: CodeUnit, r: Option<(Text, Text)>): Option<(Text, Text)> {
    match r
    case None => None
    case Some((s, rest)) => Some(([c] + s, rest))
  }

  function HexUnit(h: Text): Option<CodeUnit>
    requires |h| == 4
  {
    match (HexValue(h[0]), HexValue(h[1]), HexValue(h[2]), HexValue(h[3]))
    case (Some(a), Some(b), Some(c), Some(d)) => Some(16 * (16 * (16 * a + b) + c) + d)
    case _ => None
  }

  lemma HexOfDigit(d: int)
    requires 0 <= d < 16
    ensures HexValue(HexDigit(d)) == Some(d)
  {
  }

  lemma HexOfUnit(c: CodeUnit)
    ensures HexUnit(UnicodeEscape(c)[2..6]) == Some(c)
  {
    var c1 := c / 16;
    var c2 := c1 / 16;
    HexOfDigit(c2 / 16);
    HexOfDigit(c2 % 16);
    HexOfDigit(c1 % 16);
    HexOfDigit(c % 16);
    assert UnicodeEscape(c)[2..6] == [HexDigit(c2 / 16), HexDigit(c2 % 16), HexDigit(c1 % 16), HexDigit(c % 16)];
  }

  lemma ParseEscapedUnit(c: CodeUnit, rest: Text)
    ensures ParseChars(EscapeUnit(c) + rest) == PrependUnit(c, ParseChars(rest))
  {
    hide ParseChars, HexUnit, UnicodeEscape;
    var e := EscapeUnit(c);
    if c >= 0x20 && c != QUOTE && c != BACKSLASH && !IsSurrogate(c) {
      ParsePlain(c, rest);
    } else if e == UnicodeEscape(c) {
      ParseUnicode(c, rest);
    } else {
      ParseSimple(c, e[1], rest);
    }
  }

  lemma ParsePlain(c: CodeUnit, rest: Text)
    requires c >= 0x20 && c != QUOTE && c != BACKSLASH
    ensures ParseChars([c] + rest) == PrependUnit(c, ParseChars(rest))
  {
    assert ([c] + rest)[1..] == rest;
  }

  lemma ParseSimple(c: CodeUnit, letter: CodeUnit, rest: Text)
    requires SimpleEscape(letter) == Some(c)
    ensures ParseChars([BACKSLASH, letter] + rest) == PrependUnit(c, ParseChars(rest))
  {
    assert ([BACKSLASH, letter] + rest)[2..] == rest;
  }

  lemma ParseUnicode(c: CodeUnit, rest: Text)
    ensures ParseChars(UnicodeEscape(c) + rest) == PrependUnit(c, ParseChars(rest))
  {
    hide HexUnit;
    var e := UnicodeEscape(c);
    var t := e + rest;
    HexOfUnit(c);
    assert t[0] == BACKSLASH && t[1] == 0x75 && t[2..6] == e[2..6] && t[6..] == rest;
  }

  /** Un-escaping recovers every string, unpaired surrogates included. */
  lemma {:induction false} ParseEscaped(s: Text, tail: Text)
    requires tail != [] && tail[0] == QUOTE
    ensures ParseChars(Escape(s) + tail) == Some((s, tail[1..]))
    decreases |s|
  {
    if s == [] {
      assert [] + tail == tail;
    } else if StartsWithPair(s) {
      var more := Escape(s[2..]) + tail;
      ParseEscaped(s[2..], tail);
      ParsePlain(s[1], more);
      ParsePlain(s[0], [s[1]] + more);
      Assoc3(s[..2], Escape(s[2..]), tail);
      assert s[..2] == [s[0]] + [s[1]];
      Assoc3([s[0]], [s[1]], more);
      Assoc3([s[0]], [s[1]], s[2..]);
      assert s == s[..2] + s[2..];
    } else {
      ParseEscaped(s[1..], tail);
      ParseEscapedUnit(s[0], Escape(s[1..]) + tail);
      Assoc3(EscapeUnit(s[0]), Escape(s[1..]), tail);
      assert s == [s[0]] + s[1..];
    }
  }

  // ---- Numbers ----

  function PrintNumber(n: int): Text {
    if n < 0 then [MINUS] + Numeral(-n) else Numeral(n)
  }

  function DigitRun(t: Text): (n: nat)
    ensures n <= |t|
    ensures forall k | 0 <= k < n :: IsDigit(t[k])
    ensures n < |t| ==> !IsDigit(t[n])
  {
    if t == [] || !IsDigit(t[0]) then 0 else 1 + DigitRun(t[1..])
  }

  function ParseNumeral(t: Text): (r: Option<(int, Text)>)
    ensures r.Some? ==> |r.value.1| < |t|
  {
    var n := DigitRun(t);
    if IsNumeral(t[..n]) then Some((NumeralValue(t[..n]), t[n..])) else None
  }

  function ParseNumber(t: Text): (r: Option<(Value, Text)>)
    ensures r.Some? ==> |r.value.1| < |t|
  {
    var negative := t != [] && t[0] == MINUS;
    match ParseNumeral(if negative then t[1..] else t)
    case None => None
    case Some((n, rest)) =>
      if n > MAX_SAFE_INTEGER then None
      else Some((Num(if negative then -n else n), rest))
  }

  /** What may follow a printed value without changing how it reads. */
  predicate Stops(rest: Text) { rest == [] || !IsDigit(rest[0]) }

  lemma {:induction false} DigitRunOf(t: Text, rest: Text)
    requires AllDigits(t) && Stops(rest)
    ensures DigitRun(t + rest) == |t|
  {
    if t == [] {
      assert t + rest == rest;
    } else {
      assert IsDigit(t[0]);
      DigitRunOf(t[1..], rest);
      assert (t + rest)[1..] == t[1..] + rest;
    }
  }

  lemma ParseRun(d: Text, rest: Text)
    requires IsNumeral(d) && Stops(rest)
    ensures ParseNumeral(d + rest) == Some((NumeralValue(d), rest))
  {
    DigitRunOf(d, rest);
    assert (d + rest)[..|d|] == d && (d + rest)[|d|..] == rest;
  }

  lemma ParsePrintedNumber(n: SafeInteger, rest: Text)
    requires Stops(rest)
    ensures ParseNumber(PrintNumber(n) + rest) == Some((Num(n), rest))
  {
    hide ParseNumeral, Numeral, NumeralValue;
    var d := Numeral(if n < 0 then -n else n);
    ParseRun(d, rest);
    ValueOfNumeral(if n < 0 then -n else n);
    if n < 0 {
      Assoc3([MINUS], d, rest);
      ConsTail(MINUS, d + rest);
    } else {
      assert d[0] in d && (d + rest)[0] == d[0];
    }
  }

  // ---- Values ----

  /** `JSON.stringify` without indentation. Canonical values hold no `Undefined`, `NonFinite` or `Opaque`. */
  function Print(v: Value): Text
    decreases v, 0
  {
    match v
    case Bool(b) => if b then Units("true") else Units("false")
    case Num(n) => PrintNumber(n)
    case Str(s) => Quoted(s)
    case Arr(items) =>
      if items == [] then [LBRACKET, RBRACKET] else [LBRACKET] + Print(items[0]) + PrintItems(items[1..])
    case Obj(ms) =>
      if ms == [] then [LBRACE, RBRACE] else [LBRACE] + PrintMember(ms[0]) + PrintMembers(ms[1..])
    case _ => Units("null")
  }

  /** The remaining items of an array, each behind a comma, and the closing bracket. */
  function PrintItems(items: seq<Value>): Text
    decreases items, 0
  {
    if items == [] then [RBRACKET] else [COMMA] + Print(items[0]) + PrintItems(items[1..])
  }

  function PrintMember(m: Member): Text
    decreases m, 0
  {
    Quoted(m.key) + [COLON] + Print(m.value)
  }

  function PrintMembers(ms: seq<Member>): Text
    decreases ms, 0
  {
    if ms == [] then [RBRACE] else [COMMA] + PrintMember(ms[0]) + PrintMembers(ms[1..])
  }

  function ParseLiteral(t: Text, literal: Text, v: Value): (r: Option<(Value, Text)>)
    requires literal != []
    ensures r.Some? ==> |r.value.1| < |t|
  {
    if literal <= t then Some((v, t[|literal|..])) else None
  }

  /** One value at the front of the text, and what follows it. */
  function ParseValue(t: Text): (r: Option<(Value, Text)>)
    ensures r.Some? ==> |r.value.1| < |t|
    decreases |t|, 0
  {
    if t == [] then None
    else if t[0] == 0x6E then ParseLiteral(t, Units("null"), Null)
    else if t[0] == 0x74 then ParseLiteral(t, Units("true"), Bool(true))
    else if t[0] == 0x66 then ParseLiteral(t, Units("false"), Bool(false))
    else if t[0] == QUOTE then
      match ParseChars(t[1..])
      case None => None
      case Some((s, rest)) => Some((Str(s), rest))
    else if t[0] == LBRACKET then
      if |t| >= 2 && t[1] == RBRACKET then Some((Arr([]), t[2..]))
      else match ParseItem(t[1..])
        case None => None
        case Some((items, rest)) => Some((Arr(items), rest))
    else if t[0] == LBRACE then
      if |t| >= 2 && t[1] == RBRACE then Some((Obj([]), t[2..]))
      else match ParseMember(t[1..])
        case None => None
        case Some((ms, rest)) => Some((Obj(ms), rest))
    else ParseNumber(t)
  }

  /** An item and the rest of its array. */
  function ParseItem(t: Text): (r: Option<(seq<Value>, Text)>)
    ensures r.Some? ==> |r.value.1| < |t|
    decreases |t|, 1
  {
    match ParseValue(t)
    case None => None
    case Some((v, rest)) =>
      match ParseItems(rest)
      case None => None
      case Some((items, more)) => Some(([v] + items, more))
  }

  function ParseItems(t: Text): (r: Option<(seq<Value>, Text)>)
    ensures r.Some? ==> |r.value.1| < |t|
    decreases |t|, 0
  {
    if t == [] then None
    else if t[0] == RBRACKET then Some(([], t[1..]))
    else if t[0] == COMMA then ParseItem(t[1..])
    else None
  }

  /** A member and the rest of its object. */
  function ParseMember(t: Text): (r: Option<(seq<Member>, Text)>)
    ensures r.Some? ==> |r.value.1| < |t|
    decreases |t|, 1
  {
    if t == [] || t[0] != QUOTE then None
    else match ParseChars(t[1..])
      case None => None
      case Some((key, rest)) =>
        if rest == [] || rest[0] != COLON then None
        else match ParseValue(rest[1..])
          case None => None
          case Some((v, rest)) =>
            match ParseMembers(rest)
            case None => None
            case Some((ms, more)) => Some(([Member(key, v)] + ms, more))
  }

  function ParseMembers(t: Text): (r: Option<(seq<Member>, Text)>)
    ensures r.Some? ==> |r.value.1| < |t|
    decreases |t|, 0
  {
    if t == [] then None
    else if t[0] == RBRACE then Some(([], t[1..]))
    else if t[0] == COMMA then ParseMember(t[1..])
    else None
  }

  /** Made of null, booleans, integers, strings, arrays and objects only. */
  ghost predicate IsJson(v: Value) {
    match v
    case Arr(items) => forall i | 0 <= i < |items| :: IsJson(items[i])
    case Obj(ms) => forall i | 0 <= i < |ms| :: IsJson(ms[i].value)
    case _ => v.Null? || v.Bool? || v.Num? || v.Str?
  }

  // ---- Parsing undoes printing ----

  /** A value reads back from its own text, whatever follows, and nothing more is consumed. */
  lemma {:induction false} ParsePrinted(v: Value, rest: Text)
    requires IsJson(v) && Stops(rest)
    ensures ParseValue(Print(v) + rest) == Some((v, rest))
    decreases v, 1
  {
    match v
    case Arr(items) =>
      if items != [] {
        ParsePrintedItem(items, rest);
      }
      ParseOpenedArray(items, rest);
    case Obj(ms) =>
      if ms != [] {
        ParsePrintedMember(ms, rest);
      }
      ParseOpenedObject(ms, rest);
    case _ => ParsePrintedLeaf(v, rest);
  }

  lemma ParsePrintedLeaf(v: Value, rest: Text)
    requires IsJson(v) && !v.Arr? && !v.Obj? && Stops(rest)
    ensures ParseValue(Print(v) + rest) == Some((v, rest))
  {
    match v
    case Num(n) => ParsePrintedNum(n, rest);
    case Str(s) => ParseQuoted(s, rest);
    case Null => ParsePrintedLiteral(v, Units("null"), rest);
    case Bool(b) => ParsePrintedLiteral(v, if b then Units("true") else Units("false"), rest);
  }

  lemma ParsePrintedNum(n: SafeInteger, rest: Text)
    requires Stops(rest)
    ensures ParseValue(Print(Num(n)) + rest) == Some((Num(n), rest))
  {
    hide ParseNumber, ParseLiteral, PrintNumber, Stops;
    ParsePrintedNumber(n, rest);
    PrintStarts(Num(n));
    assert (PrintNumber(n) + rest)[0] == PrintNumber(n)[0];
  }

  lemma ParsePrintedLiteral(v: Value, w: Text, rest: Text)
    requires v.Null? || v.Bool?
    requires w == match v case Null => Units("null") case Bool(b) => if b then Units("true") else Units("false")
    ensures ParseValue(Print(v) + rest) == Some((v, rest))
  {
    hide ParseLiteral, ParseNumber;
    ParseLiteralText(w, v, rest);
  }

  lemma ParseQuoted(s: Text, rest: Text)
    ensures ParseValue(Quoted(s) + rest) == Some((Str(s), rest))
  {
    ParseEscaped(s, [QUOTE] + rest);
    ConsTail(QUOTE, rest);
    Assoc4([QUOTE], Escape(s), [QUOTE], rest);
    ConsTail(QUOTE, Escape(s) + ([QUOTE] + rest));
  }

  lemma ParseLiteralText(w: Text, v: Value, rest: Text)
    requires w != []
    ensures ParseLiteral(w + rest, w, v) == Some((v, rest))
    ensures (w + rest)[0] == w[0]
  {
    assert (w + rest)[|w|..] == rest;
  }

  lemma PrintStarts(v: Value)
    requires IsJson(v)
    ensures Print(v) != [] && Print(v)[0] != RBRACKET
    ensures v.Num? ==> Print(v)[0] == MINUS || IsDigit(Print(v)[0])
  {
    match v
    case Num(n) =>
      var d := Numeral(if n < 0 then -n else n);
      assert d[0] in d;
    case Arr(items) =>
      if items != [] {
        Assoc3([LBRACKET], Print(items[0]), PrintItems(items[1..]));
      }
    case Obj(ms) =>
      if ms != [] {
        Assoc3([LBRACE], PrintMember(ms[0]), PrintMembers(ms[1..]));
      }
    case _ =>
  }

  lemma ParseEmpty(rest: Text)
    ensures ParseValue([LBRACKET, RBRACKET] + rest) == Some((Arr([]), rest))
    ensures ParseValue([LBRACE, RBRACE] + rest) == Some((Obj([]), rest))
  {
    assert ([LBRACKET, RBRACKET] + rest)[2..] == rest;
    assert ([LBRACE, RBRACE] + rest)[2..] == rest;
  }

  lemma ParseOpenedArray(items: seq<Value>, rest: Text)
    requires forall i | 0 <= i < |items| :: IsJson(items[i])
    requires items != [] ==> ParseItem(Print(items[0]) + (PrintItems(items[1..]) + rest)) == Some((items, rest))
    ensures ParseValue(Print(Arr(items)) + rest) == Some((Arr(items), rest))
  {
    if items == [] {
      ParseEmpty(rest);
    } else {
      PrintStarts(items[0]);
      ParseOpenBracket(Print(items[0]), PrintItems(items[1..]), rest);
    }
  }

  lemma ParseOpenBracket(first: Text, more: Text, rest: Text)
    requires first != [] && first[0] != RBRACKET
    ensures ParseValue([LBRACKET] + first + more + rest) ==
            match ParseItem(first + (more + rest))
            case None => None
            case Some((items, rest)) => Some((Arr(items), rest))
  {
    Assoc4([LBRACKET], first, more, rest);
    ConsTail(LBRACKET, first + (more + rest));
  }

  lemma ParseOpenedObject(ms: seq<Member>, rest: Text)
    requires ms != [] ==> ParseMember(PrintMember(ms[0]) + (PrintMembers(ms[1..]) + rest)) == Some((ms, rest))
    ensures ParseValue(Print(Obj(ms)) + rest) == Some((Obj(ms), rest))
  {
    if ms == [] {
      ParseEmpty(rest);
    } else {
      PrintMemberStarts(ms[0]);
      ParseOpenBrace(PrintMember(ms[0]), PrintMembers(ms[1..]), rest);
    }
  }

  lemma PrintMemberStarts(m: Member)
    ensures PrintMember(m) == [QUOTE] + (Escape(m.key) + ([QUOTE, COLON] + Print(m.value)))
  {
    Assoc3([QUOTE] + Escape(m.key), [QUOTE], [COLON]);
    Assoc3([QUOTE] + Escape(m.key), [QUOTE, COLON], Print(m.value));
    assert [QUOTE] + [COLON] == [QUOTE, COLON];
    Assoc3([QUOTE], Escape(m.key), [QUOTE, COLON] + Print(m.value));
  }

  lemma ParseOpenBrace(first: Text, more: Text, rest: Text)
    requires first != [] && first[0] == QUOTE
    ensures ParseValue([LBRACE] + first + more + rest) ==
            match ParseMember(first + (more + rest))
            case None => None
            case Some((ms, rest)) => Some((Obj(ms), rest))
  {
    Assoc4([LBRACE], first, more, rest);
    ConsTail(LBRACE, first + (more + rest));
  }

  lemma {:induction false} ParsePrintedItem(items: seq<Value>, rest: Text)
    requires items != [] && forall i | 0 <= i < |items| :: IsJson(items[i])
    ensures ParseItem(Print(items[0]) + (PrintItems(items[1..]) + rest)) == Some((items, rest))
    decreases items, 0
  {
    var next := items[1..];
    ParsePrinted(items[0], PrintItems(next) + rest);
    assert items == [items[0]] + next;
    if next != [] {
      ParsePrintedItem(next, rest);
    }
    ParseItemsTail(next, rest);
  }

  lemma ParseItemsTail(items: seq<Value>, rest: Text)
    requires items != [] ==> ParseItem(Print(items[0]) + (PrintItems(items[1..]) + rest)) == Some((items, rest))
    ensures ParseItems(PrintItems(items) + rest) == Some((items, rest))
  {
    if items == [] {
      ConsTail(RBRACKET, rest);
    } else {
      Assoc4([COMMA], Print(items[0]), PrintItems(items[1..]), rest);
      ConsTail(COMMA, Print(items[0]) + (PrintItems(items[1..]) + rest));
    }
  }

  lemma {:induction false} ParsePrintedMember(ms: seq<Member>, rest: Text)
    requires ms != [] && forall i | 0 <= i < |ms| :: IsJson(ms[i].value)
    ensures ParseMember(PrintMember(ms[0]) + (PrintMembers(ms[1..]) + rest)) == Some((ms, rest))
    decreases ms, 0
  {
    var next := ms[1..];
    ParsePrinted(ms[0].value, PrintMembers(next) + rest);
    assert ms == [ms[0]] + next;
    if next != [] {
      ParsePrintedMember(next, rest);
    }
    ParseMembersTail(next, rest);
    ParseKeyed(ms[0], PrintMembers(next) + rest);
  }

  lemma ParseMembersTail(ms: seq<Member>, rest: Text)
    requires ms != [] ==> ParseMember(PrintMember(ms[0]) + (PrintMembers(ms[1..]) + rest)) == Some((ms, rest))
    ensures ParseMembers(PrintMembers(ms) + rest) == Some((ms, rest))
  {
    if ms == [] {
      ConsTail(RBRACE, rest);
    } else {
      Assoc4([COMMA], PrintMember(ms[0]), PrintMembers(ms[1..]), rest);
      ConsTail(COMMA, PrintMember(ms[0]) + (PrintMembers(ms[1..]) + rest));
    }
  }

  lemma ParseKeyed(m: Member, tail: Text)
    requires ParseValue(Print(m.value) + tail) == Some((m.value, tail))
    ensures ParseMember(PrintMember(m) + tail) ==
            match ParseMembers(tail)
            case None => None
            case Some((ms, more)) => Some(([m] + ms, more))
  {
    var colon := [COLON] + (Print(m.value) + tail);
    ParseEscaped(m.key, [QUOTE] + colon);
    ConsTail(QUOTE, colon);
    ConsTail(COLON, Print(m.value) + tail);
    ConsTail(QUOTE, Escape(m.key) + ([QUOTE] + colon));
    assert PrintMember(m) + tail == [QUOTE] + (Escape(m.key) + ([QUOTE] + colon)) by {
      RegroupMember(Escape(m.key), Print(m.value), tail);
    }
  }

  lemma RegroupMember(key: Text, value: Text, tail: Text)
    ensures [QUOTE] + key + [QUOTE] + [COLON] + value + tail == [QUOTE] + (key + ([QUOTE] + ([COLON] + (value + tail))))
  {
  }

  /** Different JSON values print differently. */
  lemma PrintInjective(v: Value, w: Value)
    requires IsJson(v) && IsJson(w) && Print(v) == Print(w)
    ensures v == w
  {
    ParsePrinted(v, []);
    ParsePrinted(w, []);
    assert Print(v) + [] == Print(w) + [];
  }
}
