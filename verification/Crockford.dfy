/** The 32-character opaque alphabet, and the two ways references are rendered in it: one random byte a character,
    and the low 130 bits of a digest. */
module Crockford {
  type Byte = b: int | 0 <= b < 256

  const ALPHABET: string := "0123456789ABCDEFGHJKMNPQRSTVWXYZ"

  function Pow(base: nat, e: nat): (p: nat)
    ensures base > 0 ==> p > 0
  {
    if e == 0 then 1 else base * Pow(base, e - 1)
  }

  /** The character class of a body: digits and capitals without I, L, O and U. */
  predicate IsSymbol(c: char) {
    '0' <= c <= '9' || 'A' <= c <= 'H' || c == 'J' || c == 'K' || c == 'M' || c == 'N' || 'P' <= c <= 'T'
        || 'V' <= c <= 'Z'
  }

  predicate InAlphabet(s: string) { forall i | 0 <= i < |s| :: IsSymbol(s[i]) }

  function Rank(c: char): (i: nat)
    requires IsSymbol(c)
    ensures i < 32 && Symbol(i) == c
  {
    if c <= '9' then (c - '0') as nat
    else if c <= 'H' then (c - 'A') as nat + 10
    else if c <= 'K' then (c - 'J') as nat + 18
    else if c <= 'N' then (c - 'M') as nat + 20
    else if c <= 'T' then (c - 'P') as nat + 22
    else (c - 'V') as nat + 27
  }

  function Symbol(i: nat): (c: char)
    requires i < 32
    ensures IsSymbol(c)
  {
    if i < 10 then '0' + i as char
    else if i < 18 then 'A' + (i - 10) as char
    else if i < 20 then 'J' + (i - 18) as char
    else if i < 22 then 'M' + (i - 20) as char
    else if i < 27 then 'P' + (i - 22) as char
    else 'V' + (i - 27) as char
  }

  lemma RankOfSymbol(i: nat)
    requires i < 32
    ensures Rank(Symbol(i)) == i
  {
  }

  /** The alphabet's characters are the class, each once, in rank order. */
  lemma AlphabetAt(i: nat)
    requires i < 32
    ensures ALPHABET[i] == Symbol(i) && Rank(Symbol(i)) == i
  {
    hide Rank;
    RankOfSymbol(i);
    if i < 10 { Digits(i); } else if i < 18 { FirstLetters(i); } else { LastLetters(i); }
  }

  lemma Digits(i: nat)
    requires i < 10
    ensures ALPHABET[i] == '0' + i as char
  {
  }

  lemma FirstLetters(i: nat)
    requires 10 <= i < 18
    ensures ALPHABET[i] == 'A' + (i - 10) as char
  {
  }

  lemma LastLetters(i: nat)
    requires 18 <= i < 32
    ensures ALPHABET[i] == Symbol(i)
  {
    if i < 22 {
      assert i < 20 ==> ALPHABET[i] == 'J' + (i - 18) as char;
    } else if i < 27 {
      assert ALPHABET[i] == 'P' + (i - 22) as char;
    } else {
      assert ALPHABET[i] == 'V' + (i - 27) as char;
    }
  }
}

module References {
  import opened Crockford

  const LENGTH := 32

  /** The shape of an application reference. */
  predicate IsReference(s: string) { |s| == LENGTH && InAlphabet(s) }

  function Encoded(bytes: seq<Byte>): string {
    if bytes == [] then "" else [Symbol(bytes[0] % 32)] + Encoded(bytes[1..])
  }

  lemma {:induction false} EncodedAppend(bytes: seq<Byte>, b: Byte)
    ensures Encoded(bytes + [b]) == Encoded(bytes) + [Symbol(b % 32)]
  {
    if bytes == [] {
      assert bytes + [b] == [b] && Encoded([b]) == [Symbol(b % 32)] + Encoded([]);
    } else {
      EncodedAppend(bytes[1..], b);
      assert (bytes + [b])[1..] == bytes[1..] + [b];
    }
  }

  /** One character a byte; the bytes are the random source's. */
  method ApplicationRef(bytes: seq<Byte>) returns (out: string)
    requires |bytes| == LENGTH
    ensures IsReference(out) && bytes in Preimages(out)
    ensures forall i | 0 <= i < LENGTH :: Rank(out[i]) == bytes[i] % 32
  {
    out := "";
    for i := 0 to LENGTH
      invariant out == Encoded(bytes[..i]) && |out| == i && InAlphabet(out)
      invariant forall j | 0 <= j < i :: Rank(out[j]) == bytes[j] % 32
    {
      EncodedAppend(bytes[..i], bytes[i]);
      assert bytes[..i + 1] == bytes[..i] + [bytes[i]];
      AlphabetAt(bytes[i] % 32);
      out := out + [ALPHABET[bytes[i] % 32]];
    }
    assert bytes[..LENGTH] == bytes;
    PreimagesExactly(out, bytes);
  }

  function Prefixed(b: Byte, rest: set<seq<Byte>>): set<seq<Byte>> {
    set r | r in rest :: [b] + r
  }

  /** The first `k` of the eight bytes with residue `i`, before every sequence in `rest`. */
  function FirstBytes(i: nat, k: nat, rest: set<seq<Byte>>): set<seq<Byte>>
    requires i < 32 && k <= 8
  {
    if k == 0 then {} else FirstBytes(i, k - 1, rest) + Prefixed(i + 32 * (k - 1), rest)
  }

  /** The byte sequences a string comes from. */
  function Preimages(s: string): set<seq<Byte>>
    requires InAlphabet(s)
  {
    if s == "" then {[]} else FirstBytes(Rank(s[0]), 8, Preimages(s[1..]))
  }

  lemma {:induction false} FirstBytesExactly(i: nat, k: nat, rest: set<seq<Byte>>, bytes: seq<Byte>)
    requires i < 32 && k <= 8
    ensures bytes in FirstBytes(i, k, rest) <==>
            bytes != [] && bytes[0] % 32 == i && bytes[0] < 32 * k && bytes[1..] in rest
  {
    if k > 0 {
      FirstBytesExactly(i, k - 1, rest, bytes);
      var b := i + 32 * (k - 1);
      assert bytes in Prefixed(b, rest) <==> bytes != [] && bytes[0] == b && bytes[1..] in rest by {
        if bytes != [] && bytes[0] == b && bytes[1..] in rest {
          assert bytes == [b] + bytes[1..];
        }
      }
      if bytes != [] {
        SameResidue(bytes[0], i, k);
      }
    }
  }

  lemma SameResidue(b: Byte, i: nat, k: nat)
    requires i < 32 && 0 < k <= 8
    ensures b % 32 == i && 32 * (k - 1) <= b < 32 * k <==> b == i + 32 * (k - 1)
  {
  }

  lemma {:induction false} PreimagesExactly(s: string, bytes: seq<Byte>)
    requires InAlphabet(s)
    ensures bytes in Preimages(s) <==> Encoded(bytes) == s
  {
    if s != "" {
      FirstBytesExactly(Rank(s[0]), 8, Preimages(s[1..]), bytes);
      if bytes != [] {
        PreimagesExactly(s[1..], bytes[1..]);
        assert Encoded(bytes)[1..] == Encoded(bytes[1..]);
        AlphabetAt(bytes[0] % 32);
        assert s == [s[0]] + s[1..];
      }
    } else if bytes != [] {
      assert Encoded(bytes)[0] == Symbol(bytes[0] % 32);
    }
  }

  lemma {:induction false} PrefixedCount(b: Byte, rest: set<seq<Byte>>)
    ensures |Prefixed(b, rest)| == |rest|
    decreases |rest|
  {
    if rest != {} {
      var r :| r in rest;
      PrefixedCount(b, rest - {r});
      assert [b] + r !in Prefixed(b, rest - {r}) by {
        forall x | x in rest - {r} ensures [b] + x != [b] + r {
          assert ([b] + x)[1..] == x && ([b] + r)[1..] == r;
        }
      }
      assert Prefixed(b, rest) == Prefixed(b, rest - {r}) + {[b] + r};
    } else {
      assert Prefixed(b, rest) == {};
    }
  }

  lemma {:induction false} FirstBytesCount(i: nat, k: nat, rest: set<seq<Byte>>)
    requires i < 32 && k <= 8
    ensures |FirstBytes(i, k, rest)| == k * |rest|
  {
    if k > 0 {
      hide Prefixed;
      var b := i + 32 * (k - 1);
      FirstBytesCount(i, k - 1, rest);
      PrefixedCount(b, rest);
      NewPrefixes(i, k, rest);
      UnionCount(FirstBytes(i, k - 1, rest), Prefixed(b, rest));
      OneMore(k, |rest|);
    }
  }

  lemma UnionCount<T>(a: set<T>, b: set<T>)
    requires a !! b
    ensures |a + b| == |a| + |b|
  {
  }

  lemma OneMore(k: nat, n: nat)
    requires k > 0
    ensures k * n == (k - 1) * n + n
  {
  }

  lemma NewPrefixes(i: nat, k: nat, rest: set<seq<Byte>>)
    requires i < 32 && 0 < k <= 8
    ensures FirstBytes(i, k - 1, rest) !! Prefixed(i + 32 * (k - 1), rest)
  {
    hide FirstBytes;
    var added := Prefixed(i + 32 * (k - 1), rest);
    forall x | x in added ensures x !in FirstBytes(i, k - 1, rest) {
      FirstBytesExactly(i, k - 1, rest, x);
    }
  }

  lemma {:induction false} PreimagesCount(s: string)
    requires InAlphabet(s)
    ensures |Preimages(s)| == Pow(8, |s|)
  {
    if s != "" {
      PreimagesCount(s[1..]);
      FirstBytesCount(Rank(s[0]), 8, Preimages(s[1..]));
    }
  }

  /** Generation is uniform: every reference comes from exactly 8^32 of the equally likely byte strings. */
  lemma Uniform(s: string)
    requires IsReference(s)
    ensures |Preimages(s)| == Pow(8, LENGTH)
    ensures forall bytes :: bytes in Preimages(s) <==> Encoded(bytes) == s
  {
    PreimagesCount(s);
    forall bytes ensures bytes in Preimages(s) <==> Encoded(bytes) == s {
      PreimagesExactly(s, bytes);
    }
  }
}

module OpaqueBody {
  import opened Options
  import opened Crockford

  const LENGTH := 26

  predicate IsHexDigit(c: char) { '0' <= c <= '9' || 'a' <= c <= 'f' || 'A' <= c <= 'F' }

  predicate IsHex(s: string) { s != "" && forall i | 0 <= i < |s| :: IsHexDigit(s[i]) }

  function HexDigit(c: char): (d: nat)
    requires IsHexDigit(c)
    ensures d < 16
  {
    if c <= '9' then (c - '0') as nat else if 'a' <= c then (c - 'a') as nat + 10 else (c - 'A') as nat + 10
  }

  function HexValue(s: string): nat
    requires forall i | 0 <= i < |s| :: IsHexDigit(s[i])
  {
    if s == "" then 0 else 16 * HexValue(s[..|s| - 1]) + HexDigit(s[|s| - 1])
  }

  /** The number a string over the alphabet denotes, most significant digit first. */
  function Value(s: string): nat
    requires InAlphabet(s)
  {
    if s == "" then 0 else Rank(s[0]) * Pow(32, |s| - 1) + Value(s[1..])
  }

  lemma {:induction false} ValueBounded(s: string)
    requires InAlphabet(s)
    ensures Value(s) < Pow(32, |s|)
  {
    if s != "" {
      ValueBounded(s[1..]);
      var p := Pow(32, |s| - 1);
      assert Rank(s[0]) * p <= 31 * p by { TimesMonotone(Rank(s[0]), 31, p); }
    }
  }

  lemma TimesMonotone(a: nat, b: nat, p: nat)
    requires a <= b
    ensures a * p <= b * p
  {
  }

  /** A body is decided by the number it denotes. */
  lemma {:induction false} ValueInjective(s: string, t: string)
    requires InAlphabet(s) && InAlphabet(t) && |s| == |t| && Value(s) == Value(t)
    ensures s == t
  {
    if s != "" {
      var p := Pow(32, |s| - 1);
      ValueBounded(s[1..]);
      ValueBounded(t[1..]);
      QuotientUnique(p, Rank(s[0]), Value(s[1..]), Rank(t[0]), Value(t[1..]));
      ValueInjective(s[1..], t[1..]);
      assert s == [s[0]] + s[1..] && t == [t[0]] + t[1..];
    }
  }

  lemma QuotientUnique(p: nat, q: nat, r: nat, q': nat, r': nat)
    requires r < p && r' < p && q * p + r == q' * p + r'
    ensures q == q' && r == r'
  {
    if q < q' {
      TimesMonotone(q + 1, q', p);
    } else if q' < q {
      TimesMonotone(q' + 1, q, p);
    }
  }

  lemma RemainderUnique(n: nat, p: nat, q: nat, r: nat)
    requires r < p && n == q * p + r
    ensures r == n % p
  {
    QuotientUnique(p, q, r, n / p, n % p);
  }

  /** Repeated division by 32, least significant digit first; a string that is not hexadecimal is refused. */
  method FromHex(hex: string) returns (body: Option<string>)
    ensures body.Some? <==> IsHex(hex)
    ensures body.Some? ==>
              |body.value| == LENGTH && InAlphabet(body.value) && Value(body.value) == HexValue(hex) % Pow(32, LENGTH)
  {
    if !IsHex(hex) { return None; }
    var n: nat := HexValue(hex);
    var out := "";
    for i := 0 to LENGTH
      invariant |out| == i && InAlphabet(out)
      invariant n * Pow(32, i) + Value(out) == HexValue(hex)
    {
      DigitMoves(n, out);
      AlphabetAt(n % 32);
      out := [ALPHABET[n % 32]] + out;
      n := n / 32;
    }
    ValueBounded(out);
    RemainderUnique(HexValue(hex), Pow(32, LENGTH), n, Value(out));
    return Some(out);
  }

  lemma DigitMoves(n: nat, out: string)
    requires InAlphabet(out)
    ensures var next := [Symbol(n % 32)] + out;
            && InAlphabet(next)
            && n * Pow(32, |out|) + Value(out) == n / 32 * Pow(32, |out| + 1) + Value(next)
  {
    hide Symbol, Rank;
    var next := [Symbol(n % 32)] + out;
    var p := Pow(32, |out|);
    RankOfSymbol(n % 32);
    ValueCons(Symbol(n % 32), out);
    Shift(n, p);
  }

  lemma ValueCons(c: char, s: string)
    requires IsSymbol(c) && InAlphabet(s)
    ensures Value([c] + s) == Rank(c) * Pow(32, |s|) + Value(s)
  {
    hide Rank;
    assert ([c] + s)[1..] == s;
  }

  lemma Shift(n: nat, p: nat)
    ensures n * p == n / 32 * (32 * p) + n % 32 * p
  {
    assert n == 32 * (n / 32) + n % 32;
  }

  predicate IsBodyOf(body: string, hex: string)
    requires IsHex(hex)
  {
    |body| == LENGTH && InAlphabet(body) && Value(body) == HexValue(hex) % Pow(32, LENGTH)
  }

  /** Two digests render the same body exactly when they agree modulo 2^130. */
  lemma SharedExactly(hex: string, hex': string, body: string, body': string)
    requires IsHex(hex) && IsHex(hex') && IsBodyOf(body, hex) && IsBodyOf(body', hex')
    ensures body == body' <==> HexValue(hex) % Pow(2, 130) == HexValue(hex') % Pow(2, 130)
  {
    ThirtyTwos(LENGTH);
    if Value(body) == Value(body') {
      ValueInjective(body, body');
    }
  }

  lemma {:induction false} ThirtyTwos(e: nat)
    ensures Pow(32, e) == Pow(2, 5 * e)
  {
    if e > 0 {
      ThirtyTwos(e - 1);
      var k := 5 * (e - 1);
      assert Pow(2, k + 1) == 2 * Pow(2, k) && Pow(2, k + 2) == 2 * Pow(2, k + 1) && Pow(2, k + 3) == 2 * Pow(2, k + 2);
      assert Pow(2, k + 4) == 2 * Pow(2, k + 3) && Pow(2, k + 5) == 2 * Pow(2, k + 4);
    }
  }

  function HexChar(d: nat): char
    requires d < 16
  {
    if d < 10 then '0' + d as char else 'a' + (d - 10) as char
  }

  /** How a digest is written: two lower-case digits a byte. */
  function HexOf(bytes: seq<Byte>): (s: string)
    ensures |s| == 2 * |bytes| && forall i | 0 <= i < |s| :: IsHexDigit(s[i])
  {
    if bytes == [] then ""
    else
      var b := bytes[|bytes| - 1];
      HexOf(bytes[..|bytes| - 1]) + [HexChar(b / 16), HexChar(b % 16)]
  }

  /** The number a digest is, most significant byte first. */
  function BigEndian(bytes: seq<Byte>): nat {
    if bytes == [] then 0 else bytes[0] * Pow(256, |bytes| - 1) + BigEndian(bytes[1..])
  }

  lemma {:induction false} BigEndianAppend(bytes: seq<Byte>, b: Byte)
    ensures BigEndian(bytes + [b]) == 256 * BigEndian(bytes) + b
  {
    if bytes == [] {
      assert [b][1..] == [] && Pow(256, 0) == 1 && BigEndian([b]) == b * Pow(256, 0) + BigEndian([]);
    } else {
      BigEndianAppend(bytes[1..], b);
      assert (bytes + [b])[1..] == bytes[1..] + [b];
      TimesPow(bytes[0], |bytes|);
    }
  }

  lemma TimesPow(b: nat, e: nat)
    requires e > 0
    ensures b * Pow(256, e) == 256 * (b * Pow(256, e - 1))
  {
  }

  /** Reading a digest's text back gives the digest's own value. */
  lemma {:induction false} HexReads(bytes: seq<Byte>)
    ensures HexValue(HexOf(bytes)) == BigEndian(bytes)
  {
    if bytes != [] {
      var init, b := bytes[..|bytes| - 1], bytes[|bytes| - 1];
      HexReads(init);
      assert bytes == init + [b];
      BigEndianAppend(init, b);
      HexPair(HexOf(init), b);
    }
  }

  lemma HexPair(s: string, b: Byte)
    requires forall i | 0 <= i < |s| :: IsHexDigit(s[i])
    ensures HexValue(s + [HexChar(b / 16), HexChar(b % 16)]) == 256 * HexValue(s) + b
  {
    var t := s + [HexChar(b / 16)];
    var u := s + [HexChar(b / 16), HexChar(b % 16)];
    assert u[..|u| - 1] == t && t[..|t| - 1] == s;
    assert HexDigit(HexChar(b / 16)) == b / 16 && HexDigit(HexChar(b % 16)) == b % 16;
  }

  function Lower(c: char): char { if 'A' <= c <= 'Z' then c - 'A' + 'a' else c }

  /** Letter case does not matter, and neither do leading zeros. */
  lemma {:induction false} CaseAndZeros(s: string, t: string)
    requires IsHex(s) && IsHex(t) && |s| == |t| && forall i | 0 <= i < |s| :: Lower(s[i]) == Lower(t[i])
    ensures HexValue(s) == HexValue(t) && HexValue("0" + s) == HexValue(s)
  {
    var i := |s| - 1;
    assert Lower(s[i]) == Lower(t[i]);
    assert ("0" + s)[..i + 1] == "0" + s[..i];
    if i > 0 {
      CaseAndZeros(s[..i], t[..i]);
    } else {
      assert "0" + s[..i] == "0" && s[..i] == "" && t[..i] == "" && "0"[..0] == "";
      assert HexValue("0") == 16 * HexValue("") + HexDigit('0');
    }
  }
}
