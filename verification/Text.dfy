/** UTF-16 text as JavaScript sees it: code units, code-unit order, `includes`, decimal numerals. */
module Text {
  type CodeUnit = c: int | 0 <= c < 0x1_0000
  type Text = seq<CodeUnit>

  /** The code units of an ASCII literal. */
  function Units(s: string): (t: Text)
    ensures |t| == |s|
  {
    seq<CodeUnit>(|s|, i requires 0 <= i < |s| => s[i] as int % 0x1_0000)
  }

  // ---- Concatenation ----

  lemma Assoc3(a: Text, b: Text, c: Text)
    ensures a + b + c == a + (b + c)
  {
  }

  lemma Assoc4(a: Text, b: Text, c: Text, d: Text)
    ensures a + b + c + d == a + (b + (c + d))
  {
  }

  lemma ConsTail(c: CodeUnit, t: Text)
    ensures ([c] + t)[1..] == t && ([c] + t)[0] == c
  {
  }

  // ---- Code-unit order: JavaScript's `<` on strings ----

  predicate Less(a: Text, b: Text) {
    b != [] && (a == [] || a[0] < b[0] || (a[0] == b[0] && Less(a[1..], b[1..])))
  }

  lemma {:induction false} LessIrreflexive(a: Text)
    ensures !Less(a, a)
  {
    if a != [] {
      LessIrreflexive(a[1..]);
    }
  }

  lemma {:induction false} LessTransitive(a: Text, b: Text, c: Text)
    requires Less(a, b) && Less(b, c)
    ensures Less(a, c)
  {
    if a != [] && a[0] == b[0] == c[0] {
      LessTransitive(a[1..], b[1..], c[1..]);
    }
  }

  lemma {:induction false} LessTotal(a: Text, b: Text)
    ensures a == b || Less(a, b) || Less(b, a)
  {
    if a != [] && b != [] && a[0] == b[0] {
      LessTotal(a[1..], b[1..]);
      assert a == [a[0]] + a[1..] && b == [b[0]] + b[1..];
    }
  }

  /** `a` and `b` agree before `i`, where `a` ends or has the smaller unit. */
  predicate DiffersAt(a: Text, b: Text, i: nat) {
    i <= |a| && i < |b| && a[..i] == b[..i] && (i == |a| || a[i] < b[i])
  }

  lemma AgreeFirst(a: Text, b: Text, i: nat)
    requires DiffersAt(a, b, i) && i > 0
    ensures a != [] && b != [] && a[0] == b[0]
  {
    assert a[..i][0] == b[..i][0];
  }

  /** A proper prefix comes first; otherwise the first difference decides. */
  lemma {:induction false} LessExactly(a: Text, b: Text)
    ensures Less(a, b) <==> exists i: nat :: DiffersAt(a, b, i)
  {
    if a == [] || b == [] || a[0] != b[0] {
      assert b != [] && (a == [] || a[0] < b[0]) ==> DiffersAt(a, b, 0);
      forall i: nat | DiffersAt(a, b, i) ensures i == 0 {
        if i > 0 { AgreeFirst(a, b, i); }
      }
    } else {
      LessExactly(a[1..], b[1..]);
      forall i: nat | DiffersAt(a[1..], b[1..], i) ensures DiffersAt(a, b, i + 1) {
        assert a[..i + 1] == [a[0]] + a[1..][..i] && b[..i + 1] == [b[0]] + b[1..][..i];
      }
      forall i: nat | DiffersAt(a, b, i) ensures i > 0 && DiffersAt(a[1..], b[1..], i - 1) {
        assert a[1..][..i - 1] == a[..i][1..] && b[1..][..i - 1] == b[..i][1..];
      }
    }
  }

  // ---- Substrings: `String.prototype.includes` ----

  predicate Contains(t: Text, p: Text) {
    exists i | 0 <= i <= |t| :: p <= t[i..]
  }

  lemma ContainsPart(t: Text, p: Text, from: nat, part: Text)
    requires from + |part| <= |t| && part == t[from..from + |part|]
    requires Contains(part, p)
    ensures Contains(t, p)
  {
    var i :| 0 <= i <= |part| && p <= part[i..];
    assert part[i..] <= t[from + i..];
  }

  /** A code unit the pattern does not contain separates two texts. */
  lemma ContainsAcross(a: Text, b: Text, p: Text)
    requires a != [] && a[|a| - 1] !in p && p != []
    ensures Contains(a + b, p) <==> Contains(a, p) || Contains(b, p)
  {
    var t := a + b;
    if Contains(t, p) {
      var i :| 0 <= i <= |t| && p <= t[i..];
      var u, k := t[i..], |a| - 1 - i;
      assert forall j | 0 <= j < |p| :: u[j] in p;
      assert 0 <= k ==> u[k] == a[|a| - 1];
      if i + |p| <= |a| {
        assert p <= a[i..];
      } else if |a| <= i {
        assert t[i..] == b[i - |a|..];
      }
    }
    if Contains(a, p) {
      ContainsPart(t, p, 0, a);
    }
    if Contains(b, p) {
      ContainsPart(t, p, |a|, b);
    }
  }

  lemma ContainsBefore(a: Text, b: Text, p: Text)
    requires b != [] && b[0] !in p && p != []
    ensures Contains(a + b, p) <==> Contains(a, p) || Contains(b, p)
  {
    var t := a + b;
    if Contains(t, p) {
      var i :| 0 <= i <= |t| && p <= t[i..];
      var u, k := t[i..], |a| - i;
      assert forall j | 0 <= j < |p| :: u[j] in p;
      assert 0 <= k ==> u[k] == b[0];
      if i + |p| <= |a| {
        assert p <= a[i..];
      } else if |a| <= i {
        assert t[i..] == b[i - |a|..];
      }
    }
    if Contains(a, p) {
      ContainsPart(t, p, 0, a);
    }
    if Contains(b, p) {
      ContainsPart(t, p, |a|, b);
    }
  }

  /** A leading code unit that cannot start the pattern adds no occurrence. */
  lemma ContainsBehind(c: CodeUnit, t: Text, p: Text)
    requires p != [] && c != p[0]
    ensures Contains([c] + t, p) <==> Contains(t, p)
  {
    var u := [c] + t;
    if Contains(u, p) {
      var i :| 0 <= i <= |u| && p <= u[i..];
      assert i > 0 ==> u[i..] == t[i - 1..];
    }
    if Contains(t, p) {
      ContainsPart(u, p, 1, t);
    }
  }

  /** An occurrence carries each of the pattern's code units. */
  lemma ContainsNeeds(t: Text, p: Text, c: CodeUnit)
    requires c in p && Contains(t, p)
    ensures c in t
  {
    var i :| 0 <= i <= |t| && p <= t[i..];
    var k :| 0 <= k < |p| && p[k] == c;
    assert t[i..][k] == c;
  }

  // ---- Decimal numerals ----

  const ZERO: CodeUnit := 0x30

  predicate IsDigit(c: CodeUnit) { ZERO <= c < ZERO + 10 }

  predicate AllDigits(t: Text) { forall c | c in t :: IsDigit(c) }

  /** Digits with no superfluous leading zero. */
  predicate IsNumeral(t: Text) {
    t != [] && AllDigits(t) && (t[0] == ZERO ==> |t| == 1)
  }

  function Numeral(n: nat): (t: Text)
    ensures IsNumeral(t)
    ensures t[0] == ZERO ==> n == 0
  {
    if n < 10 then [ZERO + n] else Numeral(n / 10) + [ZERO + n % 10]
  }

  function NumeralValue(t: Text): nat
    requires AllDigits(t)
  {
    if t == [] then 0
    else
      var last := t[|t| - 1];
      assert IsDigit(last);
      10 * NumeralValue(t[..|t| - 1]) + (last - ZERO)
  }

  lemma {:induction false} ValueOfNumeral(n: nat)
    ensures NumeralValue(Numeral(n)) == n
  {
    var t := Numeral(n);
    if n >= 10 {
      assert t[..|t| - 1] == Numeral(n / 10);
      ValueOfNumeral(n / 10);
    } else {
      assert t[..|t| - 1] == [];
    }
  }

  lemma NumeralSplit(t: Text)
    requires AllDigits(t) && t != []
    ensures AllDigits(t[..|t| - 1]) && IsDigit(t[|t| - 1])
    ensures NumeralValue(t) == 10 * NumeralValue(t[..|t| - 1]) + (t[|t| - 1] - ZERO)
  {
  }

  lemma {:induction false} NumeralPositive(t: Text)
    requires IsNumeral(t) && t[0] != ZERO
    ensures NumeralValue(t) > 0
  {
    NumeralSplit(t);
    if |t| > 1 {
      NumeralPositive(t[..|t| - 1]);
    }
  }

  function Pow10(e: nat): (p: nat)
    ensures p > 0
  {
    if e == 0 then 1 else 10 * Pow10(e - 1)
  }

  /** A numeral without a leading zero has as many digits as its value needs. */
  lemma {:induction false} NumeralBounds(t: Text)
    requires IsNumeral(t) && t[0] != ZERO
    ensures Pow10(|t| - 1) <= NumeralValue(t) < Pow10(|t|)
  {
    NumeralSplit(t);
    if |t| > 1 {
      NumeralBounds(t[..|t| - 1]);
    } else {
      assert NumeralValue(t[..0]) == 0 && Pow10(1) == 10 * Pow10(0);
    }
  }

  lemma {:induction false} Pow10Grows(d: nat, e: nat)
    requires d <= e
    ensures Pow10(d) <= Pow10(e)
  {
    if d < e {
      Pow10Grows(d, e - 1);
    }
  }

  lemma {:induction false} NumeralOfValue(t: Text)
    requires IsNumeral(t)
    ensures Numeral(NumeralValue(t)) == t
  {
    var init, last := t[..|t| - 1], t[|t| - 1];
    NumeralSplit(t);
    if |t| == 1 {
      assert init == [] && NumeralValue(t) == last - ZERO;
      assert t == [last];
    } else {
      NumeralOfValue(init);
      NumeralPositive(init);
      NumeralStep(NumeralValue(init), last - ZERO);
      assert t == init + [last];
    }
  }

  lemma NumeralStep(n: nat, d: nat)
    requires n > 0 && d < 10
    ensures Numeral(10 * n + d) == Numeral(n) + [ZERO + d]
  {
    assert (10 * n + d) / 10 == n && (10 * n + d) % 10 == d;
  }
}
