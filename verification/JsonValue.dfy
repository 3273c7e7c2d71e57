/** The JavaScript values the contracts layer serializes, and the order an object lists its keys in. */
module JsonValue {
  import opened Text

  const MAX_SAFE_INTEGER := 9007199254740991

  type SafeInteger = n: int | -MAX_SAFE_INTEGER <= n <= MAX_SAFE_INTEGER

  /** An object is its own enumerable string-keyed members in the order it lists them.
      `Opaque` stands for functions and symbols. */
  datatype Value =
    | Undefined
    | Null
    | Bool(b: bool)
    | Num(n: SafeInteger)
    | NonFinite
    | Str(s: Text)
    | Arr(items: seq<Value>)
    | Obj(members: seq<Member>)
    | BigInt(big: int)
    | Opaque

  datatype Member = Member(key: Text, value: Value)

  // ---- Members by key ----

  function Keys(ms: seq<Member>): set<Text> {
    set m | m in ms :: m.key
  }

  ghost predicate Distinct(ms: seq<Member>) {
    forall i, j | 0 <= i < j < |ms| :: ms[i].key != ms[j].key
  }

  /** Every object anywhere in the value has distinct keys, as objects do. */
  ghost predicate WellFormed(v: Value) {
    match v
    case Arr(items) => forall i | 0 <= i < |items| :: WellFormed(items[i])
    case Obj(ms) => Distinct(ms) && forall i | 0 <= i < |ms| :: WellFormed(ms[i].value)
    case _ => true
  }

  // ---- The order of own keys ----

  /** An array index: the numeral of an integer below 2^32 - 1. */
  predicate IsIndexKey(k: Text) {
    IsNumeral(k) && NumeralValue(k) < 0xFFFF_FFFF
  }

  /** Those are the decimal spellings of 0 up to 2^32 - 2. */
  lemma IndexKeyExactly(k: Text)
    ensures IsIndexKey(k) <==> exists n: nat :: n < 0xFFFF_FFFF && k == Numeral(n)
  {
    if IsIndexKey(k) {
      NumeralOfValue(k);
    }
    forall n: nat | k == Numeral(n) ensures NumeralValue(k) == n {
      ValueOfNumeral(n);
    }
  }

  /** Array indices come first, in numeric order; other keys keep insertion order,
      which for sorted insertion is code-unit order. */
  predicate KeyBefore(a: Text, b: Text) {
    if IsIndexKey(a) then
      IsIndexKey(b) ==> NumeralValue(a) < NumeralValue(b)
    else
      !IsIndexKey(b) && Less(a, b)
  }

  lemma KeyBeforeIrreflexive(a: Text)
    ensures !KeyBefore(a, a)
  {
    LessIrreflexive(a);
  }

  lemma KeyBeforeTransitive(a: Text, b: Text, c: Text)
    requires KeyBefore(a, b) && KeyBefore(b, c)
    ensures KeyBefore(a, c)
  {
    if !IsIndexKey(a) {
      LessTransitive(a, b, c);
    }
  }

  lemma KeyBeforeTotal(a: Text, b: Text)
    ensures a == b || KeyBefore(a, b) || KeyBefore(b, a)
  {
    LessTotal(a, b);
    if IsIndexKey(a) && IsIndexKey(b) {
      NumeralOfValue(a);
      NumeralOfValue(b);
    }
  }

  /** Members in strictly ascending own-key order. */
  ghost predicate Ordered(ms: seq<Member>) {
    forall i, j | 0 <= i < j < |ms| :: KeyBefore(ms[i].key, ms[j].key)
  }

  lemma OrderedDistinct(ms: seq<Member>)
    requires Ordered(ms)
    ensures Distinct(ms)
  {
    forall i, j | 0 <= i < j < |ms|
      ensures ms[i].key != ms[j].key
    {
      KeyBeforeIrreflexive(ms[i].key);
    }
  }

  /** An ordered member list is determined by the members it holds. */
  lemma {:induction false} OrderedUnique(a: seq<Member>, b: seq<Member>)
    requires Ordered(a) && Ordered(b)
    requires forall m :: m in a <==> m in b
    ensures a == b
  {
    assert b != [] ==> b[0] in a;
    assert a != [] ==> a[0] in b;
    if b != [] {
      FirstIsLeast(a, b[0]);
      FirstIsLeast(b, a[0]);
      if KeyBefore(a[0].key, b[0].key) && KeyBefore(b[0].key, a[0].key) {
        KeyBeforeTransitive(a[0].key, b[0].key, a[0].key);
        KeyBeforeIrreflexive(a[0].key);
      }
      assert a[0] == b[0];
      TailMembers(a, b);
      OrderedUnique(a[1..], b[1..]);
      assert a == [a[0]] + a[1..] && b == [b[0]] + b[1..];
    }
  }

  lemma FirstIsLeast(ms: seq<Member>, m: Member)
    requires Ordered(ms) && m in ms
    ensures m == ms[0] || KeyBefore(ms[0].key, m.key)
  {
  }

  lemma TailMembers(a: seq<Member>, b: seq<Member>)
    requires Ordered(a) && Ordered(b) && a != [] && b != [] && a[0] == b[0]
    requires forall m :: m in a <==> m in b
    ensures forall m :: m in a[1..] <==> m in b[1..]
  {
    OrderedDistinct(a);
    OrderedDistinct(b);
    forall m
      ensures m in a[1..] <==> m in b[1..]
    {
      assert m in a[1..] <==> m in a && m != a[0] by { HeadNotInTail(a, m); }
      assert m in b[1..] <==> m in b && m != b[0] by { HeadNotInTail(b, m); }
    }
  }

  lemma HeadNotInTail(ms: seq<Member>, m: Member)
    requires Distinct(ms) && ms != []
    ensures m in ms[1..] <==> m in ms && m != ms[0]
  {
    if m in ms[1..] {
      var i :| 0 <= i < |ms[1..]| && ms[1..][i] == m;
      assert ms[i + 1] == m && ms[0].key != ms[i + 1].key;
    }
  }
}
