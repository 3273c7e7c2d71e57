/** Canonical JSON: dropping, ordering and printing, and what the canonical text determines. */
module CanonicalJson {
  import opened Options
  import opened Text
  import opened JsonValue
  import opened JsonText

  /** Assigning this key to an object literal sets its prototype instead of creating a member. */
  const PROTO: Text := Units("__proto__")

  /** The member reaches the output, provided its value can be canonicalized. */
  predicate Counts(m: Member) {
    !m.value.Undefined? && m.key != PROTO
  }

  // ---- Specification ----

  function Canonical(v: Value): Option<Value>
    decreases v, 0
  {
    match v
    case Undefined => None
    case NonFinite => None
    case BigInt(_) => None
    case Opaque => None
    case Arr(items) =>
      (match CanonicalItems(items)
       case None => None
       case Some(cs) => Some(Arr(cs)))
    case Obj(ms) =>
      (match CanonicalMembers(ms)
       case None => None
       case Some(cs) => Some(Obj(cs)))
    case _ => Some(v)
  }

  function CanonicalItems(items: seq<Value>): Option<seq<Value>>
    decreases items, 0
  {
    if items == [] then Some([])
    else match (Canonical(items[0]), CanonicalItems(items[1..]))
      case (Some(c), Some(cs)) => Some([c] + cs)
      case _ => None
  }

  function CanonicalMembers(ms: seq<Member>): Option<seq<Member>>
    decreases ms, 0
  {
    if ms == [] then Some([])
    else if ms[0].value.Undefined? then CanonicalMembers(ms[1..])
    else match (Canonical(ms[0].value), CanonicalMembers(ms[1..]))
      case (Some(c), Some(cs)) => Some(if ms[0].key == PROTO then cs else Place(Member(ms[0].key, c), cs))
      case _ => None
  }

  /** A member put where own-key order wants it. */
  function Place(m: Member, cs: seq<Member>): seq<Member> {
    if cs == [] || KeyBefore(m.key, cs[0].key) then [m] + cs
    else [cs[0]] + Place(m, cs[1..])
  }

  lemma {:induction false} PlaceHolds(m: Member, cs: seq<Member>)
    ensures forall x :: x in Place(m, cs) <==> x == m || x in cs
  {
    if !(cs == [] || KeyBefore(m.key, cs[0].key)) {
      PlaceHolds(m, cs[1..]);
      assert cs == [cs[0]] + cs[1..];
    }
  }

  lemma {:induction false} PlaceOrdered(m: Member, cs: seq<Member>)
    requires Ordered(cs) && m.key !in Keys(cs)
    ensures Ordered(Place(m, cs))
  {
    var r := Place(m, cs);
    if cs == [] {
    } else if KeyBefore(m.key, cs[0].key) {
      forall j | 0 <= j < |cs|
        ensures KeyBefore(m.key, cs[j].key)
      {
        if j > 0 {
          KeyBeforeTransitive(m.key, cs[0].key, cs[j].key);
        }
      }
    } else {
      assert cs[0] in cs && cs[0].key in Keys(cs);
      KeyBeforeTotal(m.key, cs[0].key);
      assert forall x | x in cs[1..] :: x in cs;
      PlaceOrdered(m, cs[1..]);
      PlaceHolds(m, cs[1..]);
      var rest := Place(m, cs[1..]);
      forall j | 0 <= j < |rest|
        ensures KeyBefore(cs[0].key, rest[j].key)
      {
        assert rest[j] in rest;
        if rest[j] != m {
          FirstIsLeast(cs, rest[j]);
          TailIsAfter(cs, rest[j]);
        }
      }
    }
  }

  lemma TailIsAfter(cs: seq<Member>, x: Member)
    requires Ordered(cs) && cs != [] && x in cs[1..]
    ensures KeyBefore(cs[0].key, x.key)
  {
    var i :| 0 <= i < |cs[1..]| && cs[1..][i] == x;
    assert cs[i + 1] == x;
  }

  // ---- The output members, characterized ----

  /** `m` is the canonical form of a counting member. */
  ghost predicate Kept(ms: seq<Member>, m: Member) {
    exists i | 0 <= i < |ms| :: Counts(ms[i]) && ms[i].key == m.key && Canonical(ms[i].value) == Some(m.value)
  }

  ghost predicate DefinedAccepted(ms: seq<Member>) {
    forall i | 0 <= i < |ms| :: ms[i].value.Undefined? || Canonical(ms[i].value).Some?
  }

  ghost predicate HoldsKept(ms: seq<Member>, cs: seq<Member>) {
    Ordered(cs) && forall m :: m in cs <==> Kept(ms, m)
  }

  lemma {:induction false} KeptCons(ms: seq<Member>, m: Member)
    requires ms != []
    ensures Kept(ms, m) <==>
              Kept(ms[1..], m) || (Counts(ms[0]) && ms[0].key == m.key && Canonical(ms[0].value) == Some(m.value))
  {
    if Kept(ms, m) {
      var i :| 0 <= i < |ms| && Counts(ms[i]) && ms[i].key == m.key && Canonical(ms[i].value) == Some(m.value);
      assert i > 0 ==> ms[1..][i - 1] == ms[i];
    }
    if Kept(ms[1..], m) {
      var i :| 0 <= i < |ms[1..]| && Counts(ms[1..][i]) && ms[1..][i].key == m.key
          && Canonical(ms[1..][i].value) == Some(m.value);
      assert ms[i + 1] == ms[1..][i];
    }
  }

  lemma {:induction false} CanonicalMembersHold(ms: seq<Member>)
    requires Distinct(ms)
    ensures CanonicalMembers(ms).Some? <==> DefinedAccepted(ms)
    ensures CanonicalMembers(ms).Some? ==> HoldsKept(ms, CanonicalMembers(ms).value)
  {
    if ms != [] {
      var rest := ms[1..];
      CanonicalMembersHold(rest);
      forall m ensures Kept(ms, m) <==>
          Kept(rest, m) || (Counts(ms[0]) && ms[0].key == m.key && Canonical(ms[0].value) == Some(m.value)) {
        KeptCons(ms, m);
      }
      assert DefinedAccepted(ms) <==>
          (ms[0].value.Undefined? || Canonical(ms[0].value).Some?) && DefinedAccepted(rest) by {
        assert ms == [ms[0]] + rest;
      }
      if CanonicalMembers(ms).Some? && Counts(ms[0]) {
        var c := Member(ms[0].key, Canonical(ms[0].value).value);
        var cs := CanonicalMembers(rest).value;
        assert c.key !in Keys(cs) by {
          forall x | x in cs
            ensures x.key != c.key
          {
            assert Kept(rest, x);
          }
        }
        PlaceHolds(c, cs);
        PlaceOrdered(c, cs);
      }
    }
  }

  lemma {:induction false} CanonicalItemsHold(items: seq<Value>)
    ensures CanonicalItems(items).Some? <==> forall i | 0 <= i < |items| :: Canonical(items[i]).Some?
    ensures CanonicalItems(items).Some? ==>
              && |CanonicalItems(items).value| == |items|
              && forall i | 0 <= i < |items| :: Canonical(items[i]) == Some(CanonicalItems(items).value[i])
  {
    if items != [] {
      CanonicalItemsHold(items[1..]);
      assert items == [items[0]] + items[1..];
    }
  }

  // ---- What the output is ----

  /** The canonical value is plain JSON with distinct, ordered keys, and is its own canonical form. */
  lemma {:induction false} CanonicalStable(v: Value)
    requires WellFormed(v) && Canonical(v).Some?
    ensures IsJson(Canonical(v).value) && WellFormed(Canonical(v).value)
    ensures Canonical(Canonical(v).value) == Canonical(v)
    decreases v
  {
    match v
    case Arr(items) =>
      var cs := CanonicalItems(items).value;
      CanonicalItemsHold(items);
      forall i | 0 <= i < |items|
        ensures IsJson(cs[i]) && WellFormed(cs[i]) && Canonical(cs[i]) == Some(cs[i])
      {
        CanonicalStable(items[i]);
      }
      CanonicalItemsHold(cs);
      assert CanonicalItems(cs).value == cs;
    case Obj(ms) =>
      var cs := CanonicalMembers(ms).value;
      CanonicalMembersHold(ms);
      OrderedDistinct(cs);
      forall m | m in cs
        ensures IsJson(m.value) && WellFormed(m.value) && Canonical(m.value) == Some(m.value) && Counts(m)
      {
        assert Kept(ms, m);
        var i :| 0 <= i < |ms| && Counts(ms[i]) && ms[i].key == m.key && Canonical(ms[i].value) == Some(m.value);
        CanonicalStable(ms[i].value);
      }
      KeptOfStable(cs);
      CanonicalMembersHold(cs);
      OrderedUnique(CanonicalMembers(cs).value, cs);
    case _ =>
  }

  lemma KeptOfStable(cs: seq<Member>)
    requires Distinct(cs) && forall m | m in cs :: Canonical(m.value) == Some(m.value) && Counts(m)
    ensures DefinedAccepted(cs)
    ensures forall m :: m in cs <==> Kept(cs, m)
  {
    forall i | 0 <= i < |cs|
      ensures Canonical(cs[i].value) == Some(cs[i].value) && Counts(cs[i])
    {
      assert cs[i] in cs;
    }
    forall m | Kept(cs, m)
      ensures m in cs
    {
      var i :| 0 <= i < |cs| && Counts(cs[i]) && cs[i].key == m.key && Canonical(cs[i].value) == Some(m.value);
      assert cs[i] == m;
    }
  }

  // ---- When canonicalization succeeds ----

  /** The values at the bottom of everything that is visited: array items, and members that are not `undefined`. */
  function Leaves(v: Value): set<Value>
    decreases v, 0
  {
    match v
    case Arr(items) => ItemLeaves(items)
    case Obj(ms) => MemberLeaves(ms)
    case _ => {v}
  }

  function ItemLeaves(items: seq<Value>): set<Value>
    decreases items, 0
  {
    if items == [] then {} else Leaves(items[0]) + ItemLeaves(items[1..])
  }

  function MemberLeaves(ms: seq<Member>): set<Value>
    decreases ms, 0
  {
    if ms == [] then {}
    else (if ms[0].value.Undefined? then {} else Leaves(ms[0].value)) + MemberLeaves(ms[1..])
  }

  predicate PrintableLeaf(v: Value) {
    v.Null? || v.Bool? || v.Num? || v.Str?
  }

  /** Canonicalization succeeds exactly when every visited leaf is null, a boolean, a finite number or a string. */
  lemma {:induction false} AcceptedExactly(v: Value)
    ensures Canonical(v).Some? <==> forall x | x in Leaves(v) :: PrintableLeaf(x)
    decreases v, 1
  {
    match v
    case Arr(items) => AcceptedItems(items);
    case Obj(ms) => AcceptedMembers(ms);
    case _ => LeafLeaves(v);
  }

  lemma LeafLeaves(v: Value)
    requires !v.Arr? && !v.Obj?
    ensures (forall x | x in Leaves(v) :: PrintableLeaf(x)) <==> PrintableLeaf(v)
  {
    assert Leaves(v) == {v};
    assert v in {v};
  }

  lemma {:induction false} AcceptedItems(items: seq<Value>)
    ensures CanonicalItems(items).Some? <==> forall x | x in ItemLeaves(items) :: PrintableLeaf(x)
    decreases items, 0
  {
    if items != [] {
      AcceptedExactly(items[0]);
      AcceptedItems(items[1..]);
      assert forall x :: x in ItemLeaves(items) <==> x in Leaves(items[0]) || x in ItemLeaves(items[1..]);
    }
  }

  lemma {:induction false} AcceptedMembers(ms: seq<Member>)
    ensures CanonicalMembers(ms).Some? <==> forall x | x in MemberLeaves(ms) :: PrintableLeaf(x)
    decreases ms, 0
  {
    if ms != [] {
      AcceptedExactly(ms[0].value);
      AcceptedMembers(ms[1..]);
      assert forall x :: x in MemberLeaves(ms) <==>
        (!ms[0].value.Undefined? && x in Leaves(ms[0].value)) || x in MemberLeaves(ms[1..]);
    }
  }

  // ---- What the canonical text determines ----

  /** Equal up to key order, `undefined`-valued members and prototype assignments, at every level. */
  ghost predicate Same(v: Value, w: Value)
    decreases v, 0
  {
    match (v, w)
    case (Arr(a), Arr(b)) =>
      |a| == |b| && forall i | 0 <= i < |a| :: Same(a[i], b[i])
    case (Obj(a), Obj(b)) =>
      && (forall i {:trigger SameIn(a[i], b)} | 0 <= i < |a| :: Counts(a[i]) ==> SameIn(a[i], b))
      && (forall j {:trigger CountsKey(a, b[j].key)} | 0 <= j < |b| :: Counts(b[j]) ==> CountsKey(a, b[j].key))
    case _ => v == w
  }

  ghost predicate SameIn(m: Member, b: seq<Member>)
    decreases m, 0
  {
    exists j | 0 <= j < |b| :: Counts(b[j]) && b[j].key == m.key && Same(m.value, b[j].value)
  }

  ghost predicate CountsKey(ms: seq<Member>, key: Text) {
    exists i | 0 <= i < |ms| :: Counts(ms[i]) && ms[i].key == key
  }

  lemma {:induction false} SameIffCanonical(v: Value, w: Value)
    requires WellFormed(v) && WellFormed(w) && Canonical(v).Some? && Canonical(w).Some?
    ensures Same(v, w) <==> Canonical(v) == Canonical(w)
    decreases v
  {
    match (v, w)
    case (Arr(a), Arr(b)) =>
      CanonicalItemsHold(a);
      CanonicalItemsHold(b);
      if |a| == |b| {
        forall i | 0 <= i < |a|
          ensures Same(a[i], b[i]) <==> Canonical(a[i]) == Canonical(b[i])
        {
          SameIffCanonical(a[i], b[i]);
        }
        if Same(v, w) {
          assert CanonicalItems(a).value == CanonicalItems(b).value;
        }
      }
    case (Obj(a), Obj(b)) =>
      CanonicalMembersHold(a);
      CanonicalMembersHold(b);
      forall i, j | 0 <= i < |a| && 0 <= j < |b| && Counts(a[i]) && Counts(b[j])
        ensures Same(a[i].value, b[j].value) <==> Canonical(a[i].value) == Canonical(b[j].value)
      {
        SameIffCanonical(a[i].value, b[j].value);
      }
      if Same(v, w) {
        forall m ensures Kept(a, m) <==> Kept(b, m) {
          SameKept(a, b, m);
        }
        OrderedUnique(CanonicalMembers(a).value, CanonicalMembers(b).value);
      }
      if Canonical(v) == Canonical(w) {
        assert forall m :: Kept(a, m) <==> Kept(b, m);
        KeptSame(a, b);
      }
    case _ =>
  }

  ghost predicate Agrees(a: seq<Member>, b: seq<Member>) {
    forall i, j {:trigger Same(a[i].value, b[j].value)} | 0 <= i < |a| && 0 <= j < |b| && Counts(a[i])
        && Counts(b[j]) ::
      Same(a[i].value, b[j].value) <==> Canonical(a[i].value) == Canonical(b[j].value)
  }

  lemma {:induction false} SameWitness(a: seq<Member>, b: seq<Member>, i: nat) returns (j: nat)
    requires Same(Obj(a), Obj(b)) && i < |a| && Counts(a[i])
    ensures j < |b| && Counts(b[j]) && b[j].key == a[i].key && Same(a[i].value, b[j].value)
  {
    assert SameIn(a[i], b);
    j :| 0 <= j < |b| && Counts(b[j]) && b[j].key == a[i].key && Same(a[i].value, b[j].value);
  }

  lemma {:induction false} KeyWitness(a: seq<Member>, b: seq<Member>, j: nat) returns (i: nat)
    requires Same(Obj(a), Obj(b)) && j < |b| && Counts(b[j])
    ensures i < |a| && Counts(a[i]) && a[i].key == b[j].key
  {
    assert CountsKey(a, b[j].key);
    i :| 0 <= i < |a| && Counts(a[i]) && a[i].key == b[j].key;
  }

  lemma SameKept(a: seq<Member>, b: seq<Member>, m: Member)
    requires Distinct(b) && Agrees(a, b) && Same(Obj(a), Obj(b))
    ensures Kept(a, m) <==> Kept(b, m)
  {
    if Kept(a, m) {
      var i :| 0 <= i < |a| && Counts(a[i]) && a[i].key == m.key && Canonical(a[i].value) == Some(m.value);
      var j := SameWitness(a, b, i);
    }
    if Kept(b, m) {
      var j :| 0 <= j < |b| && Counts(b[j]) && b[j].key == m.key && Canonical(b[j].value) == Some(m.value);
      var i := KeyWitness(a, b, j);
      var k := SameWitness(a, b, i);
      assert k == j;
    }
  }

  lemma KeptSame(a: seq<Member>, b: seq<Member>)
    requires Agrees(a, b) && DefinedAccepted(a) && DefinedAccepted(b)
    requires forall m :: Kept(a, m) <==> Kept(b, m)
    ensures Same(Obj(a), Obj(b))
  {
    forall i | 0 <= i < |a| && Counts(a[i])
      ensures SameIn(a[i], b)
    {
      assert Kept(a, Member(a[i].key, Canonical(a[i].value).value));
      var j :| 0 <= j < |b| && Counts(b[j]) && b[j].key == a[i].key && Canonical(b[j].value) == Canonical(a[i].value);
      assert Same(a[i].value, b[j].value);
    }
    forall j | 0 <= j < |b| && Counts(b[j])
      ensures CountsKey(a, b[j].key)
    {
      assert Kept(b, Member(b[j].key, Canonical(b[j].value).value));
    }
  }

  // ---- The operation ----

  function SortedKeys(keys: seq<Text>): seq<Text> {
    if keys == [] then [] else PlaceKey(keys[0], SortedKeys(keys[1..]))
  }

  function PlaceKey(k: Text, ks: seq<Text>): seq<Text> {
    if ks == [] || Less(k, ks[0]) then [k] + ks else [ks[0]] + PlaceKey(k, ks[1..])
  }

  function OwnKeys(ms: seq<Member>): seq<Text> {
    seq(|ms|, i requires 0 <= i < |ms| => ms[i].key)
  }

  /** Creating a member with a key the object does not have yet. */
  function Assigned(out: seq<Member>, key: Text, v: Value): seq<Member> {
    if key == PROTO then out
    else if IsIndexKey(key) then Place(Member(key, v), out)
    else out + [Member(key, v)]
  }

  ghost predicate SortedText(ks: seq<Text>) {
    forall i, j | 0 <= i < j < |ks| :: Less(ks[i], ks[j])
  }

  lemma {:induction false} PlaceKeySorted(k: Text, ks: seq<Text>)
    requires SortedText(ks) && k !in ks
    ensures SortedText(PlaceKey(k, ks))
    ensures forall x :: x in PlaceKey(k, ks) <==> x == k || x in ks
  {
    if ks == [] {
    } else if Less(k, ks[0]) {
      forall j | 0 <= j < |ks|
        ensures Less(k, ks[j])
      {
        if j > 0 {
          LessTransitive(k, ks[0], ks[j]);
        }
      }
    } else {
      LessTotal(k, ks[0]);
      PlaceKeySorted(k, ks[1..]);
      var rest := PlaceKey(k, ks[1..]);
      forall j | 0 <= j < |rest|
        ensures Less(ks[0], rest[j])
      {
        assert rest[j] in rest;
        if rest[j] != k {
          var i :| 0 <= i < |ks[1..]| && ks[1..][i] == rest[j];
          assert Less(ks[0], ks[i + 1]);
        }
      }
      assert ks == [ks[0]] + ks[1..];
    }
  }

  lemma {:induction false} SortedKeysSorted(keys: seq<Text>)
    requires forall i, j | 0 <= i < j < |keys| :: keys[i] != keys[j]
    ensures SortedText(SortedKeys(keys))
    ensures forall k :: k in SortedKeys(keys) <==> k in keys
  {
    if keys != [] {
      SortedKeysSorted(keys[1..]);
      assert keys[0] !in keys[1..];
      PlaceKeySorted(keys[0], SortedKeys(keys[1..]));
      assert keys == [keys[0]] + keys[1..];
    }
  }

  /** Assigning keys in code-unit order leaves the object in own-key order. */
  lemma AssignedOrdered(out: seq<Member>, key: Text, v: Value)
    requires Ordered(out) && forall m | m in out :: Less(m.key, key)
    ensures Ordered(Assigned(out, key, v))
    ensures forall m :: m in Assigned(out, key, v) <==> m in out || (key != PROTO && m == Member(key, v))
  {
    LessIrreflexive(key);
    if key != PROTO {
      if IsIndexKey(key) {
        PlaceHolds(Member(key, v), out);
        PlaceOrdered(Member(key, v), out);
      } else {
        forall i | 0 <= i < |out|
          ensures KeyBefore(out[i].key, key)
        {
          assert out[i] in out;
        }
      }
    }
  }

  method IndexOf(ms: seq<Member>, key: Text) returns (i: nat)
    requires key in OwnKeys(ms)
    ensures i < |ms| && ms[i].key == key
  {
    var k :| 0 <= k < |ms| && OwnKeys(ms)[k] == key;
    i := k;
  }

  method Canonicalize(value: Value) returns (r: Option<Value>)
    requires WellFormed(value)
    ensures r == Canonical(value)
    decreases value
  {
    match value
    case Undefined => return None;
    case NonFinite => return None;
    case BigInt(_) => return None;
    case Opaque => return None;
    case Arr(items) =>
      CanonicalItemsHold(items);
      var out: seq<Value> := [];
      for i := 0 to |items|
        invariant |out| == i
        invariant forall k | 0 <= k < i :: Canonical(items[k]) == Some(out[k])
      {
        var c := Canonicalize(items[i]);
        if c.None? { return None; }
        out := out + [c.value];
      }
      assert out == CanonicalItems(items).value;
      return Some(Arr(out));
    case Obj(ms) =>
      CanonicalMembersHold(ms);
      var keys := SortedKeys(OwnKeys(ms));
      SortedKeysSorted(OwnKeys(ms));
      var out: seq<Member> := [];
      for i := 0 to |keys|
        invariant Ordered(out)
        invariant forall m :: m in out <==> Kept(ms, m) && m.key in keys[..i]
        invariant forall k | 0 <= k < |ms| && ms[k].key in keys[..i] ::
                    ms[k].value.Undefined? || Canonical(ms[k].value).Some?
      {
        assert keys[i] in keys;
        var k := IndexOf(ms, keys[i]);
        KeysAdvance(ms, keys, i, k);
        if ms[k].value.Undefined? { continue; }
        var c := Canonicalize(ms[k].value);
        if c.None? { return None; }
        AssignedOrdered(out, keys[i], c.value);
        out := Assigned(out, keys[i], c.value);
      }
      AllKeysSeen(ms, keys);
      OrderedUnique(out, CanonicalMembers(ms).value);
      return Some(Obj(out));
    case _ => return Some(value);
  }

  lemma KeysAdvance(ms: seq<Member>, keys: seq<Text>, i: nat, k: nat)
    requires Distinct(ms) && SortedText(keys) && i < |keys| && k < |ms| && ms[k].key == keys[i]
    ensures forall x :: x in keys[..i + 1] <==> x in keys[..i] || x == keys[i]
    ensures forall x | x in keys[..i] :: Less(x, keys[i])
    ensures forall m: Member | m.key == keys[i] :: Kept(ms, m) <==>
              Counts(ms[k]) && Canonical(ms[k].value) == Some(m.value)
    ensures forall j | 0 <= j < |ms| && ms[j].key == keys[i] :: j == k
  {
    assert keys[..i + 1] == keys[..i] + [keys[i]];
  }

  lemma AllKeysSeen(ms: seq<Member>, keys: seq<Text>)
    requires forall x :: x in keys <==> x in OwnKeys(ms)
    ensures keys[..|keys|] == keys
    ensures forall k | 0 <= k < |ms| :: ms[k].key in keys
    ensures forall m | Kept(ms, m) :: m.key in keys
  {
    forall k | 0 <= k < |ms|
      ensures ms[k].key in keys
    {
      assert OwnKeys(ms)[k] == ms[k].key;
    }
  }

  // ---- Main results ----

  function CanonicalText(v: Value): Option<Text> {
    match Canonical(v)
    case None => None
    case Some(c) => Some(Print(c))
  }

  /** Parsing canonical text consumes all of it and yields the canonical value, whose own text is the same. */
  lemma RoundTrip(v: Value)
    requires WellFormed(v) && CanonicalText(v).Some?
    ensures ParseValue(CanonicalText(v).value) == Some((Canonical(v).value, []))
    ensures CanonicalText(Canonical(v).value) == CanonicalText(v)
  {
    CanonicalStable(v);
    ParsePrinted(Canonical(v).value, []);
    assert Print(Canonical(v).value) + [] == Print(Canonical(v).value);
  }

  /** Canonical text decides meaning, in both directions. */
  lemma TextDecides(v: Value, w: Value)
    requires WellFormed(v) && WellFormed(w) && CanonicalText(v).Some? && CanonicalText(w).Some?
    ensures CanonicalText(v) == CanonicalText(w) <==> Same(v, w)
  {
    SameIffCanonical(v, w);
    CanonicalStable(v);
    CanonicalStable(w);
    if CanonicalText(v) == CanonicalText(w) {
      PrintInjective(Canonical(v).value, Canonical(w).value);
    }
  }

  // ---- Where the emitted order is not code-unit order ----

  ghost predicate InCodeUnitOrder(cs: seq<Member>) {
    forall i, j | 0 <= i < j < |cs| :: Less(cs[i].key, cs[j].key)
  }

  /** An array index that is listed before a key it does not precede as text. */
  predicate Misplaced(index: Text, other: Text) {
    && IsIndexKey(index)
    && Less(other, index)
    && (IsIndexKey(other) ==> NumeralValue(index) < NumeralValue(other))
  }

  ghost predicate NoneMisplaced(ms: seq<Member>) {
    forall i, j | 0 <= i < |ms| && 0 <= j < |ms| && Counts(ms[i]) && Counts(ms[j]) :: !Misplaced(ms[i].key, ms[j].key)
  }

  /** The members come out in code-unit order exactly when no array index among the keys is misplaced. */
  lemma CodeUnitOrderExactly(ms: seq<Member>)
    requires Distinct(ms) && CanonicalMembers(ms).Some?
    ensures InCodeUnitOrder(CanonicalMembers(ms).value) <==> NoneMisplaced(ms)
  {
    var cs := CanonicalMembers(ms).value;
    CanonicalMembersHold(ms);
    if InCodeUnitOrder(cs) {
      forall i, j | 0 <= i < |ms| && 0 <= j < |ms| && Counts(ms[i]) && Counts(ms[j])
        ensures !Misplaced(ms[i].key, ms[j].key)
      {
        var a := Member(ms[i].key, Canonical(ms[i].value).value);
        var b := Member(ms[j].key, Canonical(ms[j].value).value);
        assert Kept(ms, a) && Kept(ms, b);
        OrderedNotMisplaced(cs, a, b);
      }
    } else {
      var x, y :| 0 <= x < y < |cs| && !Less(cs[x].key, cs[y].key);
      LessTotal(cs[x].key, cs[y].key);
      KeyBeforeIrreflexive(cs[x].key);
      var i := KeptOrigin(ms, cs[x]);
      var j := KeptOrigin(ms, cs[y]);
      assert Misplaced(ms[i].key, ms[j].key);
    }
  }

  lemma OrderedNotMisplaced(cs: seq<Member>, a: Member, b: Member)
    requires Ordered(cs) && InCodeUnitOrder(cs) && a in cs && b in cs
    ensures !Misplaced(a.key, b.key)
  {
    var x :| 0 <= x < |cs| && cs[x] == a;
    var y :| 0 <= y < |cs| && cs[y] == b;
    LessAsymmetric(a.key, b.key);
    LessIrreflexive(a.key);
  }

  lemma {:induction false} KeptOrigin(ms: seq<Member>, m: Member) returns (i: nat)
    requires Kept(ms, m)
    ensures i < |ms| && Counts(ms[i]) && ms[i].key == m.key
  {
    i :| 0 <= i < |ms| && Counts(ms[i]) && ms[i].key == m.key && Canonical(ms[i].value) == Some(m.value);
  }

  lemma LessAsymmetric(a: Text, b: Text)
    ensures !(Less(a, b) && Less(b, a))
  {
    if Less(a, b) && Less(b, a) {
      LessTransitive(a, b, a);
    }
    LessIrreflexive(a);
  }

  /** The keys "10" and "9" sort as text in that order and come out in the other. */
  lemma TenAfterNine()
    ensures Less(Units("10"), Units("9")) && Misplaced(Units("9"), Units("10"))
    ensures CanonicalMembers([Member(Units("10"), Null), Member(Units("9"), Null)])
         == Some([Member(Units("9"), Null), Member(Units("10"), Null)])
  {
    var ten, nine := Units("10"), Units("9");
    assert nine == Numeral(9) && ten == Numeral(10);
    ValueOfNumeral(9);
    ValueOfNumeral(10);
    var m, n := Member(ten, Null), Member(nine, Null);
    assert PROTO[0] == 0x5F && PROTO[0] != ten[0] && PROTO[0] != nine[0];
    CanonicalMembersCons(n, []);
    CanonicalMembersCons(m, [n]);
    assert [n] + [] == [n] && [m] + [n] == [m, n];
    assert CanonicalMembers([n]) == Some([n]);
    assert CanonicalMembers([m, n]) == Some(Place(m, [n]));
    assert Place(m, []) == [m] && Place(m, [n]) == [n] + Place(m, [n][1..]) == [n, m];
  }

  lemma CanonicalMembersCons(m: Member, ms: seq<Member>)
    requires !m.value.Undefined?
    ensures CanonicalMembers([m] + ms) ==
            match (Canonical(m.value), CanonicalMembers(ms))
            case (Some(c), Some(cs)) => Some(if m.key == PROTO then cs else Place(Member(m.key, c), cs))
            case _ => None
  {
    assert ([m] + ms)[1..] == ms;
  }

  /** A member called `__proto__` leaves no trace: it must be acceptable, and then the text is that of the rest. */
  lemma ProtoVanishes(x: Value, ms: seq<Member>)
    requires !x.Undefined?
    ensures CanonicalText(Obj([Member(PROTO, x)] + ms)) == if Canonical(x).Some? then CanonicalText(Obj(ms)) else None
  {
    CanonicalMembersCons(Member(PROTO, x), ms);
  }
}
