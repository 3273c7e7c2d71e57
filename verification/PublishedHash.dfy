/** Hashing a published capsule: everything but `metadata.contentHash`, in canonical form.
    The digest is a parameter throughout. */
module PublishedHash {
  import opened Options
  import opened Text
  import opened JsonValue
  import opened JsonText
  import opened CanonicalJson

  const METADATA: Text := Units("metadata")
  const CONTENT_HASH: Text := Units("contentHash")

  // ---- Members ----

  function Get(ms: seq<Member>, key: Text): Option<Value> {
    if ms == [] then None
    else if ms[0].key == key then Some(ms[0].value)
    else Get(ms[1..], key)
  }

  /** Object spread followed by one member: overwritten in place, or added last. */
  function Put(ms: seq<Member>, key: Text, v: Value): seq<Member> {
    if ms == [] then [Member(key, v)]
    else if ms[0].key == key then [Member(key, v)] + ms[1..]
    else [ms[0]] + Put(ms[1..], key, v)
  }

  /** The `delete` operator. */
  function Delete(ms: seq<Member>, key: Text): seq<Member> {
    if ms == [] then []
    else if ms[0].key == key then ms[1..]
    else [ms[0]] + Delete(ms[1..], key)
  }

  // ---- The operations ----

  /** `structuredClone` refuses functions and symbols, wherever they are. */
  ghost predicate Cloneable(v: Value) {
    match v
    case Arr(items) => forall i | 0 <= i < |items| :: Cloneable(items[i])
    case Obj(ms) => forall i | 0 <= i < |ms| :: Cloneable(ms[i].value)
    case Opaque => false
    case _ => true
  }

  /** A clone of the capsule without `metadata.contentHash`. */
  function Stripped(capsule: Value): Value
    requires capsule.Obj?
  {
    match Get(capsule.members, METADATA)
    case Some(Obj(md)) => Obj(Put(capsule.members, METADATA, Obj(Delete(md, CONTENT_HASH))))
    case _ => capsule
  }

  ghost function HashInput(capsule: Value): Option<Text>
    requires capsule.Obj?
  {
    if Cloneable(capsule) then CanonicalText(Stripped(capsule)) else None
  }

  ghost function ContentHash(sha: Text -> Text, capsule: Value): Option<Text>
    requires capsule.Obj?
  {
    match HashInput(capsule)
    case None => None
    case Some(t) => Some(sha(t))
  }

  /** The type the source gives a capsule to be stamped: an object with an object `metadata`. */
  predicate HasMetadata(capsule: Value) {
    capsule.Obj? && Get(capsule.members, METADATA).Some? && Get(capsule.members, METADATA).value.Obj?
  }

  function Metadata(capsule: Value): seq<Member>
    requires HasMetadata(capsule)
  {
    Get(capsule.members, METADATA).value.members
  }

  ghost function Stamped(sha: Text -> Text, capsule: Value): Option<Value>
    requires HasMetadata(capsule)
  {
    match ContentHash(sha, capsule)
    case None => None
    case Some(h) => Some(Obj(Put(capsule.members, METADATA, Obj(Put(Metadata(capsule), CONTENT_HASH, Str(h))))))
  }

  // ---- Stamping is a fixpoint ----

  lemma {:induction false} GetPut(ms: seq<Member>, key: Text, v: Value)
    ensures Get(Put(ms, key, v), key) == Some(v)
  {
    if ms != [] && ms[0].key != key {
      GetPut(ms[1..], key, v);
      assert Put(ms, key, v)[1..] == Put(ms[1..], key, v);
    }
  }

  lemma {:induction false} PutPut(ms: seq<Member>, key: Text, v: Value, w: Value)
    ensures Put(Put(ms, key, v), key, w) == Put(ms, key, w)
  {
    if ms == [] {
    } else if ms[0].key == key {
      assert Put(ms, key, v)[1..] == ms[1..];
    } else {
      PutPut(ms[1..], key, v, w);
      assert Put(ms, key, v)[1..] == Put(ms[1..], key, v);
    }
  }

  lemma {:induction false} DeletePut(ms: seq<Member>, key: Text, v: Value)
    ensures Delete(Put(ms, key, v), key) == Delete(ms, key)
  {
    if ms == [] {
    } else if ms[0].key == key {
      assert Put(ms, key, v)[1..] == ms[1..];
    } else {
      DeletePut(ms[1..], key, v);
      assert Put(ms, key, v)[1..] == Put(ms[1..], key, v);
    }
  }

  lemma {:induction false} PutCloneable(ms: seq<Member>, key: Text, v: Value)
    requires Cloneable(Obj(ms)) && Cloneable(v)
    ensures Cloneable(Obj(Put(ms, key, v)))
  {
    if ms != [] && ms[0].key != key {
      assert forall i | 0 <= i < |ms[1..]| :: ms[1..][i] == ms[i + 1];
      PutCloneable(ms[1..], key, v);
    }
  }

  lemma {:induction false} GetCloneable(ms: seq<Member>, key: Text)
    requires Cloneable(Obj(ms)) && Get(ms, key).Some?
    ensures Cloneable(Get(ms, key).value)
  {
    if ms[0].key != key {
      assert forall i | 0 <= i < |ms[1..]| :: ms[1..][i] == ms[i + 1];
      GetCloneable(ms[1..], key);
    }
  }

  /** Stamping does not change what is hashed, and stamping again changes nothing. */
  lemma StampingIsFixpoint(sha: Text -> Text, capsule: Value)
    requires HasMetadata(capsule) && Stamped(sha, capsule).Some?
    ensures HasMetadata(Stamped(sha, capsule).value)
    ensures HashInput(Stamped(sha, capsule).value) == HashInput(capsule)
    ensures Stamped(sha, Stamped(sha, capsule).value) == Stamped(sha, capsule)
    ensures Get(Metadata(Stamped(sha, capsule).value), CONTENT_HASH)
         == Some(Str(ContentHash(sha, Stamped(sha, capsule).value).value))
  {
    var h := ContentHash(sha, capsule).value;
    var ms, md := capsule.members, Metadata(capsule);
    var md' := Put(md, CONTENT_HASH, Str(h));
    var stamped := Put(ms, METADATA, Obj(md'));
    GetPut(ms, METADATA, Obj(md'));
    GetPut(md, CONTENT_HASH, Str(h));
    PutPut(ms, METADATA, Obj(md'), Obj(Delete(md, CONTENT_HASH)));
    DeletePut(md, CONTENT_HASH, Str(h));
    assert Stripped(Obj(stamped)) == Stripped(capsule);
    GetCloneable(ms, METADATA);
    PutCloneable(md, CONTENT_HASH, Str(h));
    PutCloneable(ms, METADATA, Obj(md'));
    PutPut(md, CONTENT_HASH, Str(h), Str(h));
    PutPut(ms, METADATA, Obj(md'), Obj(md'));
  }

  // ---- What a shared hash input means ----

  lemma {:induction false} PutWellFormed(ms: seq<Member>, key: Text, v: Value)
    requires WellFormed(Obj(ms)) && WellFormed(v)
    ensures WellFormed(Obj(Put(ms, key, v)))
    ensures forall m | m in Put(ms, key, v) :: m.key == key || m in ms
  {
    var r := Put(ms, key, v);
    if ms != [] {
      var rest := ms[1..];
      assert forall i | 0 <= i < |rest| :: rest[i] == ms[i + 1];
      if ms[0].key != key {
        PutWellFormed(rest, key, v);
        assert r[1..] == Put(rest, key, v);
        forall j | 0 <= j < |r[1..]|
          ensures r[1..][j].key != ms[0].key
        {
          assert r[1..][j] in r[1..];
        }
      }
      assert r == [r[0]] + r[1..];
    }
  }

  lemma {:induction false} DeleteWellFormed(ms: seq<Member>, key: Text)
    requires WellFormed(Obj(ms))
    ensures WellFormed(Obj(Delete(ms, key)))
    ensures forall m :: m in Delete(ms, key) ==> m in ms
  {
    if ms != [] {
      var rest := ms[1..];
      assert forall i | 0 <= i < |rest| :: rest[i] == ms[i + 1];
      if ms[0].key != key {
        DeleteWellFormed(rest, key);
        var r := Delete(ms, key);
        assert r[1..] == Delete(rest, key);
        forall j | 0 <= j < |r[1..]|
          ensures r[1..][j].key != ms[0].key
        {
          assert r[1..][j] in rest;
        }
      }
    }
  }

  lemma {:induction false} GetWellFormed(ms: seq<Member>, key: Text)
    requires WellFormed(Obj(ms)) && Get(ms, key).Some?
    ensures WellFormed(Get(ms, key).value)
  {
    if ms[0].key != key {
      assert forall i | 0 <= i < |ms[1..]| :: ms[1..][i] == ms[i + 1];
      GetWellFormed(ms[1..], key);
    }
  }

  lemma StrippedWellFormed(capsule: Value)
    requires capsule.Obj? && WellFormed(capsule)
    ensures WellFormed(Stripped(capsule))
  {
    match Get(capsule.members, METADATA)
    case Some(Obj(md)) =>
      GetWellFormed(capsule.members, METADATA);
      DeleteWellFormed(md, CONTENT_HASH);
      PutWellFormed(capsule.members, METADATA, Obj(Delete(md, CONTENT_HASH)));
    case _ =>
  }

  // ---- Agreement, said of the capsules themselves ----

  /** The value a member contributes, if any. */
  function Defined(ms: seq<Member>, key: Text): Option<Value> {
    match Get(ms, key)
    case Some(Undefined) => None
    case other => other
  }

  /** The same contributing members, up to order, leaving one key aside. */
  ghost predicate AgreeBut(a: seq<Member>, b: seq<Member>, aside: Text) {
    && (forall m | m in a && m.key != aside && Counts(m) :: SameIn(m, b))
    && (forall n | n in b && n.key != aside && Counts(n) :: CountsKey(a, n.key))
  }

  ghost predicate AgreeOn(x: Option<Value>, y: Option<Value>) {
    (x.None? && y.None?) || (x.Some? && y.Some? && Same(x.value, y.value))
  }

  /** Metadata objects agree whatever their `contentHash`; anything else must be the same. */
  ghost predicate AgreeOnMetadata(x: Option<Value>, y: Option<Value>) {
    match (x, y)
    case (Some(Obj(a)), Some(Obj(b))) => AgreeBut(a, b, CONTENT_HASH)
    case _ => AgreeOn(x, y)
  }

  /** Two capsules agree up to key order, `undefined` members and `metadata.contentHash`. */
  ghost predicate Agree(c: Value, d: Value)
    requires c.Obj? && d.Obj?
  {
    && AgreeBut(c.members, d.members, METADATA)
    && AgreeOnMetadata(Defined(c.members, METADATA), Defined(d.members, METADATA))
  }

  lemma {:induction false} GetExactly(ms: seq<Member>, key: Text, v: Value)
    requires Distinct(ms)
    ensures Get(ms, key) == Some(v) <==> Member(key, v) in ms
  {
    if ms != [] {
      var rest := ms[1..];
      assert forall i | 0 <= i < |rest| :: rest[i] == ms[i + 1];
      assert Distinct(rest);
      GetExactly(rest, key, v);
      assert Member(key, v) in ms <==> Member(key, v) == ms[0] || Member(key, v) in rest;
    }
  }

  lemma {:induction false} PutMembers(ms: seq<Member>, key: Text, v: Value, m: Member)
    requires Distinct(ms)
    ensures m in Put(ms, key, v) <==> m == Member(key, v) || (m in ms && m.key != key)
  {
    if ms != [] {
      var rest := ms[1..];
      assert forall i | 0 <= i < |rest| :: rest[i] == ms[i + 1];
      assert m in ms <==> m == ms[0] || m in rest;
      if ms[0].key != key {
        PutMembers(rest, key, v, m);
      }
    }
  }

  lemma {:induction false} DeleteMembers(ms: seq<Member>, key: Text, m: Member)
    requires Distinct(ms)
    ensures m in Delete(ms, key) <==> m in ms && m.key != key
  {
    if ms != [] {
      var rest := ms[1..];
      assert forall i | 0 <= i < |rest| :: rest[i] == ms[i + 1];
      assert m in ms <==> m == ms[0] || m in rest;
      if ms[0].key != key {
        DeleteMembers(rest, key, m);
      }
    }
  }

  lemma SameInMembers(m: Member, b: seq<Member>)
    ensures SameIn(m, b) <==> exists n | n in b :: Counts(n) && n.key == m.key && Same(m.value, n.value)
  {
    if n :| n in b && Counts(n) && n.key == m.key && Same(m.value, n.value) {
      var j :| 0 <= j < |b| && b[j] == n;
    }
  }

  lemma CountsKeyMembers(a: seq<Member>, key: Text)
    ensures CountsKey(a, key) <==> exists n | n in a :: Counts(n) && n.key == key
  {
    if n :| n in a && Counts(n) && n.key == key {
      var j :| 0 <= j < |a| && a[j] == n;
    }
  }

  /** Only the members with other keys matter. */
  ghost predicate SameAside(a: seq<Member>, b: seq<Member>, aside: Text) {
    forall m: Member | m.key != aside :: m in a <==> m in b
  }

  lemma AgreeButMembers(a: seq<Member>, b: seq<Member>, a': seq<Member>, b': seq<Member>, aside: Text)
    requires SameAside(a, a', aside) && SameAside(b, b', aside) && AgreeBut(a, b, aside)
    ensures AgreeBut(a', b', aside)
  {
    hide Same, SameIn, CountsKey;
    forall m | m in a' && m.key != aside && Counts(m) ensures SameIn(m, b') {
      assert m in a;
      SameInMembers(m, b);
      SameInMembers(m, b');
    }
    forall n | n in b' && n.key != aside && Counts(n) ensures CountsKey(a', n.key) {
      assert n in b;
      CountsKeyMembers(a, n.key);
      CountsKeyMembers(a', n.key);
    }
  }

  /** Sameness of objects, one key set apart. */
  lemma SameSplit(a: seq<Member>, b: seq<Member>, key: Text)
    requires Distinct(a) && Distinct(b) && key != PROTO
    ensures Same(Obj(a), Obj(b)) <==> AgreeBut(a, b, key) && AgreeOn(Defined(a, key), Defined(b, key))
  {
    SameIsMembers(a, b);
    DefinedExactly(a, key);
    DefinedExactly(b, key);
    if Same(Obj(a), Obj(b)) {
      SplitOn(a, b, key);
    } else if AgreeBut(a, b, key) && AgreeOn(Defined(a, key), Defined(b, key)) {
      JoinOn(a, b, key);
    }
  }

  lemma SameIsMembers(a: seq<Member>, b: seq<Member>)
    ensures Same(Obj(a), Obj(b)) <==>
            && (forall m | m in a && Counts(m) :: SameIn(m, b))
            && (forall n | n in b && Counts(n) :: CountsKey(a, n.key))
  {
    if Same(Obj(a), Obj(b)) {
      forall m | m in a && Counts(m) ensures SameIn(m, b) {
        var i :| 0 <= i < |a| && a[i] == m;
        assert SameIn(a[i], b);
      }
      forall n | n in b && Counts(n) ensures CountsKey(a, n.key) {
        var j :| 0 <= j < |b| && b[j] == n;
        assert CountsKey(a, b[j].key);
      }
    }
  }

  lemma DefinedExactly(ms: seq<Member>, key: Text)
    requires Distinct(ms) && key != PROTO
    ensures Defined(ms, key).Some? ==>
              Member(key, Defined(ms, key).value) in ms && Counts(Member(key, Defined(ms, key).value))
    ensures forall m | m in ms && m.key == key && Counts(m) :: Defined(ms, key) == Some(m.value)
  {
    if Defined(ms, key).Some? {
      GetExactly(ms, key, Defined(ms, key).value);
    }
    forall m | m in ms && m.key == key && Counts(m) ensures Defined(ms, key) == Some(m.value) {
      GetExactly(ms, key, m.value);
    }
  }

  lemma SplitOn(a: seq<Member>, b: seq<Member>, key: Text)
    requires Distinct(a) && Distinct(b) && key != PROTO
    requires forall m | m in a && Counts(m) :: SameIn(m, b)
    requires forall n | n in b && Counts(n) :: CountsKey(a, n.key)
    ensures AgreeOn(Defined(a, key), Defined(b, key))
  {
    DefinedExactly(a, key);
    DefinedExactly(b, key);
    CountsKeyMembers(a, key);
    if Defined(b, key).Some? {
      assert CountsKey(a, Member(key, Defined(b, key).value).key);
    }
    if Defined(a, key).Some? {
      SameInMembers(Member(key, Defined(a, key).value), b);
    }
  }

  lemma JoinOn(a: seq<Member>, b: seq<Member>, key: Text)
    requires Distinct(a) && Distinct(b) && key != PROTO
    requires AgreeBut(a, b, key) && AgreeOn(Defined(a, key), Defined(b, key))
    ensures forall m | m in a && Counts(m) :: SameIn(m, b)
    ensures forall n | n in b && Counts(n) :: CountsKey(a, n.key)
  {
    DefinedExactly(a, key);
    DefinedExactly(b, key);
    forall m | m in a && Counts(m) ensures SameIn(m, b) {
      SameInMembers(m, b);
    }
    forall n | n in b && Counts(n) ensures CountsKey(a, n.key) {
      CountsKeyMembers(a, n.key);
    }
  }

  lemma DeletedAgree(a: seq<Member>, b: seq<Member>, key: Text)
    requires Distinct(a) && Distinct(b) && Distinct(Delete(a, key)) && Distinct(Delete(b, key)) && key != PROTO
    ensures Same(Obj(Delete(a, key)), Obj(Delete(b, key))) <==> AgreeBut(a, b, key)
  {
    hide AgreeBut;
    var x, y := Delete(a, key), Delete(b, key);
    forall m ensures (m in x <==> m in a && m.key != key) && (m in y <==> m in b && m.key != key) {
      DeleteMembers(a, key, m);
      DeleteMembers(b, key, m);
    }
    SameSplit(x, y, key);
    DefinedExactly(x, key);
    DefinedExactly(y, key);
    EitherWay(a, b, x, y, key);
  }

  lemma EitherWay(a: seq<Member>, b: seq<Member>, x: seq<Member>, y: seq<Member>, aside: Text)
    requires SameAside(a, x, aside) && SameAside(b, y, aside)
    ensures AgreeBut(a, b, aside) <==> AgreeBut(x, y, aside)
  {
    hide AgreeBut;
    if AgreeBut(a, b, aside) {
      AgreeButMembers(a, b, x, y, aside);
    }
    if AgreeBut(x, y, aside) {
      AgreeButMembers(x, y, a, b, aside);
    }
  }

  lemma PutAside(ms: seq<Member>, key: Text, v: Value)
    requires Distinct(ms)
    ensures SameAside(ms, Put(ms, key, v), key)
  {
    forall m: Member | m.key != key ensures m in ms <==> m in Put(ms, key, v) {
      PutMembers(ms, key, v, m);
    }
  }

  lemma StrippedAside(c: Value)
    requires c.Obj? && WellFormed(c)
    ensures SameAside(c.members, Stripped(c).members, METADATA)
    ensures Defined(Stripped(c).members, METADATA) ==
            match Defined(c.members, METADATA)
            case Some(Obj(md)) => Some(Obj(Delete(md, CONTENT_HASH)))
            case other => other
  {
    match Get(c.members, METADATA)
    case Some(Obj(md)) =>
      PutAside(c.members, METADATA, Obj(Delete(md, CONTENT_HASH)));
      GetPut(c.members, METADATA, Obj(Delete(md, CONTENT_HASH)));
    case _ =>
  }

  /** What is compared without the published hash is exactly agreement up to it. */
  lemma AgreeExactly(c: Value, d: Value)
    requires c.Obj? && d.Obj? && WellFormed(c) && WellFormed(d)
    ensures Agree(c, d) <==> Same(Stripped(c), Stripped(d))
  {
    hide AgreeBut;
    StrippedWellFormed(c);
    StrippedWellFormed(d);
    StrippedAside(c);
    StrippedAside(d);
    KeysDiffer();
    SameSplit(Stripped(c).members, Stripped(d).members, METADATA);
    EitherWay(c.members, d.members, Stripped(c).members, Stripped(d).members, METADATA);
    match (Defined(c.members, METADATA), Defined(d.members, METADATA))
    case (Some(Obj(a)), Some(Obj(b))) =>
      GetWellFormed(c.members, METADATA);
      GetWellFormed(d.members, METADATA);
      DeleteWellFormed(a, CONTENT_HASH);
      DeleteWellFormed(b, CONTENT_HASH);
      DeletedAgree(a, b, CONTENT_HASH);
    case _ =>
  }

  lemma KeysDiffer()
    ensures METADATA != PROTO && CONTENT_HASH != PROTO
  {
    assert |METADATA| == 8 && |CONTENT_HASH| == 11 && |PROTO| == 9;
  }

  /** Two capsules are hashed over the same text exactly when they agree up to key order, `undefined`
      members and `metadata.contentHash`. */
  lemma SharedInputExactly(c: Value, d: Value)
    requires c.Obj? && d.Obj? && WellFormed(c) && WellFormed(d)
    requires HashInput(c).Some? && HashInput(d).Some?
    ensures HashInput(c) == HashInput(d) <==> Agree(c, d)
  {
    AgreeExactly(c, d);
    StrippedWellFormed(c);
    StrippedWellFormed(d);
    TextDecides(Stripped(c), Stripped(d));
  }

  /** With a collision-free digest the published hashes themselves decide it. */
  lemma SharedHashExactly(sha: Text -> Text, c: Value, d: Value)
    requires c.Obj? && d.Obj? && WellFormed(c) && WellFormed(d)
    requires HashInput(c).Some? && HashInput(d).Some?
    requires sha(HashInput(c).value) == sha(HashInput(d).value) ==> HashInput(c) == HashInput(d)
    ensures ContentHash(sha, c) == ContentHash(sha, d) <==> Agree(c, d)
  {
    SharedInputExactly(c, d);
  }
}
