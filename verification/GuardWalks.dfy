/** What the two guards report, place by place: every hit once, in the order the tree is walked. */
module GuardWalks {
  import opened Options
  import opened Text
  import opened JsonValue
  import opened LeakGuards
  import opened ForbiddenFields

  // ---- Places ----

  /** Positions among the children of each node on the way down. */
  type Place = seq<nat>

  /** The order a walk meets places in: a node before what is below it, earlier children first. */
  predicate Before(p: Place, q: Place) {
    q != [] && (p == [] || p[0] < q[0] || (p[0] == q[0] && Before(p[1..], q[1..])))
  }

  ghost predicate Ascending(ps: seq<Place>) { forall i, j | 0 <= i < j < |ps| :: Before(ps[i], ps[j]) }

  lemma {:induction false} BeforeIrreflexive(p: Place)
    ensures !Before(p, p)
  {
    if p != [] {
      BeforeIrreflexive(p[1..]);
    }
  }

  /** In ascending order, so each once. */
  lemma AscendingOnce(ps: seq<Place>, i: nat, j: nat)
    requires Ascending(ps) && i < j < |ps|
    ensures ps[i] != ps[j]
  {
    BeforeIrreflexive(ps[i]);
  }

  function Under(i: nat, ps: seq<Place>): (qs: seq<Place>)
    ensures |qs| == |ps| && forall k | 0 <= k < |ps| :: qs[k] == [i] + ps[k]
  {
    seq(|ps|, k requires 0 <= k < |ps| => [i] + ps[k])
  }

  lemma UnderAscending(i: nat, ps: seq<Place>)
    requires Ascending(ps)
    ensures Ascending(Under(i, ps))
    ensures forall q :: q in Under(i, ps) <==> q != [] && q[0] == i && q[1..] in ps
  {
    var qs := Under(i, ps);
    forall j, k | 0 <= j < k < |qs| ensures Before(qs[j], qs[k]) {
      assert qs[j][1..] == ps[j] && qs[k][1..] == ps[k];
    }
    forall q | q != [] && q[0] == i && q[1..] in ps ensures q in qs {
      var k :| 0 <= k < |ps| && ps[k] == q[1..];
      assert q == [i] + q[1..] && qs[k] == q;
    }
    forall q | q in qs ensures q != [] && q[0] == i && q[1..] in ps {
      var k :| 0 <= k < |qs| && qs[k] == q;
      assert q[1..] == ps[k];
    }
  }

  lemma JoinAscending(ps: seq<Place>, qs: seq<Place>)
    requires Ascending(ps) && Ascending(qs) && forall p, q | p in ps && q in qs :: Before(p, q)
    ensures Ascending(ps + qs)
  {
  }

  /** `ps` are the places where there is something, in order, and `fs` what is there. */
  ghost predicate Lists<F(!new)>(ps: seq<Place>, fs: seq<F>, at: Place -> Option<F>) {
    && Ascending(ps) && |ps| == |fs| && (forall q :: q in ps <==> at(q).Some?)
    && forall i | 0 <= i < |ps| :: at(ps[i]) == Some(fs[i])
  }

  /** What is below child `i`, and below later children, together. */
  lemma {:induction false} Joined<F(!new)>(i: nat, own: seq<Place>, fs: seq<F>, below: Place -> Option<F>,
      later: seq<Place>, gs: seq<F>,
      beyond: Place -> Option<F>, at: Place -> Option<F>) returns (ps: seq<Place>)
    requires Lists(own, fs, below) && Lists(later, gs, beyond)
    requires forall q :: at(q) == if q != [] && q[0] == i then below(q[1..]) else beyond(q)
    requires forall q | beyond(q).Some? :: q != [] && q[0] > i
    ensures Lists(ps, fs + gs, at)
  {
    UnderAscending(i, own);
    ps := Under(i, own) + later;
    JoinAscending(Under(i, own), later);
    forall k | 0 <= k < |ps| ensures at(ps[k]) == Some((fs + gs)[k]) {
      if k < |own| {
        assert ps[k] == [i] + own[k] && ps[k][1..] == own[k];
      } else {
        assert ps[k] == later[k - |own|] && ps[k] in later;
      }
    }
    forall q ensures q in ps <==> at(q).Some? {
      assert q in ps <==> q in Under(i, own) || q in later;
    }
  }

  /** One place before all the others. */
  lemma Led<F(!new)>(p: Place, f: F, later: seq<Place>, gs: seq<F>, beyond: Place -> Option<F>, at: Place -> Option<F>)
    requires Lists(later, gs, beyond) && at(p) == Some(f)
    requires forall q | beyond(q).Some? :: Before(p, q)
    requires forall q | q != p :: at(q) == beyond(q)
    ensures Lists([p] + later, [f] + gs, at)
  {
    BeforeIrreflexive(p);
    assert beyond(p) == None;
    JoinAscending([p], later);
    forall q ensures q in [p] + later <==> at(q).Some? {
      assert q in [p] + later <==> q == p || q in later;
    }
    forall k | 0 <= k < |[p] + later| ensures at(([p] + later)[k]) == Some(([f] + gs)[k]) {
      assert k > 0 ==> later[k - 1] in later;
    }
  }

  lemma FirstOfAll()
    ensures forall q: Place | q != [] :: Before([], q)
  {
  }

  function Kids(v: Value): seq<Value> {
    match v
    case Arr(items) => items
    case Obj(ms) => Values(ms)
    case _ => []
  }

  function Values(ms: seq<Member>): seq<Value> { seq(|ms|, i requires 0 <= i < |ms| => ms[i].value) }

  function KidPath(v: Value, path: Text, i: nat): Text
    requires i < |Kids(v)|
  {
    if v.Arr? then ItemPath(path, i) else MemberPath(path, v.members[i].key)
  }

  function Reached(v: Value, p: Place): Option<Value>
    decreases |p|
  {
    if p == [] then Some(v) else if p[0] < |Kids(v)| then Reached(Kids(v)[p[0]], p[1..]) else None
  }

  function PathTo(v: Value, path: Text, p: Place): Text
    requires Reached(v, p).Some?
    decreases |p|
  {
    if p == [] then path else PathTo(Kids(v)[p[0]], KidPath(v, path, p[0]), p[1..])
  }

  /** How paths read. */
  lemma PathExample(x: Value)
    ensures var v := Obj([Member(Units("a"), Arr([Null, Obj([Member(Units("b"), x)])]))]);
            Reached(v, [0, 1, 0]) == Some(x) && PathTo(v, [], [0, 1, 0]) == Units("a[1].b")
  {
    var inner := Obj([Member(Units("b"), x)]);
    var list := Arr([Null, inner]);
    var v := Obj([Member(Units("a"), list)]);
    assert [0, 1, 0][1..] == [1, 0] && [1, 0][1..] == [0] && [0][1..] == [];
    assert Kids(v) == [list] && Kids(list) == [Null, inner] && Kids(inner) == [x];
    assert Reached(inner, [0]) == Reached(x, []) && Reached(list, [1, 0]) == Reached(inner, [0]);
    var a, b := Units("a[1]"), Units("a[1].b");
    assert ItemPath(Units("a"), 1) == a;
    assert MemberPath(a, Units("b")) == b;
    assert PathTo(inner, a, [0]) == PathTo(x, b, []);
    assert PathTo(list, Units("a"), [1, 0]) == PathTo(inner, a, [0]);
  }

  // ---- Internal identifiers ----

  /** All but the last entry of `q` lead to a string; the last says which prefix it contains. */
  function IdAt(v: Value, path: Text, q: Place): Option<IdFinding>
    decreases |q|
  {
    if |q| == 1 && v.Str? && q[0] < |ENTITIES| && Contains(v.s, Prefix(ENTITIES[q[0]])) then
      Some(IdFinding(if path == [] then Units("(root)") else path, Prefix(ENTITIES[q[0]])))
    else if |q| > 1 && q[0] < |Kids(v)| then IdAt(Kids(v)[q[0]], KidPath(v, path, q[0]), q[1..])
    else None
  }

  /** The same, from child or prefix number `k` on. */
  function IdFrom(v: Value, path: Text, k: nat, q: Place): Option<IdFinding> {
    if q != [] && q[0] >= k then IdAt(v, path, q) else None
  }

  /** The walk reports every hit once, in order. */
  lemma {:induction false} IdWalk(v: Value, path: Text) returns (ps: seq<Place>)
    ensures Lists(ps, IdFindings(v, path), q => IdAt(v, path, q))
    decreases v, 2, 0
  {
    if v.Str? {
      ps := StringHits(v.s, path, 0);
    } else if v.Arr? || v.Obj? {
      ps := KidWalk(v, path, 0);
    } else {
      ps := [];
    }
    forall q ensures IdFrom(v, path, 0, q) == IdAt(v, path, q) {
    }
  }

  lemma {:induction false} StringHits(s: Text, path: Text, k: nat) returns (ps: seq<Place>)
    requires k <= |ENTITIES|
    ensures Lists(ps, PrefixHits(s, if path == [] then Units("(root)") else path, ENTITIES[k..]),
                  q => IdFrom(Str(s), path, k, q))
    decreases |ENTITIES| - k
  {
    hide Contains, Prefix, IdAt, ENTITIES, Before;
    if k == |ENTITIES| {
      ps := [];
      forall q ensures IdFrom(Str(s), path, k, q) == None { StringStep(s, path, k, q); }
    } else {
      ps := StringHits(s, path, k + 1);
      assert ENTITIES[k..][1..] == ENTITIES[k + 1..];
      forall q
        ensures q != [k] ==> IdFrom(Str(s), path, k, q) == IdFrom(Str(s), path, k + 1, q)
        ensures IdFrom(Str(s), path, k + 1, q).Some? ==> Before([k], q)
      {
        StringStep(s, path, k, q);
      }
      StringStep(s, path, k, [k]);
      if Contains(s, Prefix(ENTITIES[k])) {
        Led([k], IdAt(Str(s), path, [k]).value, ps,
            PrefixHits(s, if path == [] then Units("(root)") else path, ENTITIES[k + 1..]),
            q => IdFrom(Str(s), path, k + 1, q), q => IdFrom(Str(s), path, k, q));
        ps := [[k]] + ps;
      }
    }
  }

  lemma StringStep(s: Text, path: Text, k: nat, q: Place)
    requires k <= |ENTITIES|
    ensures IdFrom(Str(s), path, k + 1, q).Some? ==> Before([k], q)
    ensures q != [k] ==> IdFrom(Str(s), path, k, q) == IdFrom(Str(s), path, k + 1, q)
    ensures k == |ENTITIES| ==> IdFrom(Str(s), path, k, q) == None
    ensures IdFrom(Str(s), path, k + 1, [k]) == None
    ensures k < |ENTITIES| ==>
              IdAt(Str(s), path, [k]) ==
              if Contains(s, Prefix(ENTITIES[k]))
              then Some(IdFinding(if path == [] then Units("(root)") else path, Prefix(ENTITIES[k]))) else None
  {
    hide Contains, Prefix;
    assert |q| == 1 ==> q == [q[0]];
  }

  function KidFindings(v: Value, path: Text, k: nat): seq<IdFinding>
    requires (v.Arr? || v.Obj?) && k <= |Kids(v)|
  {
    if v.Arr? then ItemIdFindings(v.items[k..], k, path) else MemberIdFindings(v.members[k..], path)
  }

  lemma {:induction false} KidWalk(v: Value, path: Text, k: nat) returns (ps: seq<Place>)
    requires (v.Arr? || v.Obj?) && k <= |Kids(v)|
    ensures Lists(ps, KidFindings(v, path, k), q => IdFrom(v, path, k, q))
    decreases v, 1, |Kids(v)| - k
  {
    if k == |Kids(v)| {
      ps := [];
    } else {
      var kid, inner := Kids(v)[k], KidPath(v, path, k);
      hide Ascending, Before;
      var own := IdWalk(kid, inner);
      var later := KidWalk(v, path, k + 1);
      KidFindingsStep(v, path, k);
      ps := Joined(k, own, IdFindings(kid, inner), q => IdAt(kid, inner, q), later, KidFindings(v, path, k + 1),
                   q => IdFrom(v, path, k + 1, q), q => IdFrom(v, path, k, q));
    }
  }

  lemma KidFindingsStep(v: Value, path: Text, k: nat)
    requires (v.Arr? || v.Obj?) && k < |Kids(v)|
    ensures KidFindings(v, path, k) == IdFindings(Kids(v)[k], KidPath(v, path, k)) + KidFindings(v, path, k + 1)
  {
    if v.Arr? {
      assert v.items[k..][1..] == v.items[k + 1..];
    } else {
      assert v.members[k..][1..] == v.members[k + 1..];
    }
  }

  /** Some way down leads to a string that contains the prefix, and the path says which way. */
  ghost predicate Leaked(v: Value, path: Text, f: IdFinding, p: Place, e: string) {
    && Reached(v, p).Some? && Reached(v, p).value.Str? && Contains(Reached(v, p).value.s, Prefix(e))
    && f == IdFinding(if PathTo(v, path, p) == [] then Units("(root)") else PathTo(v, path, p), Prefix(e))
  }

  lemma {:induction false} IdAtMeans(v: Value, path: Text, p: Place, k: nat, f: IdFinding)
    ensures IdAt(v, path, p + [k]) == Some(f) <==> k < |ENTITIES| && Leaked(v, path, f, p, ENTITIES[k])
    decreases |p|
  {
    hide ENTITIES, Contains, Prefix;
    var q := p + [k];
    if p != [] {
      assert q[1..] == p[1..] + [k];
      if p[0] < |Kids(v)| {
        IdAtMeans(Kids(v)[p[0]], KidPath(v, path, p[0]), p[1..], k, f);
      }
    }
  }

  /** Reported is exactly this: a string somewhere below contains a forbidden prefix. */
  lemma IdFindingsExactly(v: Value, path: Text, f: IdFinding)
    ensures f in IdFindings(v, path) <==> exists p: Place, e :: e in ENTITIES && Leaked(v, path, f, p, e)
  {
    hide ENTITIES, Leaked, IdFindings, IdAt;
    var ps := IdWalk(v, path);
    if f in IdFindings(v, path) {
      var i :| 0 <= i < |ps| && IdFindings(v, path)[i] == f;
      var q := ps[i];
      NotNowhere(v, path);
      var p, k := q[..|q| - 1], q[|q| - 1];
      assert q == p + [k];
      IdAtMeans(v, path, p, k, f);
      assert ENTITIES[k] in ENTITIES;
    }
    forall p: Place, e | e in ENTITIES && Leaked(v, path, f, p, e) ensures f in IdFindings(v, path) {
      var k :| 0 <= k < |ENTITIES| && ENTITIES[k] == e;
      IdAtMeans(v, path, p, k, f);
      assert p + [k] in ps;
    }
  }

  lemma NotNowhere(v: Value, path: Text)
    ensures IdAt(v, path, []) == None
  {
  }

  // ---- Forbidden keys ----

  /** `q` leads to a member with a forbidden key. */
  function FieldAt(v: Value, path: Text, classify: Classifier, q: Place): Option<FieldFinding>
    decreases |q|
  {
    if |q| == 1 && v.Obj? && q[0] < |v.members| then KeyFinding(v.members[q[0]].key, path, classify)
    else if |q| > 1 && q[0] < |Kids(v)| then FieldAt(Kids(v)[q[0]], KidPath(v, path, q[0]), classify, q[1..])
    else None
  }

  function KeyFinding(key: Text, path: Text, classify: Classifier): Option<FieldFinding> {
    if Structural(key) || classify(key).None? then None
    else Some(FieldFinding(MemberPath(path, key), key, classify(key).value))
  }

  function FieldFrom(v: Value, path: Text, classify: Classifier, k: nat, q: Place): Option<FieldFinding> {
    if q != [] && q[0] >= k then FieldAt(v, path, classify, q) else None
  }

  /** At child `k` and below it. */
  function FieldBelow(v: Value, path: Text, classify: Classifier, k: nat, q: Place): Option<FieldFinding>
    requires k < |Kids(v)|
  {
    if q == [] then FieldAt(v, path, classify, [k]) else FieldAt(Kids(v)[k], KidPath(v, path, k), classify, q)
  }

  /** This walk too reports every hit once, a key before anything below it. */
  lemma {:induction false} FieldWalk(v: Value, path: Text, classify: Classifier) returns (ps: seq<Place>)
    ensures Lists(ps, FieldFindings(v, path, classify), q => FieldAt(v, path, classify, q))
    decreases v, 3, 0
  {
    if v.Arr? || v.Obj? {
      ps := FieldKidWalk(v, path, classify, 0);
    } else {
      ps := [];
    }
    forall q ensures FieldFrom(v, path, classify, 0, q) == FieldAt(v, path, classify, q) {
    }
  }

  function KidFields(v: Value, path: Text, classify: Classifier, k: nat): seq<FieldFinding>
    requires (v.Arr? || v.Obj?) && k <= |Kids(v)|
  {
    if v.Arr? then ItemFieldFindings(v.items[k..], k, path, classify)
    else MemberFieldFindings(v.members[k..], path, classify)
  }

  lemma {:induction false} FieldKidWalk(v: Value, path: Text, classify: Classifier, k: nat) returns (ps: seq<Place>)
    requires (v.Arr? || v.Obj?) && k <= |Kids(v)|
    ensures Lists(ps, KidFields(v, path, classify, k), q => FieldFrom(v, path, classify, k, q))
    decreases v, 2, |Kids(v)| - k
  {
    if k == |Kids(v)| {
      ps := [];
    } else {
      hide Ascending, Before;
      var own, fs := FieldOwnWalk(v, path, classify, k);
      var later := FieldKidWalk(v, path, classify, k + 1);
      forall q ensures FieldFrom(v, path, classify, k, q) ==
                       if q != [] && q[0] == k then FieldBelow(v, path, classify, k, q[1..])
                       else FieldFrom(v, path, classify, k + 1, q) {
        FieldStep(v, path, classify, k, q);
      }
      ps := Joined(k, own, fs, q => FieldBelow(v, path, classify, k, q), later, KidFields(v, path, classify, k + 1),
                   q => FieldFrom(v, path, classify, k + 1, q), q => FieldFrom(v, path, classify, k, q));
    }
  }

  lemma FieldStep(v: Value, path: Text, classify: Classifier, k: nat, q: Place)
    requires k < |Kids(v)|
    ensures FieldFrom(v, path, classify, k, q) ==
            if q != [] && q[0] == k then FieldBelow(v, path, classify, k, q[1..])
            else FieldFrom(v, path, classify, k + 1, q)
  {
    assert |q| == 1 && q[0] == k ==> q == [k];
  }

  /** A child's own key, if it has one to report, and what is below it. */
  lemma {:induction false} FieldOwnWalk(v: Value, path: Text, classify: Classifier, k: nat)
    returns (ps: seq<Place>, fs: seq<FieldFinding>)
    requires (v.Arr? || v.Obj?) && k < |Kids(v)|
    ensures Lists(ps, fs, q => FieldBelow(v, path, classify, k, q))
    ensures KidFields(v, path, classify, k) == fs + KidFields(v, path, classify, k + 1)
    decreases v, 1, 0
  {
    ps := FieldWalk(Kids(v)[k], KidPath(v, path, k), classify);
    fs := FieldFindings(Kids(v)[k], KidPath(v, path, k), classify);
    KidFieldsStep(v, path, classify, k);
    ps, fs := OwnLed(v, path, classify, k, ps, fs);
  }

  lemma {:induction false} OwnLed(v: Value, path: Text, classify: Classifier, k: nat, below: seq<Place>,
      gs: seq<FieldFinding>)
    returns (ps: seq<Place>, fs: seq<FieldFinding>)
    requires k < |Kids(v)| && Lists(below, gs, q => FieldAt(Kids(v)[k], KidPath(v, path, k), classify, q))
    ensures Lists(ps, fs, q => FieldBelow(v, path, classify, k, q))
    ensures fs == (if FieldAt(v, path, classify, [k]).Some? then [FieldAt(v, path, classify, [k]).value] else []) + gs
  {
    hide Before, Ascending;
    var kid, inner, own := Kids(v)[k], KidPath(v, path, k), FieldAt(v, path, classify, [k]);
    assert forall q: Place | q != [] :: Before([], q) by { FirstOfAll(); }
    assert FieldAt(kid, inner, classify, []) == None;
    ps, fs := below, gs;
    if own.Some? {
      Led([], own.value, ps, fs, q => FieldAt(kid, inner, classify, q), q => FieldBelow(v, path, classify, k, q));
      ps, fs := [[]] + ps, [own.value] + fs;
    }
  }

  lemma KidFieldsStep(v: Value, path: Text, classify: Classifier, k: nat)
    requires (v.Arr? || v.Obj?) && k < |Kids(v)|
    ensures var own := FieldAt(v, path, classify, [k]);
            KidFields(v, path, classify, k) ==
            (if own.Some? then [own.value] else []) + FieldFindings(Kids(v)[k], KidPath(v, path, k), classify)
            + KidFields(v, path, classify, k + 1)
  {
    if v.Arr? {
      assert v.items[k..][1..] == v.items[k + 1..];
    } else {
      var m := v.members[k];
      assert v.members[k..][1..] == v.members[k + 1..] && v.members[k..][0] == m;
      assert Kids(v)[k] == m.value;
      var own := FieldAt(v, path, classify, [k]);
      var fs := if own.Some? then [own.value] else [];
      assert OwnFinding(m.key, path, classify) == fs;
      assert MemberFieldFindings(v.members[k..], path, classify)
          == MemberFindings(m, path, classify) + MemberFieldFindings(v.members[k + 1..], path, classify);
      assert MemberFindings(m, path, classify)
          == OwnFinding(m.key, path, classify) + FieldFindings(m.value, MemberPath(path, m.key), classify);
    }
  }
}
