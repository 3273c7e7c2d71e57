/** The two tree walks that keep private data out of public capsules, against the text that is published. */
module LeakGuards {
  import opened Options
  import opened Text
  import opened JsonValue
  import opened JsonText
  import opened CanonicalJson

  // ---- Paths ----

  function ItemPath(path: Text, i: nat): Text {
    path + [LBRACKET] + Numeral(i) + [RBRACKET]
  }

  function MemberPath(path: Text, key: Text): Text {
    if path == [] then key else path + Units(".") + key
  }

  // ---- Internal identifiers: a walk over string values ----

  /** The entity types whose internal identifiers must not leave: `mon:offer:` and so on. */
  const ENTITIES: seq<string> := [
    "offer", "product", "storefront", "listing", "mpart", "mrole", "sgov", "acct",
    "asess", "aent", "actor", "creator", "mprof", "mact", "mpay", "pvev"
  ]

  function Prefix(entity: string): Text {
    Units("mon:") + Units(entity) + [COLON]
  }

  datatype IdFinding = IdFinding(path: Text, prefix: Text)

  function PrefixHits(s: Text, path: Text, entities: seq<string>): seq<IdFinding> {
    if entities == [] then []
    else
      var p := Prefix(entities[0]);
      (if Contains(s, p) then [IdFinding(path, p)] else []) + PrefixHits(s, path, entities[1..])
  }

  function IdFindings(v: Value, path: Text): seq<IdFinding>
    decreases v, 0
  {
    match v
    case Str(s) => PrefixHits(s, if path == [] then Units("(root)") else path, ENTITIES)
    case Arr(items) => ItemIdFindings(items, 0, path)
    case Obj(ms) => MemberIdFindings(ms, path)
    case _ => []
  }

  function ItemIdFindings(items: seq<Value>, first: nat, path: Text): seq<IdFinding>
    decreases items, 0
  {
    if items == [] then []
    else IdFindings(items[0], ItemPath(path, first)) + ItemIdFindings(items[1..], first + 1, path)
  }

  function MemberIdFindings(ms: seq<Member>, path: Text): seq<IdFinding>
    decreases ms, 0
  {
    if ms == [] then []
    else IdFindings(ms[0].value, MemberPath(path, ms[0].key)) + MemberIdFindings(ms[1..], path)
  }

  method FindInternalIdentifiers(value: Value, basePath: Text) returns (findings: seq<IdFinding>)
    ensures findings == IdFindings(value, basePath)
  {
    findings := WalkStrings(value, basePath, []);
  }

  /** Appends the findings below `node` to those already made. */
  method WalkStrings(node: Value, path: Text, before: seq<IdFinding>) returns (findings: seq<IdFinding>)
    ensures findings == before + IdFindings(node, path)
    decreases node
  {
    findings := before;
    match node
    case Str(s) =>
      findings := CollectHits(s, if path == [] then Units("(root)") else path, ENTITIES, before);
    case Arr(items) => findings := WalkItems(items, path, before);
    case Obj(ms) => findings := WalkMembers(ms, path, before);
    case _ =>
  }

  method WalkItems(items: seq<Value>, path: Text, before: seq<IdFinding>) returns (findings: seq<IdFinding>)
    ensures findings == before + ItemIdFindings(items, 0, path)
    decreases items
  {
    findings := before;
    for i := 0 to |items|
      invariant findings + ItemIdFindings(items[i..], i, path) == before + ItemIdFindings(items, 0, path)
    {
      assert items[i..][1..] == items[i + 1..];
      findings := WalkStrings(items[i], ItemPath(path, i), findings);
    }
  }

  method WalkMembers(ms: seq<Member>, path: Text, before: seq<IdFinding>) returns (findings: seq<IdFinding>)
    ensures findings == before + MemberIdFindings(ms, path)
    decreases ms
  {
    findings := before;
    for i := 0 to |ms|
      invariant findings + MemberIdFindings(ms[i..], path) == before + MemberIdFindings(ms, path)
    {
      assert ms[i..][1..] == ms[i + 1..];
      findings := WalkStrings(ms[i].value, MemberPath(path, ms[i].key), findings);
    }
  }

  method CollectHits(s: Text, path: Text, entities: seq<string>, before: seq<IdFinding>)
    returns (findings: seq<IdFinding>)
    ensures findings == before + PrefixHits(s, path, entities)
  {
    findings := before;
    for i := 0 to |entities|
      invariant findings + PrefixHits(s, path, entities[i..]) == before + PrefixHits(s, path, entities)
    {
      assert entities[i..][1..] == entities[i + 1..];
      if Contains(s, Prefix(entities[i])) {
        findings := findings + [IdFinding(path, Prefix(entities[i]))];
      }
    }
  }

  // ---- The guard's verdict ----

  /** Some string value the walk visits contains the pattern. */
  ghost predicate Leaks(v: Value, p: Text) {
    match v
    case Str(s) => Contains(s, p)
    case Arr(items) => exists i | 0 <= i < |items| :: Leaks(items[i], p)
    case Obj(ms) => exists i | 0 <= i < |ms| :: Leaks(ms[i].value, p)
    case _ => false
  }

  lemma {:induction false} HitsExactly(s: Text, path: Text, entities: seq<string>)
    ensures PrefixHits(s, path, entities) == [] <==> forall e | e in entities :: !Contains(s, Prefix(e))
  {
    if entities != [] {
      HitsExactly(s, path, entities[1..]);
      assert entities == [entities[0]] + entities[1..];
    }
  }

  /** The walk reports nothing exactly when no string value contains a forbidden prefix. */
  lemma {:induction false} SilentExactly(v: Value, path: Text)
    ensures IdFindings(v, path) == [] <==> forall e | e in ENTITIES :: !Leaks(v, Prefix(e))
    decreases v, 1
  {
    match v
    case Str(s) => HitsExactly(s, if path == [] then Units("(root)") else path, ENTITIES);
    case Arr(items) => SilentItems(items, 0, path);
    case Obj(ms) => SilentMembers(ms, path);
    case _ =>
  }

  lemma {:induction false} SilentItems(items: seq<Value>, first: nat, path: Text)
    ensures ItemIdFindings(items, first, path) == [] <==> forall e | e in ENTITIES :: !Leaks(Arr(items), Prefix(e))
    decreases items, 0
  {
    if items != [] {
      SilentExactly(items[0], ItemPath(path, first));
      SilentItems(items[1..], first + 1, path);
      forall p ensures Leaks(Arr(items), p) <==> Leaks(items[0], p) || Leaks(Arr(items[1..]), p) {
        LeaksCons(items, p);
      }
    }
  }

  lemma {:induction false} SilentMembers(ms: seq<Member>, path: Text)
    ensures MemberIdFindings(ms, path) == [] <==> forall e | e in ENTITIES :: !Leaks(Obj(ms), Prefix(e))
    decreases ms, 0
  {
    if ms != [] {
      SilentExactly(ms[0].value, MemberPath(path, ms[0].key));
      SilentMembers(ms[1..], path);
      forall p ensures Leaks(Obj(ms), p) <==> Leaks(ms[0].value, p) || Leaks(Obj(ms[1..]), p) {
        LeaksMemberCons(ms, p);
      }
    }
  }

  lemma {:induction false} LeaksCons(items: seq<Value>, p: Text)
    requires items != []
    ensures Leaks(Arr(items), p) <==> Leaks(items[0], p) || Leaks(Arr(items[1..]), p)
  {
    var rest := items[1..];
    assert items == [items[0]] + rest;
    assert forall i | 0 <= i < |rest| :: rest[i] == items[i + 1];
    assert forall i | 0 < i < |items| :: items[i] == rest[i - 1];
  }

  lemma {:induction false} LeaksMemberCons(ms: seq<Member>, p: Text)
    requires ms != []
    ensures Leaks(Obj(ms), p) <==> Leaks(ms[0].value, p) || Leaks(Obj(ms[1..]), p)
  {
    var rest := ms[1..];
    assert forall i | 0 <= i < |rest| :: rest[i] == ms[i + 1];
    assert forall i | 0 < i < |ms| :: ms[i] == rest[i - 1];
  }

  // ---- Where a pattern can occur in printed text ----

  predicate IsPlain(c: CodeUnit) { 0x61 <= c < 0x7B || c == COLON }

  /** What every forbidden prefix looks like: lower-case letters and colons, starting with `m`. */
  predicate PrefixShape(p: Text) {
    p != [] && p[0] == 0x6D && COLON in p && forall c | c in p :: IsPlain(c)
  }

  predicate LowerCase(s: string) { forall i | 0 <= i < |s| :: 'a' <= s[i] <= 'z' }

  lemma PrefixHasShape(e: string)
    requires e in ENTITIES
    ensures PrefixShape(Prefix(e))
  {
    assert LowerCase(e);
    LowerCasePrefix(e);
  }

  lemma LowerCasePrefix(e: string)
    requires LowerCase(e)
    ensures PrefixShape(Prefix(e))
  {
    var m, w := Units("mon:"), Units(e);
    var p := Prefix(e);
    assert forall k | 0 <= k < |w| :: IsPlain(w[k]);
    assert forall k | 0 <= k < 4 :: IsPlain(m[k]);
    assert p == m + w + [COLON];
    assert p[0] == 0x6D;
  }

  lemma {:induction false} PlainPrefix(q: Text, s: Text)
    requires forall c | c in q :: IsPlain(c)
    ensures q <= Escape(s) <==> q <= s
    decreases |s|
  {
    if q != [] && s != [] {
      assert IsPlain(q[0]);
      var e := Escape(s);
      if IsPlain(s[0]) {
        PlainPrefix(q[1..], s[1..]);
        assert e[1..] == Escape(s[1..]) && e[0] == s[0];
        assert q == [q[0]] + q[1..] && s == [s[0]] + s[1..] && e == [e[0]] + e[1..];
      } else {
        assert !IsPlain(e[0]);
      }
    }
  }

  lemma ContainsCons(c: CodeUnit, t: Text, p: Text)
    ensures Contains([c] + t, p) <==> p <= [c] + t || Contains(t, p)
  {
    var u := [c] + t;
    if Contains(u, p) {
      var i :| 0 <= i <= |u| && p <= u[i..];
      if i > 0 {
        assert u[i..] == t[i - 1..];
      } else {
        assert u[0..] == u;
      }
    }
    if p <= u {
      assert u[0..] == u;
    }
    if Contains(t, p) {
      ContainsPart(u, p, 1, t);
    }
  }

  predicate NotStarting(e: Text, c: CodeUnit) { forall x | x in e :: x != c }

  lemma {:induction false} ContainsBehindText(e: Text, t: Text, p: Text)
    requires p != [] && NotStarting(e, p[0])
    ensures Contains(e + t, p) <==> Contains(t, p)
  {
    if e == [] {
      assert e + t == t;
    } else {
      assert e[0] in e && forall x | x in e[1..] :: x in e;
      ContainsBehindText(e[1..], t, p);
      ContainsBehind(e[0], e[1..] + t, p);
      assert e + t == [e[0]] + (e[1..] + t);
    }
  }

  /** Escaping neither hides nor fabricates an occurrence. */
  lemma {:induction false} EscapeKeepsOccurrences(s: Text, p: Text)
    requires PrefixShape(p)
    ensures Contains(Escape(s), p) <==> Contains(s, p)
    decreases |s|
  {
    if s == [] {
    } else if StartsWithPair(s) {
      EscapeKeepsOccurrences(s[2..], p);
      ContainsBehindText(s[..2], Escape(s[2..]), p);
      ContainsBehindText(s[..2], s[2..], p);
      assert s == s[..2] + s[2..];
    } else {
      var c, rest := s[0], s[1..];
      assert s == [c] + rest;
      EscapeKeepsOccurrences(rest, p);
      ContainsCons(c, rest, p);
      if IsPlain(c) {
        ContainsCons(c, Escape(rest), p);
        PlainPrefix(p, s);
      } else {
        assert NotStarting(EscapeUnit(c), p[0]);
        ContainsBehindText(EscapeUnit(c), Escape(rest), p);
        ContainsBehindText([c], rest, p);
      }
    }
  }

  lemma QuotedKeepsOccurrences(s: Text, p: Text)
    requires PrefixShape(p)
    ensures Contains(Quoted(s), p) <==> Contains(s, p)
  {
    var e := Escape(s);
    EscapeKeepsOccurrences(s, p);
    Assoc3([QUOTE], e, [QUOTE]);
    ContainsBehind(QUOTE, e + [QUOTE], p);
    ContainsBeforeQuote(e, p);
  }

  lemma ContainsBeforeQuote(e: Text, p: Text)
    requires PrefixShape(p)
    ensures Contains(e + [QUOTE], p) <==> Contains(e, p)
  {
    assert QUOTE !in p;
    ContainsAcross(e + [QUOTE], [], p);
    if Contains(e + [QUOTE], p) {
      var t := e + [QUOTE];
      var i :| 0 <= i <= |t| && p <= t[i..];
      var u := t[i..];
      assert forall k | 0 <= k < |p| :: u[k] in p;
      assert i <= |e| ==> u[|e| - i] == QUOTE;
      assert p <= e[i..];
    }
    if Contains(e, p) {
      ContainsPart(e + [QUOTE], p, 0, e);
    }
  }

  /** A key or string value of the printed tree contains the pattern. */
  ghost predicate Shows(c: Value, p: Text) {
    match c
    case Str(s) => Contains(s, p)
    case Arr(items) => exists i | 0 <= i < |items| :: Shows(items[i], p)
    case Obj(ms) => exists i | 0 <= i < |ms| :: ShowsMember(ms[i], p)
    case _ => false
  }

  ghost predicate ShowsMember(m: Member, p: Text) {
    Contains(m.key, p) || Shows(m.value, p)
  }

  /** The printed text contains a forbidden prefix exactly where some key or string does: brackets,
      separators, escapes and literals never complete one. */
  lemma {:induction false} PrintShows(c: Value, p: Text)
    requires IsJson(c) && PrefixShape(p)
    ensures Contains(Print(c), p) <==> Shows(c, p)
    decreases c, 1
  {
    match c
    case Str(s) => QuotedKeepsOccurrences(s, p);
    case Arr(items) =>
      if items == [] {
        NoColonNoPrefix(Print(c), p);
      } else {
        PrintItemsShow(items, p);
        assert [COMMA] + Print(items[0]) + PrintItems(items[1..]) == PrintItems(items);
        SwapLead(COMMA, LBRACKET, Print(items[0]), PrintItems(items[1..]), p);
      }
    case Obj(ms) =>
      if ms == [] {
        NoColonNoPrefix(Print(c), p);
      } else {
        PrintMembersShow(ms, p);
        assert [COMMA] + PrintMember(ms[0]) + PrintMembers(ms[1..]) == PrintMembers(ms);
        SwapLead(COMMA, LBRACE, PrintMember(ms[0]), PrintMembers(ms[1..]), p);
      }
    case Num(n) =>
      NumberHasNoColon(n);
      NoColonNoPrefix(Print(c), p);
    case _ => NoColonNoPrefix(Print(c), p);
  }

  lemma NoColonNoPrefix(t: Text, p: Text)
    requires COLON !in t && PrefixShape(p)
    ensures !Contains(t, p)
  {
    if Contains(t, p) {
      ContainsNeeds(t, p, COLON);
    }
  }

  lemma NumberHasNoColon(n: SafeInteger)
    ensures COLON !in PrintNumber(n)
  {
    var d := Numeral(if n < 0 then -n else n);
    assert forall c | c in d :: IsDigit(c);
  }

  lemma SwapLead(x: CodeUnit, y: CodeUnit, a: Text, b: Text, p: Text)
    requires PrefixShape(p) && x != p[0] && y != p[0]
    ensures Contains([x] + a + b, p) <==> Contains([y] + a + b, p)
  {
    Assoc3([x], a, b);
    Assoc3([y], a, b);
    ContainsBehind(x, a + b, p);
    ContainsBehind(y, a + b, p);
  }

  lemma {:induction false} PrintItemsShow(items: seq<Value>, p: Text)
    requires PrefixShape(p) && forall i | 0 <= i < |items| :: IsJson(items[i])
    ensures Contains(PrintItems(items), p) <==> Shows(Arr(items), p)
    decreases items, 0
  {
    if items == [] {
      NoColonNoPrefix([RBRACKET], p);
    } else {
      var rest := items[1..];
      PrintShows(items[0], p);
      PrintItemsShow(rest, p);
      Assoc3([COMMA], Print(items[0]), PrintItems(rest));
      ContainsBehind(COMMA, Print(items[0]) + PrintItems(rest), p);
      PrintItemsStarts(rest);
      ContainsBefore(Print(items[0]), PrintItems(rest), p);
      assert forall i | 0 <= i < |rest| :: rest[i] == items[i + 1];
      assert forall i | 0 < i < |items| :: items[i] == rest[i - 1];
    }
  }

  lemma PrintItemsStarts(items: seq<Value>)
    ensures PrintItems(items) != [] && PrintItems(items)[0] in {COMMA, RBRACKET}
  {
    if items != [] {
      Assoc3([COMMA], Print(items[0]), PrintItems(items[1..]));
    }
  }

  lemma {:induction false} PrintMembersShow(ms: seq<Member>, p: Text)
    requires PrefixShape(p) && forall i | 0 <= i < |ms| :: IsJson(ms[i].value)
    ensures Contains(PrintMembers(ms), p) <==> Shows(Obj(ms), p)
    decreases ms, 0
  {
    if ms == [] {
      NoColonNoPrefix([RBRACE], p);
    } else {
      var m, rest := ms[0], ms[1..];
      PrintShows(m.value, p);
      PrintMemberShows(m, p);
      PrintMembersShow(rest, p);
      Assoc3([COMMA], PrintMember(m), PrintMembers(rest));
      ContainsBehind(COMMA, PrintMember(m) + PrintMembers(rest), p);
      PrintMembersStarts(rest);
      ContainsBefore(PrintMember(m), PrintMembers(rest), p);
      assert forall i | 0 <= i < |rest| :: rest[i] == ms[i + 1];
      assert forall i | 0 < i < |ms| :: ms[i] == rest[i - 1];
    }
  }

  lemma PrintMembersStarts(ms: seq<Member>)
    ensures PrintMembers(ms) != [] && PrintMembers(ms)[0] in {COMMA, RBRACE}
  {
    if ms != [] {
      Assoc3([COMMA], PrintMember(ms[0]), PrintMembers(ms[1..]));
    }
  }

  lemma PrintMemberShows(m: Member, p: Text)
    requires PrefixShape(p) && (Contains(Print(m.value), p) <==> Shows(m.value, p))
    ensures Contains(PrintMember(m), p) <==> ShowsMember(m, p)
  {
    var q := Quoted(m.key);
    QuotedKeepsOccurrences(m.key, p);
    Assoc3(q, [COLON], Print(m.value));
    assert q[|q| - 1] == QUOTE && QUOTE !in p;
    ContainsAcross(q, [COLON] + Print(m.value), p);
    ContainsBehind(COLON, Print(m.value), p);
  }

  // ---- From the printed tree back to the input ----

  /** A key or string value that reaches the output contains the pattern. */
  ghost predicate Mentions(v: Value, p: Text) {
    match v
    case Str(s) => Contains(s, p)
    case Arr(items) => exists i | 0 <= i < |items| :: Mentions(items[i], p)
    case Obj(ms) => exists i | 0 <= i < |ms| :: Counts(ms[i]) && MentionsMember(ms[i], p)
    case _ => false
  }

  ghost predicate MentionsMember(m: Member, p: Text) {
    Contains(m.key, p) || Mentions(m.value, p)
  }

  lemma {:induction false} CanonicalShows(v: Value, p: Text)
    requires WellFormed(v) && Canonical(v).Some?
    ensures Shows(Canonical(v).value, p) <==> Mentions(v, p)
    decreases v
  {
    match v
    case Arr(items) =>
      CanonicalItemsHold(items);
      forall i | 0 <= i < |items|
        ensures Shows(Canonical(items[i]).value, p) <==> Mentions(items[i], p)
      {
        CanonicalShows(items[i], p);
      }
    case Obj(ms) =>
      var cs := CanonicalMembers(ms).value;
      CanonicalMembersHold(ms);
      forall i | 0 <= i < |ms| && Counts(ms[i])
        ensures Shows(Canonical(ms[i].value).value, p) <==> Mentions(ms[i].value, p)
      {
        CanonicalShows(ms[i].value, p);
      }
      KeptShows(ms, cs, p);
    case _ =>
  }

  lemma KeptShows(ms: seq<Member>, cs: seq<Member>, p: Text)
    requires HoldsKept(ms, cs) && DefinedAccepted(ms)
    requires forall i | 0 <= i < |ms| && Counts(ms[i]) :: Shows(Canonical(ms[i].value).value, p) <==>
              Mentions(ms[i].value, p)
    ensures Shows(Obj(cs), p) <==> Mentions(Obj(ms), p)
  {
    if Shows(Obj(cs), p) {
      var k :| 0 <= k < |cs| && ShowsMember(cs[k], p);
      assert Kept(ms, cs[k]);
      var i :| 0 <= i < |ms| && Counts(ms[i]) && ms[i].key == cs[k].key && Canonical(ms[i].value) == Some(cs[k].value);
      assert MentionsMember(ms[i], p);
    }
    if Mentions(Obj(ms), p) {
      var i :| 0 <= i < |ms| && Counts(ms[i]) && MentionsMember(ms[i], p);
      var m := Member(ms[i].key, Canonical(ms[i].value).value);
      assert Kept(ms, m);
      assert m in cs && ShowsMember(m, p);
    }
  }

  // ---- Main results ----

  /** Canonical text contains a forbidden prefix exactly when a key or string value that reaches it does. */
  lemma TextShowsExactly(v: Value, e: string)
    requires WellFormed(v) && CanonicalText(v).Some? && e in ENTITIES
    ensures Contains(CanonicalText(v).value, Prefix(e)) <==> Mentions(v, Prefix(e))
  {
    PrefixHasShape(e);
    CanonicalStable(v);
    PrintShows(Canonical(v).value, Prefix(e));
    CanonicalShows(v, Prefix(e));
  }

  /** No key that reaches the output contains the pattern. */
  ghost predicate KeysClean(v: Value, p: Text) {
    match v
    case Arr(items) => forall i | 0 <= i < |items| :: KeysClean(items[i], p)
    case Obj(ms) => forall i | 0 <= i < |ms| && Counts(ms[i]) :: !Contains(ms[i].key, p) && KeysClean(ms[i].value, p)
    case _ => true
  }

  /** Nothing is lost to a prototype assignment. */
  ghost predicate NoProto(v: Value) {
    match v
    case Arr(items) => forall i | 0 <= i < |items| :: NoProto(items[i])
    case Obj(ms) => forall i | 0 <= i < |ms| :: ms[i].key != PROTO && NoProto(ms[i].value)
    case _ => true
  }

  lemma {:induction false} MentionsLeaks(v: Value, p: Text)
    requires KeysClean(v, p)
    ensures Mentions(v, p) ==> Leaks(v, p)
    ensures NoProto(v) && Leaks(v, p) ==> Mentions(v, p)
    decreases v
  {
    match v
    case Arr(items) =>
      forall i | 0 <= i < |items|
        ensures Mentions(items[i], p) ==> Leaks(items[i], p)
        ensures NoProto(items[i]) && Leaks(items[i], p) ==> Mentions(items[i], p)
      {
        MentionsLeaks(items[i], p);
      }
    case Obj(ms) =>
      forall i | 0 <= i < |ms| && Counts(ms[i])
        ensures MentionsMember(ms[i], p) ==> Leaks(ms[i].value, p)
        ensures NoProto(ms[i].value) && Leaks(ms[i].value, p) ==> MentionsMember(ms[i], p)
      {
        MentionsLeaks(ms[i].value, p);
      }
      if NoProto(v) && Leaks(v, p) {
        var i :| 0 <= i < |ms| && Leaks(ms[i].value, p);
        assert Counts(ms[i]) && MentionsMember(ms[i], p);
      }
    case _ =>
  }

  ghost predicate AllKeysClean(v: Value) { forall e | e in ENTITIES :: KeysClean(v, Prefix(e)) }

  ghost predicate TextClean(v: Value)
    requires CanonicalText(v).Some?
  {
    forall e | e in ENTITIES :: !Contains(CanonicalText(v).value, Prefix(e))
  }

  /** With clean keys, a silent walk guarantees that no forbidden prefix occurs anywhere in the published
      bytes; and the converse holds when no member is lost to a prototype assignment. */
  lemma GuardVerdictCarries(v: Value, path: Text)
    requires WellFormed(v) && CanonicalText(v).Some? && AllKeysClean(v)
    ensures IdFindings(v, path) == [] ==> TextClean(v)
    ensures NoProto(v) && TextClean(v) ==> IdFindings(v, path) == []
  {
    SilentExactly(v, path);
    forall e | e in ENTITIES
      ensures Contains(CanonicalText(v).value, Prefix(e)) ==> Leaks(v, Prefix(e))
      ensures NoProto(v) && Leaks(v, Prefix(e)) ==> Contains(CanonicalText(v).value, Prefix(e))
    {
      TextShowsExactly(v, e);
      MentionsLeaks(v, Prefix(e));
    }
  }
}
