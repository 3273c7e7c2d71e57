/** The walk over keys, and what canonicalizing does to the findings of both guards. */
module ForbiddenFields {
  import opened Options
  import opened Text
  import opened JsonValue
  import opened CanonicalJson
  import opened LeakGuards

  datatype Reason = ForbiddenKey | ForbiddenToken
  datatype FieldFinding = FieldFinding(path: Text, key: Text, reason: Reason)

  /** Decides a key; the walk's results hold for every such decision. */
  type Classifier = Text -> Option<Reason>

  const FORBIDDEN_KEYS: seq<string> := [
    "price", "pricecurrency", "currency", "discount", "discountrate", "validitystart", "validityend", "territory",
    "promotercommissionrate", "commission", "commissionrate", "commissioneligibility", "promotercommentary",
    "curation", "verifiedby", "marketplaceactivationstatus", "agentnetpublicationstatus", "marketplaceverification",
    "review", "reviews", "rating", "ratings", "stripe", "stripeaccountid", "payment", "paymentmethod", "cardnumber",
    "bankaccount", "iban", "routingnumber", "ssn", "taxid", "taxidentification", "dateofbirth", "residentialaddress"
  ]

  const FORBIDDEN_TOKENS: seq<string> := [
    "price", "commission", "stripe", "payment", "discount", "cardnumber", "bankaccount"
  ]

  /** The source's classifier, over the host's lower-casing. */
  function KeyIsForbidden(lower: Text -> Text, key: Text): Option<Reason> {
    var norm := lower(key);
    if Listed(norm) then Some(ForbiddenKey) else if HasToken(norm) then Some(ForbiddenToken) else None
  }

  predicate Listed(norm: Text) { exists k | k in FORBIDDEN_KEYS :: norm == Units(k) }
  predicate HasToken(norm: Text) { exists t | t in FORBIDDEN_TOKENS :: Contains(norm, Units(t)) }

  // ---- Specification of the walk ----

  predicate Structural(key: Text) { key != [] && key[0] == 0x40 }

  function OwnFinding(key: Text, path: Text, classify: Classifier): seq<FieldFinding> {
    if Structural(key) then []
    else match classify(key)
      case None => []
      case Some(r) => [FieldFinding(MemberPath(path, key), key, r)]
  }

  function FieldFindings(v: Value, path: Text, classify: Classifier): seq<FieldFinding>
    decreases v, 0
  {
    match v
    case Arr(items) => ItemFieldFindings(items, 0, path, classify)
    case Obj(ms) => MemberFieldFindings(ms, path, classify)
    case _ => []
  }

  function ItemFieldFindings(items: seq<Value>, first: nat, path: Text, classify: Classifier): seq<FieldFinding>
    decreases items, 0
  {
    if items == [] then []
    else
      FieldFindings(items[0], ItemPath(path, first), classify)
      + ItemFieldFindings(items[1..], first + 1, path, classify)
  }

  function MemberFieldFindings(ms: seq<Member>, path: Text, classify: Classifier): seq<FieldFinding>
    decreases ms, 0
  {
    if ms == [] then []
    else MemberFindings(ms[0], path, classify) + MemberFieldFindings(ms[1..], path, classify)
  }

  function MemberFindings(m: Member, path: Text, classify: Classifier): seq<FieldFinding>
    decreases m, 0
  {
    OwnFinding(m.key, path, classify) + FieldFindings(m.value, MemberPath(path, m.key), classify)
  }

  method FindForbiddenFields(value: Value, basePath: Text, classify: Classifier) returns (findings: seq<FieldFinding>)
    ensures findings == FieldFindings(value, basePath, classify)
  {
    findings := WalkKeys(value, basePath, classify, []);
  }

  method WalkKeys(node: Value, path: Text, classify: Classifier, before: seq<FieldFinding>)
    returns (findings: seq<FieldFinding>)
    ensures findings == before + FieldFindings(node, path, classify)
    decreases node
  {
    findings := before;
    match node
    case Arr(items) => findings := WalkItemKeys(items, path, classify, before);
    case Obj(ms) => findings := WalkMemberKeys(ms, path, classify, before);
    case _ =>
  }

  method WalkItemKeys(items: seq<Value>, path: Text, classify: Classifier, before: seq<FieldFinding>)
    returns (findings: seq<FieldFinding>)
    ensures findings == before + ItemFieldFindings(items, 0, path, classify)
    decreases items
  {
    findings := before;
    for i := 0 to |items|
      invariant findings + ItemFieldFindings(items[i..], i, path, classify)
                  == before + ItemFieldFindings(items, 0, path, classify)
    {
      assert items[i..][1..] == items[i + 1..];
      findings := WalkKeys(items[i], ItemPath(path, i), classify, findings);
    }
  }

  method WalkMemberKeys(ms: seq<Member>, path: Text, classify: Classifier, before: seq<FieldFinding>)
    returns (findings: seq<FieldFinding>)
    ensures findings == before + MemberFieldFindings(ms, path, classify)
    decreases ms
  {
    findings := before;
    for i := 0 to |ms|
      invariant findings + MemberFieldFindings(ms[i..], path, classify)
                  == before + MemberFieldFindings(ms, path, classify)
    {
      assert ms[i..][1..] == ms[i + 1..];
      findings := WalkMember(ms[i], path, classify, findings);
    }
  }

  method WalkMember(m: Member, path: Text, classify: Classifier, before: seq<FieldFinding>)
    returns (findings: seq<FieldFinding>)
    ensures findings == before + MemberFindings(m, path, classify)
    decreases m
  {
    findings := before;
    if !Structural(m.key) {
      match classify(m.key)
      case Some(r) => findings := findings + [FieldFinding(MemberPath(path, m.key), m.key, r)];
      case None =>
    }
    assert findings == before + OwnFinding(m.key, path, classify);
    findings := WalkKeys(m.value, MemberPath(path, m.key), classify, findings);
  }

  // ---- Every forbidden key, at every depth, and nothing else ----

  datatype Step = Item(i: nat) | Into(key: Text)

  /** Following `steps` from `v` arrives at an object that has a member `key`. */
  ghost predicate HasKeyAt(v: Value, steps: seq<Step>, key: Text)
    decreases |steps|
  {
    if steps == [] then v.Obj? && exists i | 0 <= i < |v.members| :: v.members[i].key == key
    else match steps[0]
      case Item(i) => v.Arr? && i < |v.items| && HasKeyAt(v.items[i], steps[1..], key)
      case Into(k) => v.Obj? && exists i | 0 <= i < |v.members| ::
          v.members[i].key == k && HasKeyAt(v.members[i].value, steps[1..], key)
  }

  function Render(path: Text, steps: seq<Step>): Text
    decreases |steps|
  {
    if steps == [] then path
    else match steps[0]
      case Item(i) => Render(ItemPath(path, i), steps[1..])
      case Into(k) => Render(MemberPath(path, k), steps[1..])
  }

  /** `f` names a forbidden key that the value really has at the rendered path. */
  ghost predicate Genuine(v: Value, path: Text, classify: Classifier, f: FieldFinding, steps: seq<Step>) {
    && HasKeyAt(v, steps, f.key)
    && !Structural(f.key)
    && classify(f.key) == Some(f.reason)
    && f.path == MemberPath(Render(path, steps), f.key)
  }

  /** Nothing is reported that is not there. */
  lemma {:induction false} FindingsGenuine(v: Value, path: Text, classify: Classifier, f: FieldFinding)
    returns (steps: seq<Step>)
    requires f in FieldFindings(v, path, classify)
    ensures Genuine(v, path, classify, f, steps)
    decreases v, 1
  {
    match v
    case Arr(items) =>
      var i, rest := ItemFindingsGenuine(items, 0, path, classify, f);
      steps := [Item(i)] + rest;
      assert steps[1..] == rest;
    case Obj(ms) =>
      steps := MemberFindingsGenuine(ms, path, classify, f);
  }

  lemma {:induction false} ItemFindingsGenuine(items: seq<Value>, first: nat, path: Text, classify: Classifier,
      f: FieldFinding)
    returns (i: nat, steps: seq<Step>)
    requires f in ItemFieldFindings(items, first, path, classify)
    ensures first <= i < first + |items| && Genuine(items[i - first], ItemPath(path, i), classify, f, steps)
    decreases items, 0
  {
    if f in FieldFindings(items[0], ItemPath(path, first), classify) {
      i := first;
      steps := FindingsGenuine(items[0], ItemPath(path, first), classify, f);
    } else {
      i, steps := ItemFindingsGenuine(items[1..], first + 1, path, classify, f);
    }
  }

  lemma {:induction false} MemberFindingsGenuine(ms: seq<Member>, path: Text, classify: Classifier, f: FieldFinding)
    returns (steps: seq<Step>)
    requires f in MemberFieldFindings(ms, path, classify)
    ensures Genuine(Obj(ms), path, classify, f, steps)
    decreases ms, 0
  {
    var m, inner := ms[0], MemberPath(path, ms[0].key);
    if f in OwnFinding(m.key, path, classify) {
      steps := [];
      assert ms[0].key == f.key;
    } else if f in FieldFindings(m.value, inner, classify) {
      var rest := FindingsGenuine(m.value, inner, classify, f);
      steps := [Into(m.key)] + rest;
      assert steps[1..] == rest;
      assert ms[0].key == m.key && HasKeyAt(ms[0].value, rest, f.key);
    } else {
      steps := MemberFindingsGenuine(ms[1..], path, classify, f);
      HasKeyAtTail(ms, steps, f.key);
    }
  }

  lemma HasKeyAtTail(ms: seq<Member>, steps: seq<Step>, key: Text)
    requires ms != [] && HasKeyAt(Obj(ms[1..]), steps, key)
    ensures HasKeyAt(Obj(ms), steps, key)
  {
    var rest := ms[1..];
    assert forall i | 0 <= i < |rest| :: rest[i] == ms[i + 1];
    if steps == [] {
      var i :| 0 <= i < |rest| && rest[i].key == key;
      assert ms[i + 1].key == key;
    } else {
      var i :| 0 <= i < |rest| && steps[0].Into? && rest[i].key == steps[0].key
          && HasKeyAt(rest[i].value, steps[1..], key);
      assert ms[i + 1].key == steps[0].key && HasKeyAt(ms[i + 1].value, steps[1..], key);
    }
  }

  /** Everything that is there is reported, below structural `@` keys too. */
  lemma {:induction false} FindingsComplete(v: Value, path: Text, classify: Classifier, f: FieldFinding,
      steps: seq<Step>)
    requires Genuine(v, path, classify, f, steps)
    ensures f in FieldFindings(v, path, classify)
    decreases |steps|
  {
    if steps == [] {
      var i :| 0 <= i < |v.members| && v.members[i].key == f.key;
      MemberFindingsCover(v.members, i, path, classify, f);
    } else {
      match steps[0]
      case Item(i) =>
        FindingsComplete(v.items[i], ItemPath(path, i), classify, f, steps[1..]);
        ItemFindingsCover(v.items, 0, i, path, classify, f);
      case Into(k) =>
        var i :| 0 <= i < |v.members| && v.members[i].key == k && HasKeyAt(v.members[i].value, steps[1..], f.key);
        FindingsComplete(v.members[i].value, MemberPath(path, k), classify, f, steps[1..]);
        MemberFindingsCover(v.members, i, path, classify, f);
    }
  }

  lemma {:induction false} ItemFindingsCover(items: seq<Value>, first: nat, i: nat, path: Text, classify: Classifier,
      f: FieldFinding)
    requires i < |items| && f in FieldFindings(items[i], ItemPath(path, first + i), classify)
    ensures f in ItemFieldFindings(items, first, path, classify)
  {
    if i > 0 {
      ItemFindingsCover(items[1..], first + 1, i - 1, path, classify, f);
    }
  }

  lemma {:induction false} MemberFindingsCover(ms: seq<Member>, i: nat, path: Text, classify: Classifier,
      f: FieldFinding)
    requires i < |ms|
    requires f in OwnFinding(ms[i].key, path, classify)
              || f in FieldFindings(ms[i].value, MemberPath(path, ms[i].key), classify)
    ensures f in MemberFieldFindings(ms, path, classify)
  {
    if i > 0 {
      MemberFindingsCover(ms[1..], i - 1, path, classify, f);
    }
  }

  /** The walk reports exactly the forbidden keys the value has, each at its rendered path. */
  lemma FindingsExactly(v: Value, path: Text, classify: Classifier, f: FieldFinding)
    ensures f in FieldFindings(v, path, classify) <==> exists steps :: Genuine(v, path, classify, f, steps)
  {
    if f in FieldFindings(v, path, classify) {
      var steps := FindingsGenuine(v, path, classify, f);
    }
    if steps :| Genuine(v, path, classify, f, steps) {
      FindingsComplete(v, path, classify, f, steps);
    }
  }

  // ---- What canonicalizing does to the findings ----

  /** The findings at or below members that canonicalization drops: undefined ones, and any named `__proto__`. */
  ghost function Dropped(v: Value, path: Text, classify: Classifier): multiset<FieldFinding>
    decreases v, 0
  {
    match v
    case Arr(items) => ItemsDropped(items, 0, path, classify)
    case Obj(ms) => MembersDropped(ms, path, classify)
    case _ => multiset{}
  }

  ghost function ItemsDropped(items: seq<Value>, first: nat, path: Text, classify: Classifier): multiset<FieldFinding>
    decreases items, 0
  {
    if items == [] then multiset{}
    else Dropped(items[0], ItemPath(path, first), classify) + ItemsDropped(items[1..], first + 1, path, classify)
  }

  ghost function MembersDropped(ms: seq<Member>, path: Text, classify: Classifier): multiset<FieldFinding>
    decreases ms, 0
  {
    if ms == [] then multiset{}
    else
      (if !Counts(ms[0]) then multiset(MemberFindings(ms[0], path, classify))
       else Dropped(ms[0].value, MemberPath(path, ms[0].key), classify))
      + MembersDropped(ms[1..], path, classify)
  }

  lemma {:induction false} PlaceFields(m: Member, cs: seq<Member>, path: Text, classify: Classifier)
    ensures multiset(MemberFieldFindings(Place(m, cs), path, classify))
         == multiset(MemberFindings(m, path, classify)) + multiset(MemberFieldFindings(cs, path, classify))
  {
    var r := Place(m, cs);
    if cs == [] || KeyBefore(m.key, cs[0].key) {
      assert r[1..] == cs;
      assert MemberFieldFindings(r, path, classify)
          == MemberFindings(m, path, classify) + MemberFieldFindings(cs, path, classify);
    } else {
      PlaceFields(m, cs[1..], path, classify);
      assert r[1..] == Place(m, cs[1..]);
      assert MemberFieldFindings(r, path, classify)
          == MemberFindings(cs[0], path, classify) + MemberFieldFindings(r[1..], path, classify);
      assert MemberFieldFindings(cs, path, classify)
          == MemberFindings(cs[0], path, classify) + MemberFieldFindings(cs[1..], path, classify);
    }
  }

  /** Canonicalizing removes exactly the findings on dropped members and only reorders the rest. */
  lemma {:induction false} CanonicalFields(v: Value, path: Text, classify: Classifier)
    requires Canonical(v).Some?
    ensures multiset(FieldFindings(v, path, classify))
         == multiset(FieldFindings(Canonical(v).value, path, classify)) + Dropped(v, path, classify)
    decreases v, 1
  {
    hide Place, OwnFinding, MemberFindings, Counts;
    match v
    case Arr(items) => CanonicalItemFields(items, 0, path, classify);
    case Obj(ms) => CanonicalMemberFields(ms, path, classify);
    case _ =>
  }

  lemma {:induction false} CanonicalItemFields(items: seq<Value>, first: nat, path: Text, classify: Classifier)
    requires CanonicalItems(items).Some?
    ensures multiset(ItemFieldFindings(items, first, path, classify))
         == multiset(ItemFieldFindings(CanonicalItems(items).value, first, path, classify))
             + ItemsDropped(items, first, path, classify)
    decreases items, 0
  {
    if items != [] {
      CanonicalFields(items[0], ItemPath(path, first), classify);
      CanonicalItemFields(items[1..], first + 1, path, classify);
      var cs := CanonicalItems(items).value;
      assert cs[1..] == CanonicalItems(items[1..]).value;
    }
  }

  lemma {:induction false} CanonicalMemberFields(ms: seq<Member>, path: Text, classify: Classifier)
    requires CanonicalMembers(ms).Some?
    ensures multiset(MemberFieldFindings(ms, path, classify))
         == multiset(MemberFieldFindings(CanonicalMembers(ms).value, path, classify))
             + MembersDropped(ms, path, classify)
    decreases ms, 0
  {
    if ms != [] {
      var m, rest := ms[0], ms[1..];
      CanonicalMemberFields(rest, path, classify);
      if Counts(m) {
        CanonicalFields(m.value, MemberPath(path, m.key), classify);
        RenewedMemberFields(m, Canonical(m.value).value, path, classify);
        PlaceFields(Member(m.key, Canonical(m.value).value), CanonicalMembers(rest).value, path, classify);
      }
    }
  }

  lemma RenewedMemberFields(m: Member, c: Value, path: Text, classify: Classifier)
    requires multiset(FieldFindings(m.value, MemberPath(path, m.key), classify))
          == multiset(FieldFindings(c, MemberPath(path, m.key), classify))
              + Dropped(m.value, MemberPath(path, m.key), classify)
    ensures multiset(MemberFindings(m, path, classify))
         == multiset(MemberFindings(Member(m.key, c), path, classify))
             + Dropped(m.value, MemberPath(path, m.key), classify)
  {
  }

  lemma {:induction false} PlaceIds(m: Member, cs: seq<Member>, path: Text)
    ensures multiset(MemberIdFindings(Place(m, cs), path))
         == multiset(IdFindings(m.value, MemberPath(path, m.key))) + multiset(MemberIdFindings(cs, path))
  {
    var r := Place(m, cs);
    if cs == [] || KeyBefore(m.key, cs[0].key) {
      assert r[1..] == cs;
    } else {
      PlaceIds(m, cs[1..], path);
      assert r[1..] == Place(m, cs[1..]);
    }
  }

  /** The internal-identifier findings below dropped members. */
  ghost function IdsDropped(v: Value, path: Text): multiset<IdFinding>
    decreases v, 0
  {
    match v
    case Arr(items) => ItemIdsDropped(items, 0, path)
    case Obj(ms) => MemberIdsDropped(ms, path)
    case _ => multiset{}
  }

  ghost function ItemIdsDropped(items: seq<Value>, first: nat, path: Text): multiset<IdFinding>
    decreases items, 0
  {
    if items == [] then multiset{}
    else IdsDropped(items[0], ItemPath(path, first)) + ItemIdsDropped(items[1..], first + 1, path)
  }

  ghost function MemberIdsDropped(ms: seq<Member>, path: Text): multiset<IdFinding>
    decreases ms, 0
  {
    if ms == [] then multiset{}
    else
      (if !Counts(ms[0]) then multiset(IdFindings(ms[0].value, MemberPath(path, ms[0].key)))
       else IdsDropped(ms[0].value, MemberPath(path, ms[0].key)))
      + MemberIdsDropped(ms[1..], path)
  }

  /** Canonicalizing removes exactly the internal-identifier findings below dropped members and only reorders the
      rest. */
  lemma {:induction false} CanonicalIds(v: Value, path: Text)
    requires Canonical(v).Some?
    ensures multiset(IdFindings(v, path)) == multiset(IdFindings(Canonical(v).value, path)) + IdsDropped(v, path)
    decreases v, 1
  {
    match v
    case Arr(items) => CanonicalItemIds(items, 0, path);
    case Obj(ms) => CanonicalMemberIds(ms, path);
    case _ =>
  }

  lemma {:induction false} CanonicalItemIds(items: seq<Value>, first: nat, path: Text)
    requires CanonicalItems(items).Some?
    ensures multiset(ItemIdFindings(items, first, path))
         == multiset(ItemIdFindings(CanonicalItems(items).value, first, path)) + ItemIdsDropped(items, first, path)
    decreases items, 0
  {
    if items != [] {
      CanonicalIds(items[0], ItemPath(path, first));
      CanonicalItemIds(items[1..], first + 1, path);
      var cs := CanonicalItems(items).value;
      assert cs[1..] == CanonicalItems(items[1..]).value;
    }
  }

  lemma {:induction false} CanonicalMemberIds(ms: seq<Member>, path: Text)
    requires CanonicalMembers(ms).Some?
    ensures multiset(MemberIdFindings(ms, path))
         == multiset(MemberIdFindings(CanonicalMembers(ms).value, path)) + MemberIdsDropped(ms, path)
    decreases ms, 0
  {
    if ms != [] {
      var m, rest := ms[0], ms[1..];
      CanonicalMemberIds(rest, path);
      if Counts(m) {
        CanonicalIds(m.value, MemberPath(path, m.key));
        PlaceIds(Member(m.key, Canonical(m.value).value), CanonicalMembers(rest).value, path);
      }
    }
  }

  /** Without a `__proto__` member nothing is lost: the findings are the same up to order. */
  lemma {:induction false} NoIdsDropped(v: Value, path: Text)
    requires NoProto(v)
    ensures IdsDropped(v, path) == multiset{}
    decreases v, 1
  {
    match v
    case Arr(items) => NoItemIdsDropped(items, 0, path);
    case Obj(ms) => NoMemberIdsDropped(ms, path);
    case _ =>
  }

  lemma {:induction false} NoItemIdsDropped(items: seq<Value>, first: nat, path: Text)
    requires forall i | 0 <= i < |items| :: NoProto(items[i])
    ensures ItemIdsDropped(items, first, path) == multiset{}
    decreases items, 0
  {
    if items != [] {
      NoIdsDropped(items[0], ItemPath(path, first));
      NoItemIdsDropped(items[1..], first + 1, path);
    }
  }

  lemma {:induction false} NoMemberIdsDropped(ms: seq<Member>, path: Text)
    requires forall i | 0 <= i < |ms| :: ms[i].key != PROTO && NoProto(ms[i].value)
    ensures MemberIdsDropped(ms, path) == multiset{}
    decreases ms, 0
  {
    if ms != [] {
      NoIdsDropped(ms[0].value, MemberPath(path, ms[0].key));
      NoMemberIdsDropped(ms[1..], path);
    }
  }

  // ---- The walk with the source's own classifier ----

  function ByKey(lower: Text -> Text): Classifier { key => KeyIsForbidden(lower, key) }

  /** Reported are exactly the non-structural keys whose lower-cased form is listed or contains a listed token, each at
      its path, with the reason that applies first. */
  lemma ForbiddenKeysExactly(lower: Text -> Text, v: Value, path: Text, f: FieldFinding)
    ensures f in FieldFindings(v, path, ByKey(lower)) <==>
            && !Structural(f.key)
            && (exists steps :: HasKeyAt(v, steps, f.key) && f.path == MemberPath(Render(path, steps), f.key))
            && (if Listed(lower(f.key)) then f.reason == ForbiddenKey
                else HasToken(lower(f.key)) && f.reason == ForbiddenToken)
  {
    hide Listed, HasToken, FieldFindings, HasKeyAt, Render, Structural;
    FindingsExactly(v, path, ByKey(lower), f);
    if f in FieldFindings(v, path, ByKey(lower)) {
      var steps :| Genuine(v, path, ByKey(lower), f, steps);
      assert HasKeyAt(v, steps, f.key) && f.path == MemberPath(Render(path, steps), f.key);
    }
    if steps :| HasKeyAt(v, steps, f.key) && f.path == MemberPath(Render(path, steps), f.key) {
      if !Structural(f.key) && KeyIsForbidden(lower, f.key) == Some(f.reason) {
        assert Genuine(v, path, ByKey(lower), f, steps);
      }
    }
  }

  method FindForbiddenKeys(lower: Text -> Text, value: Value, basePath: Text) returns (findings: seq<FieldFinding>)
    ensures findings == FieldFindings(value, basePath, ByKey(lower))
  {
    findings := FindForbiddenFields(value, basePath, ByKey(lower));
  }
}
