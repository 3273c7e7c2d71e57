/** Confirmation phrases with any fields at all: how many acts a phrase can be read as. */
module OperatorPhrases {
  import opened Options
  import opened Sequences
  import opened OperatorArguments
  import opened OperatorCommands

  // ---- Splitting at spaces ----

  function Split(s: string): (ws: seq<string>)
    ensures ws != [] && AllSpaceFree(ws)
  {
    var i := IndexOf(s, ' ');
    if i < 0 then [s] else [s[..i]] + Split(s[i + 1..])
  }

  lemma {:induction false} JoinOfSplit(s: string)
    ensures Join(Split(s)) == s
  {
    hide IndexOf;
    var i := IndexOf(s, ' ');
    if i >= 0 {
      var first, rest := s[..i], s[i + 1..];
      JoinOfSplit(rest);
      JoinOfTwo(first, Split(rest));
      assert s == first + " " + rest;
    }
  }

  lemma JoinOfTwo(w: string, ws: seq<string>)
    requires ws != []
    ensures Join([w] + ws) == w + " " + Join(ws)
  {
    assert ([w] + ws)[1..] == ws;
  }

  lemma SplitOfWord(w: string)
    requires SpaceFree(w)
    ensures Split(w) == [w]
  {
  }

  lemma SplitOfJoin(ws: seq<string>)
    requires ws != [] && AllSpaceFree(ws)
    ensures Split(Join(ws)) == ws
  {
    JoinOfSplit(Join(ws));
    JoinInjective(Split(Join(ws)), ws);
  }

  lemma {:induction false} JoinConcat(u: seq<string>, v: seq<string>)
    requires u != [] && v != []
    ensures Join(u + v) == Join(u) + " " + Join(v)
  {
    if |u| > 1 {
      JoinConcat(u[1..], v);
      assert (u + v)[1..] == u[1..] + v;
    } else {
      assert (u + v)[1..] == v;
    }
  }

  /** Every word in turn, split where it has spaces. */
  function Flat(ws: seq<string>): seq<string> {
    if ws == [] then [] else Split(ws[0]) + Flat(ws[1..])
  }

  lemma {:induction false} FlatSpaceFree(ws: seq<string>)
    ensures AllSpaceFree(Flat(ws)) && (ws != [] ==> Flat(ws) != [])
  {
    if ws != [] {
      FlatSpaceFree(ws[1..]);
    }
  }

  /** A field may be read as one word or as its words. */
  lemma {:induction false} JoinOfFlat(ws: seq<string>)
    requires ws != []
    ensures Flat(ws) != [] && Join(Flat(ws)) == Join(ws)
  {
    FlatSpaceFree(ws);
    JoinOfSplit(ws[0]);
    if |ws| > 1 {
      JoinOfFlat(ws[1..]);
      JoinConcat(Split(ws[0]), Flat(ws[1..]));
    } else {
      assert Flat(ws[1..]) == [] && Split(ws[0]) + [] == Split(ws[0]);
    }
  }

  // ---- A phrase as its words ----

  function Head(a: Act): string {
    match a
    case Bootstrap(_, _, _) => "BOOTSTRAP"
    case BootstrapRisk(_, _, _, _) => "BOOTSTRAP"
    case BootstrapCommercial(_, _) => "BOOTSTRAP"
    case Grant(_, _, _, _) => "GRANT"
    case Revoke(_, _, _, _) => "REVOKE"
    case ApproveCommerce(_, _, _, _, _) => "COMMERCE"
    case ClassifyTax(_, _, _, _) => "TAX-CLASSIFY"
  }

  function PolicyWord(policyId: Option<string>): string { if policyId.Some? then policyId.value else "NEW" }

  /** The words between the first and the closing `ON` with its target. */
  function Body(a: Act): seq<string> {
    match a
    case Bootstrap(capability, account, _) => Split(capability) + ["FOR"] + Split(account)
    case Grant(capability, account, actor, _) => Split(capability) + ["TO"] + Split(account) + ["BY"] + Split(actor)
    case Revoke(capability, account, actor, _) => Split(capability) + ["FROM"] + Split(account) + ["BY"] + Split(actor)
    case ClassifyTax(product, classification, actor, _) => Split(product) + ["AS"] + Split(classification) + ["BY"]
        + Split(actor)
    case ApproveCommerce(decision, participant, reason, actor, _) =>
      Split(decision) + Split(participant) + Split("(" + reason + ")") + ["BY"] + Split(actor)
    case BootstrapRisk(policyId, maxOrder, actor, _) =>
      ["risk-policy"] + Split(PolicyWord(policyId)) + ["MAX", Printed(maxOrder), "USD", "BY"] + Split(actor)
    case BootstrapCommercial(actor, _) => ["commercial-policy", "STANDARD_V1", "BY"] + Split(actor)
  }

  function Frame(a: Act): seq<string> { [Head(a)] + Body(a) + ["ON", TargetWord(a.target)] }

  lemma {:induction false} FlatConcat(u: seq<string>, v: seq<string>)
    ensures Flat(u + v) == Flat(u) + Flat(v)
  {
    hide Split;
    if u == [] {
      assert u + v == v;
    } else {
      FlatConcat(u[1..], v);
      assert (u + v)[1..] == u[1..] + v;
    }
  }

  lemma {:induction false} FlatFixed(ws: seq<string>)
    requires AllSpaceFree(ws)
    ensures Flat(ws) == ws
  {
    if ws != [] {
      hide Split;
      SplitOfWord(ws[0]);
      FlatFixed(ws[1..]);
    }
  }

  /** Fixed words, then a field, then the rest. */
  lemma FlatField(fixed: seq<string>, field: string, rest: seq<string>)
    requires AllSpaceFree(fixed)
    ensures Flat(fixed + [field] + rest) == fixed + Split(field) + Flat(rest)
  {
    hide Split, Flat;
    FlatConcat(fixed + [field], rest);
    FlatConcat(fixed, [field]);
    FlatFixed(fixed);
    FlatAlone(field);
  }

  lemma FlatAlone(s: string)
    ensures Flat([s]) == Split(s)
  {
    hide Split;
    assert [s][1..] == [];
  }

  /** Two fields, then the closing words. */
  lemma FlatTwo(head: seq<string>, p: string, middle: seq<string>, q: string, close: seq<string>)
    requires AllSpaceFree(head) && AllSpaceFree(middle) && AllSpaceFree(close)
    ensures Flat(head + [p] + (middle + [q] + close)) == head + (Split(p) + middle + Split(q)) + close
  {
    hide Split, Flat;
    FlatFixed(close);
    FlatField(middle, q, close);
    FlatField(head, p, middle + [q] + close);
  }

  lemma FlatThree(head: seq<string>, p: string, m: seq<string>, q: string, n: seq<string>, r: string,
      close: seq<string>)
    returns (rest: seq<string>)
    requires AllSpaceFree(head) && AllSpaceFree(m) && AllSpaceFree(n) && AllSpaceFree(close)
    ensures rest == m + [q] + (n + [r] + close)
    ensures Flat(head + [p] + rest) == head + (Split(p) + m + Split(q) + n + Split(r)) + close
  {
    hide Split, Flat;
    rest := m + [q] + (n + [r] + close);
    FlatTwo(m, q, n, r, close);
    FlatField(head, p, rest);
    Rejoined(Flat(head + [p] + rest), head, Split(p), m, Split(q), n, Split(r), close);
  }

  lemma Rejoined(flat: seq<string>, h: seq<string>, p: seq<string>, m: seq<string>, q: seq<string>, n: seq<string>,
                 r: seq<string>, c: seq<string>)
    requires flat == h + p + (m + (q + n + r) + c)
    ensures flat == h + (p + m + q + n + r) + c
  {
    Regroup(h, p, m, q, n, r, c);
  }

  lemma Regroup(h: seq<string>, p: seq<string>, m: seq<string>, q: seq<string>, n: seq<string>, r: seq<string>,
      c: seq<string>)
    ensures h + p + (m + (q + n + r) + c) == h + (p + m + q + n + r) + c
  {
  }

  /** Every phrase is its frame's words, joined. */
  lemma FrameIsFlat(a: Act)
    ensures Frame(a) == Flat(Words(a)) && AllSpaceFree(Frame(a))
  {
    hide Split, Flat, Frame;
    Keywords();
    FlatSpaceFree(Words(a));
    match a
    case Bootstrap(_, _, _) => BootstrapFrame(a);
    case BootstrapRisk(_, _, _, _) => RiskFrame(a);
    case BootstrapCommercial(_, _) => CommercialFrame(a);
    case ApproveCommerce(_, _, _, _, _) => CommerceFrame(a);
    case Grant(c, x, actor, _) => SeparatedFrame(a, c, "TO", x, actor);
    case Revoke(c, x, actor, _) => SeparatedFrame(a, c, "FROM", x, actor);
    case ClassifyTax(p, c, actor, _) => SeparatedFrame(a, p, "AS", c, actor);
  }

  lemma SeparatedFrame(a: Act, p: string, separator: string, q: string, actor: string)
    requires Words(a) == [Head(a), p, separator, q, "BY", actor, "ON", TargetWord(a.target)] && SpaceFree(separator)
    requires Body(a) == Split(p) + [separator] + Split(q) + ["BY"] + Split(actor)
    ensures Frame(a) == Flat(Words(a))
  {
    hide Split, Flat, TargetWord, Head, Body, Words;
    var close := ["ON", TargetWord(a.target)];
    Fixed(a);
    var rest := FlatThree([Head(a)], p, [separator], q, ["BY"], actor, close);
    assert Words(a) == [Head(a)] + [p] + rest;
  }

  lemma BootstrapFrame(a: Act)
    requires a.Bootstrap?
    ensures Frame(a) == Flat(Words(a))
  {
    hide Split, Flat, TargetWord;
    var close := ["ON", TargetWord(a.target)];
    Fixed(a);
    FlatTwo([Head(a)], a.capability, ["FOR"], a.account, close);
    assert Words(a) == [Head(a)] + [a.capability] + (["FOR"] + [a.account] + close);
  }

  lemma RiskFrame(a: Act)
    requires a.BootstrapRisk?
    ensures Frame(a) == Flat(Words(a))
  {
    hide Split, Flat, TargetWord, Printed;
    var close, middle := ["ON", TargetWord(a.target)], ["MAX", Printed(a.maxOrder), "USD", "BY"];
    Fixed(a);
    FlatTwo(["BOOTSTRAP", "risk-policy"], PolicyWord(a.policyId), middle, a.actor, close);
    assert Words(a) == ["BOOTSTRAP", "risk-policy"] + [PolicyWord(a.policyId)] + (middle + [a.actor] + close);
  }

  lemma CommercialFrame(a: Act)
    requires a.BootstrapCommercial?
    ensures Frame(a) == Flat(Words(a))
  {
    hide Split, Flat, TargetWord;
    var close := ["ON", TargetWord(a.target)];
    Fixed(a);
    FlatFixed(close);
    FlatField(["BOOTSTRAP", "commercial-policy", "STANDARD_V1", "BY"], a.actor, close);
    assert Words(a) == ["BOOTSTRAP", "commercial-policy", "STANDARD_V1", "BY"] + [a.actor] + close;
  }

  lemma CommerceFrame(a: Act)
    requires a.ApproveCommerce?
    ensures Flat(Words(a)) == Frame(a)
  {
    hide Split, Flat, TargetWord;
    var close := ["ON", TargetWord(a.target)];
    Fixed(a);
    var group := "(" + a.reason + ")";
    var rest := FlatThree([], a.participant, [], group, ["BY"], a.actor, close);
    FlatField([Head(a)], a.decision, [] + [a.participant] + ([] + [group] + (["BY"] + [a.actor] + close)));
    assert Words(a)
        == [Head(a)] + [a.decision] + ([] + [a.participant] + ([] + [group] + (["BY"] + [a.actor] + close)));
    Regroup([Head(a)], Split(a.decision), [], Split(a.participant), [], Split(group) + ["BY"] + Split(a.actor), close);
    RegroupGroup(Split(a.decision), Split(a.participant), Split(group), Split(a.actor));
    RegroupGroup([], Split(a.participant), Split(group), Split(a.actor));
  }

  lemma RegroupGroup(d: seq<string>, p: seq<string>, g: seq<string>, r: seq<string>)
    ensures d + [] + p + [] + (g + ["BY"] + r) == d + p + g + ["BY"] + r
    ensures p + [] + g + ["BY"] + r == p + [] + (g + ["BY"] + r)
  {
  }

  /** The words a phrase is built around have no spaces. */
  lemma Fixed(a: Act)
    ensures AllSpaceFree(["ON", TargetWord(a.target)]) && AllSpaceFree([Head(a)])
    ensures AllSpaceFree(["FOR"]) && AllSpaceFree(["TO"]) && AllSpaceFree(["FROM"]) && AllSpaceFree(["AS"])
              && AllSpaceFree(["BY"])
    ensures AllSpaceFree(["BOOTSTRAP", "risk-policy"])
    ensures AllSpaceFree(["BOOTSTRAP", "commercial-policy", "STANDARD_V1", "BY"])
    ensures a.BootstrapRisk? ==> AllSpaceFree(["MAX", Printed(a.maxOrder), "USD", "BY"])
  {
    hide SpaceFree, Printed, TargetWord;
    Keywords();
    PolicyKeywords();
    RenderedFields(a.target, if a.BootstrapRisk? then a.maxOrder else 0, "USD");
  }

  /** Two phrases are the same exactly when their first word, the words between and the target are. */
  lemma PhraseIsFrame(a: Act, b: Act)
    ensures Phrase(a) == Phrase(b) <==> Head(a) == Head(b) && Body(a) == Body(b) && a.target == b.target
  {
    hide Flat, Join, Words, Body, Head, TargetWord;
    FrameIsFlat(a);
    FrameIsFlat(b);
    HasWords(a);
    HasWords(b);
    JoinOfFlat(Words(a));
    JoinOfFlat(Words(b));
    if Phrase(a) == Phrase(b) {
      JoinInjective(Frame(a), Frame(b));
      FramesEqual(a, b);
    }
  }

  lemma HasWords(a: Act)
    ensures Words(a) != []
  {
    hide Printed, TargetWord;
  }

  lemma FramesEqual(a: Act, b: Act)
    requires Frame(a) == Frame(b)
    ensures Head(a) == Head(b) && Body(a) == Body(b) && a.target == b.target
  {
    hide Body, Head;
    var f := Frame(a);
    assert f[0] == Head(a) && f[0] == Head(b);
    assert f[|f| - 1] == TargetWord(a.target) && f[|f| - 1] == TargetWord(b.target);
    assert f[1..|f| - 2] == Body(a) && f[1..|f| - 2] == Body(b);
  }

  // ---- Readings ----

  /** Where the separator words of a phrase are taken to stand. */
  datatype Reading =
    | AtFor(i: nat)
    | AtMax(k: nat)
    | AtStandard
    | AtTwo(i: nat, j: nat)
    | AtGroup(k: nat, m: nat, n: nat)

  predicate Grouped(s: string) { |s| >= 2 && s[0] == '(' && s[|s| - 1] == ')' }

  function Separator(head: string): string {
    if head == "GRANT" then "TO" else if head == "REVOKE" then "FROM" else "AS"
  }

  /** The words between allow this reading: each field gets at least one word. */
  ghost predicate Reads(head: string, ws: seq<string>, r: Reading) {
    match r
    case AtFor(i) => head == "BOOTSTRAP" && 1 <= i < |ws| - 1 && ws[i] == "FOR"
    case AtMax(k) =>
      && head == "BOOTSTRAP" && 2 <= k && k + 4 < |ws| && ws[0] == "risk-policy"
      && ws[k] == "MAX" && (exists n :: ws[k + 1] == Printed(n)) && ws[k + 2] == "USD" && ws[k + 3] == "BY"
    case AtStandard =>
      head == "BOOTSTRAP" && 4 <= |ws| && ws[0] == "commercial-policy" && ws[1] == "STANDARD_V1" && ws[2] == "BY"
    case AtTwo(i, j) =>
      head in {"GRANT", "REVOKE", "TAX-CLASSIFY"} && 1 <= i && i + 2 <= j < |ws| - 1 && ws[i] == Separator(head)
          && ws[j] == "BY"
    case AtGroup(k, m, n) =>
      head == "COMMERCE" && 1 <= k < m < n < |ws| - 1 && ws[n] == "BY" && Grouped(Join(ws[m..n]))
  }

  function Separated(head: string, p: string, q: string, actor: string, t: Target): Act {
    if head == "GRANT" then Grant(p, q, actor, t)
    else if head == "REVOKE" then Revoke(p, q, actor, t)
    else ClassifyTax(p, q, actor, t)
  }

  /** The act meant by a reading. */
  ghost function Meant(head: string, ws: seq<string>, r: Reading, t: Target): Act
    requires Reads(head, ws, r)
  {
    match r
    case AtFor(i) => Bootstrap(Join(ws[..i]), Join(ws[i + 1..]), t)
    case AtMax(k) =>
      var n :| ws[k + 1] == Printed(n);
      Normal(BootstrapRisk(Some(Join(ws[1..k])), n, Join(ws[k + 4..]), t))
    case AtStandard => BootstrapCommercial(Join(ws[3..]), t)
    case AtTwo(i, j) =>
      var p, q, actor := Join(ws[..i]), Join(ws[i + 1..j]), Join(ws[j + 1..]);
      Separated(head, p, q, actor, t)
    case AtGroup(k, m, n) =>
      var group := Join(ws[m..n]);
      ApproveCommerce(Join(ws[..k]), Join(ws[k..m]), group[1..|group| - 1], Join(ws[n + 1..]), t)
  }

  /** How an act reads its own phrase. */
  function Own(a: Act): Reading {
    match a
    case Bootstrap(capability, _, _) => AtFor(|Split(capability)|)
    case BootstrapRisk(policyId, _, _, _) => AtMax(1 + |Split(PolicyWord(policyId))|)
    case BootstrapCommercial(_, _) => AtStandard
    case Grant(p, q, _, _) => AtTwo(|Split(p)|, |Split(p)| + 1 + |Split(q)|)
    case Revoke(p, q, _, _) => AtTwo(|Split(p)|, |Split(p)| + 1 + |Split(q)|)
    case ClassifyTax(p, q, _, _) => AtTwo(|Split(p)|, |Split(p)| + 1 + |Split(q)|)
    case ApproveCommerce(d, p, reason, _, _) =>
      var k, m := |Split(d)|, |Split(d)| + |Split(p)|;
      AtGroup(k, m, m + |Split("(" + reason + ")")|)
  }

  /** The act's own reading is one of its phrase, and means it. */
  lemma OwnReads(a: Act)
    ensures Reads(Head(a), Body(a), Own(a)) && Meant(Head(a), Body(a), Own(a), a.target) == Normal(a)
  {
    hide Split, Join, Printed, Reads, Meant;
    match a
    case Bootstrap(_, _, _) => OwnBootstrap(a);
    case BootstrapRisk(_, _, _, _) => OwnRisk(a);
    case BootstrapCommercial(_, _) => OwnCommercial(a);
    case ApproveCommerce(_, _, _, _, _) => OwnCommerce(a);
    case Grant(p, q, actor, _) => OwnTwo(a, p, "TO", q, actor);
    case Revoke(p, q, actor, _) => OwnTwo(a, p, "FROM", q, actor);
    case ClassifyTax(p, q, actor, _) => OwnTwo(a, p, "AS", q, actor);
  }

  lemma OwnBootstrap(a: Act)
    requires a.Bootstrap?
    ensures Reads(Head(a), Body(a), Own(a)) && Meant(Head(a), Body(a), Own(a), a.target) == Normal(a)
  {
    hide Split, Join;
    var ws, i := Body(a), |Split(a.capability)|;
    assert ws[..i] == Split(a.capability) && ws[i + 1..] == Split(a.account);
    JoinOfSplit(a.capability);
    JoinOfSplit(a.account);
  }

  lemma OwnRisk(a: Act)
    requires a.BootstrapRisk?
    ensures Reads(Head(a), Body(a), Own(a)) && Meant(Head(a), Body(a), Own(a), a.target) == Normal(a)
  {
    hide Split, Join, Printed;
    var ws, id := Body(a), Split(PolicyWord(a.policyId));
    var k := 1 + |id|;
    assert ws[1..k] == id && ws[k + 1] == Printed(a.maxOrder) && ws[k + 4..] == Split(a.actor);
    JoinOfSplit(PolicyWord(a.policyId));
    JoinOfSplit(a.actor);
    forall n | ws[k + 1] == Printed(n) ensures n == a.maxOrder {
      PrintedInjective(n, a.maxOrder);
    }
  }

  lemma OwnCommercial(a: Act)
    requires a.BootstrapCommercial?
    ensures Reads(Head(a), Body(a), Own(a)) && Meant(Head(a), Body(a), Own(a), a.target) == Normal(a)
  {
    hide Split, Join;
    assert Body(a)[3..] == Split(a.actor);
    JoinOfSplit(a.actor);
  }

  lemma OwnCommerce(a: Act)
    requires a.ApproveCommerce?
    ensures Reads(Head(a), Body(a), Own(a)) && Meant(Head(a), Body(a), Own(a), a.target) == Normal(a)
  {
    hide Split, Join;
    var d, p, g := Split(a.decision), Split(a.participant), Split("(" + a.reason + ")");
    var ws := Body(a);
    var m, n := |d| + |p|, |d| + |p| + |g|;
    assert ws[..|d|] == d && ws[|d|..m] == p && ws[m..n] == g && ws[n + 1..] == Split(a.actor);
    JoinOfSplit(a.decision);
    JoinOfSplit(a.participant);
    JoinOfSplit("(" + a.reason + ")");
    JoinOfSplit(a.actor);
    assert ("(" + a.reason + ")")[1..|a.reason| + 1] == a.reason;
  }

  lemma OwnTwo(a: Act, p: string, separator: string, q: string, actor: string)
    requires a.Grant? || a.Revoke? || a.ClassifyTax?
    requires separator == Separator(Head(a)) && Body(a) == Split(p) + [separator] + Split(q) + ["BY"] + Split(actor)
    requires Own(a) == AtTwo(|Split(p)|, |Split(p)| + 1 + |Split(q)|)
    requires a == Separated(Head(a), p, q, actor, a.target)
    ensures Reads(Head(a), Body(a), Own(a)) && Meant(Head(a), Body(a), Own(a), a.target) == Normal(a)
  {
    hide Split, Join, Body, Own;
    var ws, i, j := Body(a), |Split(p)|, |Split(p)| + 1 + |Split(q)|;
    assert ws[..i] == Split(p) && ws[i + 1..j] == Split(q) && ws[j + 1..] == Split(actor);
    JoinOfSplit(p);
    JoinOfSplit(q);
    JoinOfSplit(actor);
  }

  /** What a reading means has these words, and reads them so. */
  lemma MeantReads(head: string, ws: seq<string>, r: Reading, t: Target)
    requires AllSpaceFree(ws) && Reads(head, ws, r)
    ensures var b := Meant(head, ws, r, t); Head(b) == head && Body(b) == ws && Own(b) == r && b.target == t
  {
    match r
    case AtFor(i) => MeantBootstrap(head, ws, i, t);
    case AtMax(k) => MeantRisk(head, ws, k, t);
    case AtStandard => MeantCommercial(head, ws, t);
    case AtTwo(i, j) => MeantSeparated(head, ws, i, j, t);
    case AtGroup(k, m, n) => MeantCommerce(head, ws, k, m, n, t);
  }

  lemma MeantBootstrap(head: string, ws: seq<string>, i: nat, t: Target)
    requires AllSpaceFree(ws) && Reads(head, ws, AtFor(i))
    ensures var b := Meant(head, ws, AtFor(i), t);
            Head(b) == head && Body(b) == ws && Own(b) == AtFor(i) && b.target == t
  {
    hide Split, Join;
    SplitOfJoin(ws[..i]);
    SplitOfJoin(ws[i + 1..]);
    assert ws == ws[..i] + ["FOR"] + ws[i + 1..];
  }

  lemma MeantRisk(head: string, ws: seq<string>, k: nat, t: Target)
    requires AllSpaceFree(ws) && Reads(head, ws, AtMax(k))
    ensures var b := Meant(head, ws, AtMax(k), t);
            Head(b) == head && Body(b) == ws && Own(b) == AtMax(k) && b.target == t
  {
    hide Split, Join, Printed;
    var n :| ws[k + 1] == Printed(n);
    SplitOfJoin(ws[1..k]);
    SplitOfJoin(ws[k + 4..]);
    assert ws == ["risk-policy"] + ws[1..k] + ["MAX", Printed(n), "USD", "BY"] + ws[k + 4..];
    var b := Meant(head, ws, AtMax(k), t);
    assert ws[k + 1] == Printed(b.maxOrder);
    assert PolicyWord(b.policyId) == Join(ws[1..k]);
  }

  lemma MeantCommercial(head: string, ws: seq<string>, t: Target)
    requires AllSpaceFree(ws) && Reads(head, ws, AtStandard)
    ensures var b := Meant(head, ws, AtStandard, t);
            Head(b) == head && Body(b) == ws && Own(b) == AtStandard && b.target == t
  {
    hide Split, Join;
    SplitOfJoin(ws[3..]);
    assert ws == ["commercial-policy", "STANDARD_V1", "BY"] + ws[3..];
  }

  lemma MeantSeparated(head: string, ws: seq<string>, i: nat, j: nat, t: Target)
    requires AllSpaceFree(ws) && Reads(head, ws, AtTwo(i, j))
    ensures var b := Meant(head, ws, AtTwo(i, j), t);
            Head(b) == head && Body(b) == ws && Own(b) == AtTwo(i, j) && b.target == t
  {
    hide Split, Join, Separated, Body, Own, Head, Separator;
    SplitOfJoin(ws[..i]);
    SplitOfJoin(ws[i + 1..j]);
    SplitOfJoin(ws[j + 1..]);
    SeparatedShape(head, Join(ws[..i]), Join(ws[i + 1..j]), Join(ws[j + 1..]), t);
    FivePieces(ws, i, j);
  }

  lemma FivePieces(ws: seq<string>, i: nat, j: nat)
    requires i < j < |ws|
    ensures ws == ws[..i] + [ws[i]] + ws[i + 1..j] + [ws[j]] + ws[j + 1..]
  {
  }

  lemma SeparatedShape(head: string, p: string, q: string, actor: string, t: Target)
    requires head in {"GRANT", "REVOKE", "TAX-CLASSIFY"}
    ensures var b := Separated(head, p, q, actor, t);
            && Head(b) == head && b.target == t && Own(b) == AtTwo(|Split(p)|, |Split(p)| + 1 + |Split(q)|)
            && Body(b) == Split(p) + [Separator(head)] + Split(q) + ["BY"] + Split(actor)
  {
    hide Split;
  }

  lemma MeantCommerce(head: string, ws: seq<string>, k: nat, m: nat, n: nat, t: Target)
    requires AllSpaceFree(ws) && Reads(head, ws, AtGroup(k, m, n))
    ensures var b := Meant(head, ws, AtGroup(k, m, n), t);
            Head(b) == head && Body(b) == ws && Own(b) == AtGroup(k, m, n) && b.target == t
  {
    hide Split, Join;
    SplitOfJoin(ws[..k]);
    SplitOfJoin(ws[k..m]);
    SplitOfJoin(ws[m..n]);
    SplitOfJoin(ws[n + 1..]);
    var group := Join(ws[m..n]);
    assert "(" + group[1..|group| - 1] + ")" == group;
    assert ws == ws[..k] + ws[k..m] + ws[m..n] + ["BY"] + ws[n + 1..];
  }

  // ---- When a phrase means one act ----

  /** No other act, up to a policy id typed NEW, has this phrase. */
  ghost predicate Sole(a: Act) { forall b: Act | Phrase(b) == Phrase(a) :: Normal(b) == Normal(a) }

  /** Over all acts, spaces or not: a phrase confirms one act exactly when its words allow no second placing of the
      separator words: `FOR`; `MAX`, a number, `USD` and `BY` after `risk-policy`; `commercial-policy STANDARD_V1 BY`;
      `TO`, `FROM` or `AS` with a later `BY`; a parenthesised group before a `BY`. */
  lemma SoleExactly(a: Act)
    ensures Sole(a) <==> forall r: Reading | Reads(Head(a), Body(a), r) :: r == Own(a)
  {
    hide Phrase, Reads, Meant, Own, Body, Head, Frame, Normal;
    FrameWords(a);
    OwnReads(a);
    if Sole(a) {
      forall r: Reading | Reads(Head(a), Body(a), r) ensures r == Own(a) {
        var b := Meant(Head(a), Body(a), r, a.target);
        MeantReads(Head(a), Body(a), r, a.target);
        PhraseIsFrame(b, a);
        OwnOfNormal(a);
        OwnOfNormal(b);
      }
    }
    if forall r: Reading | Reads(Head(a), Body(a), r) :: r == Own(a) {
      forall b: Act | Phrase(b) == Phrase(a) ensures Normal(b) == Normal(a) {
        PhraseIsFrame(b, a);
        OwnReads(b);
      }
    }
  }

  lemma FrameWords(a: Act)
    ensures AllSpaceFree(Body(a))
  {
    hide Body, Head;
    FrameIsFlat(a);
    forall i | 0 <= i < |Body(a)| ensures SpaceFree(Body(a)[i]) {
      assert Frame(a)[i + 1] == Body(a)[i];
    }
  }

  lemma OwnOfNormal(a: Act)
    ensures Own(Normal(a)) == Own(a)
  {
    hide Split;
  }

  /** Even an act without spaces can share its phrase: a policy id FOR reads as a first grant of a capability
      `risk-policy`. */
  lemma ForConfuses(n: nat, actor: string, t: Target)
    requires SpaceFree(actor)
    ensures var a, b :=
              BootstrapRisk(Some("FOR"), n, actor, t),
              Bootstrap("risk-policy", "MAX " + Printed(n) + " USD BY " + actor, t);
            Clean(a) && !Clean(b) && Phrase(a) == Phrase(b) && Normal(a) != Normal(b)
  {
    var a, b := BootstrapRisk(Some("FOR"), n, actor, t),
        Bootstrap("risk-policy", "MAX " + Printed(n) + " USD BY " + actor, t);
    hide Phrase, Split, Printed, Body, Head, Normal, Clean;
    ForSame(n, actor, t);
    ForDiffer(n, actor, t);
    PhraseIsFrame(a, b);
  }

  lemma ForDiffer(n: nat, actor: string, t: Target)
    requires SpaceFree(actor)
    ensures var a, b :=
              BootstrapRisk(Some("FOR"), n, actor, t),
              Bootstrap("risk-policy", "MAX " + Printed(n) + " USD BY " + actor, t);
            Clean(a) && !Clean(b) && Normal(a) != Normal(b) && Head(a) == Head(b) && a.target == b.target
  {
    hide Printed;
    Keywords();
    AccountWords(n, actor);
  }

  lemma ForSame(n: nat, actor: string, t: Target)
    requires SpaceFree(actor)
    ensures Body(BootstrapRisk(Some("FOR"), n, actor, t))
         == Body(Bootstrap("risk-policy", "MAX " + Printed(n) + " USD BY " + actor, t))
  {
    hide Split, Printed, SpaceFree, Join;
    var account := ["MAX", Printed(n), "USD", "BY", actor];
    Keywords();
    PolicyKeywords();
    RenderedFields(t, n, "USD");
    AccountWords(n, actor);
    SplitOfJoin(account);
    SplitOfWord("FOR");
    SplitOfWord("risk-policy");
    SplitOfWord(actor);
    assert ["MAX", Printed(n), "USD", "BY"] + [actor] == account;
    assert ["risk-policy"] + ["FOR"] + ["MAX", Printed(n), "USD", "BY"] + [actor]
        == ["risk-policy"] + ["FOR"] + account;
  }

  lemma AccountWords(n: nat, actor: string)
    ensures Join(["MAX", Printed(n), "USD", "BY", actor]) == "MAX " + Printed(n) + " USD BY " + actor
    ensures !SpaceFree("MAX " + Printed(n) + " USD BY " + actor)
  {
    hide Printed;
    var ws := ["MAX", Printed(n), "USD", "BY", actor];
    assert Join(ws[4..]) == actor;
    assert ws[3..][1..] == ws[4..] && Join(ws[3..]) == "BY " + actor;
    assert ws[2..][1..] == ws[3..] && Join(ws[2..]) == "USD BY " + actor;
    assert ws[1..][1..] == ws[2..] && Join(ws[1..]) == Printed(n) + " USD BY " + actor;
    assert Join(ws) == "MAX " + (Printed(n) + " USD BY " + actor);
    assert ("MAX " + Printed(n) + " USD BY " + actor)[3] == ' ';
  }
}
