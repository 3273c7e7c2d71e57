/** The operator command families: what each command line asks for, and the phrase that must confirm it. */
module OperatorCommands {
  import opened Options
  import opened OperatorArguments
  import Text

  datatype Target = Local | Production

  /** What a command would do. */
  datatype Act =
    | Bootstrap(capability: string, account: string, target: Target)
    | Grant(capability: string, account: string, actor: string, target: Target)
    | Revoke(capability: string, account: string, actor: string, target: Target)
    | ApproveCommerce(decision: string, participant: string, reason: string, actor: string, target: Target)
    | ClassifyTax(product: string, classification: string, actor: string, target: Target)
    | BootstrapRisk(policyId: Option<string>, maxOrder: nat, actor: string, target: Target)
    | BootstrapCommercial(actor: string, target: Target)

  datatype Request = Request(act: Act, execute: bool, confirm: Option<string>)

  datatype Command = BootstrapCmd | GrantCmd | RevokeCmd | CommerceCmd | TaxCmd | RiskCmd | CommercialCmd

  datatype Mode = DryRun | Execute | UsageError

  // ---- Reading a command line ----

  function ClosedFor(c: Command): Closed {
    Closed(
      match c
      case BootstrapCmd => {"target", "account", "capability", "confirm"}
      case GrantCmd | RevokeCmd => {"target", "actor", "account", "capability", "confirm"}
      case CommerceCmd => {"target", "actor", "participant", "decision", "reason", "confirm"}
      case TaxCmd => {"target", "actor", "product-ref", "classification", "confirm"}
      case RiskCmd => {"target", "actor", "policy-id", "max-order", "confirm"}
      case CommercialCmd => {"target", "actor", "confirm"},
      {"execute"})
  }

  function TargetOf(p: Parsed): Option<Target> {
    if "target" !in p.values then None
    else if p.values["target"] == "local" then Some(Local)
    else if p.values["target"] == "production" then Some(Production)
    else None
  }

  predicate IsSpace(c: char) {
    c as int in {9, 10, 11, 12, 13, 32, 0xA0, 0x1680, 0x2028, 0x2029, 0x202F, 0x205F, 0x3000, 0xFEFF}
        || 0x2000 <= c as int <= 0x200A
  }

  function Trim(s: string): string {
    if s == "" then s
    else if IsSpace(s[0]) then Trim(s[1..])
    else if IsSpace(s[|s| - 1]) then Trim(s[..|s| - 1])
    else s
  }

  function Field(p: Parsed, key: string, otherwise: string): string {
    Trim(if key in p.values then p.values[key] else otherwise)
  }

  predicate IsDigit(c: char) { '0' <= c <= '9' }

  /** A positive integer of at most fifteen digits, without a leading zero. */
  predicate IsAmount(s: string) {
    1 <= |s| <= 15 && s[0] != '0' && forall i | 0 <= i < |s| :: IsDigit(s[i])
  }

  function Amount(s: string): nat
    requires IsAmount(s)
  {
    AmountDigits(s);
    Text.NumeralValue(Text.Units(s))
  }

  lemma AmountDigits(s: string)
    requires IsAmount(s)
    ensures Text.IsNumeral(Text.Units(s)) && Text.Units(s)[0] != Text.ZERO
  {
  }

  function DigitChar(c: Text.CodeUnit): (d: char)
    requires Text.IsDigit(c)
    ensures IsDigit(d) && d as int == c
  {
    '0' + (c - Text.ZERO) as char
  }

  function Chars(t: Text.Text): (s: string)
    requires Text.AllDigits(t)
    ensures |s| == |t| && forall i | 0 <= i < |s| :: IsDigit(s[i]) && s[i] as int == t[i]
  {
    if t == [] then "" else [DigitChar(t[0])] + Chars(t[1..])
  }

  /** The digits a number prints as. */
  function Printed(n: nat): (s: string)
    ensures forall i | 0 <= i < |s| :: IsDigit(s[i])
  {
    Chars(Text.Numeral(n))
  }

  lemma UnitsOfPrinted(n: nat)
    ensures Text.Units(Printed(n)) == Text.Numeral(n)
  {
    hide Chars, Text.Units, Text.Numeral;
    var s, t := Printed(n), Text.Numeral(n);
    forall i | 0 <= i < |s| ensures Text.Units(s)[i] == t[i] {
      UnitAt(s, i);
    }
  }

  lemma UnitAt(s: string, i: nat)
    requires i < |s| && IsDigit(s[i])
    ensures Text.Units(s)[i] == s[i] as int
  {
  }

  function ActOf(c: Command, p: Parsed, target: Target): Option<Act> {
    var actor, account, capability := Field(p, "actor", ""), Field(p, "account", ""), Field(p, "capability", "");
    match c
    case BootstrapCmd => if account == "" || capability == "" then None
        else Some(Bootstrap(capability, account, target))
    case GrantCmd =>
      if account == "" || capability == "" || actor == "" then None else Some(Grant(capability, account, actor, target))
    case RevokeCmd =>
      if account == "" || capability == "" || actor == "" then None
          else Some(Revoke(capability, account, actor, target))
    case CommerceCmd =>
      var participant := Field(p, "participant", "");
      if actor == "" || participant == "" then None
      else Some(ApproveCommerce(Field(p, "decision", "APPROVED"), participant, Field(p, "reason", "REQUIREMENTS_MET"),
          actor, target))
    case TaxCmd =>
      var product, classification := Field(p, "product-ref", ""), Field(p, "classification", "");
      if actor == "" || product == "" || classification == "" then None
      else Some(ClassifyTax(product, classification, actor, target))
    case RiskCmd =>
      var maxOrder, policyId := Field(p, "max-order", ""), Field(p, "policy-id", "");
      if actor == "" || !IsAmount(maxOrder) then None
      else Some(BootstrapRisk(if policyId == "" then None else Some(policyId), Amount(maxOrder), actor, target))
    case CommercialCmd => if actor == "" then None else Some(BootstrapCommercial(actor, target))
  }

  function OptionsOf(c: Command, p: Parsed): Option<Request> {
    match TargetOf(p)
    case None => None
    case Some(target) =>
      match ActOf(c, p, target)
      case None => None
      case Some(act) => Some(Request(act, "execute" in p.flags, if "confirm" in p.values then Some(p.values["confirm"])
          else None))
  }

  /** What the arguments after the command word ask for: a function of which arguments there are, not of their order. */
  function Asked(c: Command, args: multiset<string>): Option<Request> {
    match Read(args, ClosedFor(c))
    case None => None
    case Some(p) => OptionsOf(c, p)
  }

  method ParseOptions(c: Command, argv: seq<string>) returns (r: Option<Request>)
    ensures r == Asked(c, multiset(argv))
  {
    var parsed := ParseArgs(argv, ClosedFor(c));
    if parsed.None? { return None; }
    return OptionsOf(c, parsed.value);
  }

  // ---- The confirmation phrase ----

  function Join(ws: seq<string>): string
    requires ws != []
  {
    if |ws| == 1 then ws[0] else ws[0] + " " + Join(ws[1..])
  }

  function TargetWord(t: Target): string { if t == Local then "local" else "production" }

  function Words(a: Act): seq<string> {
    match a
    case Bootstrap(capability, account, target) => ["BOOTSTRAP", capability, "FOR", account, "ON", TargetWord(target)]
    case Grant(capability, account, actor, target) =>
      ["GRANT", capability, "TO", account, "BY", actor, "ON", TargetWord(target)]
    case Revoke(capability, account, actor, target) =>
      ["REVOKE", capability, "FROM", account, "BY", actor, "ON", TargetWord(target)]
    case ApproveCommerce(decision, participant, reason, actor, target) =>
      ["COMMERCE", decision, participant, "(" + reason + ")", "BY", actor, "ON", TargetWord(target)]
    case ClassifyTax(product, classification, actor, target) =>
      ["TAX-CLASSIFY", product, "AS", classification, "BY", actor, "ON", TargetWord(target)]
    case BootstrapRisk(policyId, maxOrder, actor, target) =>
      ["BOOTSTRAP", "risk-policy", if policyId.Some? then policyId.value else "NEW", "MAX",
       Printed(maxOrder), "USD", "BY", actor, "ON", TargetWord(target)]
    case BootstrapCommercial(actor, target) =>
      ["BOOTSTRAP", "commercial-policy", "STANDARD_V1", "BY", actor, "ON", TargetWord(target)]
  }

  function Phrase(a: Act): string { Join(Words(a)) }

  function Evaluate(o: Request): Mode {
    if !o.execute then DryRun else if o.confirm == Some(Phrase(o.act)) then Execute else UsageError
  }

  // ---- One phrase, one act ----

  predicate SpaceFree(s: string) { ' ' !in s }

  predicate Clean(a: Act) {
    match a
    case Bootstrap(capability, account, _) => SpaceFree(capability) && SpaceFree(account)
    case Grant(capability, account, actor, _) => SpaceFree(capability) && SpaceFree(account) && SpaceFree(actor)
    case Revoke(capability, account, actor, _) => SpaceFree(capability) && SpaceFree(account) && SpaceFree(actor)
    case ApproveCommerce(decision, participant, reason, actor, _) =>
      SpaceFree(decision) && SpaceFree(participant) && SpaceFree(reason) && SpaceFree(actor)
    case ClassifyTax(product, classification, actor, _) => SpaceFree(product) && SpaceFree(classification)
        && SpaceFree(actor)
    case BootstrapRisk(policyId, _, actor, _) => (policyId.Some? ==> SpaceFree(policyId.value)) && SpaceFree(actor)
    case BootstrapCommercial(actor, _) => SpaceFree(actor)
  }

  /** A policy id typed as NEW reads like none at all. */
  function Normal(a: Act): Act {
    if a.BootstrapRisk? && a.policyId == Some("NEW") then a.(policyId := None) else a
  }

  lemma FirstWord(a: string, r: string, b: string, s: string)
    requires SpaceFree(a) && SpaceFree(b) && a + " " + r == b + " " + s
    ensures a == b && r == s
  {
    var x := a + " " + r;
    assert x[|a|] == ' ' && x[|b|] == ' ' && x[..|a|] == a && x[..|b|] == b;
    assert forall i | 0 <= i < |a| :: x[i] == a[i];
    assert forall i | 0 <= i < |b| :: x[i] == b[i];
    assert x[|a| + 1..] == r && x[|b| + 1..] == s;
  }

  predicate AllSpaceFree(ws: seq<string>) { forall i | 0 <= i < |ws| :: SpaceFree(ws[i]) }

  lemma SpacesSeparate(ws: seq<string>)
    requires ws != [] && AllSpaceFree(ws)
    ensures SpaceFree(Join(ws)) <==> |ws| == 1
  {
    if |ws| > 1 {
      assert Join(ws)[|ws[0]|] == ' ';
    }
  }

  lemma {:induction false} JoinInjective(ws: seq<string>, vs: seq<string>)
    requires ws != [] && vs != [] && Join(ws) == Join(vs) && AllSpaceFree(ws) && AllSpaceFree(vs)
    ensures ws == vs
  {
    SpacesSeparate(ws);
    SpacesSeparate(vs);
    if |ws| > 1 {
      FirstWord(ws[0], Join(ws[1..]), vs[0], Join(vs[1..]));
      JoinInjective(ws[1..], vs[1..]);
      assert ws == [ws[0]] + ws[1..] && vs == [vs[0]] + vs[1..];
    } else {
      assert ws == [ws[0]] && vs == [vs[0]];
    }
  }

  lemma Keywords()
    ensures SpaceFree("BOOTSTRAP") && SpaceFree("GRANT") && SpaceFree("REVOKE") && SpaceFree("COMMERCE")
              && SpaceFree("TAX-CLASSIFY")
    ensures SpaceFree("FOR") && SpaceFree("TO") && SpaceFree("FROM") && SpaceFree("AS") && SpaceFree("BY")
              && SpaceFree("ON")
  {
  }

  lemma PolicyKeywords()
    ensures SpaceFree("risk-policy") && SpaceFree("commercial-policy") && SpaceFree("STANDARD_V1")
    ensures SpaceFree("NEW") && SpaceFree("MAX") && SpaceFree("USD")
  {
  }

  lemma RenderedFields(t: Target, n: nat, reason: string)
    requires SpaceFree(reason)
    ensures SpaceFree(TargetWord(t)) && SpaceFree(Printed(n)) && SpaceFree("(" + reason + ")")
  {
  }

  lemma CleanWords(a: Act)
    requires Clean(a)
    ensures AllSpaceFree(Words(a))
  {
    hide SpaceFree, Printed, TargetWord;
    Keywords();
    PolicyKeywords();
    RenderedFields(a.target, if a.BootstrapRisk? then a.maxOrder else 0, if a.ApproveCommerce? then a.reason
        else "USD");
  }

  /** For space-free fields the phrases of all command families together confirm exactly one act each. */
  lemma PhraseDecides(a: Act, b: Act)
    requires Clean(a) && Clean(b)
    ensures Phrase(a) == Phrase(b) <==> Normal(a) == Normal(b)
  {
    if Phrase(a) == Phrase(b) {
      CleanWords(a);
      CleanWords(b);
      JoinInjective(Words(a), Words(b));
      WordsDecide(a, b);
    }
  }

  lemma PrintedInjective(m: nat, n: nat)
    requires Printed(m) == Printed(n)
    ensures m == n
  {
    UnitsOfPrinted(m);
    UnitsOfPrinted(n);
    Text.ValueOfNumeral(m);
    Text.ValueOfNumeral(n);
  }

  lemma WordsDecide(a: Act, b: Act)
    requires Words(a) == Words(b)
    ensures Normal(a) == Normal(b)
  {
    hide Printed;
    assert TargetWord(Local) != TargetWord(Production);
    if a.ApproveCommerce? && b.ApproveCommerce? {
      assert Words(a)[3] == Words(b)[3];
      assert ("(" + a.reason + ")")[1..|a.reason| + 1] == a.reason
          && ("(" + b.reason + ")")[1..|b.reason| + 1] == b.reason;
    } else if a.BootstrapRisk? && b.BootstrapRisk? {
      assert Words(a)[4] == Words(b)[4];
      PrintedInjective(a.maxOrder, b.maxOrder);
    }
  }

  /** The amount prints back the digits typed. */
  lemma AmountPrintsBack(s: string)
    requires IsAmount(s)
    ensures Printed(Amount(s)) == s
  {
    hide Chars, Printed, Text.Units, Text.Numeral, Text.NumeralValue;
    AmountDigits(s);
    Text.NumeralOfValue(Text.Units(s));
    UnitsOfPrinted(Amount(s));
    SameUnits(Printed(Amount(s)), s);
  }

  lemma SameUnits(a: string, b: string)
    requires Text.Units(a) == Text.Units(b)
    requires (forall i | 0 <= i < |a| :: IsDigit(a[i])) && (forall i | 0 <= i < |b| :: IsDigit(b[i]))
    ensures a == b
  {
    hide Text.Units;
    forall i | 0 <= i < |a| ensures a[i] == b[i] {
      UnitAt(a, i);
      UnitAt(b, i);
    }
  }

  /** The risk phrase shows the amount exactly as typed. */
  lemma RiskPhraseShowsDigits(p: Parsed, o: Request)
    requires OptionsOf(RiskCmd, p) == Some(o)
    ensures o.act.BootstrapRisk? && Words(o.act)[4] == Field(p, "max-order", "")
  {
    hide Printed, Trim, TargetOf, Amount, IsAmount;
    AmountPrintsBack(Field(p, "max-order", ""));
  }

  /** Not empty, and nothing to trim. */
  predicate Trimmed(s: string) { s != "" && !IsSpace(s[0]) && !IsSpace(s[|s| - 1]) }

  lemma TrimKeeps(s: string)
    requires Trimmed(s)
    ensures Trim(s) == s
  {
  }

  /** A confirmed execution carries the phrase of its own act, so one confirmation never executes two acts. */
  lemma OneActPerConfirmation(o: Request, p: Request)
    requires Clean(o.act) && Clean(p.act) && Evaluate(o) == Execute && Evaluate(p) == Execute && o.confirm == p.confirm
    ensures Normal(o.act) == Normal(p.act)
  {
    PhraseDecides(o.act, p.act);
  }

  /** Typing the printed phrase back works: the arguments of a dry run, with `--execute` and the phrase added anywhere
      among them, execute the same act. */
  lemma ConfirmedExecutes(c: Command, args: multiset<string>, o: Request)
    requires Asked(c, args) == Some(o) && !o.execute && o.confirm.None?
    ensures var confirmed := args + multiset{Typed("confirm", Phrase(o.act))} + multiset{"--" + "execute"};
            && Asked(c, confirmed) == Some(Request(o.act, true, Some(Phrase(o.act))))
            && Evaluate(Asked(c, confirmed).value) == Execute
  {
    hide IsValue, KeyOf, ValueOf, Phrase, Values, Flags, Functional, Fits, ActOf, TargetOf;
    var closed, phrase, p := ClosedFor(c), Phrase(o.act), Read(args, ClosedFor(c)).value;
    TypedReads("confirm", phrase);
    ReadMore(args, Typed("confirm", phrase), closed);
    var q := p.(values := p.values["confirm" := phrase]);
    FlagReads("execute");
    ReadMore(args + multiset{Typed("confirm", phrase)}, "--" + "execute", closed);
    SameQuestion(c, p, q.(flags := q.flags + {"execute"}));
  }

  /** The act does not depend on the confirmation. */
  lemma SameQuestion(c: Command, p: Parsed, q: Parsed)
    requires q.values.Keys == p.values.Keys + {"confirm"} && forall k | k in p.values && k != "confirm" ::
              q.values[k] == p.values[k]
    ensures TargetOf(q) == TargetOf(p) && forall t :: ActOf(c, q, t) == ActOf(c, p, t)
  {
    hide Trim, ActOf;
    forall key, otherwise | key != "confirm" ensures Field(q, key, otherwise) == Field(p, key, otherwise) {
    }
    forall t ensures ActOf(c, q, t) == ActOf(c, p, t) {
      SameAct(c, p, q, t);
    }
  }

  lemma SameAct(c: Command, p: Parsed, q: Parsed, t: Target)
    requires forall key, otherwise | key != "confirm" :: Field(q, key, otherwise) == Field(p, key, otherwise)
    ensures ActOf(c, q, t) == ActOf(c, p, t)
  {
    hide Field;
  }
}
