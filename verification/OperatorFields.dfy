/** What each operator command line asks for, field by field, and which ones are refused. */
module OperatorFields {
  import opened Options
  import opened Sequences
  import opened OperatorArguments
  import opened OperatorCommands
  import Text

  // ---- Reading ----

  /** Names are not empty and hold no equals sign. */
  predicate Named(keys: set<string>) { forall k | k in keys :: k != "" && '=' !in k }

  /** Recognised is a listed key with any value, or a listed flag. */
  lemma RecognisedExactly(arg: string, closed: Closed)
    requires Named(closed.values) && Named(closed.flags)
    ensures Recognised(arg, closed) <==>
            || (exists k, v :: k in closed.values && arg == Typed(k, v))
            || (exists f | f in closed.flags :: arg == "--" + f)
  {
    hide IsValue, KeyOf, ValueOf;
    if Recognised(arg, closed) {
      if IsValue(arg) {
        TypedBack(arg);
      } else {
        assert arg == "--" + arg[2..];
      }
    }
    forall k, v | k in closed.values && arg == Typed(k, v) ensures Recognised(arg, closed) {
      TypedReads(k, v);
    }
    forall f | f in closed.flags && arg == "--" + f ensures Recognised(arg, closed) {
      FlagReads(f);
    }
  }

  lemma TypedBack(arg: string)
    requires IsValue(arg)
    ensures arg == Typed(KeyOf(arg), ValueOf(arg))
  {
    var i := IndexOf(arg, '=');
    assert arg == "--" + arg[2..i] + "=" + arg[i + 1..];
  }

  /** Arguments are taken exactly when each is recognised and no key is given twice. */
  lemma FitsExactly(args: multiset<string>, closed: Closed)
    requires Named(closed.values)
    ensures Fits(args, closed) <==>
            && (forall a | a in args :: Recognised(a, closed))
            && (forall k, v, w | k in closed.values && Typed(k, v) in args && Typed(k, w) in args :: v == w)
            && (forall k, v | k in closed.values && Typed(k, v) in args :: args[Typed(k, v)] == 1)
  {
    hide IsValue, KeyOf, ValueOf, Typed;
    if Fits(args, closed) {
      forall k, v | k in closed.values && Typed(k, v) in args
        ensures IsValue(Typed(k, v)) && KeyOf(Typed(k, v)) == k && ValueOf(Typed(k, v)) == v
      {
        TypedReads(k, v);
      }
    } else {
      forall a | a in args && IsValue(a) ensures a == Typed(KeyOf(a), ValueOf(a)) {
        TypedBack(a);
      }
    }
  }

  /** What the accepted arguments say of a key is what was typed under it. */
  lemma ValueTyped(args: multiset<string>, key: string, v: string)
    requires Functional(args) && key != "" && '=' !in key
    ensures key in Values(args) && Values(args)[key] == v <==> Typed(key, v) in args
  {
    hide IsValue, KeyOf, ValueOf, Values, Typed;
    ValuesGive(args, key, v);
    if Says(Values(args), key, v) {
      var a :| a in args && IsValue(a) && KeyOf(a) == key && ValueOf(a) == v;
      TypedBack(a);
    }
    TypedReads(key, v);
  }

  lemma FlagTyped(args: multiset<string>, closed: Closed, flag: string)
    requires Fits(args, closed) && '=' !in flag
    ensures flag in Flags(args) <==> "--" + flag in args
  {
    hide IsValue;
    FlagReads(flag);
    if flag in Flags(args) {
      var a :| a in args && !IsValue(a) && Dashed(a) && a[2..] == flag;
      assert a == "--" + flag;
    }
  }

  // ---- Trimming ----

  /** Trimming cuts spaces off both ends, and leaves none there. */
  lemma {:induction false} TrimExactly(s: string) returns (i: nat, j: nat)
    ensures i <= j <= |s| && Trim(s) == s[i..j] && (Trim(s) == "" || Trimmed(Trim(s)))
    ensures forall k | 0 <= k < i || j <= k < |s| :: IsSpace(s[k])
    decreases |s|
  {
    hide IsSpace;
    if s == "" {
      i, j := 0, 0;
    } else if IsSpace(s[0]) {
      i, j := TrimExactly(s[1..]);
      assert s[1..][i..j] == s[i + 1..j + 1];
      forall k | 0 <= k < i + 1 || j + 1 <= k < |s| ensures IsSpace(s[k]) {
        assert k > 0 ==> s[1..][k - 1] == s[k];
      }
      i, j := i + 1, j + 1;
    } else if IsSpace(s[|s| - 1]) {
      i, j := TrimExactly(s[..|s| - 1]);
      assert s[..|s| - 1][i..j] == s[i..j];
      forall k | 0 <= k < i || j <= k < |s| ensures IsSpace(s[k]) {
        assert k < |s| - 1 ==> s[..|s| - 1][k] == s[k];
      }
    } else {
      i, j := 0, |s|;
    }
  }

  // ---- What an act's own command line is ----

  function CommandOf(a: Act): Command {
    match a
    case Bootstrap(_, _, _) => BootstrapCmd
    case Grant(_, _, _, _) => GrantCmd
    case Revoke(_, _, _, _) => RevokeCmd
    case ApproveCommerce(_, _, _, _, _) => CommerceCmd
    case ClassifyTax(_, _, _, _) => TaxCmd
    case BootstrapRisk(_, _, _, _) => RiskCmd
    case BootstrapCommercial(_, _) => CommercialCmd
  }

  /** Each field under its own key. */
  function Fields(a: Act): map<string, string> {
    match a
    case Bootstrap(capability, account, _) => map["capability" := capability, "account" := account]
    case Grant(capability, account, actor, _) =>
      map["capability" := capability, "account" := account, "actor" := actor]
    case Revoke(capability, account, actor, _) =>
      map["capability" := capability, "account" := account, "actor" := actor]
    case ApproveCommerce(decision, participant, reason, actor, _) =>
      map["decision" := decision, "participant" := participant, "reason" := reason, "actor" := actor]
    case ClassifyTax(product, classification, actor, _) =>
      map["product-ref" := product, "classification" := classification, "actor" := actor]
    case BootstrapRisk(policyId, maxOrder, actor, _) =>
      map["max-order" := Printed(maxOrder), "actor" := actor]
      + if policyId.Some? then map["policy-id" := policyId.value] else map[]
    case BootstrapCommercial(actor, _) => map["actor" := actor]
  }

  function Typing(m: map<string, string>): multiset<string> { multiset(set k | k in m :: Typed(k, m[k])) }

  function Typings(a: Act): map<string, string> { Fields(a)["target" := TargetWord(a.target)] }

  /** A dry run's arguments for this act. */
  function CommandLine(a: Act): multiset<string> { Typing(Typings(a)) }

  /** Fields that survive trimming, and an amount the command takes. */
  predicate Typable(a: Act) {
    (forall k | k in Fields(a) :: Trimmed(Fields(a)[k])) && (a.BootstrapRisk? ==> IsAmount(Printed(a.maxOrder)))
  }

  lemma ReadTyping(m: map<string, string>, closed: Closed)
    requires m.Keys <= closed.values && Named(closed.values)
    ensures Read(Typing(m), closed) == Some(Parsed(m, {}))
  {
    hide IsValue, KeyOf, ValueOf, Typed, Recognised, Values;
    var args := Typing(m);
    TypingMeans(m);
    assert Fits(args, closed) by {
      forall a | a in args ensures Recognised(a, closed) {
        var k :| k in m && a == Typed(k, m[k]);
        KeyRecognised(k, m[k], closed);
      }
    }
    assert Values(args) == m by {
      forall k, v ensures Says(Values(args), k, v) <==> Says(m, k, v) {
        ValuesGive(args, k, v);
      }
      SameMap(Values(args), m);
    }
    assert Flags(args) == {};
  }

  lemma TypingMeans(m: map<string, string>)
    requires Named(m.Keys)
    ensures forall a :: a in Typing(m) <==> exists k :: k in m && a == Typed(k, m[k])
    ensures forall a | a in Typing(m) :: Typing(m)[a] == 1
    ensures forall k | k in m ::
              IsValue(Typed(k, m[k])) && KeyOf(Typed(k, m[k])) == k && ValueOf(Typed(k, m[k])) == m[k]
  {
    hide IsValue, KeyOf, ValueOf, Typed;
    forall k | k in m
      ensures IsValue(Typed(k, m[k])) && KeyOf(Typed(k, m[k])) == k && ValueOf(Typed(k, m[k])) == m[k]
    {
      TypedReads(k, m[k]);
    }
  }

  lemma KeyRecognised(key: string, value: string, closed: Closed)
    requires key in closed.values && IsValue(Typed(key, value)) && KeyOf(Typed(key, value)) == key
    ensures Recognised(Typed(key, value), closed)
  {
  }

  lemma NamesPlain(c: Command)
    ensures Named(ClosedFor(c).values) && Named({"execute"}) && ClosedFor(c).flags == {"execute"}
  {
  }

  lemma KeysListed(a: Act)
    ensures Typings(a).Keys <= ClosedFor(CommandOf(a)).values
  {
    hide Printed;
  }

  lemma AmountOfPrinted(n: nat)
    requires IsAmount(Printed(n))
    ensures Amount(Printed(n)) == n
  {
    hide Printed;
    UnitsOfPrinted(n);
    Text.ValueOfNumeral(n);
  }

  /** Each act's own command line, in any order, asks for exactly that act. */
  lemma ActAsked(a: Act)
    requires Typable(a)
    ensures Asked(CommandOf(a), CommandLine(a)) == Some(Request(a, false, None))
  {
    hide Typing, OptionsOf, ClosedFor;
    NamesPlain(CommandOf(a));
    KeysListed(a);
    ReadTyping(Typings(a), ClosedFor(CommandOf(a)));
    OptionsTyped(a);
  }

  lemma OptionsTyped(a: Act)
    requires Typable(a)
    ensures OptionsOf(CommandOf(a), Parsed(Typings(a), {})) == Some(Request(a, false, None))
  {
    hide ActOf;
    assert Typings(a)["target"] == TargetWord(a.target) && "confirm" !in Typings(a);
    ActTyped(a);
  }

  lemma ActTyped(a: Act)
    requires Typable(a)
    ensures ActOf(CommandOf(a), Parsed(Typings(a), {}), a.target) == Some(a)
  {
    hide Trim, Printed, Amount, IsAmount, Trimmed, Field, Fields, Typings;
    forall key, otherwise | key != "target"
      ensures Field(Parsed(Typings(a), {}), key, otherwise)
           == if key in Fields(a) then Fields(a)[key] else Trim(otherwise)
    {
      FieldTyped(a, key, otherwise);
    }
    NothingEmpty(a);
    FieldsFilled(a);
    NothingToTrim();
    if a.BootstrapRisk? {
      AmountOfPrinted(a.maxOrder);
      RiskFrom(a, Parsed(Typings(a), {}));
    } else if a.Bootstrap? || a.Grant? || a.Revoke? {
      EntitlementFrom(a, Parsed(Typings(a), {}));
    } else {
      CommerceFrom(a, Parsed(Typings(a), {}));
    }
  }

  lemma EntitlementFrom(a: Act, p: Parsed)
    requires forall k | k in Fields(a) :: Fields(a)[k] != ""
    requires a.Bootstrap? || a.Grant? || a.Revoke?
    requires forall key, otherwise | key != "target" ::
               Field(p, key, otherwise) == if key in Fields(a) then Fields(a)[key] else Trim(otherwise)
    ensures ActOf(CommandOf(a), p, a.target) == Some(a)
  {
    hide Trim, Field, Fields, Printed, Amount, IsAmount;
    FieldsFilled(a);
  }

  lemma CommerceFrom(a: Act, p: Parsed)
    requires forall k | k in Fields(a) :: Fields(a)[k] != ""
    requires a.ApproveCommerce? || a.ClassifyTax? || a.BootstrapCommercial?
    requires forall key, otherwise | key != "target" ::
               Field(p, key, otherwise) == if key in Fields(a) then Fields(a)[key] else Trim(otherwise)
    ensures ActOf(CommandOf(a), p, a.target) == Some(a)
  {
    hide Trim, Field, Fields, Printed, Amount, IsAmount;
    FieldsFilled(a);
  }

  lemma RiskFrom(a: Act, p: Parsed)
    requires forall k | k in Fields(a) :: Fields(a)[k] != ""
    requires a.BootstrapRisk? && IsAmount(Printed(a.maxOrder)) && Amount(Printed(a.maxOrder)) == a.maxOrder
    requires Trim("") == ""
    requires forall key, otherwise | key != "target" ::
               Field(p, key, otherwise) == if key in Fields(a) then Fields(a)[key] else Trim(otherwise)
    ensures ActOf(CommandOf(a), p, a.target) == Some(a)
  {
    hide Trim, Field, Fields, Printed, Amount, IsAmount;
    FieldsFilled(a);
  }

  lemma FieldTyped(a: Act, key: string, otherwise: string)
    requires Typable(a) && key != "target"
    ensures Field(Parsed(Typings(a), {}), key, otherwise)
         == if key in Fields(a) then Fields(a)[key] else Trim(otherwise)
  {
    hide Trim, Fields;
    if key in Fields(a) {
      TrimKeeps(Fields(a)[key]);
    }
  }

  /** The fields of an act, one by one; none is empty. */
  lemma FieldsFilled(a: Act)
    requires forall k | k in Fields(a) :: Fields(a)[k] != ""
    ensures !a.Bootstrap? ==> "actor" in Fields(a) && Fields(a)["actor"] == a.actor != ""
    ensures a.Bootstrap? || a.Grant? || a.Revoke? ==>
              && "account" in Fields(a) && Fields(a)["account"] == a.account != ""
              && "capability" in Fields(a) && Fields(a)["capability"] == a.capability != ""
    ensures a.ApproveCommerce? ==>
              && "decision" in Fields(a) && Fields(a)["decision"] == a.decision
              && "participant" in Fields(a) && Fields(a)["participant"] == a.participant != ""
              && "reason" in Fields(a) && Fields(a)["reason"] == a.reason
    ensures a.ClassifyTax? ==>
              && "product-ref" in Fields(a) && Fields(a)["product-ref"] == a.product != ""
              && "classification" in Fields(a) && Fields(a)["classification"] == a.classification != ""
    ensures a.BootstrapRisk? ==>
              && "max-order" in Fields(a) && Fields(a)["max-order"] == Printed(a.maxOrder)
              && ("policy-id" in Fields(a) <==> a.policyId.Some?)
              && (a.policyId.Some? ==> Fields(a)["policy-id"] == a.policyId.value != "")
  {
    hide Printed;
  }

  lemma NothingEmpty(a: Act)
    requires Typable(a)
    ensures forall k | k in Fields(a) :: Fields(a)[k] != ""
  {
    hide Fields;
  }

  lemma NothingToTrim()
    ensures Trim("") == ""
  {
  }

  // ---- What any accepted command line asks for ----

  /** `value` is what was typed under `key`, trimmed, or the default if nothing was. */
  ghost predicate FieldIs(args: multiset<string>, key: string, otherwise: string, value: string) {
    && (forall v | Typed(key, v) in args :: value == Trim(v))
    && ((forall v :: Typed(key, v) !in args) ==> value == otherwise)
  }

  lemma FieldSays(args: multiset<string>, key: string, otherwise: string)
    requires Functional(args) && key != "" && '=' !in key && Trim(otherwise) == otherwise
    ensures FieldIs(args, key, otherwise, Field(Meaning(args), key, otherwise))
  {
    hide Trim, Typed, Values;
    forall v ensures key in Values(args) && Values(args)[key] == v <==> Typed(key, v) in args {
      ValueTyped(args, key, v);
    }
    if key in Values(args) {
      assert Typed(key, Values(args)[key]) in args;
    }
  }

  lemma Defaults()
    ensures Trim("") == "" && Trim("APPROVED") == "APPROVED" && Trim("REQUIREMENTS_MET") == "REQUIREMENTS_MET"
  {
    TrimKeeps("APPROVED");
    TrimKeeps("REQUIREMENTS_MET");
  }

  /** Whatever is asked for, each of its fields is what was typed under that field's own key, trimmed, or the stated
      default; the required ones are not blank. */
  lemma AskedSays(c: Command, args: multiset<string>, o: Request)
    requires Asked(c, args) == Some(o)
    ensures CommandOf(o.act) == c && Typed("target", TargetWord(o.act.target)) in args
    ensures !o.act.Bootstrap? ==> FieldIs(args, "actor", "", o.act.actor) && o.act.actor != ""
    ensures o.act.Bootstrap? || o.act.Grant? || o.act.Revoke? ==>
              && FieldIs(args, "account", "", o.act.account) && o.act.account != ""
              && FieldIs(args, "capability", "", o.act.capability) && o.act.capability != ""
    ensures o.act.ApproveCommerce? ==>
              && FieldIs(args, "participant", "", o.act.participant) && o.act.participant != ""
              && FieldIs(args, "decision", "APPROVED", o.act.decision)
              && FieldIs(args, "reason", "REQUIREMENTS_MET", o.act.reason)
    ensures o.act.ClassifyTax? ==>
              && FieldIs(args, "product-ref", "", o.act.product) && o.act.product != ""
              && FieldIs(args, "classification", "", o.act.classification) && o.act.classification != ""
    ensures o.act.BootstrapRisk? ==>
              && FieldIs(args, "max-order", "", Printed(o.act.maxOrder)) && IsAmount(Printed(o.act.maxOrder))
              && FieldIs(args, "policy-id", "", if o.act.policyId.Some? then o.act.policyId.value else "")
              && o.act.policyId != Some("")
  {
    hide FieldIs, Field, Trim, Typed, Printed, IsAmount, Functional, ActOf, Asked, Meaning;
    var p := AskedRead(c, args, o);
    ActFields(c, p, o.act);
    Defaults();
    FieldSays(args, "actor", "");
    FieldSays(args, "account", "");
    FieldSays(args, "capability", "");
    FieldSays(args, "participant", "");
    FieldSays(args, "decision", "APPROVED");
    FieldSays(args, "reason", "REQUIREMENTS_MET");
    FieldSays(args, "product-ref", "");
    FieldSays(args, "classification", "");
    FieldSays(args, "max-order", "");
    FieldSays(args, "policy-id", "");
  }

  lemma {:induction false} AskedRead(c: Command, args: multiset<string>, o: Request) returns (p: Parsed)
    requires Asked(c, args) == Some(o)
    ensures Fits(args, ClosedFor(c)) && Functional(args) && p == Meaning(args)
    ensures ActOf(c, p, o.act.target) == Some(o.act) && Typed("target", TargetWord(o.act.target)) in args
    ensures o.execute <==> "--" + "execute" in args
    ensures forall x :: o.confirm == Some(x) <==> Typed("confirm", x) in args
  {
    hide ActOf, Typed, ClosedFor, Values, Flags, Functional, Fits;
    FitsFunctional(args, ClosedFor(c));
    p := Meaning(args);
    ActTarget(c, p);
    ValueTyped(args, "target", TargetWord(o.act.target));
    FlagTyped(args, ClosedFor(c), "execute");
    forall x ensures o.confirm == Some(x) <==> Typed("confirm", x) in args {
      ValueTyped(args, "confirm", x);
    }
  }

  lemma ActTarget(c: Command, p: Parsed)
    ensures forall t | ActOf(c, p, t).Some? :: ActOf(c, p, t).value.target == t
  {
    hide Field, Amount, IsAmount;
  }

  /** The fields of an act, as read. */
  lemma ActFields(c: Command, p: Parsed, a: Act)
    requires ActOf(c, p, a.target) == Some(a)
    ensures CommandOf(a) == c
    ensures !a.Bootstrap? ==> Field(p, "actor", "") == a.actor != ""
    ensures a.Bootstrap? || a.Grant? || a.Revoke? ==>
              Field(p, "account", "") == a.account != "" && Field(p, "capability", "") == a.capability != ""
    ensures a.ApproveCommerce? ==>
              && Field(p, "participant", "") == a.participant != "" && Field(p, "decision", "APPROVED") == a.decision
              && Field(p, "reason", "REQUIREMENTS_MET") == a.reason
    ensures a.ClassifyTax? ==>
              Field(p, "product-ref", "") == a.product != "" && Field(p, "classification", "") == a.classification != ""
    ensures a.BootstrapRisk? ==>
              && Field(p, "max-order", "") == Printed(a.maxOrder) && IsAmount(Printed(a.maxOrder))
              && Field(p, "policy-id", "") == (if a.policyId.Some? then a.policyId.value else "")
              && a.policyId != Some("")
  {
    hide Field, Printed, Amount, IsAmount;
    if a.BootstrapRisk? {
      AmountPrintsBack(Field(p, "max-order", ""));
    }
  }

  // ---- Which command lines are refused ----

  /** The fields each command cannot do without. */
  function RequiredKeys(c: Command): set<string> {
    match c
    case BootstrapCmd => {"account", "capability"}
    case GrantCmd | RevokeCmd => {"account", "capability", "actor"}
    case CommerceCmd => {"participant", "actor"}
    case TaxCmd => {"product-ref", "classification", "actor"}
    case RiskCmd => {"actor"}
    case CommercialCmd => {"actor"}
  }

  ghost predicate FilledIn(args: multiset<string>, key: string) {
    exists v :: Typed(key, v) in args && Trim(v) != ""
  }

  /** Something is asked for exactly when every argument is recognised and no key repeated, a target is named, the
      required fields are not blank, and an amount is one. */
  lemma AskedExactly(c: Command, args: multiset<string>)
    ensures Asked(c, args).Some? <==>
            && Fits(args, ClosedFor(c))
            && (Typed("target", "local") in args || Typed("target", "production") in args)
            && (forall k | k in RequiredKeys(c) :: FilledIn(args, k))
            && (c == RiskCmd ==> exists v :: Typed("max-order", v) in args && IsAmount(Trim(v)))
  {
    hide Fits, Functional, Meaning, Field, Typed, FilledIn, IsAmount, ActOf, ClosedFor, Trim;
    if Fits(args, ClosedFor(c)) {
      FitsFunctional(args, ClosedFor(c));
      var p := Meaning(args);
      TargetExactly(args);
      ActExactly(c, p);
      forall k | k in RequiredKeys(c) ensures FilledIn(args, k) <==> Field(p, k, "") != "" {
        RequiredPlain(c);
        FilledExactly(args, k);
      }
      AmountExactly(args);
    }
  }

  lemma RequiredPlain(c: Command)
    ensures forall k | k in RequiredKeys(c) :: k != "" && '=' !in k
  {
  }

  lemma TargetExactly(args: multiset<string>)
    requires Functional(args)
    ensures TargetOf(Meaning(args)).Some? <==> Typed("target", "local") in args || Typed("target", "production") in args
  {
    hide Functional, Typed, Values;
    ValueTyped(args, "target", "local");
    ValueTyped(args, "target", "production");
  }

  lemma ActExactly(c: Command, p: Parsed)
    ensures forall t :: ActOf(c, p, t).Some? <==>
              && (forall k | k in RequiredKeys(c) :: Field(p, k, "") != "")
              && (c == RiskCmd ==> IsAmount(Field(p, "max-order", "")))
  {
    hide Field, IsAmount, Amount;
  }

  lemma FilledExactly(args: multiset<string>, key: string)
    requires Functional(args) && key != "" && '=' !in key
    ensures FilledIn(args, key) <==> Field(Meaning(args), key, "") != ""
  {
    hide Functional, Typed, Values;
    NothingToTrim();
    forall v ensures key in Values(args) && Values(args)[key] == v <==> Typed(key, v) in args {
      ValueTyped(args, key, v);
    }
    if key in Values(args) {
      assert Typed(key, Values(args)[key]) in args;
    }
  }

  lemma AmountExactly(args: multiset<string>)
    requires Functional(args)
    ensures (exists v :: Typed("max-order", v) in args && IsAmount(Trim(v))) <==>
            IsAmount(Field(Meaning(args), "max-order", ""))
  {
    hide Functional, Typed, Values, Trim;
    NothingToTrim();
    forall v ensures "max-order" in Values(args) && Values(args)["max-order"] == v <==> Typed("max-order", v) in args {
      ValueTyped(args, "max-order", v);
    }
    if "max-order" in Values(args) {
      assert Typed("max-order", Values(args)["max-order"]) in args;
    }
  }

  /** An amount is exactly the decimal spelling of a number from 1 to 999,999,999,999,999. */
  lemma AmountSpelling(s: string)
    ensures IsAmount(s) <==> exists n: nat :: 1 <= n < 1_000_000_000_000_000 && s == Printed(n)
  {
    hide Printed, Text.NumeralValue, Text.Pow10;
    Fifteen();
    if IsAmount(s) {
      AmountPrintsBack(s);
      AmountDigits(s);
      Text.NumeralBounds(Text.Units(s));
      Text.Pow10Grows(|s|, 15);
      Text.NumeralPositive(Text.Units(s));
    }
    forall n: nat | 1 <= n < 1_000_000_000_000_000 ensures IsAmount(Printed(n)) {
      PrintedIsAmount(n);
    }
  }

  lemma Fifteen()
    ensures Text.Pow10(15) == 1_000_000_000_000_000
  {
    assert Text.Pow10(3) == 10 * Text.Pow10(2) == 100 * Text.Pow10(1) == 1000;
    assert Text.Pow10(6) == 10 * Text.Pow10(5) == 100 * Text.Pow10(4) == 1_000_000;
    assert Text.Pow10(9) == 10 * Text.Pow10(8) == 100 * Text.Pow10(7) == 1_000_000_000;
    assert Text.Pow10(12) == 10 * Text.Pow10(11) == 100 * Text.Pow10(10) == 1_000_000_000_000;
    assert Text.Pow10(15) == 10 * Text.Pow10(14) == 100 * Text.Pow10(13);
  }

  lemma PrintedIsAmount(n: nat)
    requires 1 <= n < 1_000_000_000_000_000
    ensures IsAmount(Printed(n))
  {
    hide Text.NumeralValue, Text.Pow10, Text.Numeral;
    var t := Text.Numeral(n);
    Fifteen();
    UnitsOfPrinted(n);
    Text.ValueOfNumeral(n);
    Text.NumeralBounds(t);
    if |t| > 15 {
      Text.Pow10Grows(15, |t| - 1);
    }
    UnitAt(Printed(n), 0);
  }

  /** The keys a command takes are those of its acts' fields, the target's and the confirmation's. */
  lemma KeysExactly(c: Command, k: string)
    ensures k in ClosedFor(c).values <==> k in {"target", "confirm"} || exists a :: CommandOf(a) == c && k in Fields(a)
  {
    hide Printed;
    var a := match c
      case BootstrapCmd => Bootstrap("", "", Local)
      case GrantCmd => Grant("", "", "", Local)
      case RevokeCmd => Revoke("", "", "", Local)
      case CommerceCmd => ApproveCommerce("", "", "", "", Local)
      case TaxCmd => ClassifyTax("", "", "", Local)
      case RiskCmd => BootstrapRisk(Some(""), 1, "", Local)
      case CommercialCmd => BootstrapCommercial("", Local);
    assert CommandOf(a) == c;
    assert k in ClosedFor(c).values <==> k in {"target", "confirm"} || k in Fields(a);
    forall b | CommandOf(b) == c && k in Fields(b) ensures k in Fields(a) {
    }
  }

  /** A command line executes exactly when it carries the flag and the phrase of what it asks for, and is a dry run
      exactly without the flag. */
  lemma ExecutesExactly(c: Command, args: multiset<string>, o: Request)
    requires Asked(c, args) == Some(o)
    ensures Evaluate(o) == Execute <==> "--" + "execute" in args && Typed("confirm", Phrase(o.act)) in args
    ensures Evaluate(o) == DryRun <==> "--" + "execute" !in args
  {
    hide Phrase, Typed, Asked;
    var p := AskedRead(c, args, o);
  }

  /** With spaces in a field it fails: two command lines ask for two different grants, and one confirmation executes
      either. */
  lemma SpacesConfuse(a: string, b: string, c: string, actor: string, t: Target)
    requires Trimmed(a) && Trimmed(b) && Trimmed(c) && Trimmed(actor)
    ensures var g, h := Grant(a + " TO " + b, c, actor, t), Grant(a, b + " TO " + c, actor, t);
            && Phrase(g) == Phrase(h) && Normal(g) != Normal(h)
            && Asked(GrantCmd, CommandLine(g)) == Some(Request(g, false, None))
            && Asked(GrantCmd, CommandLine(h)) == Some(Request(h, false, None))
            && Evaluate(Request(g, true, Some(Phrase(g)))) == Evaluate(Request(h, true, Some(Phrase(g)))) == Execute
  {
    hide Phrase, Join, Asked, CommandLine;
    var rest := Join(["BY", actor, "ON", TargetWord(t)]);
    GrantPhrase(a + " TO " + b, c, actor, t);
    GrantPhrase(a, b + " TO " + c, actor, t);
    Regroup("GRANT" + " ", a, " TO ", b, c, " " + rest);
    ActAsked(Grant(a + " TO " + b, c, actor, t));
    ActAsked(Grant(a, b + " TO " + c, actor, t));
    assert |a + " TO " + b| != |a|;
  }

  lemma Regroup(g: string, a: string, to: string, b: string, c: string, r: string)
    ensures g + (a + to + b) + to + c + r == g + a + to + (b + to + c) + r
  {
  }

  lemma GrantPhrase(capability: string, account: string, actor: string, t: Target)
    ensures Phrase(Grant(capability, account, actor, t))
         == "GRANT" + " " + capability + " TO " + account + (" " + Join(["BY", actor, "ON", TargetWord(t)]))
  {
    var rest := ["BY", actor, "ON", TargetWord(t)];
    var ws := Words(Grant(capability, account, actor, t));
    var t1, t2, t3 := ws[1..], ws[2..], ws[3..];
    assert t1[1..] == t2 && t2[1..] == t3 && t3[1..] == rest;
    assert Join(t3) == account + " " + Join(rest);
    assert Join(t2) == "TO" + " " + Join(t3);
    assert Join(t1) == capability + " " + Join(t2);
    assert Join(ws) == "GRANT" + " " + Join(t1);
    assert " " + ("TO" + " ") == " TO ";
  }

  // ---- How phrases read ----

  lemma {:induction false} JoinSnoc(ws: seq<string>, w: string)
    requires ws != []
    ensures Join(ws + [w]) == Join(ws) + " " + w
  {
    if |ws| == 1 {
      assert (ws + [w])[1..] == [w];
    } else {
      JoinSnoc(ws[1..], w);
      assert (ws + [w])[1..] == ws[1..] + [w];
    }
  }

  lemma OneWord(ws: seq<string>)
    requires |ws| == 1
    ensures Join(ws) == ws[0]
  {
  }

  lemma SixWords(w: seq<string>)
    requires |w| == 6
    ensures Join(w) == w[0] + " " + w[1] + " " + w[2] + " " + w[3] + " " + w[4] + " " + w[5]
  {
    hide Join;
    assert Join(w[..1]) == w[0] by { OneWord(w[..1]); }
    JoinSnoc(w[..1], w[1]);
    assert w[..2] == w[..1] + [w[1]];
    JoinSnoc(w[..2], w[2]);
    assert w[..3] == w[..2] + [w[2]];
    JoinSnoc(w[..3], w[3]);
    assert w[..4] == w[..3] + [w[3]];
    JoinSnoc(w[..4], w[4]);
    assert w[..5] == w[..4] + [w[4]];
    JoinSnoc(w[..5], w[5]);
    assert w[..6] == w[..5] + [w[5]];
    assert w[..6] == w;
  }

  lemma SevenWords(w: seq<string>)
    requires |w| == 7
    ensures Join(w) == w[0] + " " + w[1] + " " + w[2] + " " + w[3] + " " + w[4] + " " + w[5] + " " + w[6]
  {
    hide Join;
    assert Join(w[..1]) == w[0] by { OneWord(w[..1]); }
    JoinSnoc(w[..1], w[1]);
    assert w[..2] == w[..1] + [w[1]];
    JoinSnoc(w[..2], w[2]);
    assert w[..3] == w[..2] + [w[2]];
    JoinSnoc(w[..3], w[3]);
    assert w[..4] == w[..3] + [w[3]];
    JoinSnoc(w[..4], w[4]);
    assert w[..5] == w[..4] + [w[4]];
    JoinSnoc(w[..5], w[5]);
    assert w[..6] == w[..5] + [w[5]];
    JoinSnoc(w[..6], w[6]);
    assert w[..7] == w[..6] + [w[6]];
    assert w[..7] == w;
  }

  lemma EightWords(w: seq<string>)
    requires |w| == 8
    ensures Join(w) == w[0] + " " + w[1] + " " + w[2] + " " + w[3] + " " + w[4] + " " + w[5] + " " + w[6] + " " + w[7]
  {
    hide Join;
    assert Join(w[..1]) == w[0] by { OneWord(w[..1]); }
    JoinSnoc(w[..1], w[1]);
    assert w[..2] == w[..1] + [w[1]];
    JoinSnoc(w[..2], w[2]);
    assert w[..3] == w[..2] + [w[2]];
    JoinSnoc(w[..3], w[3]);
    assert w[..4] == w[..3] + [w[3]];
    JoinSnoc(w[..4], w[4]);
    assert w[..5] == w[..4] + [w[4]];
    JoinSnoc(w[..5], w[5]);
    assert w[..6] == w[..5] + [w[5]];
    JoinSnoc(w[..6], w[6]);
    assert w[..7] == w[..6] + [w[6]];
    JoinSnoc(w[..7], w[7]);
    assert w[..8] == w[..7] + [w[7]];
    assert w[..8] == w;
  }

  lemma TenWords(w: seq<string>)
    requires |w| == 10
    ensures Join(w) == w[0] + " " + w[1] + " " + w[2] + " " + w[3] + " " + w[4] + " " + w[5] + " " + w[6]
              + " " + w[7] + " " + w[8] + " " + w[9]
  {
    hide Join;
    assert Join(w[..1]) == w[0] by { OneWord(w[..1]); }
    JoinSnoc(w[..1], w[1]);
    assert w[..2] == w[..1] + [w[1]];
    JoinSnoc(w[..2], w[2]);
    assert w[..3] == w[..2] + [w[2]];
    JoinSnoc(w[..3], w[3]);
    assert w[..4] == w[..3] + [w[3]];
    JoinSnoc(w[..4], w[4]);
    assert w[..5] == w[..4] + [w[4]];
    JoinSnoc(w[..5], w[5]);
    assert w[..6] == w[..5] + [w[5]];
    JoinSnoc(w[..6], w[6]);
    assert w[..7] == w[..6] + [w[6]];
    JoinSnoc(w[..7], w[7]);
    assert w[..8] == w[..7] + [w[7]];
    JoinSnoc(w[..8], w[8]);
    assert w[..9] == w[..8] + [w[8]];
    JoinSnoc(w[..9], w[9]);
    assert w[..10] == w[..9] + [w[9]];
    assert w[..10] == w;
  }

  /** The phrases, word for word. */
  lemma EntitlementText(a: Act)
    ensures a.Bootstrap? ==>
              Phrase(a) == "BOOTSTRAP" + " " + a.capability + " " + "FOR" + " " + a.account
                  + " " + "ON" + " " + TargetWord(a.target)
    ensures a.Grant? ==>
              Phrase(a) == "GRANT" + " " + a.capability + " " + "TO" + " " + a.account + " " + "BY" + " " + a.actor
                  + " " + "ON" + " " + TargetWord(a.target)
    ensures a.Revoke? ==>
              Phrase(a) == "REVOKE" + " " + a.capability + " " + "FROM" + " " + a.account + " " + "BY" + " " + a.actor
                  + " " + "ON" + " " + TargetWord(a.target)
  {
    hide Join, TargetWord;
    if a.Bootstrap? {
      SixWords(Words(a));
    } else if a.Grant? || a.Revoke? {
      EightWords(Words(a));
    }
  }

  lemma CommerceText(a: Act)
    ensures a.ApproveCommerce? ==>
              Phrase(a) == "COMMERCE" + " " + a.decision + " " + a.participant + " " + ("(" + a.reason + ")")
                  + " " + "BY" + " " + a.actor + " " + "ON" + " " + TargetWord(a.target)
    ensures a.ClassifyTax? ==>
              Phrase(a) == "TAX-CLASSIFY" + " " + a.product + " " + "AS" + " " + a.classification
                  + " " + "BY" + " " + a.actor + " " + "ON" + " " + TargetWord(a.target)
  {
    hide Join, TargetWord;
    if a.ApproveCommerce? || a.ClassifyTax? {
      EightWords(Words(a));
    }
  }

  lemma PolicyText(a: Act)
    ensures a.BootstrapRisk? ==>
              Phrase(a) == "BOOTSTRAP" + " " + "risk-policy" + " "
                  + (if a.policyId.Some? then a.policyId.value else "NEW") + " " + "MAX" + " " + Printed(a.maxOrder)
                  + " " + "USD" + " " + "BY" + " " + a.actor + " " + "ON" + " " + TargetWord(a.target)
    ensures a.BootstrapCommercial? ==>
              Phrase(a) == "BOOTSTRAP" + " " + "commercial-policy" + " " + "STANDARD_V1" + " " + "BY" + " " + a.actor
                  + " " + "ON" + " " + TargetWord(a.target)
  {
    hide Join, Printed, TargetWord;
    if a.BootstrapRisk? {
      TenWords(Words(a));
    } else if a.BootstrapCommercial? {
      SevenWords(Words(a));
    }
  }
}
