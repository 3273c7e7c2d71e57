/** Operator command lines: `--key=value` and `--flag` arguments against a closed list, in any order. */
module OperatorArguments {
  import opened Options
  import opened Sequences

  datatype Closed = Closed(values: set<string>, flags: set<string>)

  datatype Parsed = Parsed(values: map<string, string>, flags: set<string>)

  predicate Dashed(arg: string) { |arg| >= 2 && arg[0] == '-' && arg[1] == '-' }

  /** `--key=value` with a key: the value is everything after the first `=`. */
  predicate IsValue(arg: string) { Dashed(arg) && IndexOf(arg, '=') > 2 }

  function KeyOf(arg: string): string
    requires IsValue(arg)
  {
    arg[2..IndexOf(arg, '=')]
  }

  function ValueOf(arg: string): string
    requires IsValue(arg)
  {
    arg[IndexOf(arg, '=') + 1..]
  }

  predicate Recognised(arg: string, closed: Closed) {
    if IsValue(arg) then KeyOf(arg) in closed.values else Dashed(arg) && arg[2..] in closed.flags
  }

  /** Every argument is on the list, and no key is given twice. */
  predicate Fits(args: multiset<string>, closed: Closed) {
    && (forall a | a in args :: Recognised(a, closed))
    && (forall a | a in args && IsValue(a) :: args[a] == 1)
    && Functional(args)
  }

  predicate Functional(args: multiset<string>) {
    forall a, b | a in args && b in args && IsValue(a) && IsValue(b) && KeyOf(a) == KeyOf(b) :: a == b
  }

  function Values(args: multiset<string>): map<string, string>
    requires Functional(args)
  {
    map a | a in args && IsValue(a) :: KeyOf(a) := ValueOf(a)
  }

  function Flags(args: multiset<string>): set<string> {
    set a | a in args && !IsValue(a) && Dashed(a) :: a[2..]
  }

  /** What fitting arguments say, whatever their order. */
  function Meaning(args: multiset<string>): Parsed
    requires Functional(args)
  {
    Parsed(Values(args), Flags(args))
  }

  function Read(args: multiset<string>, closed: Closed): Option<Parsed> {
    if Fits(args, closed) then Some(Meaning(args)) else None
  }

  lemma FitsFunctional(args: multiset<string>, closed: Closed)
    requires Fits(args, closed)
    ensures Functional(args)
  {
  }

  /** One more argument fits exactly when it is on the list and its key is new. */
  lemma FitsMore(args: multiset<string>, arg: string, closed: Closed)
    requires Fits(args, closed)
    ensures Fits(args + multiset{arg}, closed) <==>
            Recognised(arg, closed) && (IsValue(arg) ==> KeyOf(arg) !in Meaning(args).values)
  {
    hide IsValue, KeyOf, ValueOf, Recognised, Fits, Functional;
    FitsFunctional(args, closed);
    if Fits(args + multiset{arg}, closed) {
      FittingIsNew(args, arg, closed);
    }
    if Recognised(arg, closed) && (IsValue(arg) ==> KeyOf(arg) !in Values(args)) {
      NewFits(args, arg, closed);
    }
  }

  lemma FittingIsNew(args: multiset<string>, arg: string, closed: Closed)
    requires Fits(args, closed) && Fits(args + multiset{arg}, closed)
    ensures Recognised(arg, closed) && (IsValue(arg) ==> KeyOf(arg) !in Values(args))
  {
    hide IsValue, KeyOf, ValueOf, Recognised;
    var more := args + multiset{arg};
    assert arg in more;
    forall a | a in args && IsValue(a) && IsValue(arg) ensures KeyOf(a) != KeyOf(arg) {
      assert a in more;
      assert a == arg ==> more[arg] >= 2;
    }
  }

  lemma NewFits(args: multiset<string>, arg: string, closed: Closed)
    requires Fits(args, closed) && Recognised(arg, closed) && (IsValue(arg) ==> KeyOf(arg) !in Values(args))
    ensures Fits(args + multiset{arg}, closed)
  {
    hide IsValue, KeyOf, ValueOf, Recognised;
    var more := args + multiset{arg};
    forall a | a in more ensures a in args || a == arg {
    }
    assert IsValue(arg) ==> arg !in args;
  }

  predicate Says(m: map<string, string>, k: string, v: string) { k in m && m[k] == v }

  lemma ValuesGive(args: multiset<string>, k: string, v: string)
    requires Functional(args)
    ensures Says(Values(args), k, v) <==> exists a | a in args :: IsValue(a) && KeyOf(a) == k && ValueOf(a) == v
  {
  }

  lemma ValuesMore(args: multiset<string>, arg: string)
    requires Functional(args) && Functional(args + multiset{arg})
    ensures Values(args + multiset{arg}) == if IsValue(arg) then Values(args)[KeyOf(arg) := ValueOf(arg)]
              else Values(args)
  {
    hide IsValue, KeyOf, ValueOf, Values, Functional;
    var more := args + multiset{arg};
    var expected := if IsValue(arg) then Values(args)[KeyOf(arg) := ValueOf(arg)] else Values(args);
    forall k, v ensures Says(Values(more), k, v) <==> Says(expected, k, v) {
      ValuesGive(more, k, v);
      ValuesGive(args, k, v);
      if IsValue(arg) && k == KeyOf(arg) {
        OnlyValue(more, arg, v);
      }
    }
    SameMap(Values(more), expected);
  }

  lemma OnlyValue(args: multiset<string>, arg: string, v: string)
    requires Functional(args) && arg in args && IsValue(arg)
    ensures KeyOf(arg) in Values(args) && Values(args)[KeyOf(arg)] == ValueOf(arg)
  {
    ValuesGive(args, KeyOf(arg), ValueOf(arg));
  }

  lemma SameMap(m: map<string, string>, n: map<string, string>)
    requires forall k, v :: Says(m, k, v) <==> Says(n, k, v)
    ensures m == n
  {
    forall k | k in m ensures k in n && n[k] == m[k] {
      assert Says(m, k, m[k]);
    }
    forall k | k in n ensures k in m {
      assert Says(n, k, n[k]);
    }
  }

  lemma FlagsMore(args: multiset<string>, arg: string)
    ensures Flags(args + multiset{arg}) == if !IsValue(arg) && Dashed(arg) then Flags(args) + {arg[2..]}
              else Flags(args)
  {
    var more := args + multiset{arg};
    assert forall a :: a in more <==> a in args || a == arg;
    assert arg in more;
  }

  lemma NoArguments(closed: Closed)
    ensures Fits(multiset{}, closed) && Functional(multiset{}) && Meaning(multiset{}) == Parsed(map[], {})
  {
  }

  lemma FitsLess(args: multiset<string>, rest: multiset<string>, closed: Closed)
    requires Fits(args + rest, closed)
    ensures Fits(args, closed)
  {
    forall a | a in args ensures a in args + rest && args[a] <= (args + rest)[a] {
    }
  }

  /** How a key and its value are typed. */
  function Typed(key: string, value: string): string { "--" + key + "=" + value }

  lemma TypedReads(key: string, value: string)
    requires key != "" && '=' !in key
    ensures IsValue(Typed(key, value)) && KeyOf(Typed(key, value)) == key && ValueOf(Typed(key, value)) == value
  {
    var arg := Typed(key, value);
    var i, n := IndexOf(arg, '='), |key| + 2;
    assert arg[n] == '=' && arg[..n] == "--" + key && arg[2..n] == key && arg[n + 1..] == value;
    forall j | 0 <= j < n ensures arg[j] != '=' {
      assert arg[j] == ("--" + key)[j];
    }
    forall j | 0 <= j < i ensures arg[j] != '=' {
      assert arg[..i][j] == arg[j];
    }
  }

  lemma FlagReads(flag: string)
    requires '=' !in flag
    ensures !IsValue("--" + flag) && Dashed("--" + flag) && ("--" + flag)[2..] == flag
  {
    assert '=' !in "--" + flag;
  }

  /** One more fitting argument adds exactly what it says. */
  lemma ReadMore(args: multiset<string>, arg: string, closed: Closed)
    requires Fits(args, closed) && Recognised(arg, closed)
    requires IsValue(arg) ==> KeyOf(arg) !in Meaning(args).values
    ensures Read(args + multiset{arg}, closed) == Some(
              if IsValue(arg) then Meaning(args).(values := Meaning(args).values[KeyOf(arg) := ValueOf(arg)])
              else Meaning(args).(flags := Meaning(args).flags + {arg[2..]}))
  {
    hide IsValue, Values, Flags;
    FitsMore(args, arg, closed);
    ValuesMore(args, arg);
    FlagsMore(args, arg);
  }

  /** Refuses an unknown or repeated argument as it meets it; what it accepts and returns depends on no order. */
  method ParseArgs(argv: seq<string>, closed: Closed) returns (r: Option<Parsed>)
    ensures r == Read(multiset(argv), closed)
  {
    hide IsValue, KeyOf, ValueOf, Values, Flags, Functional, Fits;
    NoArguments(closed);
    var values: map<string, string> := map[];
    var flags: set<string> := {};
    for i := 0 to |argv|
      invariant Fits(multiset(argv[..i]), closed) && Functional(multiset(argv[..i]))
      invariant Meaning(multiset(argv[..i])) == Parsed(values, flags)
    {
      var arg := argv[i];
      ghost var args := multiset(argv[..i]);
      assert argv[..i + 1] == argv[..i] + [arg];
      assert argv == argv[..i + 1] + argv[i + 1..];
      FitsMore(args, arg, closed);
      if Recognised(arg, closed) && !(IsValue(arg) && KeyOf(arg) in values) {
        FitsFunctional(args + multiset{arg}, closed);
        ValuesMore(args, arg);
        FlagsMore(args, arg);
        if IsValue(arg) {
          values := values[KeyOf(arg) := ValueOf(arg)];
        } else {
          flags := flags + {arg[2..]};
        }
      } else {
        if Fits(multiset(argv), closed) {
          FitsLess(multiset(argv[..i + 1]), multiset(argv[i + 1..]), closed);
        }
        return None;
      }
    }
    assert argv[..|argv|] == argv;
    return Some(Parsed(values, flags));
  }
}
