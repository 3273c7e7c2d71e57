/** Decisions that report every failing gate: gates are asked in a fixed order, and each that fails pushes its
    reason. */
module Gates {
  import opened Sequences

  /** The reasons pushed by the first `n` gates. */
  ghost function Failing<R>(gates: seq<R>, fails: R -> bool, n: nat): seq<R>
    requires n <= |gates|
  {
    if n == 0 then [] else Failing(gates, fails, n - 1) + if fails(gates[n - 1]) then [gates[n - 1]] else []
  }

  /** Exactly the failing gates, each once. */
  ghost predicate Reports<R(!new)>(reasons: seq<R>, fails: R -> bool) {
    NoRepeats(reasons) && forall why :: why in reasons <==> fails(why)
  }

  lemma {:induction false} FailingExactly<R>(gates: seq<R>, fails: R -> bool, n: nat)
    requires n <= |gates| && NoRepeats(gates)
    ensures NoRepeats(Failing(gates, fails, n))
    ensures forall why :: why in Failing(gates, fails, n) <==> why in gates[..n] && fails(why)
  {
    if n > 0 {
      FailingExactly(gates, fails, n - 1);
      assert gates[..n] == gates[..n - 1] + [gates[n - 1]];
    }
  }

  lemma AllAsked<R(!new)>(gates: seq<R>, fails: R -> bool, reasons: seq<R>)
    requires reasons == Failing(gates, fails, |gates|) && NoRepeats(gates) && forall why :: fails(why) ==> why in gates
    ensures Reports(reasons, fails)
    ensures reasons == [] <==> forall why :: !fails(why)
  {
    FailingExactly(gates, fails, |gates|);
    assert gates[..|gates|] == gates;
    assert reasons != [] ==> reasons[0] in reasons;
  }

  lemma NoneAsked<R>(gates: seq<R>, fails: R -> bool)
    ensures Failing(gates, fails, 0) == []
  {
  }

  method Push<R>(reasons: seq<R>, failing: bool, why: R, ghost gates: seq<R>, ghost fails: R -> bool, ghost n: nat)
    returns (out: seq<R>)
    requires n < |gates| && why == gates[n] && failing == fails(why) && reasons == Failing(gates, fails, n)
    ensures out == Failing(gates, fails, n + 1)
  {
    out := if failing then reasons + [why] else reasons;
  }
}
