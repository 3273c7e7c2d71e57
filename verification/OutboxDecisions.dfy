/** Decisions owed after a receipt: which items wait for them, and when the stored rows agree with them. */
module OutboxDecisions {
  import opened Options
  import opened OutboxProtocol
  import opened OutboxRuns
  import opened OutboxSending

  // ---- Waiting for a decision ----

  /** A definitive refusal waits for a decision: nothing else moves the item or the verdicts. */
  lemma RefusalWaits(w: World, c: Commit)
    requires Inv(w) && Allowed(w, c) && w.rows.verdicts.registration == Rejected
    ensures !c.Remediate? ==> Apply(w, c).rows.item == w.rows.item && Apply(w, c).rows.verdicts == w.rows.verdicts
  {
    assert c.Answer? ==> Live(w, c.receipt.attemptId);
  }

  predicate AtRest(s: OutboxStatus) { s in {COMPLETED, DEAD_LETTER, CANCELLED} }

  predicate NoDecision(cs: seq<Commit>) { forall c | c in cs :: !c.Remediate? }

  lemma RestStep(w: World, c: Commit)
    requires Inv(w) && AtRest(w.rows.item.status) && Allowed(w, c) && !c.Remediate?
    ensures !c.Claim? && AtRest(Apply(w, c).rows.item.status)
  {
  }

  lemma {:induction false} RestsForever(w: World, cs: seq<Commit>, w': World)
    requires Inv(w) && AtRest(w.rows.item.status) && Run(w, cs, w') && AllSafe(cs) && NoDecision(cs)
    ensures forall c | c in cs :: !c.Claim?
    decreases |cs|
  {
    if cs != [] {
      RestStep(w, cs[0]);
      StepKeepsInv(w, cs[0]);
      RestsForever(Apply(w, cs[0]), cs[1..], w');
      forall c | c in cs ensures !c.Claim? {
        assert c == cs[0] || c in cs[1..];
      }
    }
  }

  /** Some run claims the item again without any decision. */
  ghost predicate ClaimedUndecided(w: World) {
    exists cs: seq<Commit>, u: World :: Run(w, cs, u) && AllSafe(cs) && NoDecision(cs) && exists c ::
        c in cs && c.Claim?
  }

  /** From anywhere but rest, an item is claimed again with its verdicts, and any decision owed, as they were. */
  lemma {:induction false} ClaimsUndecided(w: World) returns (cs: seq<Commit>, u: World)
    requires Inv(w) && !AtRest(w.rows.item.status)
    ensures Run(w, cs, u) && AllSafe(cs) && NoDecision(cs) && cs != [] && cs[|cs| - 1].Claim?
    ensures u.rows.verdicts == w.rows.verdicts && u.rows.item.status == PROCESSING
  {
    var token := FreshName(set t | t in w.claims);
    var before, free := Freed(w);
    var now := free.rows.item.availableAt;
    var claim := Claim(now, now + 1, token);
    RunThen(w, before, free, claim);
    cs, u := before + [claim], Apply(free, claim);
  }

  /** Recovered once its lease is over, if it is held at all. */
  lemma {:induction false} Freed(w: World) returns (cs: seq<Commit>, free: World)
    requires Inv(w) && !AtRest(w.rows.item.status)
    ensures Run(w, cs, free) && AllSafe(cs) && NoDecision(cs)
    ensures Claimable(free.rows.item.status) && free.rows.item.lockToken.None?
    ensures free.claims == w.claims && free.rows.verdicts == w.rows.verdicts
  {
    assert Run(w, [], w);
    if w.rows.item.status == PROCESSING {
      var recover := Recover(w.rows.item.leaseExpiresAt.value, w.rows.item.leaseExpiresAt.value);
      RunThen(w, [], w, recover);
      cs, free := [] + [recover], Apply(w, recover);
    } else {
      cs, free := [], w;
    }
  }

  /** With a decision owed, the item is claimed before anyone decides in some run exactly when it is not at rest. */
  lemma UndecidedExactly(w: World)
    requires Inv(w) && w.rows.verdicts.remediation == Required
    ensures ClaimedUndecided(w) <==> !AtRest(w.rows.item.status)
  {
    if !AtRest(w.rows.item.status) {
      var cs, u := ClaimsUndecided(w);
      assert cs[|cs| - 1] in cs;
    } else {
      forall cs: seq<Commit>, u: World | Run(w, cs, u) && AllSafe(cs) && NoDecision(cs)
        ensures forall c | c in cs :: !c.Claim?
      {
        RestsForever(w, cs, u);
      }
    }
  }

  /** Both kinds of owed decision are reached: a mismatch on an item still claimed, and on one parked meanwhile. */
  lemma {:induction false} OwedEitherWay() returns (cs: seq<Commit>, w: World, ds: seq<Commit>, u: World)
    ensures Run(START, cs, w) && AllSafe(cs) && Run(START, ds, u) && AllSafe(ds)
    ensures w.rows.verdicts == u.rows.verdicts == Verdicts(RegistrationPending, Mismatch, Required)
    ensures w.rows.item.status == PROCESSING && u.rows.item.status == DEAD_LETTER
  {
    cs, w, ds, u := OwedFrom(START);
  }

  lemma {:induction false} OwedFrom(w0: World) returns (cs: seq<Commit>, w: World, ds: seq<Commit>, u: World)
    requires Untouched(w0) && w0.rows.expected == OURS
    ensures Run(w0, cs, w) && AllSafe(cs) && Run(w0, ds, u) && AllSafe(ds)
    ensures w.rows.verdicts == u.rows.verdicts == Verdicts(RegistrationPending, Mismatch, Required)
    ensures w.rows.item.status == PROCESSING && u.rows.item.status == DEAD_LETTER
  {
    var sending, sent := FirstSend(w0, "t1", "a1");
    cs, w := Misreported(w0, sending, sent, "a1");
    var parked := Apply(sent, DeadLetter("t1"));
    RunThen(w0, sending, sent, DeadLetter("t1"));
    ds, u := Misreported(w0, sending + [DeadLetter("t1")], parked, "a1");
  }

  /** A receipt about another capsule comes in for a sent attempt. */
  lemma {:induction false} Misreported(w0: World, cs: seq<Commit>, w: World, id: AttemptId)
    returns (ds: seq<Commit>, u: World)
    requires Run(w0, cs, w) && AllSafe(cs) && w.rows.receipts == map[]
    requires id in w.rows.attempts && w.rows.attempts[id].status == DISPATCHED && w.rows.attempts[id].expected == OURS
    ensures Run(w0, ds, u) && AllSafe(ds) && u.rows.item == w.rows.item && u.claims == w.claims
    ensures u.rows.verdicts == Verdicts(RegistrationPending, Mismatch, Required)
              && u.rows.remediations == w.rows.remediations
  {
    var c := Answer("r1", Accepting(id, OTHER));
    RunThen(w0, cs, w, c);
    ds, u := cs + [c], Apply(w, c);
  }

  // ---- Decisions and the rows ----

  /** The remediation consistency check. */
  predicate RemediationConsistent(rows: Rows) {
    var v, item := rows.verdicts, rows.item;
    match v.remediation
    case RetryAuthorized => item.status == RETRYABLE && item.payload.Some?
    case Closed => item.status != PROCESSING
    case Resolved => v.registration == Accepted && v.reconciliation == Matched && item.payload.None?
    case _ => true
  }

  /** It passes in a reachable state exactly when no authorised retry has been picked up or withdrawn. */
  lemma ConsistencyExactly(w: World)
    requires Inv(w)
    ensures RemediationConsistent(w.rows) <==>
            (w.rows.verdicts.remediation == RetryAuthorized ==> w.rows.item.status == RETRYABLE)
  {
  }

  /** An authorised retry is followed by a failing check as soon as it is claimed, and also if it is cancelled. */
  lemma {:induction false} ConsistencyLost() returns (cs: seq<Commit>, w: World)
    ensures Run(START, cs, w) && AllSafe(cs) && RemediationConsistent(w.rows)
              && w.rows.verdicts.remediation == RetryAuthorized
    ensures Allowed(w, Claim(5, 15, "t2")) && !RemediationConsistent(Apply(w, Claim(5, 15, "t2")).rows)
    ensures Allowed(w, Cancel) && !RemediationConsistent(Apply(w, Cancel).rows)
  {
    cs, w := RetriedFrom(START);
  }

  lemma {:induction false} RetriedFrom(w0: World) returns (cs: seq<Commit>, w: World)
    requires Untouched(w0) && w0.rows.expected == OURS && w0.rows.item.payload.Some?
    ensures Run(w0, cs, w) && AllSafe(cs) && w.claims == ["t1"] && w.rows.item.availableAt == 5
              && w.rows.item.payload.Some?
    ensures w.rows.item.status == RETRYABLE && w.rows.item.lockToken.None?
              && w.rows.verdicts.remediation == RetryAuthorized
  {
    var sending, sent := FirstSend(w0, "t1", "a1");
    var ds, u := Misreported(w0, sending, sent, "a1");
    var retry := Remediate("m1", Decision(Retry(5), "NAMED_ANOTHER_CAPSULE", "actor", 4));
    RunThen(w0, ds, u, retry);
    cs, w := ds + [retry], Apply(u, retry);
  }
}
