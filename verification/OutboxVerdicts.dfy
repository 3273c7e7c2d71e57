/** What the verdicts on record say about a run: which receipts and decisions it held, and in what order. */
module OutboxVerdicts {
  import opened Options
  import opened OutboxProtocol
  import opened OutboxRuns
  import opened OutboxSending

  // ---- What a write is about ----

  /** A receipt that names what this publication expects, or something else. */
  predicate Names(c: Commit, expected: Identity) { c.Answer? && c.receipt.reported == expected }
  predicate Misnames(c: Commit, expected: Identity) { c.Answer? && c.receipt.reported != expected }
  predicate Accepts(c: Commit, expected: Identity) { Names(c, expected) && c.receipt.status.ReceiptAccepted? }
  predicate Refuses(c: Commit, expected: Identity) { Names(c, expected) && c.receipt.status.ReceiptRejected? }
  predicate Retries(c: Commit) { c.Remediate? && c.decision.action.Retry? }
  predicate Receives(c: Commit) { c.Answer? }
  predicate Decides(c: Commit) { c.Remediate? }
  predicate Closes(c: Commit) { c.Remediate? && c.decision.action.Close? }

  /** Some write is a `p`, and none after it is a `q`. */
  ghost predicate Since(cs: seq<Commit>, p: Commit -> bool, q: Commit -> bool) {
    exists i | 0 <= i < |cs| :: p(cs[i]) && forall j | i < j < |cs| :: !q(cs[j])
  }

  lemma SinceLast(cs: seq<Commit>, c: Commit, p: Commit -> bool, q: Commit -> bool)
    ensures Since(cs + [c], p, q) <==> p(c) || (Since(cs, p, q) && !q(c))
  {
    var ds := cs + [c];
    if p(c) {
      assert p(ds[|cs|]);
    }
    if Since(cs, p, q) && !q(c) {
      var i :| 0 <= i < |cs| && p(cs[i]) && forall j | i < j < |cs| :: !q(cs[j]);
      assert p(ds[i]) && forall j | i < j < |ds| :: !q(ds[j]);
    }
    if Since(ds, p, q) && !p(c) {
      var i :| 0 <= i < |ds| && p(ds[i]) && forall j | i < j < |ds| :: !q(ds[j]);
      assert p(cs[i]) && !q(ds[|cs|]);
      forall j | i < j < |cs| ensures !q(cs[j]) {
        assert ds[j] == cs[j];
      }
    }
  }

  // ---- One write ----

  /** How each verdict is entered and left: a receipt that names the publication settles it either way, one that does
      not is a mismatch, and only a retry takes a refusal or a mismatch back. */
  lemma VerdictStep(w: World, c: Commit)
    requires Inv(w) && Allowed(w, c) && Safe(c)
    ensures var e, v, u := w.rows.expected, w.rows.verdicts, Apply(w, c).rows.verdicts;
            && (u.registration == Accepted <==> Accepts(c, e) || v.registration == Accepted)
            && (u.registration == Rejected <==> Refuses(c, e) || (v.registration == Rejected && !Retries(c)))
            && (u.registration == RegistrationPending <==>
                  Misnames(c, e) || Retries(c) || (v.registration == RegistrationPending && !Names(c, e)))
            && (u.reconciliation == Mismatch <==>
                  Misnames(c, e) || (v.reconciliation == Mismatch && !Retries(c) && !Names(c, e)))
            && (u.reconciliation == Matched <==>
                  Names(c, e) || (v.reconciliation == Matched && !Retries(c) && !Misnames(c, e)))
            && (u.reconciliation == ReconciliationPending <==>
                  Retries(c) || (v.reconciliation == ReconciliationPending && !c.Answer?))
            && (u.remediation == Resolved <==> Accepts(c, e) || v.remediation == Resolved)
            && (u.remediation == Closed <==> Closes(c) || v.remediation == Closed)
            && (u.remediation == Required <==>
                  (c.Answer? && !Accepts(c, e)) || (v.remediation == Required && !c.Remediate? && !Accepts(c, e)))
            && (u.remediation == RetryAuthorized <==>
                  Retries(c) || (v.remediation == RetryAuthorized && !c.Answer?))
  {
    if c.Answer? {
      assert Live(w, c.receipt.attemptId);
      assert w.rows.attempts[c.receipt.attemptId].expected == w.rows.expected;
    }
  }

  /** A refusal that names the publication: rejected, matched, a decision owed, the item parked with its body. */
  lemma RefusalRecorded(w: World, c: Commit)
    requires Inv(w) && Allowed(w, c) && Refuses(c, w.rows.expected)
    ensures Apply(w, c).rows.verdicts == Verdicts(Rejected, Matched, Required)
    ensures Apply(w, c).rows.item.status == DEAD_LETTER
    ensures Apply(w, c).rows.item.payload == w.rows.item.payload && w.rows.item.payload.Some?
  {
    assert Live(w, c.receipt.attemptId);
    assert w.rows.attempts[c.receipt.attemptId].expected == w.rows.expected;
  }

  /** One that names something else moves no work and keeps the body. */
  lemma MismatchRecorded(w: World, c: Commit)
    requires Inv(w) && Allowed(w, c) && Misnames(c, w.rows.expected)
    ensures Apply(w, c).rows.verdicts == Verdicts(RegistrationPending, Mismatch, Required)
    ensures Apply(w, c).rows.item == w.rows.item && w.rows.item.payload.Some?
  {
    assert Live(w, c.receipt.attemptId);
    assert w.rows.attempts[c.receipt.attemptId].expected == w.rows.expected;
  }

  // ---- Over runs ----

  lemma {:induction false} RunLast(w: World, cs: seq<Commit>, w': World) returns (u: World)
    requires cs != [] && Run(w, cs, w')
    ensures Run(w, cs[..|cs| - 1], u) && Allowed(u, cs[|cs| - 1]) && w' == Apply(u, cs[|cs| - 1])
    decreases |cs|
  {
    if |cs| == 1 {
      u := w;
      assert cs[..0] == [] && Run(w, [], w);
    } else {
      u := RunLast(Apply(w, cs[0]), cs[1..], w');
      assert cs[..|cs| - 1][0] == cs[0] && cs[..|cs| - 1][1..] == cs[1..][..|cs| - 2];
    }
  }

  /** What the verdicts say, receipt by receipt and decision by decision. */
  ghost predicate Tell(cs: seq<Commit>, e: Identity, v: Verdicts) {
    && (v.registration == Accepted <==> Since(cs, c => Accepts(c, e), c => false))
    && (v.registration == Rejected <==> Since(cs, c => Refuses(c, e), c => Retries(c)))
    && (v.registration == RegistrationPending <==> Since(cs, c => Misnames(c, e) || Retries(c), c => Names(c, e)))
    && (v.reconciliation == Mismatch <==> Since(cs, c => Misnames(c, e), c => Retries(c) || Names(c, e)))
    && (v.reconciliation == Matched <==> Since(cs, c => Names(c, e), c => Retries(c) || Misnames(c, e)))
    && (v.reconciliation == ReconciliationPending <==> Since(cs, c => Retries(c), c => Receives(c)))
    && (v.remediation == Resolved <==> Since(cs, c => Accepts(c, e), c => false))
    && (v.remediation == Closed <==> Since(cs, c => Closes(c), c => false))
    && (v.remediation == Required <==>
          Since(cs, c => Receives(c) && !Accepts(c, e), c => Decides(c) || Accepts(c, e)))
    && (v.remediation == RetryAuthorized <==> Since(cs, c => Retries(c), c => Receives(c)))
  }

  /** Over every safe run the verdicts are exactly what its receipts and decisions make them. */
  lemma {:induction false} VerdictsTell(payload: Capsule, payloadHash: Hash, expected: Identity, availableAt: Instant,
      cs: seq<Commit>, w: World)
    requires Run(Fresh(payload, payloadHash, expected, availableAt), cs, w) && AllSafe(cs)
    ensures Tell(cs, expected, w.rows.verdicts)
    decreases |cs|
  {
    var w0 := Fresh(payload, payloadHash, expected, availableAt);
    if cs != [] {
      var before, c := cs[..|cs| - 1], cs[|cs| - 1];
      var u := RunLast(w0, cs, w);
      assert cs == before + [c] && AllSafe(before) && Safe(c);
      VerdictsTell(payload, payloadHash, expected, availableAt, before, u);
      FreshInv(payload, payloadHash, expected, availableAt);
      RunKeepsInv(w0, before, u);
      RunKeepsHistory(w0, before, u);
      VerdictStep(u, c);
      TellMore(before, c, expected, u.rows.verdicts, w.rows.verdicts);
    }
  }

  lemma TellMore(cs: seq<Commit>, c: Commit, e: Identity, v: Verdicts, u: Verdicts)
    requires Tell(cs, e, v)
    requires u.registration == Accepted <==> Accepts(c, e) || v.registration == Accepted
    requires u.registration == Rejected <==> Refuses(c, e) || (v.registration == Rejected && !Retries(c))
    requires u.registration == RegistrationPending <==>
               Misnames(c, e) || Retries(c) || (v.registration == RegistrationPending && !Names(c, e))
    requires u.reconciliation == Mismatch <==>
               Misnames(c, e) || (v.reconciliation == Mismatch && !Retries(c) && !Names(c, e))
    requires u.reconciliation == Matched <==>
               Names(c, e) || (v.reconciliation == Matched && !Retries(c) && !Misnames(c, e))
    requires u.reconciliation == ReconciliationPending <==>
               Retries(c) || (v.reconciliation == ReconciliationPending && !c.Answer?)
    requires u.remediation == Resolved <==> Accepts(c, e) || v.remediation == Resolved
    requires u.remediation == Closed <==> Closes(c) || v.remediation == Closed
    requires u.remediation == Required <==>
               (c.Answer? && !Accepts(c, e)) || (v.remediation == Required && !c.Remediate? && !Accepts(c, e))
    requires u.remediation == RetryAuthorized <==> Retries(c) || (v.remediation == RetryAuthorized && !c.Answer?)
    ensures Tell(cs + [c], e, u)
  {
    hide Since, Accepts, Refuses, Misnames, Names, Retries, Closes;
    SinceLast(cs, c, c => Accepts(c, e), c => false);
    SinceLast(cs, c, c => Refuses(c, e), c => Retries(c));
    SinceLast(cs, c, c => Misnames(c, e) || Retries(c), c => Names(c, e));
    SinceLast(cs, c, c => Misnames(c, e), c => Retries(c) || Names(c, e));
    SinceLast(cs, c, c => Names(c, e), c => Retries(c) || Misnames(c, e));
    SinceLast(cs, c, c => Retries(c), c => Receives(c));
    SinceLast(cs, c, c => Closes(c), c => false);
    SinceLast(cs, c, c => Receives(c) && !Accepts(c, e), c => Decides(c) || Accepts(c, e));
  }

  // ---- Closed with its verdict ----

  /** A closed publication keeps the registration and reconciliation its closing decision was taken against. */
  ghost predicate ClosedAsDecided(w: World) {
    w.rows.verdicts.remediation == Closed ==>
      exists r | r in w.rows.remediations ::
        && w.rows.remediations[r].decision.action.Close?
        && w.rows.remediations[r].prior == w.rows.verdicts.(remediation := Required)
  }

  lemma ClosedStep(w: World, c: Commit)
    requires Inv(w) && Allowed(w, c) && Safe(c) && ClosedAsDecided(w)
    ensures ClosedAsDecided(Apply(w, c))
  {
    var u := Apply(w, c);
    if w.rows.verdicts.remediation == Closed {
      SettledStep(w, c);
    } else if c.Remediate? {
      assert c.remediationId in u.rows.remediations;
    }
  }

  /** Over every safe run: whenever a publication is closed, and so forever after, its registration and reconciliation
      are those recorded with the decision that closed it. */
  lemma {:induction false} ClosedKeepsVerdict(w: World, cs: seq<Commit>, w': World)
    requires Inv(w) && ClosedAsDecided(w) && Run(w, cs, w') && AllSafe(cs)
    ensures ClosedAsDecided(w')
    decreases |cs|
  {
    if cs != [] {
      ClosedStep(w, cs[0]);
      StepKeepsInv(w, cs[0]);
      ClosedKeepsVerdict(Apply(w, cs[0]), cs[1..], w');
    }
  }

  // ---- Reached ----

  /** A fresh publication, sent and refused. */
  lemma {:induction false} RejectedReached() returns (cs: seq<Commit>, w: World)
    ensures Run(START, cs, w) && AllSafe(cs)
    ensures w.rows.verdicts == Verdicts(Rejected, Matched, Required) && w.rows.item.status == DEAD_LETTER
    ensures w.rows.item.payload.Some?
  {
    FreshInv("body", "digest", OURS, 0);
    cs, w := RejectedFrom(START);
  }

  lemma {:induction false} RejectedFrom(w0: World) returns (cs: seq<Commit>, w: World)
    requires Inv(w0) && Untouched(w0)
    ensures Run(w0, cs, w) && AllSafe(cs)
    ensures w.rows.verdicts == Verdicts(Rejected, Matched, Required) && w.rows.item.status == DEAD_LETTER
    ensures w.rows.item.payload.Some?
  {
    hide Inv, Apply;
    var sending, sent := FirstSend(w0, "t1", "a1");
    RunKeepsInv(w0, sending, sent);
    var c := Answer("r1", Receipt("a1", None, sent.rows.expected, ReceiptRejected, 2, false));
    RefusalRecorded(sent, c);
    RunThen(w0, sending, sent, c);
    cs, w := sending + [c], Apply(sent, c);
  }
}
