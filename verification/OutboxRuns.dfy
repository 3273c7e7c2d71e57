/** Runs of the outbox protocol, and what every one of them keeps. */
module OutboxRuns {
  import opened Options
  import opened OutboxProtocol

  ghost predicate Run(w: World, cs: seq<Commit>, w': World)
    decreases |cs|
  {
    if cs == [] then w' == w else Allowed(w, cs[0]) && Run(Apply(w, cs[0]), cs[1..], w')
  }

  predicate AllSafe(cs: seq<Commit>) { forall c | c in cs :: Safe(c) }

  lemma {:induction false} RunKeepsInv(w: World, cs: seq<Commit>, w': World)
    requires Inv(w) && Run(w, cs, w') && AllSafe(cs)
    ensures Inv(w')
    decreases |cs|
  {
    if cs != [] {
      StepKeepsInv(w, cs[0]);
      RunKeepsInv(Apply(w, cs[0]), cs[1..], w');
    }
  }

  lemma {:induction false} RunThen(w: World, cs: seq<Commit>, u: World, c: Commit)
    requires Run(w, cs, u) && Allowed(u, c)
    ensures Run(w, cs + [c], Apply(u, c))
    decreases |cs|
  {
    var x := Apply(u, c);
    if cs == [] {
      assert [c][1..] == [] && Run(x, [], x);
      assert cs + [c] == [c];
    } else {
      RunThen(Apply(w, cs[0]), cs[1..], u, c);
      assert (cs + [c])[1..] == cs[1..] + [c];
    }
  }

  lemma {:induction false} RunJoin(w: World, cs: seq<Commit>, u: World, ds: seq<Commit>, x: World)
    requires Run(w, cs, u) && Run(u, ds, x)
    ensures Run(w, cs + ds, x)
    decreases |ds|
  {
    if ds == [] {
      assert cs + ds == cs;
    } else {
      RunThen(w, cs, u, ds[0]);
      RunJoin(w, cs + [ds[0]], Apply(u, ds[0]), ds[1..], x);
      assert cs + [ds[0]] + ds[1..] == cs + ds;
    }
  }

  // ---- Which runs keep the invariant ----

  /** Every write keeps the invariant, the bare retry exactly when no attempt could still be answered. */
  lemma StepExactly(w: World, c: Commit)
    requires Inv(w) && Allowed(w, c)
    ensures Inv(Apply(w, c)) <==> (c.RawRetry? ==> NoneLive(w))
  {
    if c.RawRetry? {
      var u := Apply(w, c);
      assert forall id :: Live(u, id) <==> Live(w, id);
      if NoneLive(w) {
        NotSettledWhileOwned(w, c.token);
        ItemMoveKeeps(w, u.rows.item);
      }
    } else {
      StepKeepsInv(w, c);
    }
  }

  ghost predicate NoneLive(w: World) { forall id :: !Live(w, id) }

  lemma NotSettledWhileOwned(w: World, token: Token)
    requires Inv(w) && OwnedBy(w.rows.item, token)
    ensures w.rows.verdicts.remediation != Closed && w.rows.verdicts.remediation != Resolved
    ensures w.rows.verdicts.registration != Rejected
  {
  }

  ghost predicate SoundThroughout(w: World, cs: seq<Commit>)
    decreases |cs|
  {
    Inv(w) && (cs != [] ==> Allowed(w, cs[0]) && SoundThroughout(Apply(w, cs[0]), cs[1..]))
  }

  /** Bare retries, if any, happen only while nothing could be answered. */
  ghost predicate QuietRetries(w: World, cs: seq<Commit>)
    decreases |cs|
  {
    cs != [] ==> Allowed(w, cs[0]) && (cs[0].RawRetry? ==> NoneLive(w)) && QuietRetries(Apply(w, cs[0]), cs[1..])
  }

  /** Over all runs, bare retries included: every state is sound exactly when every bare retry was quiet. */
  lemma {:induction false} SoundExactly(w: World, cs: seq<Commit>, w': World)
    requires Inv(w) && Run(w, cs, w')
    ensures SoundThroughout(w, cs) <==> QuietRetries(w, cs)
    decreases |cs|
  {
    if cs != [] {
      StepExactly(w, cs[0]);
      if Inv(Apply(w, cs[0])) {
        SoundExactly(Apply(w, cs[0]), cs[1..], w');
      }
    }
  }

  // ---- In every reachable state ----

  /** A lock token exactly while processing; attempt numbers distinct and within the claim count; at most one
      attempt awaiting an answer, that of the present claim; the payload gone exactly when the publication is
      accepted and matched; never more than one matching acceptance. */
  lemma ReachableStates(payload: Capsule, payloadHash: Hash, expected: Identity, availableAt: Instant, cs: seq<Commit>,
      w: World)
    requires Run(Fresh(payload, payloadHash, expected, availableAt), cs, w) && AllSafe(cs)
    ensures w.rows.item.lockToken.Some? <==> w.rows.item.status == PROCESSING
    ensures forall x | x in w.rows.attempts :: 1 <= w.rows.attempts[x].number <= w.rows.item.attemptCount
    ensures forall x, y | x in w.rows.attempts && y in w.rows.attempts && x != y ::
              w.rows.attempts[x].number != w.rows.attempts[y].number
    ensures forall x | x in w.rows.attempts && w.rows.attempts[x].status == DISPATCHED ::
              w.rows.attempts[x].number == w.rows.item.attemptCount
    ensures w.rows.item.payload.None? <==>
              w.rows.verdicts.registration == Accepted && w.rows.verdicts.reconciliation == Matched
    ensures |MatchingAcceptances(w.rows)| <= 1
    ensures w.rows.item.payloadHash == payloadHash && w.rows.item.payload in {Some(payload), None}
  {
    var w0 := Fresh(payload, payloadHash, expected, availableAt);
    FreshInv(payload, payloadHash, expected, availableAt);
    RunKeepsInv(w0, cs, w);
    RunKeepsHistory(w0, cs, w);
    forall x | x in w.rows.attempts && w.rows.attempts[x].status == DISPATCHED
      ensures Live(w, x)
    {
    }
    if w.rows.verdicts.registration == Accepted {
      var r :| MatchingAcceptances(w.rows) == {r};
      assert |{r}| == 1;
    }
  }

  /** The row contracts checked on every read, the acceptance slot and the one-receipt-per-attempt index are never
      what refuses. */
  lemma ContractsHold(w: World)
    requires Inv(w)
    ensures w.rows.item.payload.None? ==> w.rows.item.status == COMPLETED
    ensures w.rows.item.leaseExpiresAt.Some? <==> w.rows.item.status == PROCESSING
    ensures w.rows.verdicts.remediation == Required ==>
              w.rows.verdicts.registration == Rejected || w.rows.verdicts.reconciliation == Mismatch
    ensures w.rows.verdicts.remediation == Required ==>
              w.rows.item.payload.Some? && w.rows.verdicts.registration != Accepted
    ensures forall id | id in w.rows.attempts && w.rows.attempts[id].status == DISPATCHED ::
              MatchingAcceptances(w.rows) == {} && forall r | r in w.rows.receipts :: w.rows.receipts[r].attemptId != id
  {
    forall id | id in w.rows.attempts && w.rows.attempts[id].status == DISPATCHED
      ensures w.rows.verdicts.registration != Accepted
    {
      assert Live(w, id);
    }
  }

  // ---- Stale callers change nothing ----

  /** The token of an earlier claim authorizes no write, and nothing is sent or answered for that claim's attempt. */
  lemma StaleClaimIsPowerless(w: World, n: nat, c: Commit)
    requires Inv(w) && 1 <= n < |w.claims| && Allowed(w, c)
    ensures (c.RawRetry? || c.RunRetry? || c.Complete? || c.DeadLetter? || c.Clear?) ==> c.token != w.claims[n - 1]
    ensures c.Dispatch? ==> w.rows.attempts[c.id].number != n
    ensures c.Answer? ==> w.rows.attempts[c.receipt.attemptId].number != n
  {
    assert c.Dispatch? ==> Live(w, c.id);
    assert c.Answer? ==> Live(w, c.receipt.attemptId);
  }

  // ---- Settled publications stay settled ----

  predicate Settled(w: World) {
    w.rows.verdicts.registration == Accepted || w.rows.verdicts.remediation == Closed
  }

  lemma SettledStep(w: World, c: Commit)
    requires Inv(w) && Allowed(w, c) && Settled(w)
    ensures Apply(w, c).rows.item == w.rows.item && Apply(w, c).rows.verdicts == w.rows.verdicts
    ensures Apply(w, c).rows.receipts == w.rows.receipts && Apply(w, c).rows.remediations == w.rows.remediations
  {
    if c.Answer? {
      assert Live(w, c.receipt.attemptId);
    }
  }

  /** Acceptance and closure are absorbing: no later write moves the item, the verdicts, the receipts or the
      decisions. */
  lemma {:induction false} SettledForever(w: World, cs: seq<Commit>, w': World)
    requires Inv(w) && Settled(w) && Run(w, cs, w') && AllSafe(cs)
    ensures w'.rows.item == w.rows.item && w'.rows.verdicts == w.rows.verdicts
    ensures w'.rows.receipts == w.rows.receipts && w'.rows.remediations == w.rows.remediations
    decreases |cs|
  {
    if cs != [] {
      SettledStep(w, cs[0]);
      StepKeepsInv(w, cs[0]);
      SettledForever(Apply(w, cs[0]), cs[1..], w');
    }
  }

  // ---- Evidence is immutable ----

  predicate LaterStatus(s: AttemptStatus, t: AttemptStatus) {
    s == t || s == PREPARED || (s == DISPATCHED && t != PREPARED)
  }

  /** Number, claim, expectation, hash and times stay; only the status moves, and a send keeps its time. */
  predicate Forward(a: Attempt, b: Attempt) {
    && b == a.(status := b.status, dispatchedAt := b.dispatchedAt)
    && LaterStatus(a.status, b.status)
    && (a.status != PREPARED ==> b.dispatchedAt == a.dispatchedAt)
  }

  /** Hashes and expectations fixed, receipts and decisions kept, attempts only moving forward. */
  ghost predicate Extends(w: World, u: World) {
    && u.rows.item.payloadHash == w.rows.item.payloadHash
    && u.rows.item.payload in {w.rows.item.payload, None}
    && u.rows.expected == w.rows.expected
    && w.claims <= u.claims
    && (forall r | r in w.rows.receipts :: r in u.rows.receipts && u.rows.receipts[r] == w.rows.receipts[r])
    && (forall r | r in w.rows.remediations ::
        r in u.rows.remediations && u.rows.remediations[r] == w.rows.remediations[r])
    && (forall id | id in w.rows.attempts ::
         && id in u.rows.attempts
         && Forward(w.rows.attempts[id], u.rows.attempts[id]))
  }

  lemma StepMovesForward(w: World, c: Commit, id: AttemptId)
    requires Allowed(w, c) && id in w.rows.attempts
    ensures id in Apply(w, c).rows.attempts && Forward(w.rows.attempts[id], Apply(w, c).rows.attempts[id])
  {
  }

  lemma StepKeepsRecords(w: World, c: Commit)
    requires Allowed(w, c)
    ensures var u := Apply(w, c);
            && u.rows.item.payloadHash == w.rows.item.payloadHash && u.rows.item.payload in {w.rows.item.payload, None}
            && u.rows.expected == w.rows.expected && w.claims <= u.claims
            && (forall r | r in w.rows.receipts :: r in u.rows.receipts && u.rows.receipts[r] == w.rows.receipts[r])
            && (forall r | r in w.rows.remediations ::
                r in u.rows.remediations && u.rows.remediations[r] == w.rows.remediations[r])
  {
  }

  lemma StepExtends(w: World, c: Commit)
    requires Allowed(w, c)
    ensures Extends(w, Apply(w, c))
  {
    hide Apply, Allowed;
    StepKeepsRecords(w, c);
    forall id | id in w.rows.attempts
      ensures id in Apply(w, c).rows.attempts && Forward(w.rows.attempts[id], Apply(w, c).rows.attempts[id])
    {
      StepMovesForward(w, c, id);
    }
  }

  lemma ExtendsTransitive(w: World, u: World, x: World)
    requires Extends(w, u) && Extends(u, x)
    ensures Extends(w, x)
  {
  }

  /** Over any run whatever, unsafe writes included. */
  lemma {:induction false} RunKeepsHistory(w: World, cs: seq<Commit>, w': World)
    requires Run(w, cs, w')
    ensures Extends(w, w')
    decreases |cs|
  {
    if cs != [] {
      StepExtends(w, cs[0]);
      RunKeepsHistory(Apply(w, cs[0]), cs[1..], w');
      ExtendsTransitive(w, Apply(w, cs[0]), w');
    }
  }
}
