/** Open attempts: when there is at most one, what a late one can do, and why a send is not repeated. */
module OutboxAttempts {
  import opened Options
  import opened OutboxProtocol
  import opened OutboxRuns
  import opened OutboxSending

  // ---- One open attempt ----

  /** An item in these states is held by the latest claim or at rest after it. */
  predicate Held(s: OutboxStatus) { s in {PROCESSING, COMPLETED, DEAD_LETTER} }

  /** Every open attempt is the latest claim's, of an item no one can claim. */
  ghost predicate OpenInv(w: World) {
    forall id | id in w.rows.attempts && Open(w.rows.attempts[id].status) ::
      w.rows.attempts[id].number == |w.claims| && Held(w.rows.item.status)
  }

  /** An insert that lands while its claim is still the latest and has not been given up. */
  predicate Timely(w: World, c: Commit) {
    c.Prepare? ==> c.number == |w.claims| && Held(w.rows.item.status)
  }

  /** A write keeps it exactly when it is not an insert that comes too late. */
  lemma OpenStepExactly(w: World, c: Commit)
    requires Inv(w) && OpenInv(w) && Allowed(w, c) && Safe(c)
    ensures OpenInv(Apply(w, c)) <==> Timely(w, c)
  {
    match c
    case Prepare(id, _, _, _) => InsertExactly(w, c);
    case RunRetry(token, _) => RunRetryKeepsOpen(w, c);
    case _ => OthersKeepOpen(w, c);
  }

  lemma InsertExactly(w: World, c: Commit)
    requires OpenInv(w) && c.Prepare? && Allowed(w, c)
    ensures OpenInv(Apply(w, c)) <==> Timely(w, c)
  {
    var u := Apply(w, c);
    assert c.id in u.rows.attempts && Open(u.rows.attempts[c.id].status);
    assert forall id | id in u.rows.attempts && id != c.id ::
        id in w.rows.attempts && u.rows.attempts[id] == w.rows.attempts[id];
  }

  lemma RunRetryKeepsOpen(w: World, c: Commit)
    requires Inv(w) && OpenInv(w) && c.RunRetry? && Allowed(w, c)
    ensures OpenInv(Apply(w, c))
  {
    hide ReceiptInv, VerdictInv, LiveInv;
    var id :| id in w.rows.attempts && w.rows.attempts[id].claim == Bound(c.token)
        && w.rows.attempts[id].status == ABANDONED;
    LatestClaim(w, id, c.token);
  }

  lemma OthersKeepOpen(w: World, c: Commit)
    requires Inv(w) && OpenInv(w) && Safe(c) && Allowed(w, c) && !c.Prepare? && !c.RunRetry?
    ensures OpenInv(Apply(w, c))
  {
    hide ReceiptInv, VerdictInv, AttemptInv;
    var u := Apply(w, c);
    forall id | id in u.rows.attempts && Open(u.rows.attempts[id].status)
      ensures id in w.rows.attempts && Open(w.rows.attempts[id].status)
      ensures u.rows.attempts[id].number == w.rows.attempts[id].number
    {
    }
  }

  ghost predicate OpenThroughout(w: World, cs: seq<Commit>)
    decreases |cs|
  {
    OpenInv(w) && (cs != [] ==> Allowed(w, cs[0]) && OpenThroughout(Apply(w, cs[0]), cs[1..]))
  }

  ghost predicate AllTimely(w: World, cs: seq<Commit>)
    decreases |cs|
  {
    cs != [] ==> Allowed(w, cs[0]) && Timely(w, cs[0]) && AllTimely(Apply(w, cs[0]), cs[1..])
  }

  /** Over every safe run: the latest claim owns every open attempt at every moment exactly when no insert came too
      late. */
  lemma {:induction false} OneOpenExactly(w: World, cs: seq<Commit>, w': World)
    requires Inv(w) && OpenInv(w) && Run(w, cs, w') && AllSafe(cs)
    ensures OpenThroughout(w, cs) <==> AllTimely(w, cs)
    decreases |cs|
  {
    if cs != [] {
      OpenStepExactly(w, cs[0]);
      StepKeepsInv(w, cs[0]);
      if Timely(w, cs[0]) {
        OneOpenExactly(Apply(w, cs[0]), cs[1..], w');
      }
    }
  }

  /** Without late inserts, at most one attempt is open, the latest claim's. */
  lemma {:induction false} OneOpenAttempt(w: World, cs: seq<Commit>, w': World, x: AttemptId, y: AttemptId)
    requires Inv(w) && OpenInv(w) && Run(w, cs, w') && AllSafe(cs) && AllTimely(w, cs)
    requires x in w'.rows.attempts && y in w'.rows.attempts
    requires Open(w'.rows.attempts[x].status) && Open(w'.rows.attempts[y].status)
    ensures x == y && w'.rows.attempts[x].number == w'.rows.item.attemptCount
    decreases |cs|
  {
    if cs != [] {
      OpenStepExactly(w, cs[0]);
      StepKeepsInv(w, cs[0]);
      OneOpenAttempt(Apply(w, cs[0]), cs[1..], w', x, y);
    }
  }

  const TWO_CLAIMS: seq<Commit> :=
    [Claim(0, 10, "t1"), Recover(10, 10), Claim(10, 20, "t2"), Prepare("a1", 1, "t1", 0), Prepare("a2", 2, "t2", 10)]

  /** With one, two attempts are open: the first caller read its claim, lost it to recovery and a second claim, and
      inserted all the same. */
  lemma {:induction false} TwoOpen() returns (w: World)
    ensures Run(START, TWO_CLAIMS, w) && AllSafe(TWO_CLAIMS)
    ensures w.rows.attempts.Keys == {"a1", "a2"}
              && w.rows.attempts["a1"].status == w.rows.attempts["a2"].status == PREPARED
    ensures w.rows.attempts["a1"].number == 1 && w.rows.attempts["a2"].number == 2 == w.rows.item.attemptCount
  {
    var cs := TWO_CLAIMS;
    w := TwoInserts(START, cs, "t1", "t2", "a1", "a2");
  }

  lemma {:induction false} TwoInserts(w0: World, cs: seq<Commit>, s: Token, t: Token, x: AttemptId, y: AttemptId)
    returns (w: World)
    requires Untouched(w0) && s != t && x != y
    requires cs == [Claim(0, 10, s), Recover(10, 10), Claim(10, 20, t), Prepare(x, 1, s, 0), Prepare(y, 2, t, 10)]
    ensures Run(w0, cs, w) && w.rows.attempts.Keys == {x, y} && w.rows.item.attemptCount == 2
    ensures w.rows.attempts[x].status == w.rows.attempts[y].status == PREPARED
    ensures w.rows.attempts[x].number == 1 && w.rows.attempts[y].number == 2
  {
    var w3 := Reclaimed(w0, cs[..3], s, t);
    RunThen(w0, cs[..3], w3, cs[3]);
    var w4 := Apply(w3, cs[3]);
    RunThen(w0, cs[..3] + [cs[3]], w4, cs[4]);
    w := Apply(w4, cs[4]);
    assert cs[..3] + [cs[3]] + [cs[4]] == cs;
  }

  /** A claim recovered on expiry and taken again. */
  lemma {:induction false} Reclaimed(w0: World, cs: seq<Commit>, s: Token, t: Token) returns (w: World)
    requires Untouched(w0) && s != t
    requires cs == [Claim(0, 10, s), Recover(10, 10), Claim(10, 20, t)]
    ensures Run(w0, cs, w) && w.claims == [s, t] && w.rows.attempts == map[] && w.rows.item.attemptCount == 2
  {
    var w1 := Apply(w0, cs[0]);
    RunThen(w0, [], w0, cs[0]);
    var w2 := Apply(w1, cs[1]);
    assert w2.rows.attempts == map[];
    RunThen(w0, [] + [cs[0]], w1, cs[1]);
    w := Apply(w2, cs[2]);
    RunThen(w0, [] + [cs[0]] + [cs[1]], w2, cs[2]);
    assert [] + [cs[0]] + [cs[1]] + [cs[2]] == cs;
  }

  // ---- Late attempts ----

  /** Neither answerable nor able to become so: its claim is gone, or it is finished. */
  predicate Late(w: World, id: AttemptId) {
    && id in w.rows.attempts && !Live(w, id)
    && !(w.rows.attempts[id].status == PREPARED && w.rows.item.status == PROCESSING
        && w.rows.attempts[id].number == |w.claims|)
  }

  /** An insert is late exactly when its claim is not the one that holds the item now. */
  lemma InsertLateExactly(w: World, c: Commit)
    requires Inv(w) && c.Prepare? && Allowed(w, c)
    ensures Late(Apply(w, c), c.id) <==> !(w.rows.item.status == PROCESSING && c.number == |w.claims|)
  {
    assert c.id !in w.cleared;
  }

  lemma NotForLate(w: World, c: Commit, id: AttemptId)
    requires Inv(w) && Late(w, id) && Allowed(w, c)
    ensures !((c.Clear? || c.Dispatch?) && c.id == id) && !(c.Answer? && c.receipt.attemptId == id)
  {
    if w.rows.item.status == PROCESSING && w.rows.attempts[id].claim == Bound(w.rows.item.lockToken.value) {
      LatestClaim(w, id, w.rows.item.lockToken.value);
    }
  }

  lemma LateStep(w: World, c: Commit, id: AttemptId)
    requires Inv(w) && Late(w, id) && Allowed(w, c) && Safe(c)
    ensures Late(Apply(w, c), id)
    ensures Apply(w, c).rows.attempts[id].status in {w.rows.attempts[id].status, ABANDONED}
  {
    hide Inv;
    NotForLate(w, c, id);
    NumberWithinClaims(w, id);
  }

  lemma NumberWithinClaims(w: World, id: AttemptId)
    requires Inv(w) && id in w.rows.attempts
    ensures w.rows.attempts[id].number <= |w.claims|
  {
  }

  /** Over every later run it is never sent and never answered; at most it is abandoned. */
  lemma {:induction false} LateForever(w: World, cs: seq<Commit>, w': World, id: AttemptId)
    requires Inv(w) && Late(w, id) && Run(w, cs, w') && AllSafe(cs)
    ensures Late(w', id) && w'.rows.attempts[id].status in {w.rows.attempts[id].status, ABANDONED}
    ensures forall c | c in cs :: !(c.Dispatch? && c.id == id) && !(c.Answer? && c.receipt.attemptId == id)
    decreases |cs|
  {
    if cs != [] {
      NotForLate(w, cs[0], id);
      LateStep(w, cs[0], id);
      StepKeepsInv(w, cs[0]);
      LateForever(Apply(w, cs[0]), cs[1..], w', id);
      forall c | c in cs ensures !(c.Dispatch? && c.id == id) && !(c.Answer? && c.receipt.attemptId == id) {
        assert c == cs[0] || c in cs[1..];
      }
    }
  }

  // ---- A send is not repeated while its lease lives ----

  /** Anything but: the claim's owner giving it up, a receipt that names this publication, a governed decision, or
      recovery once the lease is over. */
  predicate Bystander(c: Commit, lease: Instant, expected: Identity) {
    match c
    case Recover(now, _) => now < lease
    case Answer(_, receipt) => receipt.reported != expected
    case Claim(_, _, _) => true
    case Cancel => true
    case Prepare(_, _, _, _) => true
    case Clear(_, _) => true
    case Dispatch(_, _) => true
    case Abandon(_) => true
    case _ => false
  }

  /** The present claim's attempt was prepared and has left that state: sent, answered or abandoned. */
  ghost predicate Outstanding(w: World, id: AttemptId, item: Item) {
    && Inv(w) && w.rows.item == item && item.status == PROCESSING
    && id in w.rows.attempts && w.rows.attempts[id].number == |w.claims| && w.rows.attempts[id].status != PREPARED
  }

  lemma NoSecondSend(w: World, c: Commit, id: AttemptId)
    requires Outstanding(w, id, w.rows.item) && Allowed(w, c)
    ensures !c.Claim? && !c.Dispatch?
  {
    forall x | x in w.cleared && x in w.rows.attempts ensures w.rows.attempts[x].status != PREPARED {
      assert w.rows.attempts[x].status == PREPARED ==> Live(w, x);
    }
  }

  lemma OutstandingStep(w: World, c: Commit, id: AttemptId)
    requires Outstanding(w, id, w.rows.item) && Allowed(w, c)
    requires Bystander(c, w.rows.item.leaseExpiresAt.value, w.rows.expected)
    ensures Outstanding(Apply(w, c), id, w.rows.item) && Apply(w, c).rows.expected == w.rows.expected
    ensures !c.Claim? && !c.Dispatch?
  {
    hide Inv;
    NoSecondSend(w, c, id);
    StepKeepsInv(w, c);
    StepMovesForward(w, c, id);
    SameExpectation(w);
  }

  lemma SameExpectation(w: World)
    requires Inv(w)
    ensures forall id | id in w.rows.attempts :: w.rows.attempts[id].expected == w.rows.expected
  {
  }

  /** Once sent under a claim, nothing is claimed and nothing is sent again until the owner gives the claim up, a
      matching receipt or a decision comes, or the lease is over, whoever else abandons, misreports or interferes. */
  lemma {:induction false} NoResendWhileLeased(w: World, cs: seq<Commit>, w': World, id: AttemptId)
    requires Outstanding(w, id, w.rows.item) && Run(w, cs, w')
    requires forall c | c in cs :: Bystander(c, w.rows.item.leaseExpiresAt.value, w.rows.expected)
    ensures Outstanding(w', id, w.rows.item)
    ensures forall c | c in cs :: !c.Claim? && !c.Dispatch?
    decreases |cs|
  {
    if cs != [] {
      var u := Apply(w, cs[0]);
      OutstandingStep(w, cs[0], id);
      NoResendWhileLeased(u, cs[1..], w', id);
      forall c | c in cs ensures !c.Claim? && !c.Dispatch? {
        assert c == cs[0] || c in cs[1..];
      }
    }
  }
}
