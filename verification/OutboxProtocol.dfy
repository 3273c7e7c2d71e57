/** The publication outbox protocol as the database sees it: one publication, its work item, its
    submission attempts, Registrar receipts and remediation decisions. Every service call is a read
    followed by one guarded write; here only the writes are steps, so what callers read beforehand may be
    stale. `cleared` holds the dispatch calls that have checked their claim and not yet written. */
module OutboxProtocol {
  import opened Options

  type Instant = int
  type Token = string
  type AttemptId = string
  type ReceiptId = string
  type RemediationId = string
  type Hash = string
  type Capsule = string

  // ---- Rows ----

  datatype OutboxStatus = PENDING | PROCESSING | RETRYABLE | COMPLETED | DEAD_LETTER | CANCELLED
  datatype RegistrationState = NotSubmitted | RegistrationPending | Accepted | Rejected
  datatype ReconciliationState = NoReceipt | ReconciliationPending | Matched | Mismatch
  datatype RemediationState = NotRequired | Required | RetryAuthorized | Closed | Resolved

  datatype Item = Item(
    status: OutboxStatus,
    lockToken: Option<Token>,
    lockedAt: Option<Instant>,
    leaseExpiresAt: Option<Instant>,
    attemptCount: nat,
    availableAt: Instant,
    payload: Option<Capsule>,
    payloadHash: Hash)

  datatype Verdicts = Verdicts(
    registration: RegistrationState,
    reconciliation: ReconciliationState,
    remediation: RemediationState)

  /** What a receipt must agree with, or what it reports. */
  datatype Identity = Identity(registrarId: string, nodeId: string, capsuleId: string, contentHash: Hash)

  datatype AttemptStatus = PREPARED | DISPATCHED | RECEIPT_RECORDED | ABANDONED

  /** The claim's token is stored as a one-way hash; `Bound` stands for a collision-free one. */
  datatype TokenHash = Bound(token: Token)

  datatype Attempt = Attempt(
    number: nat,
    claim: TokenHash,
    expected: Identity,
    payloadHash: Hash,
    status: AttemptStatus,
    preparedAt: Instant,
    dispatchedAt: Option<Instant>)

  datatype ReceiptStatus = ReceiptAccepted | ReceiptRejected

  datatype Receipt = Receipt(
    attemptId: AttemptId,
    registrationId: Option<string>,
    reported: Identity,
    status: ReceiptStatus,
    registeredAt: Instant,
    matchingAcceptance: bool)

  datatype Action = Retry(availableAt: Instant) | Close

  datatype Decision = Decision(action: Action, reason: string, decidedBy: string, decidedAt: Instant)

  /** A decision together with the states it was taken against. */
  datatype Remediation = Remediation(decision: Decision, prior: Verdicts, priorStatus: OutboxStatus)

  datatype Rows = Rows(
    item: Item,
    verdicts: Verdicts,
    expected: Identity,
    attempts: map<AttemptId, Attempt>,
    receipts: map<ReceiptId, Receipt>,
    remediations: map<RemediationId, Remediation>)

  /** Rows plus history: the token of every claim so far, and the dispatch calls under way. */
  datatype World = World(rows: Rows, claims: seq<Token>, cleared: set<AttemptId>)

  predicate Claimable(s: OutboxStatus) { s == PENDING || s == RETRYABLE }

  predicate Open(s: AttemptStatus) { s == PREPARED || s == DISPATCHED }

  function Fresh(payload: Capsule, payloadHash: Hash, expected: Identity, availableAt: Instant): World {
    World(
      Rows(Item(PENDING, None, None, None, 0, availableAt, Some(payload), payloadHash),
           Verdicts(NotSubmitted, NoReceipt, NotRequired), expected, map[], map[], map[]),
      [], {})
  }

  // ---- The writes ----

  datatype Commit =
    | Claim(now: Instant, leaseExpiresAt: Instant, token: Token)
    | RawRetry(token: Token, availableAt: Instant)
    | RunRetry(token: Token, availableAt: Instant)
    | Complete(token: Token)
    | DeadLetter(token: Token)
    | Cancel
    | Recover(now: Instant, availableAt: Instant)
    | Prepare(id: AttemptId, number: nat, token: Token, preparedAt: Instant)
    | Clear(id: AttemptId, token: Token)
    | Dispatch(id: AttemptId, at: Instant)
    | Abandon(id: AttemptId)
    | Answer(receiptId: ReceiptId, receipt: Receipt)
    | Remediate(remediationId: RemediationId, decision: Decision)

  /** Leaving `PROCESSING` always releases the claim. */
  function Released(item: Item, status: OutboxStatus): Item {
    item.(status := status, lockToken := None, lockedAt := None, leaseExpiresAt := None)
  }

  function Abandoned(a: Attempt): Attempt {
    if Open(a.status) then a.(status := ABANDONED) else a
  }

  function AbandonAll(attempts: map<AttemptId, Attempt>): map<AttemptId, Attempt> {
    map id | id in attempts :: Abandoned(attempts[id])
  }

  predicate OwnedBy(item: Item, token: Token) {
    item.status == PROCESSING && item.lockToken == Some(token)
  }

  /** The attempt this token's claim prepared has been abandoned. */
  predicate OwnAttemptAbandoned(rows: Rows, token: Token) {
    exists id | id in rows.attempts :: rows.attempts[id].claim == Bound(token) && rows.attempts[id].status == ABANDONED
  }

  /** What a receipt decides, from its verdict and whether it matches the attempt it answers. */
  function Outcome(status: ReceiptStatus, matched: bool): Verdicts {
    if status.ReceiptAccepted? && matched then Verdicts(Accepted, Matched, Resolved)
    else if status.ReceiptRejected? && matched then Verdicts(Rejected, Matched, Required)
    else Verdicts(RegistrationPending, Mismatch, Required)
  }

  function AnsweredItem(item: Item, status: ReceiptStatus, matched: bool): Item {
    if !matched then item
    else if status.ReceiptAccepted? then Released(item, COMPLETED).(payload := None)
    else Released(item, DEAD_LETTER)
  }

  function DecidedVerdicts(v: Verdicts, action: Action): Verdicts {
    match action
    case Retry(_) => Verdicts(RegistrationPending, ReconciliationPending, RetryAuthorized)
    case Close => v.(remediation := Closed)
  }

  function DecidedItem(item: Item, action: Action): Item {
    match action
    case Retry(at) => Released(item, RETRYABLE).(availableAt := at)
    case Close => Released(item, DEAD_LETTER)
  }

  /** The guard each write re-asserts on the rows it changes. */
  predicate Allowed(w: World, c: Commit) {
    var r := w.rows;
    match c
    case Claim(now, lease, token) =>
      Claimable(r.item.status) && r.item.availableAt <= now && r.item.lockToken.None? && now < lease
          && token !in w.claims
    case RawRetry(token, _) => OwnedBy(r.item, token)
    case RunRetry(token, _) => OwnedBy(r.item, token) && OwnAttemptAbandoned(r, token)
    case Complete(token) => OwnedBy(r.item, token)
    case DeadLetter(token) => OwnedBy(r.item, token)
    case Cancel => Claimable(r.item.status)
    case Recover(now, _) =>
      r.item.status == PROCESSING && r.item.leaseExpiresAt.Some? && r.item.leaseExpiresAt.value <= now
    case Prepare(id, number, token, _) =>
      && id !in r.attempts
      && 1 <= number <= |w.claims| && w.claims[number - 1] == token
      && forall k | k in r.attempts :: r.attempts[k].number != number
    case Clear(id, token) =>
      id in r.attempts && r.attempts[id].status == PREPARED && r.attempts[id].claim == Bound(token)
          && OwnedBy(r.item, token)
    case Dispatch(id, _) => id in w.cleared && id in r.attempts && r.attempts[id].status == PREPARED
    case Abandon(id) => id in r.attempts && Open(r.attempts[id].status)
    case Answer(receiptId, receipt) =>
      && receiptId !in r.receipts
      && receipt.attemptId in r.attempts && r.attempts[receipt.attemptId].status == DISPATCHED
      && receipt.matchingAcceptance ==
           (receipt.status.ReceiptAccepted? && receipt.reported == r.attempts[receipt.attemptId].expected)
    case Remediate(remediationId, _) => remediationId !in r.remediations && r.verdicts.remediation == Required
  }

  function Apply(w: World, c: Commit): World
    requires Allowed(w, c)
  {
    var r := w.rows;
    match c
    case Claim(now, lease, token) =>
      World(r.(item := r.item.(status := PROCESSING, lockToken := Some(token), lockedAt := Some(now),
                               leaseExpiresAt := Some(lease), attemptCount := r.item.attemptCount + 1)),
            w.claims + [token], w.cleared)
    case RawRetry(_, at) => w.(rows := r.(item := Released(r.item, RETRYABLE).(availableAt := at)))
    case RunRetry(_, at) => w.(rows := r.(item := Released(r.item, RETRYABLE).(availableAt := at)))
    case Complete(_) => w.(rows := r.(item := Released(r.item, COMPLETED)))
    case DeadLetter(_) => w.(rows := r.(item := Released(r.item, DEAD_LETTER)))
    case Cancel => w.(rows := r.(item := Released(r.item, CANCELLED)))
    case Recover(_, at) =>
      w.(rows := r.(item := Released(r.item, RETRYABLE).(availableAt := at), attempts := AbandonAll(r.attempts)))
    case Prepare(id, number, token, at) =>
      w.(rows := r.(attempts :=
          r.attempts[id := Attempt(number, Bound(token), r.expected, r.item.payloadHash, PREPARED, at, None)]))
    case Clear(id, _) => w.(cleared := w.cleared + {id})
    case Dispatch(id, at) =>
      w.(rows := r.(attempts := r.attempts[id := r.attempts[id].(status := DISPATCHED, dispatchedAt := Some(at))]))
    case Abandon(id) =>
      w.(rows := r.(attempts := r.attempts[id := r.attempts[id].(status := ABANDONED)]))
    case Answer(receiptId, receipt) =>
      var a := r.attempts[receipt.attemptId];
      var matched := receipt.reported == a.expected;
      w.(rows := r.(item := AnsweredItem(r.item, receipt.status, matched),
                    verdicts := Outcome(receipt.status, matched),
                    attempts := r.attempts[receipt.attemptId := a.(status := RECEIPT_RECORDED)],
                    receipts := r.receipts[receiptId := receipt]))
    case Remediate(remediationId, d) =>
      w.(rows := r.(item := DecidedItem(r.item, d.action),
                    verdicts := DecidedVerdicts(r.verdicts, d.action),
                    attempts := AbandonAll(r.attempts),
                    remediations := r.remediations[remediationId := Remediation(d, r.verdicts, r.item.status)]))
  }

  // ---- The invariant ----

  /** Can still be answered: sent, or about to be recorded as sent. */
  predicate Live(w: World, id: AttemptId) {
    && id in w.rows.attempts
    && var s := w.rows.attempts[id].status;
       s == DISPATCHED || (s == PREPARED && id in w.cleared)
  }

  ghost predicate ClaimInv(w: World) {
    var item := w.rows.item;
    && item.attemptCount == |w.claims|
    && (item.status == PROCESSING <==> item.lockToken.Some?)
    && (item.status == PROCESSING <==> item.leaseExpiresAt.Some?)
    && (item.lockToken.Some? ==> w.claims != [] && item.lockToken.value == w.claims[|w.claims| - 1])
    && (forall i, j | 0 <= i < j < |w.claims| :: w.claims[i] != w.claims[j])
  }

  ghost predicate AttemptInv(w: World) {
    var attempts := w.rows.attempts;
    && w.cleared <= attempts.Keys
    && (forall id | id in attempts :: ProperAttempt(w, attempts[id]))
    && NumbersDistinct(attempts)
  }

  /** Bound to one of the claims so far, and to what the publication expects. */
  predicate ProperAttempt(w: World, a: Attempt) {
    && 1 <= a.number <= |w.claims| && a.claim == Bound(w.claims[a.number - 1])
    && a.expected == w.rows.expected && a.payloadHash == w.rows.item.payloadHash
  }

  ghost predicate NumbersDistinct(m: map<AttemptId, Attempt>) {
    forall x, y | x in m && y in m && m[x].number == m[y].number :: x == y
  }

  /** A live attempt belongs to the latest claim, of an item that cannot be claimed, of an unsettled publication. */
  ghost predicate LiveInv(w: World) {
    forall id | Live(w, id) ::
      && w.rows.attempts[id].number == |w.claims|
      && w.rows.item.status in {PROCESSING, COMPLETED, DEAD_LETTER}
      && w.rows.verdicts.remediation != Resolved && w.rows.verdicts.remediation != Closed
      && w.rows.verdicts.registration != Rejected
  }

  ghost predicate VerdictInv(w: World) {
    var v, item := w.rows.verdicts, w.rows.item;
    && (v.registration == Accepted <==> v.remediation == Resolved)
    && (v.registration == Accepted <==> item.payload.None?)
    && (v.registration == Accepted ==> v.reconciliation == Matched && item.status == COMPLETED)
    && (v.remediation == Closed || v.registration == Rejected ==> item.status == DEAD_LETTER)
    && (v.remediation == Required ==> v.registration == Rejected || v.reconciliation == Mismatch)
    && (v.reconciliation == Mismatch ==> v.remediation == Required || v.remediation == Closed)
    && (v.remediation == RetryAuthorized ==>
        v.registration == RegistrationPending && v.reconciliation == ReconciliationPending)
  }

  function MatchingAcceptances(rows: Rows): set<ReceiptId> {
    set r | r in rows.receipts && rows.receipts[r].matchingAcceptance
  }

  ghost predicate ReceiptInv(w: World) {
    var rows := w.rows;
    && (forall r | r in rows.receipts ::
         && rows.receipts[r].attemptId in rows.attempts
         && rows.attempts[rows.receipts[r].attemptId].status == RECEIPT_RECORDED)
    && (forall x, y | x in rows.receipts && y in rows.receipts
        && rows.receipts[x].attemptId == rows.receipts[y].attemptId :: x == y)
    && (rows.verdicts.registration == Accepted ==> exists r :: MatchingAcceptances(rows) == {r})
    && (rows.verdicts.registration != Accepted ==> MatchingAcceptances(rows) == {})
  }

  ghost predicate Inv(w: World) {
    ClaimInv(w) && AttemptInv(w) && LiveInv(w) && VerdictInv(w) && ReceiptInv(w)
  }

  lemma FreshInv(payload: Capsule, payloadHash: Hash, expected: Identity, availableAt: Instant)
    ensures Inv(Fresh(payload, payloadHash, expected, availableAt))
  {
    assert MatchingAcceptances(Fresh(payload, payloadHash, expected, availableAt).rows) == {};
  }

  /** A bare repository retry is the one write the protocol does not survive unconditionally. */
  predicate Safe(c: Commit) { !c.RawRetry? }

  lemma OneLive(w: World, x: AttemptId, y: AttemptId)
    requires AttemptInv(w) && LiveInv(w) && Live(w, x) && Live(w, y)
    ensures x == y
  {
  }

  // ---- Every write keeps it ----

  lemma ClaimKeeps(w: World, c: Commit)
    requires Inv(w) && c.Claim? && Allowed(w, c)
    ensures Inv(Apply(w, c))
  {
    var u := Apply(w, c);
    forall i, j | 0 <= i < j < |u.claims|
      ensures u.claims[i] != u.claims[j]
    {
      if j == |w.claims| {
        assert w.claims[i] in w.claims;
      }
    }
    assert forall id :: Live(u, id) <==> Live(w, id);
    assert MatchingAcceptances(u.rows) == MatchingAcceptances(w.rows);
  }

  /** Moving only the item, to a resting status, keeps everything provided no live attempt is left behind claimable. */
  lemma ItemMoveKeeps(w: World, item: Item)
    requires Inv(w)
    requires item.lockToken.None? && item.leaseExpiresAt.None? && item.status != PROCESSING
    requires item.attemptCount == w.rows.item.attemptCount
    requires item.payload == w.rows.item.payload && item.payloadHash == w.rows.item.payloadHash
    requires w.rows.verdicts.remediation != Closed && w.rows.verdicts.remediation != Resolved
    requires w.rows.verdicts.registration != Rejected
    requires item.status !in {COMPLETED, DEAD_LETTER} ==> forall id :: !Live(w, id)
    ensures Inv(w.(rows := w.rows.(item := item)))
  {
    var u := w.(rows := w.rows.(item := item));
    assert forall id :: Live(u, id) <==> Live(w, id);
    assert MatchingAcceptances(u.rows) == MatchingAcceptances(w.rows);
  }

  lemma OwnedItemKeeps(w: World, c: Commit)
    requires Inv(w) && Allowed(w, c) && (c.RunRetry? || c.Complete? || c.DeadLetter? || c.Cancel?)
    ensures Inv(Apply(w, c))
  {
    if c.RunRetry? {
      var id :| id in w.rows.attempts && w.rows.attempts[id].claim == Bound(c.token)
          && w.rows.attempts[id].status == ABANDONED;
      LatestClaim(w, id, c.token);
    }
    ItemMoveKeeps(w, Apply(w, c).rows.item);
  }

  /** Attempts that differ in status only. */
  ghost predicate StatusesMoved(w: World, u: World) {
    && u.claims == w.claims && u.cleared <= u.rows.attempts.Keys
    && u.rows.expected == w.rows.expected && u.rows.item.payloadHash == w.rows.item.payloadHash
    && u.rows.attempts.Keys == w.rows.attempts.Keys
    && forall id | id in w.rows.attempts ::
         u.rows.attempts[id].(status := w.rows.attempts[id].status, dispatchedAt := w.rows.attempts[id].dispatchedAt)
         == w.rows.attempts[id]
  }

  lemma StatusesKeepAttempts(w: World, u: World)
    requires AttemptInv(w) && StatusesMoved(w, u)
    ensures AttemptInv(u)
  {
    forall id | id in u.rows.attempts
      ensures u.rows.attempts[id].number == w.rows.attempts[id].number
      ensures u.rows.attempts[id].claim == w.rows.attempts[id].claim
      ensures u.rows.attempts[id].expected == w.rows.attempts[id].expected
      ensures u.rows.attempts[id].payloadHash == w.rows.attempts[id].payloadHash
    {
      assert id in w.rows.attempts;
    }
  }

  /** Recorded answers stay recorded. */
  lemma StatusesKeepReceipts(w: World, u: World)
    requires ReceiptInv(w) && u.rows.receipts == w.rows.receipts && u.rows.attempts.Keys >= w.rows.attempts.Keys
    requires u.rows.verdicts.registration == w.rows.verdicts.registration
    requires forall id | id in w.rows.attempts && w.rows.attempts[id].status == RECEIPT_RECORDED ::
               u.rows.attempts[id].status == RECEIPT_RECORDED
    ensures ReceiptInv(u)
  {
    assert MatchingAcceptances(u.rows) == MatchingAcceptances(w.rows);
  }

  lemma LatestClaim(w: World, id: AttemptId, token: Token)
    requires ClaimInv(w) && AttemptInv(w) && OwnedBy(w.rows.item, token)
    requires id in w.rows.attempts && w.rows.attempts[id].claim == Bound(token)
    ensures w.rows.attempts[id].number == |w.claims|
    ensures LiveInv(w) && !Live(w, id) ==> forall x :: !Live(w, x)
  {
    var a := w.rows.attempts[id];
    assert w.claims[a.number - 1] == w.claims[|w.claims| - 1];
  }

  ghost function WithAttempts(w: World, attempts: map<AttemptId, Attempt>): World {
    w.(rows := w.rows.(attempts := attempts))
  }

  /** A status change that makes nothing newly live and forgets no answer keeps everything. */
  lemma AttemptMoveKeeps(w: World, u: World)
    requires Inv(w) && u == WithAttempts(w, u.rows.attempts) && StatusesMoved(w, u)
    requires forall id | id in w.rows.attempts && w.rows.attempts[id].status == RECEIPT_RECORDED ::
               u.rows.attempts[id].status == RECEIPT_RECORDED
    requires forall id :: Live(u, id) ==> Live(w, id)
    ensures Inv(u)
  {
    StatusesKeepAttempts(w, u);
    StatusesKeepReceipts(w, u);
    assert LiveInv(u) by {
      forall id | Live(u, id)
        ensures u.rows.attempts[id].number == w.rows.attempts[id].number
      {
        assert id in w.rows.attempts;
      }
    }
  }

  lemma AbandonAllKeeps(w: World)
    requires Inv(w)
    ensures Inv(WithAttempts(w, AbandonAll(w.rows.attempts)))
    ensures forall id :: !Live(WithAttempts(w, AbandonAll(w.rows.attempts)), id)
  {
    AttemptMoveKeeps(w, WithAttempts(w, AbandonAll(w.rows.attempts)));
  }

  lemma RecoverKeeps(w: World, c: Commit)
    requires Inv(w) && c.Recover? && Allowed(w, c)
    ensures Inv(Apply(w, c))
  {
    AbandonAllKeeps(w);
    var u := WithAttempts(w, AbandonAll(w.rows.attempts));
    ItemMoveKeeps(u, Apply(w, c).rows.item);
    assert Apply(w, c) == u.(rows := u.rows.(item := Apply(w, c).rows.item));
  }

  lemma PrepareKeeps(w: World, c: Commit)
    requires Inv(w) && c.Prepare? && Allowed(w, c)
    ensures Inv(Apply(w, c))
  {
    var a := Attempt(c.number, Bound(c.token), w.rows.expected, w.rows.item.payloadHash, PREPARED, c.preparedAt, None);
    NewAttemptKeeps(w, c.id, a);
  }

  lemma NewAttemptKeeps(w: World, id: AttemptId, a: Attempt)
    requires Inv(w) && id !in w.rows.attempts && a.status == PREPARED
    requires 1 <= a.number <= |w.claims| && a.claim == Bound(w.claims[a.number - 1])
    requires a.expected == w.rows.expected && a.payloadHash == w.rows.item.payloadHash
    requires forall k | k in w.rows.attempts :: w.rows.attempts[k].number != a.number
    ensures Inv(WithAttempts(w, w.rows.attempts[id := a]))
  {
    hide ReceiptInv;
    var u := WithAttempts(w, w.rows.attempts[id := a]);
    assert AttemptInv(u) by { NewAttemptAttempts(w, id, a); }
    assert ReceiptInv(u) by { StatusesKeepReceipts(w, u); }
    assert LiveInv(u) by {
      forall x ensures Live(u, x) ==> Live(w, x) && u.rows.attempts[x] == w.rows.attempts[x] {
        assert id !in w.cleared;
      }
    }
  }

  lemma NewAttemptAttempts(w: World, id: AttemptId, a: Attempt)
    requires AttemptInv(w) && id !in w.rows.attempts
    requires 1 <= a.number <= |w.claims| && a.claim == Bound(w.claims[a.number - 1])
    requires a.expected == w.rows.expected && a.payloadHash == w.rows.item.payloadHash
    requires forall k | k in w.rows.attempts :: w.rows.attempts[k].number != a.number
    ensures AttemptInv(WithAttempts(w, w.rows.attempts[id := a]))
  {
    hide AttemptInv;
    OldAttempts(w);
    NumbersStayDistinct(w.rows.attempts, id, a);
    AttemptsSuffice(WithAttempts(w, w.rows.attempts[id := a]));
  }

  /** The attempt invariant, part by part. */
  lemma OldAttempts(w: World)
    requires AttemptInv(w)
    ensures w.cleared <= w.rows.attempts.Keys && NumbersDistinct(w.rows.attempts)
    ensures forall k | k in w.rows.attempts :: ProperAttempt(w, w.rows.attempts[k])
  {
  }

  lemma AttemptsSuffice(w: World)
    requires w.cleared <= w.rows.attempts.Keys && NumbersDistinct(w.rows.attempts)
    requires forall k | k in w.rows.attempts :: ProperAttempt(w, w.rows.attempts[k])
    ensures AttemptInv(w)
  {
  }

  lemma NumbersStayDistinct(m: map<AttemptId, Attempt>, id: AttemptId, a: Attempt)
    requires NumbersDistinct(m) && id !in m && forall k | k in m :: m[k].number != a.number
    ensures NumbersDistinct(m[id := a])
  {
  }

  lemma ClearKeeps(w: World, c: Commit)
    requires Inv(w) && c.Clear? && Allowed(w, c)
    ensures Inv(Apply(w, c))
  {
    var u := w.(cleared := w.cleared + {c.id});
    LatestClaim(w, c.id, c.token);
    assert forall id | id != c.id :: Live(u, id) <==> Live(w, id);
    assert ReceiptInv(u) by { StatusesKeepReceipts(w, u); }
  }

  lemma DispatchKeeps(w: World, c: Commit)
    requires Inv(w) && c.Dispatch? && Allowed(w, c)
    ensures Inv(Apply(w, c))
  {
    assert Live(w, c.id);
    AttemptMoveKeeps(w, Apply(w, c));
  }

  lemma AbandonKeeps(w: World, c: Commit)
    requires Inv(w) && c.Abandon? && Allowed(w, c)
    ensures Inv(Apply(w, c))
  {
    AttemptMoveKeeps(w, Apply(w, c));
  }

  lemma AnswerKeeps(w: World, c: Commit)
    requires Inv(w) && c.Answer? && Allowed(w, c)
    ensures Inv(Apply(w, c))
  {
    hide ClaimInv, VerdictInv, ReceiptInv, Live;
    AnswerLeavesNoneLive(w, c);
    AnswerVerdicts(w, c);
    StatusesKeepAttempts(w, Apply(w, c));
    AnswerReceipts(w, c);
  }

  lemma AnswerLeavesNoneLive(w: World, c: Commit)
    requires Inv(w) && c.Answer? && Allowed(w, c)
    ensures forall x :: !Live(Apply(w, c), x)
  {
    var id := c.receipt.attemptId;
    assert Live(w, id);
    forall x ensures !Live(Apply(w, c), x) {
      assert Live(Apply(w, c), x) ==> Live(w, x) && x != id;
      if Live(w, x) {
        OneLive(w, x, id);
      }
    }
  }

  lemma AnswerVerdicts(w: World, c: Commit)
    requires Inv(w) && c.Answer? && Allowed(w, c)
    ensures ClaimInv(Apply(w, c)) && VerdictInv(Apply(w, c))
  {
    assert Live(w, c.receipt.attemptId);
  }

  lemma AnswerReceipts(w: World, c: Commit)
    requires Inv(w) && c.Answer? && Allowed(w, c)
    ensures ReceiptInv(Apply(w, c))
  {
    var u := Apply(w, c);
    assert Live(w, c.receipt.attemptId);
    assert w.rows.verdicts.registration != Accepted;
    assert MatchingAcceptances(u.rows) == if c.receipt.matchingAcceptance then {c.receiptId} else {} by {
      assert forall r | r in w.rows.receipts :: r in MatchingAcceptances(w.rows) <==>
          w.rows.receipts[r].matchingAcceptance;
    }
  }

  lemma RemediateKeeps(w: World, c: Commit)
    requires Inv(w) && c.Remediate? && Allowed(w, c)
    ensures Inv(Apply(w, c))
  {
    AbandonAllKeeps(w);
    DecisionKeeps(WithAttempts(w, AbandonAll(w.rows.attempts)), c.decision.action, Apply(w, c).rows.remediations);
  }

  lemma DecisionKeeps(w: World, action: Action, remediations: map<RemediationId, Remediation>)
    requires Inv(w) && w.rows.verdicts.remediation == Required && forall id :: !Live(w, id)
    ensures Inv(w.(rows :=
              w.rows.(item := DecidedItem(w.rows.item, action), verdicts := DecidedVerdicts(w.rows.verdicts, action),
                                   remediations := remediations)))
  {
    var u := w.(rows :=
        w.rows.(item := DecidedItem(w.rows.item, action), verdicts := DecidedVerdicts(w.rows.verdicts, action),
                                remediations := remediations));
    assert forall id :: Live(u, id) <==> Live(w, id);
    assert MatchingAcceptances(u.rows) == MatchingAcceptances(w.rows);
  }

  /** One step of the protocol, under any interleaving of callers with stale reads. */
  lemma StepKeepsInv(w: World, c: Commit)
    requires Inv(w) && Allowed(w, c) && Safe(c)
    ensures Inv(Apply(w, c))
  {
    match c
    case Claim(_, _, _) => ClaimKeeps(w, c);
    case Recover(_, _) => RecoverKeeps(w, c);
    case Prepare(_, _, _, _) => PrepareKeeps(w, c);
    case Clear(_, _) => ClearKeeps(w, c);
    case Dispatch(_, _) => DispatchKeeps(w, c);
    case Abandon(_) => AbandonKeeps(w, c);
    case Answer(_, _) => AnswerKeeps(w, c);
    case Remediate(_, _) => RemediateKeeps(w, c);
    case _ => OwnedItemKeeps(w, c);
  }
}
