/** The stored rows of one publication and the services that change them. Each call reads, checks in the
    services' order and writes once; what it writes is the protocol step it stands for, and a refusal writes
    nothing. */
module PublicationStore {
  import opened Options
  import opened OutboxProtocol
  import opened OutboxRuns

  datatype Error =
    | InvalidInput | InvalidLease | NoEligibleItem | ClaimConflict
    | StaleClaim | InvalidTransition | TokenMismatch
    | AttemptNotFound | ReplayConflict | PublicationClosed | PublicationResolved
    | ClaimNotOwned | LeaseExpired | AttemptExistsForClaim | TokenHashMismatch
    | AttemptAbandoned | AttemptAnswered | AttemptNotDispatched
    | ReceiptConflict | InvalidReceiptState
    | InvalidAction | RemediationNotRequired | RemediationConflict | PayloadUnavailable

  /** A write, the no-op answer to an identical repeat, or a refusal. */
  datatype Reply = Applied | Replayed | Refused(error: Error)

  /** A receipt as reported, before it is reconciled. */
  datatype Report = Report(
    attemptId: AttemptId,
    registrationId: Option<string>,
    reported: Identity,
    status: ReceiptStatus,
    registeredAt: Instant)

  /** The protocol step if its guard holds, otherwise nothing. */
  function Step(w: World, c: Commit): World {
    if Allowed(w, c) then Apply(w, c) else w
  }

  lemma StepKeeps(w: World, c: Commit)
    requires Inv(w) && Safe(c)
    ensures Inv(Step(w, c))
  {
    if Allowed(w, c) {
      StepKeepsInv(w, c);
    }
  }

  /** The claim is held by this token, and its lease has not run out. */
  predicate LiveClaim(item: Item, token: Token, at: Instant) {
    OwnedBy(item, token) && item.leaseExpiresAt.Some? && at < item.leaseExpiresAt.value
  }

  predicate Unsettled(v: Verdicts) {
    v.remediation != Closed && v.remediation != Resolved && v.registration != Accepted
  }

  /** What a fresh attempt under the present claim records. */
  function NewAttempt(w: World, token: Token, at: Instant): Attempt {
    Attempt(w.rows.item.attemptCount, Bound(token), w.rows.expected, w.rows.item.payloadHash, PREPARED, at, None)
  }

  predicate SamePreparation(a: Attempt, b: Attempt) {
    a == b.(status := a.status, dispatchedAt := a.dispatchedAt)
  }

  predicate NumberFree(attempts: map<AttemptId, Attempt>, number: nat) {
    forall k | k in attempts :: attempts[k].number != number
  }

  /** An attempt under this claim may be created: nothing settled, the claim live, none created yet. */
  predicate MayPrepare(w: World, id: AttemptId, token: Token, at: Instant) {
    && id !in w.rows.attempts && Unsettled(w.rows.verdicts) && LiveClaim(w.rows.item, token, at)
    && NumberFree(w.rows.attempts, w.rows.item.attemptCount)
  }

  predicate MayDispatch(w: World, id: AttemptId, token: Token, at: Instant) {
    && id in w.rows.attempts && w.rows.attempts[id].claim == Bound(token) && w.rows.attempts[id].status == PREPARED
    && w.rows.attempts[id].preparedAt <= at && LiveClaim(w.rows.item, token, at)
  }

  predicate RegistrationTaken(receipts: map<ReceiptId, Receipt>, registrationId: Option<string>) {
    registrationId.Some? && exists r | r in receipts :: receipts[r].registrationId == registrationId
  }

  function Recorded(report: Report, matched: bool): Receipt {
    Receipt(report.attemptId, report.registrationId, report.reported, report.status, report.registeredAt,
            report.status.ReceiptAccepted? && matched)
  }

  /** A matching acceptance may not overturn a closure, nor an adverse verdict unless a retry has been authorised. */
  predicate PriorVerdictConflict(v: Verdicts) {
    || v.remediation == Closed
    || (v.remediation != RetryAuthorized &&
        (v.registration == Rejected || v.reconciliation == Mismatch || v.registration == Accepted))
  }

  predicate SameReport(receipt: Receipt, report: Report) {
    receipt.(matchingAcceptance := false) == Recorded(report, false)
  }

  predicate Matches(w: World, report: Report)
    requires report.attemptId in w.rows.attempts
  {
    report.reported == w.rows.attempts[report.attemptId].expected
  }

  /** A receipt is taken for a sent attempt; one that names this publication needs the item still claimed, and an
      acceptance no standing mismatch. */
  predicate MayRecord(w: World, receiptId: ReceiptId, report: Report) {
    && (report.status.ReceiptAccepted? ==> report.registrationId.Some?)
    && receiptId !in w.rows.receipts
    && report.attemptId in w.rows.attempts && w.rows.attempts[report.attemptId].status == DISPATCHED
    && !RegistrationTaken(w.rows.receipts, report.registrationId)
    && (Matches(w, report) ==> w.rows.item.status == PROCESSING)
    && (Matches(w, report) && report.status.ReceiptAccepted? ==> w.rows.verdicts.reconciliation != Mismatch)
  }

  /** What the receipt transaction itself re-asserts, by its unique indexes and its guard on the attempt. */
  predicate MayCommit(w: World, receiptId: ReceiptId, report: Report) {
    && receiptId !in w.rows.receipts
    && report.attemptId in w.rows.attempts && w.rows.attempts[report.attemptId].status == DISPATCHED
    && !RegistrationTaken(w.rows.receipts, report.registrationId)
  }

  /** A decision is taken only while one is owed, and not against finished work. */
  predicate MayRemediate(w: World, remediationId: RemediationId, d: Decision) {
    && remediationId !in w.rows.remediations && w.rows.verdicts.remediation == Required
    && w.rows.item.status != COMPLETED && (d.action.Close? ==> w.rows.item.status != CANCELLED)
  }

  /** Why a preparation is refused: the first guard that fails. */
  predicate PrepareRefusal(w: World, id: AttemptId, token: Token, at: Instant, why: Error) {
    if why == ReplayConflict then
      id in w.rows.attempts && !SamePreparation(w.rows.attempts[id], NewAttempt(w, token, at))
    else
      && id !in w.rows.attempts
      && match why
         case PublicationClosed => w.rows.verdicts.remediation == Closed
         case PublicationResolved => w.rows.verdicts.remediation != Closed && !Unsettled(w.rows.verdicts)
         case ClaimNotOwned => Unsettled(w.rows.verdicts) && !OwnedBy(w.rows.item, token)
         case LeaseExpired =>
           Unsettled(w.rows.verdicts) && OwnedBy(w.rows.item, token) && !LiveClaim(w.rows.item, token, at)
         case AttemptExistsForClaim =>
           && Unsettled(w.rows.verdicts) && LiveClaim(w.rows.item, token, at)
           && !NumberFree(w.rows.attempts, w.rows.item.attemptCount)
         case _ => false
  }

  predicate DispatchRefusal(w: World, id: AttemptId, token: Token, at: Instant, why: Error) {
    if why == AttemptNotFound then id !in w.rows.attempts
    else
      && id in w.rows.attempts
      && var a := w.rows.attempts[id];
         if why == TokenHashMismatch then a.claim != Bound(token)
         else
           && a.claim == Bound(token)
           && match why
              case ReplayConflict => (a.status == DISPATCHED && a.dispatchedAt != Some(at))
                  || (a.status == PREPARED && at < a.preparedAt)
              case InvalidTransition => !Open(a.status)
              case ClaimNotOwned => a.status == PREPARED && a.preparedAt <= at && !OwnedBy(w.rows.item, token)
              case LeaseExpired =>
                && a.status == PREPARED && a.preparedAt <= at && OwnedBy(w.rows.item, token)
                && !LiveClaim(w.rows.item, token, at)
              case _ => false
  }

  predicate ReceiptRefusal(w: World, receiptId: ReceiptId, report: Report, why: Error) {
    if why == InvalidInput then report.status.ReceiptAccepted? && report.registrationId.None?
    else
      && (report.status.ReceiptAccepted? ==> report.registrationId.Some?)
      && if why == AttemptNotFound then report.attemptId !in w.rows.attempts
         else
           && report.attemptId in w.rows.attempts
           && if receiptId in w.rows.receipts then
                why == ReceiptConflict && !SameReport(w.rows.receipts[receiptId], report)
              else
                NewReceiptRefusal(w, report, why)
  }

  /** For a receipt not seen before, about an attempt that exists. */
  predicate NewReceiptRefusal(w: World, report: Report, why: Error)
    requires report.attemptId in w.rows.attempts
  {
    var status := w.rows.attempts[report.attemptId].status;
    var taken := RegistrationTaken(w.rows.receipts, report.registrationId);
    var overturns :=
      Matches(w, report) && report.status.ReceiptAccepted? && w.rows.verdicts.reconciliation == Mismatch;
    match why
    case AttemptAbandoned => status == ABANDONED
    case AttemptAnswered => status == RECEIPT_RECORDED
    case AttemptNotDispatched => status == PREPARED
    case ReceiptConflict => status == DISPATCHED && (taken || overturns)
    case InvalidReceiptState =>
      && status == DISPATCHED && !taken && !overturns
      && Matches(w, report) && w.rows.item.status in {COMPLETED, DEAD_LETTER}
    case _ => false
  }

  predicate DecisionRefusal(w: World, remediationId: RemediationId, d: Decision, why: Error) {
    if why == ReplayConflict then
      remediationId in w.rows.remediations && w.rows.remediations[remediationId].decision != d
    else
      && remediationId !in w.rows.remediations
      && match why
         case PublicationClosed => w.rows.verdicts.remediation == Closed
         case PublicationResolved => w.rows.verdicts.remediation == Resolved
         case InvalidAction => w.rows.verdicts.remediation == RetryAuthorized
         case RemediationNotRequired => w.rows.verdicts.remediation == NotRequired
         case RemediationConflict =>
           && w.rows.verdicts.remediation == Required
           && (w.rows.item.status == COMPLETED || (d.action.Close? && w.rows.item.status == CANCELLED))
         case _ => false
  }

  /** An identical repeat of a report is recognised, and nothing else is. */
  lemma SameReportExactly(recorded: Report, matched: bool, report: Report)
    ensures SameReport(Recorded(recorded, matched), report) <==> report == recorded
  {
  }

  lemma DispatchSteps(w: World, id: AttemptId, token: Token, at: Instant)
    requires Inv(w) && MayDispatch(w, id, token, at)
    ensures Allowed(w, Clear(id, token)) && Allowed(Apply(w, Clear(id, token)), Dispatch(id, at))
    ensures Inv(Apply(Apply(w, Clear(id, token)), Dispatch(id, at)))
  {
    StepKeepsInv(w, Clear(id, token));
    StepKeepsInv(Apply(w, Clear(id, token)), Dispatch(id, at));
  }

  lemma {:induction false} RecordStep(w: World, receiptId: ReceiptId, report: Report) returns (u: World)
    requires Inv(w) && MayCommit(w, receiptId, report)
    ensures u == Step(w, Answer(receiptId, Recorded(report, Matches(w, report)))) && Inv(u)
    ensures u == var matched := Matches(w, report);
                 w.(rows := w.rows.(
                   item := AnsweredItem(w.rows.item, report.status, matched),
                   verdicts := Outcome(report.status, matched),
                   attempts := w.rows.attempts[report.attemptId :=
                       w.rows.attempts[report.attemptId].(status := RECEIPT_RECORDED)],
                   receipts := w.rows.receipts[receiptId := Recorded(report, matched)]))
  {
    var c := Answer(receiptId, Recorded(report, Matches(w, report)));
    u := Step(w, c);
    StepKeeps(w, c);
  }

  lemma {:induction false} RemediateStep(w: World, remediationId: RemediationId, d: Decision) returns (u: World)
    requires Inv(w) && MayRemediate(w, remediationId, d)
    ensures u == Step(w, Remediate(remediationId, d)) && Inv(u)
    ensures u == w.(rows := w.rows.(
                   item := DecidedItem(w.rows.item, d.action),
                   verdicts := DecidedVerdicts(w.rows.verdicts, d.action),
                   attempts := AbandonAll(w.rows.attempts),
                   remediations :=
                       w.rows.remediations[remediationId := Remediation(d, w.rows.verdicts, w.rows.item.status)]))
  {
    u := Step(w, Remediate(remediationId, d));
    StepKeeps(w, Remediate(remediationId, d));
  }

  /** Only a claimed item holds a token, and settled work is not claimed. */
  lemma ClaimFacts(w: World)
    requires Inv(w)
    ensures Claimable(w.rows.item.status) ==> w.rows.item.lockToken.None?
    ensures w.rows.item.status == PROCESSING ==> w.rows.item.leaseExpiresAt.Some?
    ensures w.rows.verdicts.registration == Accepted ==> w.rows.item.status != PROCESSING
  {
  }

  /** What a preparation relies on: the body outlives settlement only, attempts record the publication's expectation,
      and a held claim is the latest. */
  lemma PreparationFacts(w: World)
    requires Inv(w)
    ensures w.rows.item.payload.None? ==> !Unsettled(w.rows.verdicts)
    ensures Unsettled(w.rows.verdicts) <==> w.rows.verdicts.remediation !in {Closed, Resolved}
    ensures forall id | id in w.rows.attempts :: w.rows.attempts[id].expected == w.rows.expected
    ensures w.rows.item.lockToken.Some? ==>
              1 <= w.rows.item.attemptCount == |w.claims| && w.claims[|w.claims| - 1] == w.rows.item.lockToken.value
  {
  }

  class Store {
    var item: Item
    var verdicts: Verdicts
    const expected: Identity
    var attempts: map<AttemptId, Attempt>
    var receipts: map<ReceiptId, Receipt>
    var remediations: map<RemediationId, Remediation>
    /** History, which no service reads: the tokens handed out, and the attempts cleared for sending. */
    var claims: seq<Token>
    var cleared: set<AttemptId>

    function W(): World
      reads this
    {
      World(Rows(item, verdicts, expected, attempts, receipts, remediations), claims, cleared)
    }

    ghost predicate Valid()
      reads this
    {
      Inv(W())
    }

    constructor (payload: Capsule, payloadHash: Hash, expected: Identity, availableAt: Instant)
      ensures Valid() && W() == Fresh(payload, payloadHash, expected, availableAt)
    {
      item := Item(PENDING, None, None, None, 0, availableAt, Some(payload), payloadHash);
      verdicts := Verdicts(NotSubmitted, NoReceipt, NotRequired);
      this.expected := expected;
      attempts, receipts, remediations := map[], map[], map[];
      claims, cleared := [], {};
      new;
      FreshInv(payload, payloadHash, expected, availableAt);
    }

    /** Another caller's write. */
    method Become(w: World)
      requires w.rows.expected == expected
      modifies this
      ensures W() == w
    {
      item, verdicts, attempts, receipts, remediations :=
        w.rows.item, w.rows.verdicts, w.rows.attempts, w.rows.receipts, w.rows.remediations;
      claims, cleared := w.claims, w.cleared;
    }

    // ---- The outbox ----

    method ClaimNext(now: Instant, leaseExpiresAt: Instant, token: Token) returns (r: Reply)
      requires Valid() && token !in claims
      modifies this
      ensures Valid() && W() == Step(old(W()), Claim(now, leaseExpiresAt, token))
      ensures W().(rows := W().rows.(item := old(item)), claims := old(claims)) == old(W())
      ensures claims == if r.Applied? then old(claims) + [token] else old(claims)
      ensures r.Applied? <==> Allowed(old(W()), Claim(now, leaseExpiresAt, token))
      ensures r.Applied? <==>
                now < leaseExpiresAt && old(item).status in {PENDING, RETRYABLE} && old(item).availableAt <= now
      ensures item == if r.Applied? then
                        Item(PROCESSING, Some(token), Some(now), Some(leaseExpiresAt), old(item).attemptCount + 1,
                             old(item).availableAt, old(item).payload, old(item).payloadHash)
                      else old(item)
      ensures r == Refused(InvalidLease) <==> leaseExpiresAt <= now
      ensures r.Applied? || r == Refused(InvalidLease) || r == Refused(NoEligibleItem)
    {
      hide Inv;
      ClaimFacts(W());
      StepKeeps(W(), Claim(now, leaseExpiresAt, token));
      if leaseExpiresAt <= now { return Refused(InvalidLease); }
      if !Claimable(item.status) || now < item.availableAt { return Refused(NoEligibleItem); }
      if item.lockToken.Some? { return Refused(ClaimConflict); }
      item := item.(status := PROCESSING, lockToken := Some(token), lockedAt := Some(now),
                    leaseExpiresAt := Some(leaseExpiresAt), attemptCount := item.attemptCount + 1);
      claims := claims + [token];
      return Applied;
    }

    /** The shared checks of the three ways a claim is given up. */
    method CheckClaim(token: Token) returns (r: Reply)
      ensures !r.Replayed?
      ensures r.Applied? <==> OwnedBy(item, token)
      ensures r == Refused(StaleClaim) <==> Claimable(item.status)
      ensures r == Refused(TokenMismatch) <==> item.status == PROCESSING && item.lockToken != Some(token)
      ensures r == Refused(InvalidTransition) <==> item.status in {COMPLETED, DEAD_LETTER, CANCELLED}
    {
      if Claimable(item.status) { return Refused(StaleClaim); }
      if item.status != PROCESSING { return Refused(InvalidTransition); }
      if item.lockToken != Some(token) { return Refused(TokenMismatch); }
      return Applied;
    }

    /** The bare retry: what it leaves is a proper state exactly when no attempt could still be answered. */
    method MarkRetryable(token: Token, availableAt: Instant) returns (r: Reply)
      requires Valid()
      modifies this
      ensures W() == Step(old(W()), RawRetry(token, availableAt))
      ensures W().(rows := W().rows.(item := old(item))) == old(W())
      ensures r.Applied? <==> OwnedBy(old(item), token)
      ensures item == if r.Applied? then
                        old(item).(status := RETRYABLE, lockToken := None, lockedAt := None, leaseExpiresAt := None,
                                   availableAt := availableAt)
                      else old(item)
      ensures Valid() <==> !r.Applied? || forall id :: !Live(old(W()), id)
      ensures !r.Replayed?
    {
      ghost var w := W();
      r := CheckClaim(token);
      if r.Applied? {
        StepExactly(w, RawRetry(token, availableAt));
        item := Released(item, RETRYABLE).(availableAt := availableAt);
      }
    }

    method MarkCompleted(token: Token) returns (r: Reply)
      requires Valid()
      modifies this
      ensures Valid() && W() == Step(old(W()), Complete(token))
      ensures W().(rows := W().rows.(item := old(item))) == old(W())
      ensures r.Applied? <==> OwnedBy(old(item), token)
      ensures item == if r.Applied? then
                        old(item).(status := COMPLETED, lockToken := None, lockedAt := None, leaseExpiresAt := None)
                      else old(item)
    {
      hide Inv;
      StepKeeps(W(), Complete(token));
      r := CheckClaim(token);
      if r.Applied? { item := Released(item, COMPLETED); }
    }

    method MarkDeadLetter(token: Token) returns (r: Reply)
      requires Valid()
      modifies this
      ensures Valid() && W() == Step(old(W()), DeadLetter(token))
      ensures W().(rows := W().rows.(item := old(item))) == old(W())
      ensures r.Applied? <==> OwnedBy(old(item), token)
      ensures item == if r.Applied? then
                        old(item).(status := DEAD_LETTER, lockToken := None, lockedAt := None, leaseExpiresAt := None)
                      else old(item)
      ensures !r.Replayed?
    {
      hide Inv;
      StepKeeps(W(), DeadLetter(token));
      r := CheckClaim(token);
      if r.Applied? { item := Released(item, DEAD_LETTER); }
    }

    method Withdraw() returns (r: Reply)
      requires Valid()
      modifies this
      ensures Valid() && W() == Step(old(W()), Cancel)
      ensures W().(rows := W().rows.(item := old(item))) == old(W())
      ensures r == if old(item).status in {PENDING, RETRYABLE} then Applied else Refused(InvalidTransition)
      ensures item == if r.Applied? then
                        old(item).(status := CANCELLED, lockToken := None, lockedAt := None, leaseExpiresAt := None)
                      else old(item)
    {
      StepKeeps(W(), Cancel);
      if !Claimable(item.status) { return Refused(InvalidTransition); }
      item := Released(item, CANCELLED);
      return Applied;
    }

    /** One sweep over this item: the claim and every attempt it left unanswered go together. */
    method RecoverExpired(now: Instant, availableAt: Instant) returns (recovered: bool)
      requires Valid()
      modifies this
      ensures Valid() && W() == Step(old(W()), Recover(now, availableAt))
      ensures W().(rows := W().rows.(item := old(item), attempts := old(attempts))) == old(W())
      ensures recovered <==> old(item).status == PROCESSING && old(item).leaseExpiresAt.value <= now
      ensures item == if recovered then
                        old(item).(status := RETRYABLE, lockToken := None, lockedAt := None, leaseExpiresAt := None,
                                   availableAt := availableAt)
                      else old(item)
      ensures attempts.Keys == old(attempts).Keys
      ensures forall id | id in attempts ::
                attempts[id] == if recovered && old(attempts)[id].status in {PREPARED, DISPATCHED}
                                then old(attempts)[id].(status := ABANDONED) else old(attempts)[id]
    {
      hide Inv;
      ClaimFacts(W());
      StepKeeps(W(), Recover(now, availableAt));
      recovered := item.status == PROCESSING && item.leaseExpiresAt.Some? && item.leaseExpiresAt.value <= now
                   && !(verdicts.registration == Accepted && verdicts.reconciliation == Matched);
      if recovered {
        item := Released(item, RETRYABLE).(availableAt := availableAt);
        attempts := AbandonAll(attempts);
      }
    }

    // ---- Submission attempts ----

    method PrepareAttempt(id: AttemptId, token: Token, at: Instant) returns (r: Reply)
      requires Valid()
      modifies this
      ensures Valid()
      ensures W() == if r.Applied? then Step(old(W()), Prepare(id, old(item).attemptCount, token, at)) else old(W())
      ensures W().(rows := W().rows.(attempts := old(attempts))) == old(W())
      ensures r.Applied? <==> MayPrepare(old(W()), id, token, at)
      ensures r.Applied? <==>
                && id !in old(attempts) && verdicts.remediation !in {Closed, Resolved}
                && old(item).status == PROCESSING && old(item).lockToken == Some(token)
                && at < old(item).leaseExpiresAt.value
                && forall k | k in old(attempts) :: old(attempts)[k].number != old(item).attemptCount
      ensures r.Applied? ==>
                attempts == old(attempts)[id :=
                    Attempt(old(item).attemptCount, Bound(token), expected, old(item).payloadHash, PREPARED, at, None)]
      ensures r.Replayed? <==>
                && id in old(attempts)
                && var a := old(attempts)[id];
                   && a.number == old(item).attemptCount && a.claim == Bound(token) && a.preparedAt == at
                   && a.expected == expected && a.payloadHash == old(item).payloadHash
      ensures r.Refused? ==> PrepareRefusal(old(W()), id, token, at, r.error)
    {
      hide Inv, PrepareRefusal;
      ClaimFacts(W());
      PreparationFacts(W());
      r := CheckPreparation(id, token, at);
      if r.Applied? {
        PreparationFacts(W());
        StepKeeps(W(), Prepare(id, item.attemptCount, token, at));
        attempts := attempts[id :=
            Attempt(item.attemptCount, Bound(token), expected, item.payloadHash, PREPARED, at, None)];
      }
    }

    method CheckPreparation(id: AttemptId, token: Token, at: Instant) returns (r: Reply)
      requires Valid()
      ensures r.Applied? <==> MayPrepare(W(), id, token, at)
      ensures r.Replayed? <==> id in attempts && SamePreparation(attempts[id], NewAttempt(W(), token, at))
      ensures r.Refused? ==> PrepareRefusal(W(), id, token, at, r.error)
    {
      hide Inv;
      PreparationFacts(W());
      if id in attempts {
        var a := attempts[id];
        if a.number != item.attemptCount || a.expected.nodeId != expected.nodeId
            || a.expected.capsuleId != expected.capsuleId
           || a.expected.contentHash != expected.contentHash || a.payloadHash != item.payloadHash
           || a.claim != Bound(token) || a.preparedAt != at {
          return Refused(ReplayConflict);
        }
        return Replayed;
      }
      if verdicts.remediation == Closed { return Refused(PublicationClosed); }
      if verdicts.remediation == Resolved || verdicts.registration == Accepted { return Refused(PublicationResolved); }
      var refusal := CheckLiveClaim(token, at);
      if refusal.Some? { return Refused(refusal.value); }
      if item.payload.None? { return Refused(ClaimNotOwned); }
      if !NumberFree(attempts, item.attemptCount) { return Refused(AttemptExistsForClaim); }
      return Applied;
    }

    method CheckLiveClaim(token: Token, at: Instant) returns (refusal: Option<Error>)
      ensures refusal == None <==> LiveClaim(item, token, at)
      ensures refusal == Some(ClaimNotOwned) <==> !OwnedBy(item, token)
      ensures refusal in {None, Some(ClaimNotOwned), Some(LeaseExpired)}
    {
      if item.status != PROCESSING { return Some(ClaimNotOwned); }
      if item.lockToken != Some(token) { return Some(ClaimNotOwned); }
      if item.leaseExpiresAt.None? || item.leaseExpiresAt.value <= at { return Some(LeaseExpired); }
      return None;
    }

    /** Recording a send is two protocol steps: the claim is checked, then the attempt is written. */
    method MarkDispatched(id: AttemptId, token: Token, at: Instant) returns (r: Reply)
      requires Valid()
      modifies this
      ensures Valid()
      ensures W() == if r.Applied? then Step(Step(old(W()), Clear(id, token)), Dispatch(id, at)) else old(W())
      ensures W().(rows := W().rows.(attempts := old(attempts)), cleared := old(cleared)) == old(W())
      ensures r.Applied? <==> MayDispatch(old(W()), id, token, at)
      ensures r.Applied? <==>
                && id in old(attempts) && old(attempts)[id].claim == Bound(token)
                && old(attempts)[id].status == PREPARED && old(attempts)[id].preparedAt <= at
                && old(item).status == PROCESSING && old(item).lockToken == Some(token)
                && at < old(item).leaseExpiresAt.value
      ensures r.Applied? ==>
                attempts == old(attempts)[id := old(attempts)[id].(status := DISPATCHED, dispatchedAt := Some(at))]
      ensures r.Replayed? ==> id in attempts && attempts[id].claim == Bound(token)
      ensures r.Replayed? ==> attempts[id].status == DISPATCHED && attempts[id].dispatchedAt == Some(at)
      ensures r.Refused? ==> DispatchRefusal(old(W()), id, token, at, r.error)
    {
      hide Inv, DispatchRefusal;
      ClaimFacts(W());
      r := CheckDispatch(id, token, at);
      if r.Applied? {
        DispatchSteps(W(), id, token, at);
        cleared := cleared + {id};
        attempts := attempts[id := attempts[id].(status := DISPATCHED, dispatchedAt := Some(at))];
      }
    }

    method CheckDispatch(id: AttemptId, token: Token, at: Instant) returns (r: Reply)
      ensures r.Applied? <==> MayDispatch(W(), id, token, at)
      ensures r.Replayed? ==> id in attempts && attempts[id].claim == Bound(token)
      ensures r.Replayed? ==> attempts[id].status == DISPATCHED && attempts[id].dispatchedAt == Some(at)
      ensures r.Refused? ==> DispatchRefusal(W(), id, token, at, r.error)
    {
      if id !in attempts { return Refused(AttemptNotFound); }
      var a := attempts[id];
      if a.claim != Bound(token) { return Refused(TokenHashMismatch); }
      if a.status == DISPATCHED { return if a.dispatchedAt == Some(at) then Replayed else Refused(ReplayConflict); }
      if a.status != PREPARED { return Refused(InvalidTransition); }
      if at < a.preparedAt { return Refused(ReplayConflict); }
      var refusal := CheckLiveClaim(token, at);
      if refusal.Some? { return Refused(refusal.value); }
      return Applied;
    }

    method MarkAbandoned(id: AttemptId) returns (r: Reply)
      requires Valid()
      modifies this
      ensures Valid() && W() == Step(old(W()), Abandon(id))
      ensures W().(rows := W().rows.(attempts := old(attempts))) == old(W())
      ensures r.Applied? <==> id in old(attempts) && old(attempts)[id].status in {PREPARED, DISPATCHED}
      ensures r.Applied? ==> attempts == old(attempts)[id := old(attempts)[id].(status := ABANDONED)]
      ensures !r.Applied? ==> attempts == old(attempts)
      ensures r.Applied? || r.Replayed? <==> id in attempts && attempts[id].status == ABANDONED
      ensures r.Refused? ==> r.error == if id in attempts then InvalidTransition else AttemptNotFound
    {
      hide Inv;
      StepKeeps(W(), Abandon(id));
      if id !in attempts { return Refused(AttemptNotFound); }
      if attempts[id].status == ABANDONED { return Replayed; }
      if !Open(attempts[id].status) { return Refused(InvalidTransition); }
      attempts := attempts[id := attempts[id].(status := ABANDONED)];
      return Applied;
    }

    // ---- Receipts ----

    method RecordReceipt(receiptId: ReceiptId, report: Report) returns (r: Reply)
      requires Valid()
      modifies this
      ensures Valid()
      ensures r.Applied? <==> MayRecord(old(W()), receiptId, report)
      ensures r.Applied? <==>
                && (report.status.ReceiptAccepted? ==> report.registrationId.Some?)
                && receiptId !in old(receipts)
                && report.attemptId in old(attempts) && old(attempts)[report.attemptId].status == DISPATCHED
                && (report.registrationId.Some? ==>
                      forall k | k in old(receipts) :: old(receipts)[k].registrationId != report.registrationId)
                && (report.reported == expected ==> old(item).status == PROCESSING)
                && (report.reported == expected && report.status.ReceiptAccepted? ==>
                      old(verdicts).reconciliation != Mismatch)
      ensures r.Applied? ==>
                W() == Step(old(W()), Answer(receiptId, Recorded(report, Matches(old(W()), report))))
      ensures !r.Applied? ==> W() == old(W())
      ensures r.Replayed? ==> receiptId in receipts && SameReport(receipts[receiptId], report)
      ensures r.Refused? ==> ReceiptRefusal(old(W()), receiptId, report, r.error)
    {
      PreparationFacts(W());
      r := CheckReceipt(receiptId, report);
      if !r.Applied? { return; }
      WriteReceipt(receiptId, report);
    }

    /** The one transaction: receipt, verdicts, item and attempt together. */
    method WriteReceipt(receiptId: ReceiptId, report: Report)
      requires Valid() && MayCommit(W(), receiptId, report)
      modifies this
      ensures Valid() && W() == Step(old(W()), Answer(receiptId, Recorded(report, Matches(old(W()), report))))
      ensures report.reported != expected ==>
                verdicts == Verdicts(RegistrationPending, Mismatch, Required) && item == old(item)
      ensures report.reported == expected && report.status.ReceiptAccepted? ==>
                && verdicts == Verdicts(Accepted, Matched, Resolved)
                && item == old(item).(status := COMPLETED, lockToken := None, lockedAt := None, leaseExpiresAt := None,
                                      payload := None)
      ensures report.reported == expected && report.status.ReceiptRejected? ==>
                && verdicts == Verdicts(Rejected, Matched, Required)
                && item == old(item).(status := DEAD_LETTER, lockToken := None, lockedAt := None,
                                      leaseExpiresAt := None)
      ensures receipts == old(receipts)[receiptId :=
                Receipt(report.attemptId, report.registrationId, report.reported, report.status, report.registeredAt,
                        report.status.ReceiptAccepted? && report.reported == expected)]
      ensures attempts == old(attempts)[report.attemptId :=
                old(attempts)[report.attemptId].(status := RECEIPT_RECORDED)]
      ensures remediations == old(remediations) && claims == old(claims) && cleared == old(cleared)
    {
      hide Inv;
      PreparationFacts(W());
      var a := attempts[report.attemptId];
      var matched := report.reported == a.expected;
      ghost var u := RecordStep(W(), receiptId, report);
      receipts := receipts[receiptId := Recorded(report, matched)];
      verdicts := Outcome(report.status, matched);
      item := AnsweredItem(item, report.status, matched);
      attempts := attempts[report.attemptId := a.(status := RECEIPT_RECORDED)];
      assert W() == u;
    }

    method CheckReceipt(receiptId: ReceiptId, report: Report) returns (r: Reply)
      requires Valid()
      ensures r.Applied? <==> MayRecord(W(), receiptId, report)
      ensures r.Replayed? ==> receiptId in receipts && SameReport(receipts[receiptId], report)
      ensures r.Refused? ==> ReceiptRefusal(W(), receiptId, report, r.error)
    {
      if report.status.ReceiptAccepted? && report.registrationId.None? { return Refused(InvalidInput); }
      if report.attemptId !in attempts { return Refused(AttemptNotFound); }
      if receiptId in receipts {
        return if SameReport(receipts[receiptId], report) then Replayed else Refused(ReceiptConflict);
      }
      var a := attempts[report.attemptId];
      if a.status == ABANDONED { return Refused(AttemptAbandoned); }
      if a.status == RECEIPT_RECORDED { return Refused(AttemptAnswered); }
      if a.status != DISPATCHED { return Refused(AttemptNotDispatched); }
      if RegistrationTaken(receipts, report.registrationId) { return Refused(ReceiptConflict); }
      var matched := report.reported == a.expected;
      assert Live(W(), report.attemptId);
      if report.status.ReceiptAccepted? && matched && PriorVerdictConflict(verdicts) {
        return Refused(ReceiptConflict);
      }
      if matched && item.status != PROCESSING { return Refused(InvalidReceiptState); }
      return Applied;
    }

    // ---- Remediation ----

    method RemediatePublication(remediationId: RemediationId, d: Decision) returns (r: Reply)
      requires Valid()
      modifies this
      ensures Valid()
      ensures r.Applied? <==> MayRemediate(old(W()), remediationId, d)
      ensures r.Applied? <==>
                && remediationId !in old(remediations) && old(verdicts).remediation == Required
                && old(item).status != COMPLETED && (d.action.Close? ==> old(item).status != CANCELLED)
      ensures W() == if r.Applied? then Step(old(W()), Remediate(remediationId, d)) else old(W())
      ensures r.Applied? && d.action.Close? ==>
                && verdicts == old(verdicts).(remediation := Closed)
                && item == old(item).(status := DEAD_LETTER, lockToken := None, lockedAt := None,
                                      leaseExpiresAt := None)
      ensures r.Applied? && d.action.Retry? ==>
                && verdicts == Verdicts(RegistrationPending, ReconciliationPending, RetryAuthorized)
                && item == old(item).(status := RETRYABLE, lockToken := None, lockedAt := None, leaseExpiresAt := None,
                                      availableAt := d.action.availableAt)
      ensures r.Applied? ==>
                && remediations == old(remediations)[remediationId := Remediation(d, old(verdicts), old(item).status)]
                && receipts == old(receipts) && claims == old(claims) && cleared == old(cleared)
                && attempts.Keys == old(attempts).Keys
                && forall id | id in attempts ::
                     attempts[id] == if old(attempts)[id].status in {PREPARED, DISPATCHED}
                                     then old(attempts)[id].(status := ABANDONED) else old(attempts)[id]
      ensures r.Replayed? <==> remediationId in old(remediations) && old(remediations)[remediationId].decision == d
      ensures r.Refused? ==> DecisionRefusal(old(W()), remediationId, d, r.error)
    {
      hide Inv;
      r := CheckDecision(remediationId, d);
      if !r.Applied? { return; }
      ghost var u := RemediateStep(W(), remediationId, d);
      remediations := remediations[remediationId := Remediation(d, verdicts, item.status)];
      verdicts := DecidedVerdicts(verdicts, d.action);
      item := DecidedItem(item, d.action);
      attempts := AbandonAll(attempts);
      assert W() == u;
    }

    method CheckDecision(remediationId: RemediationId, d: Decision) returns (r: Reply)
      requires Valid()
      ensures r.Applied? <==> MayRemediate(W(), remediationId, d)
      ensures r.Replayed? <==> remediationId in remediations && remediations[remediationId].decision == d
      ensures r.Refused? ==> DecisionRefusal(W(), remediationId, d, r.error)
    {
      if remediationId in remediations {
        return if remediations[remediationId].decision == d then Replayed else Refused(ReplayConflict);
      }
      match verdicts.remediation {
        case Closed => return Refused(PublicationClosed);
        case Resolved => return Refused(PublicationResolved);
        case RetryAuthorized => return Refused(InvalidAction);
        case NotRequired => return Refused(RemediationNotRequired);
        case Required =>
      }
      if d.action.Retry? {
        if verdicts.registration != Rejected && verdicts.reconciliation != Mismatch {
          return Refused(RemediationConflict);
        }
        if item.payload.None? { return Refused(PayloadUnavailable); }
        if item.status == COMPLETED { return Refused(RemediationConflict); }
        if verdicts.registration == Accepted { return Refused(RemediationConflict); }
      } else if item.status == COMPLETED || item.status == CANCELLED {
        return Refused(RemediationConflict);
      }
      return Applied;
    }
  }
}
