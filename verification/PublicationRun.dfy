/** One publication run: claim, prepare, send once, record the consequence. Between any two of its writes other
    callers may commit whatever their own guards allow. */
module PublicationRun {
  import opened Options
  import opened OutboxProtocol
  import opened OutboxRuns
  import opened PublicationStore

  datatype TransportOutcome = Success | RemoteRejection | AmbiguousDelivery | RetryableFailure | TerminalFailure

  /** What the transport reports; `transmitted` is false only when the request provably never left. */
  datatype Transport = Transport(outcome: TransportOutcome, transmitted: bool)

  datatype RunOutcome = NoEligibleWork | Sent | RefusedRemotely | Ambiguous | RetryScheduled | DeadLettered

  datatype RunError =
    | Service(error: Error)
    | DispatchConflict
    | RetryTimeRequired
    | StateConflict
    | PersistenceFailure(transmitted: bool)

  datatype RunReply = Ended(outcome: RunOutcome) | Threw(error: RunError)

  datatype SendReply = NotSent | Unrecorded(refusal: Error) | Noted(dispatched: bool)

  predicate HasStatus(w: World, id: AttemptId, status: AttemptStatus) {
    id in w.rows.attempts && w.rows.attempts[id].status == status
  }

  /** The attempt keeps its claim and only moves forward. */
  predicate Onward(w: World, u: World, id: AttemptId) {
    id in w.rows.attempts ==> id in u.rows.attempts && Forward(w.rows.attempts[id], u.rows.attempts[id])
  }

  lemma StepOnward(w: World, c: Commit, id: AttemptId)
    ensures Onward(w, Step(w, c), id)
  {
    if Allowed(w, c) && id in w.rows.attempts {
      StepMovesForward(w, c, id);
    }
  }

  /** The writes other callers make meanwhile; those their guards refuse do not happen. */
  method Others(s: Store, cs: seq<Commit>, ghost id: AttemptId)
    requires s.Valid()
    modifies s
    ensures s.Valid() && Onward(old(s.W()), s.W(), id)
  {
    hide Inv;
    for i := 0 to |cs|
      invariant s.Valid() && Onward(old(s.W()), s.W(), id)
    {
      if Safe(cs[i]) && Allowed(s.W(), cs[i]) {
        StepKeepsInv(s.W(), cs[i]);
        StepOnward(s.W(), cs[i], id);
        ExpectedStays(s.W(), cs[i]);
        s.Become(Apply(s.W(), cs[i]));
      }
    }
  }

  lemma ExpectedStays(w: World, c: Commit)
    requires Allowed(w, c)
    ensures Apply(w, c).rows.expected == w.rows.expected
  {
  }

  /** Recording a receipt as it happens: checked on what was read, then committed under the transaction's own guards.
      `between` is the state the transaction finds. */
  method RecordReceiptAmid(s: Store, receiptId: ReceiptId, report: Report, meanwhile: seq<Commit>)
    returns (r: Reply, ghost between: World)
    requires s.Valid()
    modifies s
    ensures s.Valid() && Onward(old(s.W()), between, report.attemptId)
    ensures r.Applied? <==> MayRecord(old(s.W()), receiptId, report) && MayCommit(between, receiptId, report)
    ensures r.Applied? <==>
              && MayRecord(old(s.W()), receiptId, report)
              && receiptId !in between.rows.receipts
              && HasStatus(between, report.attemptId, DISPATCHED)
              && (report.registrationId.Some? ==> forall k | k in between.rows.receipts ::
                    between.rows.receipts[k].registrationId != report.registrationId)
    ensures !MayRecord(old(s.W()), receiptId, report) ==> between == old(s.W())
    ensures !r.Applied? ==> s.W() == between
    ensures r.Applied? ==>
              s.W() == Step(between, Answer(receiptId, PublicationStore.Recorded(report, Matches(between, report))))
    ensures r.Refused? && r.error == AttemptAnswered ==> !HasStatus(between, report.attemptId, DISPATCHED)
  {
    hide Inv;
    r := s.CheckReceipt(receiptId, report);
    between := s.W();
    if !r.Applied? { return; }
    Others(s, meanwhile, report.attemptId);
    between := s.W();
    if receiptId in s.receipts || RegistrationTaken(s.receipts, report.registrationId) {
      return Refused(ReceiptConflict), between;
    }
    if s.attempts[report.attemptId].status != DISPATCHED { return Refused(AttemptAnswered), between; }
    s.WriteReceipt(receiptId, report);
  }

  predicate Ours(w: World, id: AttemptId, token: Token) {
    id in w.rows.attempts && w.rows.attempts[id].claim == Bound(token)
  }

  /** A send may start: a prepared attempt, an unsettled publication, a claim still live. */
  predicate MaySend(w: World, id: AttemptId, token: Token, at: Instant) {
    HasStatus(w, id, PREPARED) && Unsettled(w.rows.verdicts) && LiveClaim(w.rows.item, token, at)
  }

  /** Sends a prepared attempt exactly once, or refuses before anything leaves. */
  method SendPrepared(s: Store, id: AttemptId, token: Token, at: Instant, transport: Transport, meanwhile: seq<Commit>)
    returns (r: SendReply, sends: nat)
    requires s.Valid()
    modifies s
    ensures s.Valid() && Onward(old(s.W()), s.W(), id)
    ensures sends == if MaySend(old(s.W()), id, token, at) then 1 else 0
    ensures sends == 1 <==>
              && id in old(s.attempts) && old(s.attempts)[id].status == PREPARED
              && old(s.verdicts).remediation !in {Closed, Resolved}
              && old(s.item).status == PROCESSING && old(s.item).lockToken == Some(token)
              && at < old(s.item).leaseExpiresAt.value
    ensures sends == 0 <==> r.NotSent?
    ensures r.Noted? ==> r.dispatched == transport.transmitted
    ensures r.Noted? && transport.transmitted ==> HasStatus(s.W(), id, DISPATCHED) && Ours(s.W(), id, token)
    ensures r.Unrecorded? ==> transport.transmitted
  {
    if id !in s.attempts || s.attempts[id].status != PREPARED { return NotSent, 0; }
    if !Unsettled(s.verdicts) { return NotSent, 0; }
    var refusal := s.CheckLiveClaim(token, at);
    if refusal.Some? || s.item.payload.None? { return NotSent, 0; }
    Others(s, meanwhile, id);
    if !transport.transmitted { return Noted(false), 1; }
    r := RecordSend(s, id, token, at);
    sends := 1;
  }

  method RecordSend(s: Store, id: AttemptId, token: Token, at: Instant) returns (r: SendReply)
    requires s.Valid()
    modifies s
    ensures s.Valid() && Onward(old(s.W()), s.W(), id)
    ensures r.Unrecorded? || (r == Noted(true) && HasStatus(s.W(), id, DISPATCHED) && Ours(s.W(), id, token))
  {
    hide Inv;
    ghost var w := s.W();
    var marked := s.MarkDispatched(id, token, at);
    StepOnward(w, Clear(id, token), id);
    StepOnward(Step(w, Clear(id, token)), Dispatch(id, at), id);
    r := if marked.Refused? then Unrecorded(marked.error) else Noted(true);
  }

  /** Retires an attempt that never left. */
  method Retire(s: Store, id: AttemptId, token: Token, meanwhile: seq<Commit>) returns (r: Reply)
    requires s.Valid() && Ours(s.W(), id, token)
    modifies s
    ensures s.Valid() && Ours(s.W(), id, token)
    ensures r.Refused? || HasStatus(s.W(), id, ABANDONED)
    ensures r.Refused? ==> r.error == InvalidTransition
  {
    hide Inv;
    ghost var w := s.W();
    StepOnward(w, Abandon(id), id);
    r := s.MarkAbandoned(id);
    Others(s, meanwhile, id);
  }

  /** With its attempt retired, a claim can be handed back. */
  method Release(s: Store, id: AttemptId, token: Token, retryAt: Instant) returns (r: Reply)
    requires s.Valid() && Ours(s.W(), id, token) && HasStatus(s.W(), id, ABANDONED)
    modifies s
    ensures s.Valid() && HasStatus(s.W(), id, ABANDONED)
    ensures s.W() == Step(old(s.W()), RunRetry(token, retryAt))
    ensures r.Applied? <==> OwnedBy(old(s.item), token)
    ensures !r.Replayed?
  {
    ghost var w := s.W();
    StepKeeps(w, RunRetry(token, retryAt));
    r := s.MarkRetryable(token, retryAt);
  }

  /** Other callers' writes, by the moment they fall in. */
  datatype Meanwhile = Meanwhile(
    afterClaim: seq<Commit>,
    afterPrepare: seq<Commit>,
    duringSend: seq<Commit>,
    duringRecord: seq<Commit>)

  /** Only a failure that provably preceded transmission may be retried; a sent request is at most dead-lettered. */
  function Consequence(t: Transport): RunOutcome {
    match t.outcome
    case Success => Sent
    case RemoteRejection => RefusedRemotely
    case AmbiguousDelivery => Ambiguous
    case RetryableFailure => if t.transmitted then Ambiguous else RetryScheduled
    case TerminalFailure => DeadLettered
  }

  lemma ConsequenceExactly(t: Transport)
    ensures Consequence(t) == Sent <==> t.outcome == Success
    ensures Consequence(t) == RefusedRemotely <==> t.outcome == RemoteRejection
    ensures Consequence(t) == RetryScheduled <==> t.outcome == RetryableFailure && !t.transmitted
    ensures Consequence(t) == DeadLettered <==> t.outcome == TerminalFailure
    ensures Consequence(t) != NoEligibleWork
  {
  }

  /** Claim and prepare. */
  method Begin(s: Store, now: Instant, leaseExpiresAt: Instant, id: AttemptId, token: Token, preparedAt: Instant,
      m: Meanwhile)
    returns (r: Reply)
    requires s.Valid() && token !in s.claims
    modifies s
    ensures s.Valid()
    ensures r == Refused(NoEligibleItem) ==> s.W() == old(s.W())
    ensures r.Refused? || Ours(s.W(), id, token)
  {
    hide Inv, Apply, Allowed;
    r := s.ClaimNext(now, leaseExpiresAt, token);
    if r.Refused? { return; }
    Others(s, m.afterClaim, id);
    r := s.PrepareAttempt(id, token, preparedAt);
    if r.Refused? { return Refused(r.error); }
    Others(s, m.afterPrepare, id);
  }

  method Record(s: Store, id: AttemptId, token: Token, retryAt: Option<Instant>, transport: Transport, m: Meanwhile)
    returns (r: RunReply)
    requires s.Valid() && Ours(s.W(), id, token)
    requires transport.transmitted ==> HasStatus(s.W(), id, DISPATCHED)
    modifies s
    ensures s.Valid() && Ours(s.W(), id, token)
    ensures r.Ended? ==> r.outcome == Consequence(transport)
    ensures r.Ended? && r.outcome in {Sent, RefusedRemotely, Ambiguous} ==> s.W() == old(s.W())
    ensures r == Ended(RetryScheduled) ==>
              HasStatus(s.W(), id, ABANDONED) && s.item.status == RETRYABLE && retryAt == Some(s.item.availableAt)
    ensures r == Ended(DeadLettered) ==>
              s.item.status == DEAD_LETTER && !HasStatus(s.W(), id, PREPARED)
                  && (!transport.transmitted ==> HasStatus(s.W(), id, ABANDONED))
    ensures r == Threw(RetryTimeRequired) ==>
              retryAt.None? && Consequence(transport) == RetryScheduled && s.W() == old(s.W())
    ensures r.Threw? ==> r.error in {RetryTimeRequired, StateConflict, PersistenceFailure(transport.transmitted)}
  {
    hide Inv;
    var outcome := Consequence(transport);
    if outcome != RetryScheduled && outcome != DeadLettered { return Ended(outcome); }
    if outcome == RetryScheduled && retryAt.None? { return Threw(RetryTimeRequired); }
    if transport.transmitted {
      Others(s, m.duringRecord, id);
    } else {
      var retired := Retire(s, id, token, m.duringRecord);
      if retired.Refused? { return Threw(PersistenceFailure(false)); }
    }
    var released: Reply;
    if outcome == RetryScheduled {
      released := Release(s, id, token, retryAt.value);
    } else {
      released := s.MarkDeadLetter(token);
    }
    r := if released.Refused? then Threw(StateConflict) else Ended(outcome);
  }

  /** Whatever the transport reports and whoever interferes: the store stays sound, nothing is sent twice, a send
      happens only under this run's own prepared attempt, and the claim is handed back for another send only after
      an attempt that provably never left has been retired. */
  method RunOne(s: Store, now: Instant, leaseExpiresAt: Instant, id: AttemptId, token: Token, preparedAt: Instant,
                dispatchedAt: Instant, retryAt: Option<Instant>, transport: Transport, m: Meanwhile)
    returns (r: RunReply, sends: nat)
    requires s.Valid() && token !in s.claims
    modifies s
    ensures s.Valid()
    ensures sends <= 1 && (sends == 1 ==> Ours(s.W(), id, token))
    ensures r == Ended(NoEligibleWork) ==> sends == 0 && s.W() == old(s.W())
    ensures r.Ended? && r.outcome != NoEligibleWork ==>
              && sends == 1
              && (r.outcome == Sent <==> transport.outcome == Success)
              && (r.outcome == RefusedRemotely <==> transport.outcome == RemoteRejection)
              && (r.outcome == RetryScheduled <==> transport.outcome == RetryableFailure && !transport.transmitted)
              && (r.outcome == DeadLettered <==> transport.outcome == TerminalFailure)
    ensures r.Ended? && sends == 1 && transport.transmitted && r.outcome != DeadLettered ==>
              HasStatus(s.W(), id, DISPATCHED)
    ensures r == Ended(RetryScheduled) ==>
              !transport.transmitted && HasStatus(s.W(), id, ABANDONED) && s.item.status == RETRYABLE
                  && retryAt == Some(s.item.availableAt)
    ensures r == Ended(DeadLettered) ==> s.item.status == DEAD_LETTER && !HasStatus(s.W(), id, PREPARED)
    ensures r == Threw(RetryTimeRequired) ==> sends == 1 && !transport.transmitted && retryAt.None?
  {
    hide Inv;
    ConsequenceExactly(transport);
    var begun := Begin(s, now, leaseExpiresAt, id, token, preparedAt, m);
    if begun.Refused? {
      return if begun.error == NoEligibleItem then Ended(NoEligibleWork) else Threw(Service(begun.error)), 0;
    }
    var sent: SendReply;
    sent, sends := SendPrepared(s, id, token, dispatchedAt, transport, m.duringSend);
    match sent
    case NotSent => r := Threw(DispatchConflict);
    case Unrecorded(e) => r := Threw(Service(e));
    case Noted(_) => r := Record(s, id, token, retryAt, transport, m);
  }
}
