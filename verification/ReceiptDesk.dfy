/** Receipt calls in progress: each reads the publication, then the item, then the attempt, and commits later on
    what it read, while other callers write. */
module ReceiptDesk {
  import opened Options
  import opened OutboxProtocol
  import opened OutboxRuns
  import opened OutboxSending
  import opened OutboxReceipts
  import opened PublicationStore

  /** What a call has read so far: the verdicts first, then the item's status. `sentThen` records whether its attempt
      was already sent when the verdicts were read. */
  datatype Reading = Reading(
    receiptId: ReceiptId,
    report: Report,
    seen: Verdicts,
    sentThen: bool,
    status: Option<OutboxStatus>)

  datatype Desk = Desk(w: World, readings: set<Reading>, checked: set<Reading>)

  datatype Act =
    | ReadPublication(receiptId: ReceiptId, report: Report)
    | ReadItem(r: Reading)
    | Check(r: Reading)
    | Record(r: Reading)
    | Write(c: Commit)

  function Opened(d: Desk, receiptId: ReceiptId, report: Report): Reading {
    Reading(receiptId, report, d.w.rows.verdicts, HasSent(d.w, report.attemptId), None)
  }

  /** The service's guards, on what this call read and on the attempt and receipts as they are. */
  predicate Passes(d: Desk, r: Reading) {
    && (r.report.status.ReceiptAccepted? ==> r.report.registrationId.Some?)
    && MayCommit(d.w, r.receiptId, r.report)
    && (Matches(d.w, r.report) ==>
          && r.status == Some(PROCESSING)
          && (r.report.status.ReceiptAccepted? ==> !PriorVerdictConflict(r.seen)))
  }

  predicate Can(d: Desk, a: Act) {
    match a
    case ReadPublication(_, _) => true
    case ReadItem(r) => r in d.readings && r.status.None?
    case Check(r) => r in d.readings && r.status.Some? && Passes(d, r)
    case Record(r) => r in d.checked && MayCommit(d.w, r.receiptId, r.report)
    case Write(c) => !c.Answer? && Safe(c) && Allowed(d.w, c)
  }

  function Answering(d: Desk, r: Reading): Commit
    requires r.report.attemptId in d.w.rows.attempts
  {
    Answer(r.receiptId, Recorded(r.report, Matches(d.w, r.report)))
  }

  function Done(d: Desk, a: Act): Desk
    requires Can(d, a)
  {
    match a
    case ReadPublication(receiptId, report) => d.(readings := d.readings + {Opened(d, receiptId, report)})
    case ReadItem(r) => d.(readings := d.readings + {r.(status := Some(d.w.rows.item.status))})
    case Check(r) => d.(checked := d.checked + {r})
    case Record(r) => d.(w := Step(d.w, Answering(d, r)))
    case Write(c) => d.(w := Apply(d.w, c))
  }

  ghost predicate DeskRun(d: Desk, acts: seq<Act>, e: Desk)
    decreases |acts|
  {
    if acts == [] then e == d else Can(d, acts[0]) && DeskRun(Done(d, acts[0]), acts[1..], e)
  }

  // ---- What calls in progress know ----

  /** A retry authorised was read with reconciliation pending; and an attempt that was sent then and still is means that
      no verdict has been recorded and no decision taken since. */
  predicate Known(w: World, r: Reading) {
    && (r.seen.remediation == RetryAuthorized ==> r.seen.reconciliation == ReconciliationPending)
    && (r.sentThen ==>
          && r.report.attemptId in w.rows.attempts
          && w.rows.attempts[r.report.attemptId].status != PREPARED
          && (HasSent(w, r.report.attemptId) ==> w.rows.verdicts == r.seen))
  }

  ghost predicate DeskInv(d: Desk) {
    && Inv(d.w) && d.checked <= d.readings && (forall r | r in d.readings :: Known(d.w, r))
    && (forall r | r in d.checked && r.report.status.ReceiptAccepted? && r.report.reported == d.w.rows.expected ::
          !PriorVerdictConflict(r.seen))
  }

  lemma KnownStays(w: World, c: Commit, r: Reading)
    requires Inv(w) && Allowed(w, c) && Safe(c) && Known(w, r)
    ensures Known(Apply(w, c), r)
  {
    var id := r.report.attemptId;
    if r.sentThen {
      VerdictsOutlastSend(w, c, id);
    }
  }

  /** While an attempt stays sent no verdict moves. */
  lemma VerdictsOutlastSend(w: World, c: Commit, id: AttemptId)
    requires Inv(w) && Allowed(w, c) && id in w.rows.attempts && w.rows.attempts[id].status != PREPARED
    ensures id in Apply(w, c).rows.attempts && Apply(w, c).rows.attempts[id].status != PREPARED
    ensures HasSent(Apply(w, c), id) ==> HasSent(w, id) && Apply(w, c).rows.verdicts == w.rows.verdicts
  {
    hide Inv;
    StepMovesForward(w, c, id);
    if c.Answer? {
      AnswersTheOnlyLive(w, c, id);
    }
  }

  lemma ExpectedStays(w: World, c: Commit)
    requires Inv(w) && Allowed(w, c)
    ensures Apply(w, c).rows.expected == w.rows.expected
    ensures forall id | id in w.rows.attempts :: w.rows.attempts[id].expected == w.rows.expected
  {
  }

  lemma NowKnown(w: World, receiptId: ReceiptId, report: Report)
    requires Inv(w)
    ensures Known(w, Reading(receiptId, report, w.rows.verdicts, HasSent(w, report.attemptId), None))
  {
  }

  lemma DeskStep(d: Desk, a: Act)
    requires DeskInv(d) && Can(d, a)
    ensures DeskInv(Done(d, a))
  {
    match a
    case ReadPublication(receiptId, report) => NowKnown(d.w, receiptId, report);
    case ReadItem(r) => assert Known(d.w, r.(status := Some(d.w.rows.item.status)));
    case Check(r) => SameExpectation(d.w);
    case Record(r) => CommitKeeps(d, Answering(d, r));
    case Write(c) => CommitKeeps(d, c);
  }

  lemma SameExpectation(w: World)
    requires Inv(w)
    ensures forall id | id in w.rows.attempts :: w.rows.attempts[id].expected == w.rows.expected
  {
  }

  lemma CommitKeeps(d: Desk, c: Commit)
    requires DeskInv(d) && Safe(c)
    ensures DeskInv(d.(w := Step(d.w, c)))
  {
    hide Inv, Known;
    if Allowed(d.w, c) {
      StepKeepsInv(d.w, c);
      ExpectedStays(d.w, c);
      forall r | r in d.readings ensures Known(Apply(d.w, c), r) {
        KnownStays(d.w, c, r);
      }
    }
  }

  // ---- A decision owed, discharged without one ----

  /** The decision owed is gone after a step that is not a decision. */
  predicate Discharges(d: Desk, a: Act)
    requires Can(d, a)
  {
    && d.w.rows.verdicts.remediation == Required && Done(d, a).w.rows.verdicts.remediation != Required
    && !(a.Write? && a.c.Remediate?)
  }

  /** It happens exactly when a matching acceptance is committed over a standing mismatch, and then only by a call that
      read the publication before the mismatch was recorded and before the attempt it answers was even sent. */
  lemma DischargeExactly(d: Desk, a: Act)
    requires DeskInv(d) && Can(d, a)
    ensures Discharges(d, a) <==>
            && a.Record? && a.r.report.status.ReceiptAccepted? && Matches(d.w, a.r.report)
            && d.w.rows.verdicts.reconciliation == Mismatch
    ensures Discharges(d, a) ==> a.r.seen.reconciliation != Mismatch && !a.r.sentThen
  {
    SameExpectation(d.w);
    if a.Record? {
      SentIsUnsettled(d.w, a.r.report.attemptId);
    }
  }

  lemma SentIsUnsettled(w: World, id: AttemptId)
    requires Inv(w) && HasSent(w, id)
    ensures w.rows.verdicts.registration !in {Accepted, Rejected} && w.rows.verdicts.remediation !in {Resolved, Closed}
    ensures w.rows.verdicts.reconciliation == Mismatch ==> w.rows.verdicts.remediation == Required
  {
    assert Live(w, id);
  }

  // ---- Over runs ----

  lemma {:induction false} DeskRunKeeps(d: Desk, acts: seq<Act>, e: Desk)
    requires DeskInv(d) && DeskRun(d, acts, e)
    ensures DeskInv(e)
    decreases |acts|
  {
    if acts != [] {
      DeskStep(d, acts[0]);
      DeskRunKeeps(Done(d, acts[0]), acts[1..], e);
    }
  }

  /** Every call reads the publication once the attempt it answers has been sent. */
  ghost predicate Prompt(d: Desk, acts: seq<Act>)
    decreases |acts|
  {
    acts != [] ==>
      && Can(d, acts[0]) && (acts[0].ReadPublication? ==> HasSent(d.w, acts[0].report.attemptId))
      && Prompt(Done(d, acts[0]), acts[1..])
  }

  lemma {:induction false} PromptReadings(d: Desk, acts: seq<Act>, e: Desk)
    requires DeskRun(d, acts, e) && Prompt(d, acts) && forall r | r in d.readings :: r.sentThen
    ensures forall r | r in e.readings :: r.sentThen
    decreases |acts|
  {
    if acts != [] {
      PromptReadings(Done(d, acts[0]), acts[1..], e);
    }
  }

  /** In every run of such calls a decision owed is only ever discharged by a decision. */
  lemma OwedUntilDecided(w: World, acts: seq<Act>, e: Desk, a: Act)
    requires Inv(w) && DeskRun(Desk(w, {}, {}), acts, e) && Prompt(Desk(w, {}, {}), acts) && Can(e, a)
    ensures !Discharges(e, a)
  {
    DeskRunKeeps(Desk(w, {}, {}), acts, e);
    PromptReadings(Desk(w, {}, {}), acts, e);
    DischargeExactly(e, a);
  }

  // ---- Exhibited runs ----

  lemma {:induction false} DeskThen(d: Desk, acts: seq<Act>, e: Desk, a: Act)
    requires DeskRun(d, acts, e) && Can(e, a)
    ensures DeskRun(d, acts + [a], Done(e, a))
    decreases |acts|
  {
    var f := Done(e, a);
    if acts == [] {
      assert [a][1..] == [] && DeskRun(f, [], f);
      assert acts + [a] == [a];
    } else {
      DeskThen(Done(d, acts[0]), acts[1..], e, a);
      assert (acts + [a])[1..] == acts[1..] + [a];
    }
  }

  /** Other callers' writes, as acts around the desk. */
  lemma {:induction false} Writing(d: Desk, before: seq<Act>, e: Desk, cs: seq<Commit>, u: World)
    returns (acts: seq<Act>)
    requires DeskRun(d, before, e) && Run(e.w, cs, u) && AllSafe(cs) && NoAnswer(cs)
    ensures DeskRun(d, acts, e.(w := u))
    decreases |cs|
  {
    if cs == [] {
      acts := before;
    } else {
      DeskThen(d, before, e, Write(cs[0]));
      acts := Writing(d, before + [Write(cs[0])], Done(e, Write(cs[0])), cs[1..], u);
    }
  }

  /** The rest of a call up to its transaction, with nothing in between. */
  lemma {:induction false} CheckedThrough(d: Desk, before: seq<Act>, e: Desk, r: Reading)
    returns (acts: seq<Act>, f: Desk, q: Reading)
    requires DeskRun(d, before, e) && r in e.readings && r.status.None? && e.w.rows.item.status == PROCESSING
    requires Passes(e, r.(status := Some(PROCESSING)))
    ensures DeskRun(d, acts, f) && f.w == e.w && e.readings <= f.readings
    ensures q == r.(status := Some(PROCESSING)) && q in f.checked
  {
    q := r.(status := Some(PROCESSING));
    var e1 := Done(e, ReadItem(r));
    DeskThen(d, before, e, ReadItem(r));
    DeskThen(d, before + [ReadItem(r)], e1, Check(q));
    acts, f := before + [ReadItem(r)] + [Check(q)], Done(e1, Check(q));
  }

  /** A claim dead-lettered while its attempt stands sent: no call yet to come takes a matching receipt, and one that
      had checked before still commits it, to an accepted publication. */
  lemma {:induction false} LateCommit() returns (acts: seq<Act>, e: Desk, r: Reading)
    ensures DeskRun(Desk(START, {}, {}), acts, e) && Can(e, Record(r))
    ensures e.w.rows.item.status == DEAD_LETTER && HasSent(e.w, r.report.attemptId)
    ensures !TakesLater(e.w, r.report.attemptId, ReceiptAccepted)
              && !TakesLater(e.w, r.report.attemptId, ReceiptRejected)
    ensures Done(e, Record(r)).w.rows.verdicts == Verdicts(Accepted, Matched, Resolved)
    ensures Done(e, Record(r)).w.rows.item.status == COMPLETED
  {
    FreshInv("body", "digest", OURS, 0);
    acts, e, r := LateCommitFrom(START);
  }

  lemma {:induction false} LateCommitFrom(w0: World) returns (acts: seq<Act>, e: Desk, r: Reading)
    requires Inv(w0) && Untouched(w0) && w0.rows.verdicts == Verdicts(NotSubmitted, NoReceipt, NotRequired)
    ensures DeskRun(Desk(w0, {}, {}), acts, e) && Can(e, Record(r))
    ensures e.w.rows.item.status == DEAD_LETTER && HasSent(e.w, r.report.attemptId)
    ensures !TakesLater(e.w, r.report.attemptId, ReceiptAccepted)
              && !TakesLater(e.w, r.report.attemptId, ReceiptRejected)
    ensures Done(e, Record(r)).w.rows.verdicts == Verdicts(Accepted, Matched, Resolved)
    ensures Done(e, Record(r)).w.rows.item.status == COMPLETED
  {
    var d := Desk(w0, {}, {});
    var report := Report("a1", Some("registration"), w0.rows.expected, ReceiptAccepted, 3);
    acts, e := FirstSent(w0, "t1", "a1");
    acts, e, r := Begun(d, acts, e, "r1", report);
    acts, e, r := CheckedThrough(d, acts, e, r);
    acts, e := Parked(d, acts, e, r, "t1");
    OpenedInv(w0);
    DeskRunKeeps(d, acts, e);
    LateReceiptExactly(e.w, "a1");
  }

  /** The first send, with nobody at the desk. */
  lemma {:induction false} FirstSent(w0: World, token: Token, id: AttemptId) returns (acts: seq<Act>, e: Desk)
    requires Untouched(w0)
    ensures DeskRun(Desk(w0, {}, {}), acts, e) && e == Desk(e.w, {}, {}) && OwnedBy(e.w.rows.item, token)
    ensures e.w.claims == [token] && e.w.rows.item.leaseExpiresAt == Some(10) && e.w.rows.expected == w0.rows.expected
    ensures e.w.rows.attempts.Keys == {id} && HasSent(e.w, id) && e.w.rows.attempts[id].number == 1
    ensures e.w.rows.attempts[id].expected == w0.rows.expected
    ensures e.w.rows.receipts == map[] && e.w.rows.verdicts == w0.rows.verdicts
  {
    var d := Desk(w0, {}, {});
    var cs, sent := FirstSend(w0, token, id);
    acts := Writing(d, [], d, cs, sent);
    e := d.(w := sent);
  }

  /** A call reads the publication. */
  lemma {:induction false} Begun(d: Desk, before: seq<Act>, e: Desk, receiptId: ReceiptId, report: Report)
    returns (acts: seq<Act>, f: Desk, r: Reading)
    requires DeskRun(d, before, e)
    ensures DeskRun(d, acts, f) && f == e.(readings := e.readings + {r}) && r == Opened(e, receiptId, report)
  {
    r := Opened(e, receiptId, report);
    DeskThen(d, before, e, ReadPublication(receiptId, report));
    acts, f := before + [ReadPublication(receiptId, report)], Done(e, ReadPublication(receiptId, report));
  }

  /** The owner dead-letters the item under a checked call. */
  lemma {:induction false} Parked(d: Desk, before: seq<Act>, e: Desk, r: Reading, token: Token)
    returns (acts: seq<Act>, f: Desk)
    requires DeskRun(d, before, e) && OwnedBy(e.w.rows.item, token) && r in e.checked
              && MayCommit(e.w, r.receiptId, r.report)
    requires Matches(e.w, r.report) && r.report.status.ReceiptAccepted?
    ensures DeskRun(d, acts, f) && f.w.rows.item.status == DEAD_LETTER && f.w.rows.attempts == e.w.rows.attempts
    ensures Can(f, Record(r)) && Done(f, Record(r)).w.rows.verdicts == Verdicts(Accepted, Matched, Resolved)
    ensures Done(f, Record(r)).w.rows.item.status == COMPLETED
  {
    DeskThen(d, before, e, Write(DeadLetter(token)));
    acts, f := before + [Write(DeadLetter(token))], Done(e, Write(DeadLetter(token)));
  }

  lemma OpenedInv(w: World)
    requires Inv(w)
    ensures DeskInv(Desk(w, {}, {}))
  {
  }

  /** A call that read the publication early accepts it over a mismatch recorded since, with no decision. */
  lemma {:induction false} EarlyDischarge() returns (acts: seq<Act>, e: Desk, r: Reading)
    ensures DeskRun(Desk(START, {}, {}), acts, e) && Can(e, Record(r)) && Discharges(e, Record(r))
  {
    acts, e, r := EarlyDischargeFrom(START);
  }

  lemma {:induction false} EarlyDischargeFrom(w0: World) returns (acts: seq<Act>, e: Desk, r: Reading)
    requires Untouched(w0) && w0.rows.verdicts == Verdicts(NotSubmitted, NoReceipt, NotRequired)
              && w0.rows.expected == OURS
    ensures DeskRun(Desk(w0, {}, {}), acts, e) && Can(e, Record(r)) && Discharges(e, Record(r))
  {
    hide Can, Done, Allowed, Apply, Discharges, Passes;
    var d := Desk(w0, {}, {});
    acts, e := FirstSent(w0, "t1", "a1");
    acts, e, r := Begun(d, acts, e, "r2", Report("a2", Some("second"), OURS, ReceiptAccepted, 3));
    acts, e := Misnamed(d, acts, e, "a1");
    acts, e := SentUnderNewClaim(d, acts, e, "t2", "a2");
    AcceptableOver(e, r);
    acts, e, r := CheckedThrough(d, acts, e, r);
    DischargedBy(e, r);
  }

  lemma AcceptableOver(e: Desk, r: Reading)
    requires HasSent(e.w, r.report.attemptId) && r.receiptId !in e.w.rows.receipts && !PriorVerdictConflict(r.seen)
    requires r.report.registrationId.Some? && !RegistrationTaken(e.w.rows.receipts, r.report.registrationId)
    ensures Passes(e, r.(status := Some(PROCESSING)))
  {
  }

  lemma DischargedBy(e: Desk, r: Reading)
    requires r in e.checked && MayCommit(e.w, r.receiptId, r.report) && Matches(e.w, r.report)
    requires r.report.status.ReceiptAccepted? && e.w.rows.verdicts.remediation == Required
    ensures Can(e, Record(r)) && Discharges(e, Record(r))
  {
  }

  /** A receipt about another capsule, read, checked and recorded in one go. */
  lemma {:induction false} Misnamed(d: Desk, before: seq<Act>, e: Desk, id: AttemptId) returns (acts: seq<Act>, f: Desk)
    requires DeskRun(d, before, e) && HasSent(e.w, id) && e.w.rows.attempts[id].expected == OURS
    requires e.w.rows.receipts == map[] && e.w.rows.item.status == PROCESSING
    ensures DeskRun(d, acts, f) && e.readings <= f.readings && f.w.rows.item == e.w.rows.item
              && f.w.claims == e.w.claims
    ensures f.w.rows.verdicts == Verdicts(RegistrationPending, Mismatch, Required) && f.w.rows.receipts.Keys == {"r1"}
    ensures f.w.rows.receipts["r1"].registrationId == Some("first")
    ensures f.w.rows.attempts.Keys == e.w.rows.attempts.Keys && f.w.rows.expected == e.w.rows.expected
    ensures f.w.rows.attempts[id] == e.w.rows.attempts[id].(status := RECEIPT_RECORDED)
  {
    var q;
    acts, f, q := Begun(d, before, e, "r1", Report(id, Some("first"), OTHER, ReceiptAccepted, 2));
    acts, f, q := CheckedThrough(d, acts, f, q);
    DeskThen(d, acts, f, Record(q));
    acts, f := acts + [Record(q)], Done(f, Record(q));
  }

  /** The lease runs out, and a second claim sends again. */
  lemma {:induction false} SentUnderNewClaim(d: Desk, before: seq<Act>, e: Desk, token: Token, id: AttemptId)
    returns (acts: seq<Act>, f: Desk)
    requires DeskRun(d, before, e) && e.w.rows.item.status == PROCESSING && e.w.rows.item.leaseExpiresAt == Some(10)
    requires token !in e.w.claims && id !in e.w.rows.attempts
    requires forall k | k in e.w.rows.attempts :: e.w.rows.attempts[k].number != |e.w.claims| + 1
    ensures DeskRun(d, acts, f) && f.readings == e.readings && HasSent(f.w, id)
    ensures f.w.rows.attempts[id].expected == e.w.rows.expected && f.w.rows.verdicts == e.w.rows.verdicts
    ensures f.w.rows.receipts == e.w.rows.receipts && f.w.rows.item.status == PROCESSING
  {
    var free;
    acts, free := LeaseOver(d, before, e);
    hide Apply, Allowed, Run, AllSafe, NoAnswer, DeskRun, Can, Done;
    assert AllSafe(Sending(token, id, |e.w.claims| + 1, 10)) && NoAnswer(Sending(token, id, |e.w.claims| + 1, 10)) by {
      SendingIsPlain(token, id, |e.w.claims| + 1, 10);
    }
    SendingReaches(free.w, token, id, 10);
    acts := Writing(d, acts, free, Sending(token, id, |e.w.claims| + 1, 10), Sent(free.w, token, id, 10));
    f := free.(w := Sent(free.w, token, id, 10));
  }

  lemma SendingIsPlain(token: Token, id: AttemptId, number: nat, now: Instant)
    ensures AllSafe(Sending(token, id, number, now)) && NoAnswer(Sending(token, id, number, now))
  {
  }

  lemma {:induction false} LeaseOver(d: Desk, before: seq<Act>, e: Desk) returns (acts: seq<Act>, f: Desk)
    requires DeskRun(d, before, e) && e.w.rows.item.status == PROCESSING && e.w.rows.item.leaseExpiresAt == Some(10)
    ensures DeskRun(d, acts, f) && f.readings == e.readings && f.w.claims == e.w.claims
    ensures f.w.rows.attempts.Keys == e.w.rows.attempts.Keys && f.w.rows.receipts == e.w.rows.receipts
    ensures forall k | k in f.w.rows.attempts :: f.w.rows.attempts[k].number == e.w.rows.attempts[k].number
    ensures f.w.rows.expected == e.w.rows.expected && f.w.rows.verdicts == e.w.rows.verdicts
    ensures f.w.rows.item.status == RETRYABLE && f.w.rows.item.lockToken.None? && f.w.rows.item.availableAt == 10
  {
    DeskThen(d, before, e, Write(Recover(10, 10)));
    acts, f := before + [Write(Recover(10, 10))], Done(e, Write(Recover(10, 10)));
  }
}
