/** Late receipts: which a fresh call still takes, and what a call that read its rows earlier can still commit. */
module OutboxReceipts {
  import opened Options
  import opened OutboxProtocol
  import opened OutboxRuns
  import opened OutboxSending
  import opened PublicationStore

  // ---- A fresh call ----

  /** A call made now takes some receipt of this verdict that names the publication, for this attempt. */
  ghost predicate Takes(w: World, id: AttemptId, status: ReceiptStatus) {
    exists receiptId: ReceiptId, report: Report ::
      MayRecord(w, receiptId, report) && report.attemptId == id && report.status == status && Matches(w, report)
  }

  ghost predicate TakesLater(w: World, id: AttemptId, status: ReceiptStatus) {
    exists cs: seq<Commit>, u: World :: Run(w, cs, u) && AllSafe(cs) && Takes(u, id, status)
  }

  /** Whether a sent attempt's matching receipt can ever be taken by a call yet to come is decided now: a refusal
      exactly while the item is PROCESSING, an acceptance if moreover no mismatch stands. */
  lemma LateReceiptExactly(w: World, id: AttemptId)
    requires Inv(w) && HasSent(w, id)
    ensures TakesLater(w, id, ReceiptRejected) <==> w.rows.item.status == PROCESSING
    ensures TakesLater(w, id, ReceiptAccepted) <==>
            w.rows.item.status == PROCESSING && w.rows.verdicts.reconciliation != Mismatch
  {
    TakenNowExactly(w, id, ReceiptRejected);
    TakenNowExactly(w, id, ReceiptAccepted);
    assert Run(w, [], w);
    forall status: ReceiptStatus, cs: seq<Commit>, u: World | Run(w, cs, u) && AllSafe(cs) && Takes(u, id, status)
      ensures Takes(w, id, status)
    {
      TakenLaterTakenNow(w, cs, u, id, status);
    }
  }

  predicate CanTake(w: World, id: AttemptId, status: ReceiptStatus) {
    && HasSent(w, id) && w.rows.item.status == PROCESSING
    && (status.ReceiptAccepted? ==> w.rows.verdicts.reconciliation != Mismatch)
  }

  lemma TakenNowExactly(w: World, id: AttemptId, status: ReceiptStatus)
    ensures Takes(w, id, status) <==> CanTake(w, id, status)
  {
    if CanTake(w, id, status) {
      var receiptId := FreshName(w.rows.receipts.Keys);
      var registration := FreshName(set k | k in w.rows.receipts && w.rows.receipts[k].registrationId.Some?
                                      :: w.rows.receipts[k].registrationId.value);
      var report := Report(id, Some(registration), w.rows.attempts[id].expected, status, 0);
      assert MayRecord(w, receiptId, report) && Matches(w, report);
    }
  }

  /** Past sending, and no call yet to come can take it. */
  predicate Barred(w: World, id: AttemptId, status: ReceiptStatus) {
    id in w.rows.attempts && w.rows.attempts[id].status != PREPARED && !CanTake(w, id, status)
  }

  lemma BarredStep(w: World, c: Commit, id: AttemptId, status: ReceiptStatus)
    requires Inv(w) && Allowed(w, c) && Safe(c) && Barred(w, id, status)
    ensures Barred(Apply(w, c), id, status)
  {
    hide Inv;
    StepMovesForward(w, c, id);
    SentIsHeld(w, id);
    if c.Answer? {
      AnswersTheOnlyLive(w, c, id);
    }
  }

  lemma SentIsHeld(w: World, id: AttemptId)
    requires Inv(w)
    ensures HasSent(w, id) ==> w.rows.item.status in {PROCESSING, COMPLETED, DEAD_LETTER}
  {
    assert HasSent(w, id) ==> Live(w, id);
  }

  lemma AnswersTheOnlyLive(w: World, c: Commit, id: AttemptId)
    requires Inv(w) && Allowed(w, c) && c.Answer?
    ensures !HasSent(Apply(w, c), id)
  {
    AnswerLeavesNoneLive(w, c);
    assert !Live(Apply(w, c), id);
  }

  lemma {:induction false} TakenLaterTakenNow(w: World, cs: seq<Commit>, u: World, id: AttemptId, status: ReceiptStatus)
    requires Inv(w) && HasSent(w, id) && Run(w, cs, u) && AllSafe(cs) && Takes(u, id, status)
    ensures Takes(w, id, status)
  {
    TakenNowExactly(w, id, status);
    TakenNowExactly(u, id, status);
    if !CanTake(w, id, status) {
      BarredForever(w, cs, u, id, status);
    }
  }

  lemma {:induction false} BarredForever(w: World, cs: seq<Commit>, u: World, id: AttemptId, status: ReceiptStatus)
    requires Inv(w) && Barred(w, id, status) && Run(w, cs, u) && AllSafe(cs)
    ensures Barred(u, id, status)
    decreases |cs|
  {
    if cs != [] {
      BarredStep(w, cs[0], id, status);
      StepKeepsInv(w, cs[0]);
      BarredForever(Apply(w, cs[0]), cs[1..], u, id, status);
    }
  }
}
