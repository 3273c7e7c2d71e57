/** The bare repository retry: giving a claim up while its attempt can still be answered. */
module OutboxRetry {
  import opened Options
  import opened OutboxProtocol
  import opened OutboxRuns
  import opened OutboxSending

  /** A bare retry keeps the invariant exactly when the claim it gives up has no attempt that could still be
      answered. */
  lemma RawRetryExactly(w: World, token: Token, at: Instant)
    requires Inv(w) && Allowed(w, RawRetry(token, at))
    ensures Inv(Apply(w, RawRetry(token, at))) <==> forall id :: !Live(w, id)
  {
    StepExactly(w, RawRetry(token, at));
  }

  /** What a caller can see: the retry is safe whatever dispatch calls are under way exactly when the claim given up
      has no open attempt. */
  lemma VisiblyQuietExactly(w: World, token: Token)
    requires Inv(w) && OwnedBy(w.rows.item, token)
    ensures (forall u: World | Inv(u) && SameRows(w, u) :: NoneLive(u)) <==>
            forall id | id in w.rows.attempts && w.rows.attempts[id].number == |w.claims| ::
                !Open(w.rows.attempts[id].status)
  {
    if id :| id in w.rows.attempts && w.rows.attempts[id].number == |w.claims| && Open(w.rows.attempts[id].status) {
      var u := if w.rows.attempts[id].status == DISPATCHED then w else Apply(w, Clear(id, token));
      if u != w {
        StepKeepsInv(w, Clear(id, token));
      }
      assert Inv(u) && SameRows(w, u) && Live(u, id);
    } else {
      forall u: World | Inv(u) && SameRows(w, u) ensures NoneLive(u) {
      }
    }
  }

  /** Differing at most in the calls under way. */
  predicate SameRows(w: World, u: World) { u.rows == w.rows && u.claims == w.claims }

  /** Some later run accepts the publication, and one more write takes the acceptance back. */
  ghost predicate Unsettles(u: World) {
    exists cs: seq<Commit>, x: World, c: Commit :: Run(u, cs, x) && AllSafe(cs) && TakesBack(x, c)
  }

  ghost predicate TakesBack(x: World, c: Commit) {
    && Safe(c) && Allowed(x, c)
    && x.rows.verdicts.registration == Accepted && x.rows.item.payload.None?
    && Apply(x, c).rows.verdicts.registration != Accepted
  }

  /** What it costs, in outcomes: a bare retry opens the way to un-accepting a publication whose body is already gone
      exactly when some attempt could still be answered. */
  lemma RetryUnsettlesExactly(w: World, token: Token, at: Instant)
    requires Inv(w) && Allowed(w, RawRetry(token, at))
    ensures Unsettles(Apply(w, RawRetry(token, at))) <==> exists id :: Live(w, id)
  {
    var u := Apply(w, RawRetry(token, at));
    if id :| Live(w, id) {
      var cs, x, c := Unsettling(w, id, token, at);
    } else {
      RawRetryExactly(w, token, at);
      forall cs: seq<Commit>, x: World, c: Commit | Run(u, cs, x) && AllSafe(cs)
        ensures !TakesBack(x, c)
      {
        RunKeepsInv(u, cs, x);
        SettledNotTakenBack(x, c);
      }
    }
  }

  lemma SettledNotTakenBack(x: World, c: Commit)
    requires Inv(x)
    ensures !TakesBack(x, c)
  {
    if Allowed(x, c) && x.rows.verdicts.registration == Accepted {
      SettledStep(x, c);
    }
  }

  /** The way there: record the send if it was still under way, send again under a new claim and have that accepted;
      then a receipt about something else answers the attempt given up. */
  lemma {:induction false} Unsettling(w: World, id: AttemptId, token: Token, at: Instant)
    returns (cs: seq<Commit>, x: World, c: Commit)
    requires Inv(w) && Allowed(w, RawRetry(token, at)) && Live(w, id)
    ensures Run(Apply(w, RawRetry(token, at)), cs, x) && AllSafe(cs) && TakesBack(x, c)
  {
    hide TakesBack;
    var u := Apply(w, RawRetry(token, at));
    var early, v := SendRecorded(u, id);
    var late, sent, y := SentAgain(v, id, at);
    RunJoin(u, early, v, late, sent);
    cs, x, c := AcceptedAndBack(u, early + late, sent, y, id);
  }

  lemma {:induction false} AcceptedAndBack(u: World, before: seq<Commit>, sent: World, y: AttemptId, id: AttemptId)
    returns (cs: seq<Commit>, x: World, c: Commit)
    requires Run(u, before, sent) && AllSafe(before) && HasSent(sent, y) && HasSent(sent, id) && y != id
    ensures Run(u, cs, x) && AllSafe(cs) && TakesBack(x, c)
  {
    var r := FreshName(sent.rows.receipts.Keys);
    var registration := FreshName(set k | k in sent.rows.receipts && sent.rows.receipts[k].registrationId.Some?
                                    :: sent.rows.receipts[k].registrationId.value);
    var accepting :=
        Answer(r, Receipt(y, Some(registration), sent.rows.attempts[y].expected, ReceiptAccepted, 0, true));
    RunThen(u, before, sent, accepting);
    cs, x := before + [accepting], Apply(sent, accepting);
    c := Misreport(x, id);
  }

  predicate Numbered(w: World) {
    forall k | k in w.rows.attempts :: w.rows.attempts[k].number <= |w.claims|
  }

  lemma {:induction false} SendRecorded(u: World, id: AttemptId) returns (cs: seq<Commit>, v: World)
    requires Live(u, id)
    ensures Run(u, cs, v) && AllSafe(cs) && HasSent(v, id)
    ensures v.rows.item == u.rows.item && v.claims == u.claims && (Numbered(u) ==> Numbered(v))
  {
    if u.rows.attempts[id].status == DISPATCHED {
      cs, v := [], u;
    } else {
      RunThen(u, [], u, Dispatch(id, 0));
      cs, v := [] + [Dispatch(id, 0)], Apply(u, Dispatch(id, 0));
    }
  }

  lemma {:induction false} SentAgain(v: World, id: AttemptId, at: Instant)
    returns (cs: seq<Commit>, u: World, y: AttemptId)
    requires HasSent(v, id) && Numbered(v)
    requires v.rows.item.status == RETRYABLE && v.rows.item.lockToken.None? && v.rows.item.availableAt == at
    ensures Run(v, cs, u) && AllSafe(cs) && HasSent(u, id) && HasSent(u, y) && y != id
  {
    var token := FreshName(set t | t in v.claims);
    y := FreshName(v.rows.attempts.Keys);
    SendingReaches(v, token, y, at);
    cs, u := Sending(token, y, |v.claims| + 1, at), Sent(v, token, y, at);
  }

  /** A refusal of another capsule, for this attempt. */
  lemma {:induction false} Misreport(x: World, id: AttemptId) returns (c: Commit)
    requires HasSent(x, id)
    ensures c.Answer? && Allowed(x, c) && Apply(x, c).rows.verdicts == Verdicts(RegistrationPending, Mismatch, Required)
  {
    var expected := x.rows.attempts[id].expected;
    var r := FreshName(x.rows.receipts.Keys);
    c := Answer(r, Receipt(id, None, expected.(capsuleId := expected.capsuleId + "x"), ReceiptRejected, 0, false));
    assert |expected.capsuleId + "x"| != |expected.capsuleId|;
  }

  /** From the very start: a send, a bare retry, a second send that is accepted, and the acceptance taken back. */
  lemma {:induction false} RawRetryUnsettles() returns (cs: seq<Commit>, w: World, token: Token, at: Instant)
    ensures Run(START, cs, w) && AllSafe(cs) && Allowed(w, RawRetry(token, at))
              && Unsettles(Apply(w, RawRetry(token, at)))
  {
    FreshInv("body", "digest", OURS, 0);
    cs, w, token, at := RetryFrom(START);
  }

  lemma {:induction false} RetryFrom(w0: World) returns (cs: seq<Commit>, w: World, token: Token, at: Instant)
    requires Inv(w0) && Untouched(w0)
    ensures Run(w0, cs, w) && AllSafe(cs) && Allowed(w, RawRetry(token, at)) && Unsettles(Apply(w, RawRetry(token, at)))
  {
    token, at := "t1", 2;
    cs, w := FirstSend(w0, token, "a1");
    RunKeepsInv(w0, cs, w);
    assert Live(w, "a1");
    RetryUnsettlesExactly(w, token, at);
  }
}
