/** A claim followed by a send with nothing in between, the building block of the exhibited runs. */
module OutboxSending {
  import opened Options
  import opened OutboxProtocol
  import opened OutboxRuns

  const OURS := Identity("registrar", "node", "capsule", "hash")
  const OTHER := Identity("registrar", "node", "another capsule", "hash")

  function Accepting(attemptId: AttemptId, reported: Identity): Receipt {
    Receipt(attemptId, Some(attemptId), reported, ReceiptAccepted, 0, reported == OURS)
  }

  const START := Fresh("body", "digest", OURS, 0)

  function Claimed(w: World, token: Token, now: Instant): World {
    World(w.rows.(item := w.rows.item.(status := PROCESSING, lockToken := Some(token), lockedAt := Some(now),
                                       leaseExpiresAt := Some(now + 10), attemptCount := w.rows.item.attemptCount + 1)),
          w.claims + [token], w.cleared)
  }

  function Prepared(w: World, token: Token, id: AttemptId, now: Instant): World {
    w.(rows := w.rows.(attempts :=
        w.rows.attempts[id := Attempt(|w.claims|, Bound(token), w.rows.expected, w.rows.item.payloadHash,
                                   PREPARED, now, None)]))
  }

  /** The state a claim followed by a send leaves. */
  function Sent(w: World, token: Token, id: AttemptId, now: Instant): World {
    var u := Prepared(Claimed(w, token, now), token, id, now);
    World(u.rows.(attempts :=
        u.rows.attempts[id := u.rows.attempts[id].(status := DISPATCHED, dispatchedAt := Some(now + 1))]),
          u.claims, u.cleared + {id})
  }

  function Sending(token: Token, id: AttemptId, number: nat, now: Instant): seq<Commit> {
    [Claim(now, now + 10, token), Prepare(id, number, token, now), Clear(id, token), Dispatch(id, now + 1)]
  }

  /** Claim, prepare, check and send, with nothing in between. */
  lemma {:induction false} SendingReaches(w: World, token: Token, id: AttemptId, now: Instant)
    requires Claimable(w.rows.item.status) && w.rows.item.availableAt <= now && w.rows.item.lockToken.None?
    requires token !in w.claims && id !in w.rows.attempts
    requires forall k | k in w.rows.attempts :: w.rows.attempts[k].number != |w.claims| + 1
    ensures Run(w, Sending(token, id, |w.claims| + 1, now), Sent(w, token, id, now))
  {
    var cs := Sending(token, id, |w.claims| + 1, now);
    var w1 := Claimed(w, token, now);
    var w2 := Prepared(w1, token, id, now);
    SendingBegins(w, token, id, now);
    SendingEnds(w2, token, id, now);
    FourSteps(w, cs, w1, w2, w2.(cleared := w2.cleared + {id}), Sent(w, token, id, now));
  }

  lemma SendingBegins(w: World, token: Token, id: AttemptId, now: Instant)
    requires Claimable(w.rows.item.status) && w.rows.item.availableAt <= now && w.rows.item.lockToken.None?
    requires token !in w.claims && id !in w.rows.attempts
    requires forall k | k in w.rows.attempts :: w.rows.attempts[k].number != |w.claims| + 1
    ensures Allowed(w, Claim(now, now + 10, token)) && Apply(w, Claim(now, now + 10, token)) == Claimed(w, token, now)
    ensures Allowed(Claimed(w, token, now), Prepare(id, |w.claims| + 1, token, now))
    ensures Apply(Claimed(w, token, now), Prepare(id, |w.claims| + 1, token, now))
              == Prepared(Claimed(w, token, now), token, id, now)
  {
  }

  lemma SendingEnds(w: World, token: Token, id: AttemptId, now: Instant)
    requires id in w.rows.attempts && w.rows.attempts[id].status == PREPARED
              && w.rows.attempts[id].claim == Bound(token)
    requires OwnedBy(w.rows.item, token)
    ensures Allowed(w, Clear(id, token)) && Apply(w, Clear(id, token)) == w.(cleared := w.cleared + {id})
    ensures Allowed(w.(cleared := w.cleared + {id}), Dispatch(id, now + 1))
    ensures Apply(w.(cleared := w.cleared + {id}), Dispatch(id, now + 1))
         == World(w.rows.(attempts :=
             w.rows.attempts[id := w.rows.attempts[id].(status := DISPATCHED, dispatchedAt := Some(now + 1))]),
                  w.claims, w.cleared + {id})
  {
  }

  lemma {:induction false} FourSteps(w: World, cs: seq<Commit>, w1: World, w2: World, w3: World, w4: World)
    requires |cs| == 4
    requires Allowed(w, cs[0]) && w1 == Apply(w, cs[0]) && Allowed(w1, cs[1]) && w2 == Apply(w1, cs[1])
    requires Allowed(w2, cs[2]) && w3 == Apply(w2, cs[2]) && Allowed(w3, cs[3]) && w4 == Apply(w3, cs[3])
    ensures Run(w, cs, w4)
  {
    assert Run(w4, cs[4..], w4);
    assert cs[3..][1..] == cs[4..] && Run(w3, cs[3..], w4);
    assert cs[2..][1..] == cs[3..] && Run(w2, cs[2..], w4);
    assert cs[1..][1..] == cs[2..] && Run(w1, cs[1..], w4);
  }

  /** Sent and neither answered nor abandoned. */
  predicate HasSent(w: World, id: AttemptId) { id in w.rows.attempts && w.rows.attempts[id].status == DISPATCHED }

  /** Nothing has happened yet. */
  predicate Untouched(w: World) {
    && w.rows.item.status == PENDING && w.rows.item.lockToken.None? && w.rows.item.availableAt <= 0
    && w.rows.item.attemptCount == 0 && w.claims == [] && w.rows.attempts == map[] && w.rows.receipts == map[]
        && w.rows.remediations == map[]
  }

  predicate NoAnswer(cs: seq<Commit>) { forall c | c in cs :: !c.Answer? }

  /** The first send from there. */
  lemma {:induction false} FirstSend(w0: World, token: Token, id: AttemptId) returns (cs: seq<Commit>, w: World)
    requires Untouched(w0)
    ensures Run(w0, cs, w) && AllSafe(cs) && NoAnswer(cs) && OwnedBy(w.rows.item, token) && w.claims == [token]
    ensures w.rows.attempts.Keys == {id} && w.rows.attempts[id].status == DISPATCHED
              && w.rows.attempts[id].expected == w0.rows.expected
    ensures w.rows.receipts == map[] && w.rows.remediations == map[] && w.rows.expected == w0.rows.expected
    ensures w.rows.item.payload == w0.rows.item.payload && w.rows.item.leaseExpiresAt == Some(10)
    ensures w.rows.verdicts == w0.rows.verdicts && w.rows.attempts[id].number == 1
  {
    SendingReaches(w0, token, id, 0);
    cs, w := Sending(token, id, 1, 0), Sent(w0, token, id, 0);
  }

  /** There is always a name not used yet. */
  lemma {:induction false} FreshName(used: set<string>) returns (name: string)
    ensures name !in used
  {
    var n := LongerThanAll(used);
    name := seq(n, _ => 'x');
  }

  lemma {:induction false} LongerThanAll(used: set<string>) returns (n: nat)
    ensures forall x | x in used :: |x| < n
    decreases |used|
  {
    if used == {} {
      n := 0;
    } else {
      var x :| x in used;
      var m := LongerThanAll(used - {x});
      n := if m <= |x| then |x| + 1 else m;
      forall y | y in used ensures |y| < n {
        assert y == x || y in used - {x};
      }
    }
  }
}
