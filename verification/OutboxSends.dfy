/** What actually goes out: publication runs interleaved, each with its own claim, checking once and transmitting
    once, possibly long after the check. */
module OutboxSends {
  import opened Options
  import opened Sequences
  import opened OutboxProtocol
  import opened OutboxRuns
  import opened OutboxSending

  /** How far a run has come since its claim. */
  datatype Phase = Holding | Permitted | Transmitted

  /** `permitted` and `sent` list, in order, the claims whose send was checked and went out. */
  datatype Floor = Floor(w: World, runs: map<Token, Phase>, permitted: seq<Token>, sent: seq<Token>)

  datatype Move =
    | Begin(now: Instant, leaseExpiresAt: Instant, token: Token)
    | Permit(id: AttemptId, token: Token)
    | Transmit(token: Token)
    | Otherwise(c: Commit)

  predicate Can(f: Floor, m: Move) {
    match m
    case Begin(now, lease, token) => Allowed(f.w, Claim(now, lease, token))
    case Permit(id, token) => token in f.runs && f.runs[token] == Holding && Allowed(f.w, Clear(id, token))
    case Transmit(token) => token in f.runs && f.runs[token] == Permitted
    case Otherwise(c) => !c.Claim? && !c.Clear? && Safe(c) && Allowed(f.w, c)
  }

  function Next(f: Floor, m: Move): Floor
    requires Can(f, m)
  {
    match m
    case Begin(now, lease, token) => f.(w := Apply(f.w, Claim(now, lease, token)), runs := f.runs[token := Holding])
    case Permit(id, token) =>
      f.(w := Apply(f.w, Clear(id, token)), runs := f.runs[token := Permitted], permitted := f.permitted + [token])
    case Transmit(token) => f.(runs := f.runs[token := Transmitted], sent := f.sent + [token])
    case Otherwise(c) => f.(w := Apply(f.w, c))
  }

  ghost predicate FloorRun(f: Floor, ms: seq<Move>, g: Floor)
    decreases |ms|
  {
    if ms == [] then g == f else Can(f, ms[0]) && FloorRun(Next(f, ms[0]), ms[1..], g)
  }

  /** Which claim a token is, counting from the first. */
  function Nth(w: World, token: Token): int {
    IndexOf(w.claims, token)
  }

  ghost predicate InClaimOrder(w: World, ts: seq<Token>) {
    && (forall i | 0 <= i < |ts| :: ts[i] in w.claims)
    && (forall i, j | 0 <= i < j < |ts| :: Nth(w, ts[i]) < Nth(w, ts[j]))
  }

  ghost predicate FloorInv(f: Floor) {
    && Inv(f.w) && (forall t | t in f.runs :: t in f.w.claims)
    && InClaimOrder(f.w, f.permitted)
    && (forall t | t in f.permitted :: t in f.runs && f.runs[t] != Holding)
    && (forall t | t in f.runs && f.runs[t] != Holding :: t in f.permitted)
    && NoRepeats(f.sent) && (forall t | t in f.sent :: t in f.runs && f.runs[t] == Transmitted)
  }

  lemma {:induction false} IndexGrows(s: seq<Token>, t: Token, x: Token)
    requires t in s
    ensures IndexOf(s + [x], t) == IndexOf(s, t)
  {
    if s[0] != t {
      assert (s + [x])[1..] == s[1..] + [x];
      IndexGrows(s[1..], t, x);
    }
  }

  lemma ClaimsGrow(w: World, c: Commit)
    requires Allowed(w, c)
    ensures Apply(w, c).claims == if c.Claim? then w.claims + [c.token] else w.claims
  {
  }

  lemma OrderOutlastsClaim(w: World, c: Commit, ts: seq<Token>)
    requires Allowed(w, c) && InClaimOrder(w, ts)
    ensures InClaimOrder(Apply(w, c), ts)
  {
    ClaimsGrow(w, c);
    if c.Claim? {
      forall t | t in w.claims ensures Nth(Apply(w, c), t) == Nth(w, t) {
        IndexGrows(w.claims, t, c.token);
      }
    }
  }

  /** The check is made by the latest claim, so it comes after every other's. */
  lemma PermitComesLast(w: World, id: AttemptId, token: Token, ts: seq<Token>)
    requires Inv(w) && Allowed(w, Clear(id, token)) && InClaimOrder(w, ts) && token !in ts
    ensures InClaimOrder(w, ts + [token])
  {
    var last := |w.claims| - 1;
    forall i | 0 <= i < |ts| ensures Nth(w, ts[i]) < Nth(w, token) {
      assert ts[i] in ts && ts[i] != token;
      assert Nth(w, token) == last;
    }
  }

  lemma FloorStep(f: Floor, m: Move)
    requires FloorInv(f) && Can(f, m)
    ensures FloorInv(Next(f, m))
  {
    match m
    case Begin(now, lease, token) => BeginKeeps(f, m);
    case Permit(id, token) => PermitKeeps(f, m);
    case Transmit(token) => TransmitKeeps(f, m);
    case Otherwise(c) => OtherwiseKeeps(f, m);
  }

  lemma BeginKeeps(f: Floor, m: Move)
    requires FloorInv(f) && m.Begin? && Can(f, m)
    ensures FloorInv(Next(f, m))
  {
    hide Inv, Apply, InClaimOrder, NoRepeats;
    var c := Claim(m.now, m.leaseExpiresAt, m.token);
    assert m.token !in f.w.claims;
    StepKeepsInv(f.w, c);
    ClaimsGrow(f.w, c);
    OrderOutlastsClaim(f.w, c, f.permitted);
  }

  lemma PermitKeeps(f: Floor, m: Move)
    requires FloorInv(f) && m.Permit? && Can(f, m)
    ensures FloorInv(Next(f, m))
  {
    hide Inv, Apply, Allowed, InClaimOrder, NoRepeats;
    StepKeepsInv(f.w, Clear(m.id, m.token));
    ClaimsGrow(f.w, Clear(m.id, m.token));
    PermitComesLast(f.w, m.id, m.token, f.permitted);
    OrderOutlastsClaim(f.w, Clear(m.id, m.token), f.permitted + [m.token]);
  }

  lemma TransmitKeeps(f: Floor, m: Move)
    requires FloorInv(f) && m.Transmit? && Can(f, m)
    ensures FloorInv(Next(f, m))
  {
    hide Inv, InClaimOrder;
    assert m.token !in f.sent;
  }

  lemma OtherwiseKeeps(f: Floor, m: Move)
    requires FloorInv(f) && m.Otherwise? && Can(f, m)
    ensures FloorInv(Next(f, m))
  {
    hide Inv, Apply, Allowed, InClaimOrder, NoRepeats;
    StepKeepsInv(f.w, m.c);
    ClaimsGrow(f.w, m.c);
    OrderOutlastsClaim(f.w, m.c, f.permitted);
  }

  /** Over every interleaving: each claim is sent for at most once, only after its own check, and the checks follow
      claim order. */
  lemma {:induction false} SendsOnce(f: Floor, ms: seq<Move>, g: Floor)
    requires FloorInv(f) && FloorRun(f, ms, g)
    ensures FloorInv(g) && NoRepeats(g.sent) && InClaimOrder(g.w, g.permitted)
    ensures forall t | t in g.sent :: t in g.permitted
    decreases |ms|
  {
    if ms != [] {
      FloorStep(f, ms[0]);
      SendsOnce(Next(f, ms[0]), ms[1..], g);
    }
  }

  /** The sends themselves keep claim order exactly as long as none goes out after a later claim's. */
  lemma SendOrderExactly(f: Floor, token: Token)
    requires FloorInv(f) && InClaimOrder(f.w, f.sent) && Can(f, Transmit(token))
    ensures InClaimOrder(f.w, Next(f, Transmit(token)).sent) <==>
              forall t | t in f.sent :: Nth(f.w, t) < Nth(f.w, token)
  {
    hide Inv, Apply, IndexOf;
    var ts := f.sent + [token];
    if InClaimOrder(f.w, ts) {
      forall t | t in f.sent ensures Nth(f.w, t) < Nth(f.w, token) {
        var i :| 0 <= i < |f.sent| && f.sent[i] == t;
        assert ts[i] == t && ts[|f.sent|] == token;
      }
    }
  }

  /** In particular a run whose claim is still the latest never breaks it. */
  lemma PresentClaimKeepsOrder(f: Floor, token: Token)
    requires FloorInv(f) && InClaimOrder(f.w, f.sent) && Can(f, Transmit(token))
    requires f.w.claims != [] && token == f.w.claims[|f.w.claims| - 1]
    ensures InClaimOrder(f.w, Next(f, Transmit(token)).sent)
  {
    forall t | t in f.sent ensures Nth(f.w, t) < Nth(f.w, token) {
      assert t != token && t in f.w.claims;
    }
    SendOrderExactly(f, token);
  }

  // ---- A send that comes late ----

  lemma {:induction false} FloorThen(f: Floor, ms: seq<Move>, g: Floor, m: Move)
    requires FloorRun(f, ms, g) && Can(g, m)
    ensures FloorRun(f, ms + [m], Next(g, m))
    decreases |ms|
  {
    var h := Next(g, m);
    if ms == [] {
      assert [m][1..] == [] && FloorRun(h, [], h);
      assert ms + [m] == [m];
    } else {
      FloorThen(Next(f, ms[0]), ms[1..], g, m);
      assert (ms + [m])[1..] == ms[1..] + [m];
    }
  }

  lemma NoMoves(f: Floor)
    ensures FloorRun(f, [], f)
  {
  }

  /** Claim, prepare and pass the check. */
  lemma {:induction false} CheckedClaim(f: Floor, before: seq<Move>, g: Floor, token: Token, id: AttemptId,
      now: Instant)
    returns (ms: seq<Move>, h: Floor)
    requires FloorRun(f, before, g) && Claimable(g.w.rows.item.status) && g.w.rows.item.availableAt <= now
    requires g.w.rows.item.lockToken.None? && token !in g.w.claims && id !in g.w.rows.attempts
    requires forall k | k in g.w.rows.attempts :: g.w.rows.attempts[k].number != |g.w.claims| + 1
    ensures FloorRun(f, ms, h) && h.runs == g.runs[token := Permitted] && h.sent == g.sent
    ensures h.w.claims == g.w.claims + [token] && h.w.rows.attempts.Keys == g.w.rows.attempts.Keys + {id}
    ensures forall k | k in g.w.rows.attempts :: h.w.rows.attempts[k].number == g.w.rows.attempts[k].number
    ensures h.w.rows.attempts[id].number == |g.w.claims| + 1
    ensures h.w.rows.item.status == PROCESSING && h.w.rows.item.leaseExpiresAt == Some(now + 10)
  {
    hide Apply, Allowed, FloorRun, Claimable;
    var prepared := Prepared(Claimed(g.w, token, now), token, id, now);
    ms, h := PreparedClaim(f, before, g, token, id, now);
    SendingEnds(prepared, token, id, now);
    FloorThen(f, ms, h, Permit(id, token));
    ms, h := ms + [Permit(id, token)], Next(h, Permit(id, token));
  }

  lemma {:induction false} PreparedClaim(f: Floor, before: seq<Move>, g: Floor, token: Token, id: AttemptId,
      now: Instant)
    returns (ms: seq<Move>, h: Floor)
    requires FloorRun(f, before, g) && Claimable(g.w.rows.item.status) && g.w.rows.item.availableAt <= now
    requires g.w.rows.item.lockToken.None? && token !in g.w.claims && id !in g.w.rows.attempts
    requires forall k | k in g.w.rows.attempts :: g.w.rows.attempts[k].number != |g.w.claims| + 1
    ensures FloorRun(f, ms, h)
    ensures h == g.(w := Prepared(Claimed(g.w, token, now), token, id, now), runs := g.runs[token := Holding])
  {
    hide Apply, Allowed, FloorRun, Claimable, Prepared, Claimed;
    SendingBegins(g.w, token, id, now);
    var claimed := Claimed(g.w, token, now);
    FloorThen(f, before, g, Begin(now, now + 10, token));
    ms, h := before + [Begin(now, now + 10, token)], g.(w := claimed, runs := g.runs[token := Holding]);
    var m := Otherwise(Prepare(id, |g.w.claims| + 1, token, now));
    FloorThen(f, ms, h, m);
    ms, h := ms + [m], Next(h, m);
  }

  /** The first run passes its check and stalls; its claim is recovered, a second run claims and sends, and then the
      first one's request goes out after all. */
  lemma {:induction false} LateSend() returns (ms: seq<Move>, g: Floor)
    ensures FloorRun(Floor(START, map[], [], []), ms, g) && g.sent == ["t2", "t1"] && g.w.claims == ["t1", "t2"]
    ensures !InClaimOrder(g.w, g.sent)
  {
    ms, g := LateSendFrom(START);
    assert g.sent[0] == "t2" && g.sent[1] == "t1";
  }

  lemma {:induction false} LateSendFrom(w: World) returns (ms: seq<Move>, g: Floor)
    requires Untouched(w)
    ensures FloorRun(Floor(w, map[], [], []), ms, g) && g.sent == ["t2", "t1"] && g.w.claims == ["t1", "t2"]
  {
    hide Apply, Allowed, FloorRun;
    var f := Floor(w, map[], [], []);
    assert FloorRun(f, [], f) by { NoMoves(f); }
    ms, g := CheckedClaim(f, [], f, "t1", "a1", 0);
    ms, g := Recovered(f, ms, g, 10);
    ms, g := CheckedClaim(f, ms, g, "t2", "a2", 10);
    FloorThen(f, ms, g, Transmit("t2"));
    ms, g := ms + [Transmit("t2")], Next(g, Transmit("t2"));
    FloorThen(f, ms, g, Transmit("t1"));
    ms, g := ms + [Transmit("t1")], Next(g, Transmit("t1"));
  }

  lemma {:induction false} Recovered(f: Floor, before: seq<Move>, g: Floor, now: Instant)
    returns (ms: seq<Move>, h: Floor)
    requires FloorRun(f, before, g) && g.w.rows.item.status == PROCESSING && g.w.rows.item.leaseExpiresAt == Some(now)
    ensures FloorRun(f, ms, h) && h.runs == g.runs && h.sent == g.sent && h.w.claims == g.w.claims
    ensures h.w.rows.item.status == RETRYABLE && h.w.rows.item.lockToken.None? && h.w.rows.item.availableAt == now
    ensures h.w.rows.attempts.Keys == g.w.rows.attempts.Keys
    ensures forall k | k in g.w.rows.attempts :: h.w.rows.attempts[k].number == g.w.rows.attempts[k].number
  {
    FloorThen(f, before, g, Otherwise(Recover(now, now)));
    ms, h := before + [Otherwise(Recover(now, now))], Next(g, Otherwise(Recover(now, now)));
  }
}
