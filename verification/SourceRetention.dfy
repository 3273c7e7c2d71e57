/** Where an authoritative payload is, whether it is held, and when it may be archived or destroyed. */
module SourceRetention {
  import opened Options
  import opened Gates
  import opened Sequences

  datatype Storage = HOT | ARCHIVE_PENDING | ARCHIVED | PURGED

  datatype Retention = Retention(storage: Storage, held: bool)

  datatype CopyKind = NoCopy | SourceSnapshot | CapsuleBody | RegistrarCopy

  /** What the decisions are computed from, as the callers know it at one moment. */
  datatype Facts = Facts(
    current: bool,
    needsHotAccess: bool,
    destinationAvailable: bool,
    preparationDurable: bool,
    windowOpen: bool,
    financialRetention: bool,
    reconciled: bool,
    copy: CopyKind,
    copyVerified: bool,
    reconstructionRequired: bool,
    verificationOnlyAuthorized: bool)

  datatype Reason =
    | SourceVersionIsCurrent | HotAccessStillRequired | DestinationUnavailable | PreparationNotDurable
    | LegalHoldInForce | TransitionNotPermitted | StateNotArchived | WindowOpen | FinancialRetentionApplies
    | ReconciliationIncomplete | NoVerifiedCopy | ReconstructionStillRequired | VerificationOnlyNotAuthorized

  datatype Decision = Decision(allow: bool, reasons: seq<Reason>)

  /** ALLOW carries no reasons, DENY at least one. */
  predicate WellFormed(d: Decision) { d.allow <==> d.reasons == [] }

  function Next(s: Storage): set<Storage> {
    match s
    case HOT => {ARCHIVE_PENDING}
    case ARCHIVE_PENDING => {ARCHIVED, HOT}
    case ARCHIVED => {PURGED, HOT}
    case PURGED => {}
  }

  // ---- Decisions ----

  datatype Act = Destruction | Archival

  /** Each gate, and when it stands in the way of destroying the payload or of leaving hot storage. */
  predicate Blocks(act: Act, r: Retention, f: Facts, why: Reason) {
    match why
    case LegalHoldInForce => r.held
    case SourceVersionIsCurrent => f.current
    case StateNotArchived => act.Destruction? && r.storage != ARCHIVED
    case WindowOpen => act.Destruction? && f.windowOpen
    case FinancialRetentionApplies => act.Destruction? && f.financialRetention
    case ReconciliationIncomplete => act.Destruction? && !f.reconciled
    case NoVerifiedCopy => act.Destruction? && !(f.copy == SourceSnapshot && f.copyVerified)
    case ReconstructionStillRequired => act.Destruction? && f.reconstructionRequired
    case VerificationOnlyNotAuthorized => act.Destruction? && !f.verificationOnlyAuthorized
    case HotAccessStillRequired => act.Archival? && f.needsHotAccess
    case DestinationUnavailable => act.Archival? && !f.destinationAvailable
    case PreparationNotDurable => act.Archival? && !f.preparationDurable
    case TransitionNotPermitted => act.Archival? && r.storage != HOT
  }

  predicate Purgeable(r: Retention, f: Facts) { forall why :: !Blocks(Destruction, r, f, why) }
  predicate Archivable(r: Retention, f: Facts) { forall why :: !Blocks(Archival, r, f, why) }

  /** The order the gates are asked in. */
  function Asked(act: Act): seq<Reason> {
    match act
    case Destruction =>
      [LegalHoldInForce, StateNotArchived, SourceVersionIsCurrent, WindowOpen, FinancialRetentionApplies,
       ReconciliationIncomplete, NoVerifiedCopy, ReconstructionStillRequired, VerificationOnlyNotAuthorized]
    case Archival =>
      [SourceVersionIsCurrent, HotAccessStillRequired, DestinationUnavailable, PreparationNotDurable, LegalHoldInForce,
       TransitionNotPermitted]
  }

  lemma Listed()
    ensures var p := Asked(Destruction);
            && |p| == 9 && p[0] == LegalHoldInForce && p[1] == StateNotArchived && p[2] == SourceVersionIsCurrent
                && p[3] == WindowOpen
            && p[4] == FinancialRetentionApplies && p[5] == ReconciliationIncomplete && p[6] == NoVerifiedCopy
            && p[7] == ReconstructionStillRequired && p[8] == VerificationOnlyNotAuthorized
    ensures var a := Asked(Archival);
            && |a| == 6 && a[0] == SourceVersionIsCurrent && a[1] == HotAccessStillRequired
                && a[2] == DestinationUnavailable
            && a[3] == PreparationNotDurable && a[4] == LegalHoldInForce && a[5] == TransitionNotPermitted
  {
  }

  lemma AskedDistinct(act: Act)
    ensures NoRepeats(Asked(act))
  {
  }

  lemma AskedAll(act: Act, r: Retention, f: Facts, why: Reason)
    requires Blocks(act, r, f, why)
    ensures why in Asked(act)
  {
    match act
    case Destruction =>
    case Archival =>
  }

  ghost function Blocking(act: Act, r: Retention, f: Facts): Reason -> bool { why => Blocks(act, r, f, why) }

  /** All gates asked, the decision lists exactly the failing ones. */
  lemma Concluded(act: Act, r: Retention, f: Facts, d: Decision)
    requires d.reasons == Failing(Asked(act), Blocking(act, r, f), |Asked(act)|) && WellFormed(d)
    ensures Reports(d.reasons, Blocking(act, r, f))
    ensures d.allow <==> forall why :: !Blocks(act, r, f, why)
  {
    hide Asked, Failing;
    AskedDistinct(act);
    forall why | Blocks(act, r, f, why) ensures why in Asked(act) {
      AskedAll(act, r, f, why);
    }
    var fails := Blocking(act, r, f);
    assert forall why :: fails(why) <==> Blocks(act, r, f, why);
    AllAsked(Asked(act), fails, d.reasons);
  }

  /** Every failing gate is reported, once, and nothing else is. */
  method EvaluatePurge(r: Retention, f: Facts) returns (d: Decision)
    ensures Reports(d.reasons, Blocking(Destruction, r, f)) && WellFormed(d) && (d.allow <==> Purgeable(r, f))
    ensures d.reasons == Failing(Asked(Destruction), Blocking(Destruction, r, f), |Asked(Destruction)|)
    ensures LegalHoldInForce in d.reasons <==> r.held
    ensures StateNotArchived in d.reasons <==> r.storage != ARCHIVED
    ensures SourceVersionIsCurrent in d.reasons <==> f.current
    ensures WindowOpen in d.reasons <==> f.windowOpen
    ensures FinancialRetentionApplies in d.reasons <==> f.financialRetention
    ensures ReconciliationIncomplete in d.reasons <==> !f.reconciled
    ensures NoVerifiedCopy in d.reasons <==> f.copy != SourceSnapshot || !f.copyVerified
    ensures ReconstructionStillRequired in d.reasons <==> f.reconstructionRequired
    ensures VerificationOnlyNotAuthorized in d.reasons <==> !f.verificationOnlyAuthorized
  {
    hide Asked, Failing, Reports, Blocks;
    Listed();
    var reasons := PushStanding(r, f);
    reasons := PushRetention(reasons, r, f);
    d := Decision(reasons == [], reasons);
    Concluded(Destruction, r, f, d);
    PurgeReasons(r, f, d.reasons);
  }

  lemma PurgeReasons(r: Retention, f: Facts, reasons: seq<Reason>)
    requires Reports(reasons, Blocking(Destruction, r, f))
    ensures LegalHoldInForce in reasons <==> r.held
    ensures StateNotArchived in reasons <==> r.storage != ARCHIVED
    ensures SourceVersionIsCurrent in reasons <==> f.current
    ensures WindowOpen in reasons <==> f.windowOpen
    ensures FinancialRetentionApplies in reasons <==> f.financialRetention
    ensures ReconciliationIncomplete in reasons <==> !f.reconciled
    ensures NoVerifiedCopy in reasons <==> f.copy != SourceSnapshot || !f.copyVerified
    ensures ReconstructionStillRequired in reasons <==> f.reconstructionRequired
    ensures VerificationOnlyNotAuthorized in reasons <==> !f.verificationOnlyAuthorized
  {
    hide NoRepeats;
    Reported(reasons, Blocking(Destruction, r, f));
  }

  method PushStanding(r: Retention, f: Facts) returns (reasons: seq<Reason>)
    requires |Asked(Destruction)| == 9
    ensures reasons == Failing(Asked(Destruction), Blocking(Destruction, r, f), 4)
  {
    hide Asked, Failing;
    Listed();
    ghost var gates, fails := Asked(Destruction), Blocking(Destruction, r, f);
    NoneAsked(gates, fails);
    reasons := Push([], r.held, LegalHoldInForce, gates, fails, 0);
    reasons := Push(reasons, r.storage != ARCHIVED, StateNotArchived, gates, fails, 1);
    reasons := Push(reasons, f.current, SourceVersionIsCurrent, gates, fails, 2);
    reasons := Push(reasons, f.windowOpen, WindowOpen, gates, fails, 3);
  }

  method PushRetention(before: seq<Reason>, r: Retention, f: Facts) returns (reasons: seq<Reason>)
    requires |Asked(Destruction)| == 9 && before == Failing(Asked(Destruction), Blocking(Destruction, r, f), 4)
    ensures reasons == Failing(Asked(Destruction), Blocking(Destruction, r, f), 9)
  {
    hide Asked, Failing;
    Listed();
    ghost var gates, fails := Asked(Destruction), Blocking(Destruction, r, f);
    reasons := Push(before, f.financialRetention, FinancialRetentionApplies, gates, fails, 4);
    reasons := Push(reasons, !f.reconciled, ReconciliationIncomplete, gates, fails, 5);
    reasons := Push(reasons, f.copy != SourceSnapshot || !f.copyVerified, NoVerifiedCopy, gates, fails, 6);
    reasons := Push(reasons, f.reconstructionRequired, ReconstructionStillRequired, gates, fails, 7);
    reasons := Push(reasons, !f.verificationOnlyAuthorized, VerificationOnlyNotAuthorized, gates, fails, 8);
  }

  method EvaluateArchive(r: Retention, f: Facts) returns (d: Decision)
    ensures Reports(d.reasons, Blocking(Archival, r, f)) && WellFormed(d) && (d.allow <==> Archivable(r, f))
    ensures d.reasons == Failing(Asked(Archival), Blocking(Archival, r, f), |Asked(Archival)|)
    ensures SourceVersionIsCurrent in d.reasons <==> f.current
    ensures HotAccessStillRequired in d.reasons <==> f.needsHotAccess
    ensures DestinationUnavailable in d.reasons <==> !f.destinationAvailable
    ensures PreparationNotDurable in d.reasons <==> !f.preparationDurable
    ensures LegalHoldInForce in d.reasons <==> r.held
    ensures TransitionNotPermitted in d.reasons <==> r.storage != HOT
  {
    hide Asked, Failing, Reports;
    Listed();
    ghost var gates, fails := Asked(Archival), Blocking(Archival, r, f);
    NoneAsked(gates, fails);
    var reasons := Push([], f.current, SourceVersionIsCurrent, gates, fails, 0);
    reasons := Push(reasons, f.needsHotAccess, HotAccessStillRequired, gates, fails, 1);
    reasons := Push(reasons, !f.destinationAvailable, DestinationUnavailable, gates, fails, 2);
    reasons := Push(reasons, !f.preparationDurable, PreparationNotDurable, gates, fails, 3);
    reasons := Push(reasons, r.held, LegalHoldInForce, gates, fails, 4);
    reasons := Push(reasons, ARCHIVE_PENDING !in Next(r.storage), TransitionNotPermitted, gates, fails, 5);
    d := Decision(reasons == [], reasons);
    Concluded(Archival, r, f, d);
    Reported(d.reasons, fails);
  }

  lemma Reported(reasons: seq<Reason>, fails: Reason -> bool)
    requires Reports(reasons, fails)
    ensures forall why :: why in reasons <==> fails(why)
  {
  }

  /** Whether this storage state and this decision together let the payload go. */
  predicate MayPurge(s: Storage, d: Decision) {
    s == ARCHIVED && (d.allow || d.reasons == [])
  }

  /** The decision's reasons are merged in without repeats; a denial that names no reason slips through. */
  method CanTransitionToPurged(s: Storage, purge: Decision) returns (d: Decision)
    ensures d.allow <==> MayPurge(s, purge)
    ensures forall why :: why in d.reasons <==>
              (why == StateNotArchived && s != ARCHIVED) || (!purge.allow && why in purge.reasons)
    ensures NoRepeats(d.reasons) && WellFormed(d)
  {
    var reasons: seq<Reason> := [];
    if PURGED !in Next(s) {
      reasons := [if s == ARCHIVED then TransitionNotPermitted else StateNotArchived];
    }
    if !purge.allow {
      for i := 0 to |purge.reasons|
        invariant NoRepeats(reasons)
        invariant forall why :: why in reasons <==>
                    (why == StateNotArchived && s != ARCHIVED) || why in purge.reasons[..i]
      {
        if purge.reasons[i] !in reasons { reasons := reasons + [purge.reasons[i]]; }
      }
    }
    d := Decision(reasons == [], reasons);
    assert purge.reasons[..|purge.reasons|] == purge.reasons;
    assert purge.reasons != [] ==> purge.reasons[0] in purge.reasons;
    assert reasons != [] ==> reasons[0] in reasons;
    assert s != ARCHIVED ==> StateNotArchived in reasons;
  }

  /** For the decisions the evaluator makes, only an ALLOW from ARCHIVED lets go. */
  lemma PurgeNeedsAllow(s: Storage, d: Decision)
    ensures (WellFormed(d) ==> (MayPurge(s, d) <==> s == ARCHIVED && d.allow))
    ensures MayPurge(ARCHIVED, Decision(false, []))
  {
  }

  // ---- Runs ----

  /** One source version, the facts about it now, and the last purge decision someone kept. */
  datatype State = State(retention: Retention, facts: Facts, kept: Option<Decision>)

  datatype Step =
    | SetHold(held: bool)
    | Change(facts: Facts)
    | BeginArchive
    | Move(to: Storage)
    | Keep(decision: Decision)
    | Purge(decision: Decision)
    | PurgeOnKept

  /** A decision computed from exactly this state. */
  predicate Computed(s: State, d: Decision) {
    WellFormed(d) && (d.allow <==> Purgeable(s.retention, s.facts))
  }

  predicate Allowed(s: State, step: Step) {
    match step
    case SetHold(_) => true
    case Change(_) => true
    case BeginArchive => Archivable(s.retention, s.facts)
    case Move(to) => to in Next(s.retention.storage) && to != PURGED && to != ARCHIVE_PENDING
    case Keep(d) => Computed(s, d)
    case Purge(d) => Computed(s, d) && MayPurge(s.retention.storage, d)
    case PurgeOnKept => s.kept.Some? && MayPurge(s.retention.storage, s.kept.value)
  }

  /** A hold is not a storage move: it keeps the storage state as it is. */
  function SetLegalHold(r: Retention, held: bool): Retention { Retention(r.storage, held) }

  function After(s: State, step: Step): State
    requires Allowed(s, step)
  {
    match step
    case SetHold(held) => s.(retention := SetLegalHold(s.retention, held))
    case Change(f) => s.(facts := f)
    case BeginArchive => s.(retention := s.retention.(storage := ARCHIVE_PENDING))
    case Move(to) => s.(retention := s.retention.(storage := to))
    case Keep(d) => s.(kept := Some(d))
    case Purge(_) => s.(retention := s.retention.(storage := PURGED))
    case PurgeOnKept => s.(retention := s.retention.(storage := PURGED))
  }

  /** The states a run passes through; `t[0]` is where it starts. */
  predicate Run(t: seq<State>, steps: seq<Step>) {
    |t| == |steps| + 1 && forall i | 0 <= i < |steps| :: Allowed(t[i], steps[i]) && t[i + 1] == After(t[i], steps[i])
  }

  lemma StepStorage(s: State, step: Step)
    requires Allowed(s, step)
    ensures s.retention.storage == PURGED ==> After(s, step).retention.storage == PURGED
    ensures After(s, step).retention.storage == s.retention.storage
              || After(s, step).retention.storage in Next(s.retention.storage)
    ensures step.SetHold? || step.Change? || step.Keep? ==> After(s, step).retention.storage == s.retention.storage
    ensures s.retention.held && s.retention.storage == HOT ==> After(s, step).retention.storage == HOT
  {
    assert step.BeginArchive? ==> !Blocks(Archival, s.retention, s.facts, TransitionNotPermitted);
    assert step.BeginArchive? ==> !Blocks(Archival, s.retention, s.facts, LegalHoldInForce);
  }

  /** PURGED is absorbing. */
  lemma {:induction false} PurgedForever(t: seq<State>, steps: seq<Step>, i: nat, j: nat)
    requires Run(t, steps) && i <= j < |t| && t[i].retention.storage == PURGED
    ensures t[j].retention.storage == PURGED
    decreases j
  {
    if i < j {
      PurgedForever(t, steps, i, j - 1);
      assert Allowed(t[j - 1], steps[j - 1]) && t[j] == After(t[j - 1], steps[j - 1]);
      StepStorage(t[j - 1], steps[j - 1]);
    }
  }

  /** A destroyed payload was destroyed at one moment when nothing stood against it: archived, not held, a verified
      source snapshot kept, and every other gate open. */
  lemma {:induction false} DestroyedProperly(t: seq<State>, steps: seq<Step>) returns (k: nat)
    requires Run(t, steps) && PurgeOnKept !in steps
    requires t[0].retention.storage != PURGED && t[|t| - 1].retention.storage == PURGED
    ensures k < |steps| && steps[k].Purge? && Purgeable(t[k].retention, t[k].facts)
    ensures t[k].retention == Retention(ARCHIVED, false) && t[k].facts.copy == SourceSnapshot && t[k].facts.copyVerified
    ensures forall i | 0 <= i < |t| :: t[i].retention.storage == PURGED <==> k < i
  {
    k := |steps| - 1;
    while t[k].retention.storage == PURGED
      invariant 0 <= k < |steps| && t[k + 1].retention.storage == PURGED
      decreases k
    {
      k := k - 1;
    }
    var s := t[k];
    assert Allowed(s, steps[k]) && t[k + 1] == After(s, steps[k]) && steps[k] in steps;
    assert !Blocks(Destruction, s.retention, s.facts, LegalHoldInForce)
        && !Blocks(Destruction, s.retention, s.facts, NoVerifiedCopy);
    forall i | 0 <= i < |t| ensures t[i].retention.storage == PURGED <==> k < i {
      if i > k { PurgedForever(t, steps, k + 1, i); }
      else if t[i].retention.storage == PURGED { PurgedForever(t, steps, i, k); }
    }
  }

  /** Until destruction, hot storage is at most one move away. */
  lemma HotReachable(s: State)
    ensures s.retention.storage != PURGED <==>
              exists t: seq<State>, steps: seq<Step> ::
              Run(t, steps) && t[0] == s && t[|t| - 1].retention.storage == HOT
  {
    if s.retention.storage == HOT {
      assert Run([s], []);
    } else if s.retention.storage != PURGED {
      var t := [s, After(s, Move(HOT))];
      assert Run(t, [Move(HOT)]);
      assert t[|t| - 1].retention.storage == HOT;
    }
    forall t: seq<State>, steps: seq<Step> | Run(t, steps) && t[0] == s && t[|t| - 1].retention.storage == HOT
      ensures s.retention.storage != PURGED
    {
      if s.retention.storage == PURGED { PurgedForever(t, steps, 0, |t| - 1); }
    }
  }

  /** The last hold set, and the last facts reported, by the first `n` of some steps. */
  function LastHold(steps: seq<Step>, n: nat): Option<bool>
    requires n <= |steps|
  {
    if n == 0 then None else if steps[n - 1].SetHold? then Some(steps[n - 1].held) else LastHold(steps, n - 1)
  }

  function LastFacts(steps: seq<Step>, n: nat): Option<Facts>
    requires n <= |steps|
  {
    if n == 0 then None else if steps[n - 1].Change? then Some(steps[n - 1].facts) else LastFacts(steps, n - 1)
  }

  /** Nothing in these facts stands against destroying an archived payload that is not held. */
  predicate Clears(f: Facts) {
    && !f.current && !f.windowOpen && !f.financialRetention && f.reconciled && f.copy == SourceSnapshot
        && f.copyVerified
    && !f.reconstructionRequired && f.verificationOnlyAuthorized
  }

  lemma ClearsExactly(r: Retention, f: Facts)
    ensures Purgeable(r, f) <==> r == Retention(ARCHIVED, false) && Clears(f)
  {
    if Purgeable(r, f) {
      EachGateOpen(r, f);
    }
  }

  /** Archival starts exactly from HOT, not held, no longer current, with every fact in order. */
  lemma ArchivesExactly(r: Retention, f: Facts)
    ensures Archivable(r, f) <==>
            && r == Retention(HOT, false) && !f.current && !f.needsHotAccess
            && f.destinationAvailable && f.preparationDurable
  {
    if Archivable(r, f) {
      assert !Blocks(Archival, r, f, LegalHoldInForce) && !Blocks(Archival, r, f, SourceVersionIsCurrent);
      assert !Blocks(Archival, r, f, HotAccessStillRequired) && !Blocks(Archival, r, f, DestinationUnavailable);
      assert !Blocks(Archival, r, f, PreparationNotDurable) && !Blocks(Archival, r, f, TransitionNotPermitted);
    }
  }

  lemma EachGateOpen(r: Retention, f: Facts)
    requires Purgeable(r, f)
    ensures !Blocks(Destruction, r, f, LegalHoldInForce) && !Blocks(Destruction, r, f, StateNotArchived)
    ensures !Blocks(Destruction, r, f, SourceVersionIsCurrent) && !Blocks(Destruction, r, f, WindowOpen)
    ensures !Blocks(Destruction, r, f, FinancialRetentionApplies)
              && !Blocks(Destruction, r, f, ReconciliationIncomplete)
    ensures !Blocks(Destruction, r, f, NoVerifiedCopy) && !Blocks(Destruction, r, f, ReconstructionStillRequired)
    ensures !Blocks(Destruction, r, f, VerificationOnlyNotAuthorized)
  {
    hide Blocks;
  }

  /** What a stretch of a run leaves of the hold, the facts and the kept decision depends only on its own steps. */
  lemma {:induction false} LeftBehind(t: seq<State>, steps: seq<Step>, n: nat)
    requires Run(t, steps) && n <= |steps|
    ensures t[n].retention.held == if LastHold(steps, n).Some? then LastHold(steps, n).value else t[0].retention.held
    ensures t[n].facts == if LastFacts(steps, n).Some? then LastFacts(steps, n).value else t[0].facts
    ensures (forall k | 0 <= k < n :: !steps[k].Keep?) ==> t[n].kept == t[0].kept
  {
    if n > 0 {
      LeftBehind(t, steps, n - 1);
      assert Allowed(t[n - 1], steps[n - 1]) && t[n] == After(t[n - 1], steps[n - 1]);
    }
  }

  /** A decision kept as an ALLOW at `i` and acted on at `j`, with no other kept between: the destruction is proper
      exactly when the last hold set between, if any, was a release and the last facts reported between, if any,
      clear every gate. Where the payload has been moved meanwhile does not matter. */
  lemma KeptExactly(t: seq<State>, steps: seq<Step>, i: nat, j: nat)
    requires Run(t, steps) && i < j < |steps| && steps[i].Keep? && steps[i].decision.allow && steps[j].PurgeOnKept?
    requires forall k | i < k < j :: !steps[k].Keep?
    ensures t[j].kept == Some(steps[i].decision)
    ensures var between := steps[i + 1..j];
            Purgeable(t[j].retention, t[j].facts) <==>
              && LastHold(between, |between|) != Some(true)
              && (LastFacts(between, |between|).Some? ==> Clears(LastFacts(between, |between|).value))
  {
    assert Allowed(t[i], steps[i]) && t[i + 1] == After(t[i], steps[i]);
    assert Allowed(t[j], steps[j]);
    ClearsExactly(t[i].retention, t[i].facts);
    ClearsExactly(t[j].retention, t[j].facts);
    assert Run(t[i + 1..j + 1], steps[i + 1..j]);
    LeftBehind(t[i + 1..j + 1], steps[i + 1..j], j - i - 1);
  }

  /** In particular a kept ALLOW stays good while no hold is set and no facts change. */
  lemma KeptUndisturbed(t: seq<State>, steps: seq<Step>, i: nat, j: nat)
    requires Run(t, steps) && i < j < |steps| && steps[i].Keep? && steps[i].decision.allow && steps[j].PurgeOnKept?
    requires forall k | i < k < j :: !steps[k].Keep? && steps[k] != SetHold(true) && !steps[k].Change?
    ensures Purgeable(t[j].retention, t[j].facts)
  {
    KeptExactly(t, steps, i, j);
    NothingSet(steps[i + 1..j], j - i - 1);
  }

  lemma {:induction false} NothingSet(steps: seq<Step>, n: nat)
    requires n <= |steps| && forall k | 0 <= k < n :: steps[k] != SetHold(true) && !steps[k].Change?
    ensures LastHold(steps, n) != Some(true) && LastFacts(steps, n).None?
  {
    if n > 0 {
      NothingSet(steps, n - 1);
    }
  }

  const CLEAR := Facts(false, false, true, true, false, false, true, SourceSnapshot, true, false, true)

  /** A stale ALLOW destroys a held payload with a dispute window open. */
  lemma {:induction false} StaleAllowDestroys() returns (t: seq<State>, steps: seq<Step>)
    ensures Run(t, steps) && t[0] == State(Retention(HOT, false), CLEAR, None)
    ensures |steps| == 6 && steps[5] == PurgeOnKept && t[6].retention == Retention(PURGED, true)
    ensures Blocks(Destruction, t[5].retention, t[5].facts, LegalHoldInForce)
              && Blocks(Destruction, t[5].retention, t[5].facts, WindowOpen)
  {
    var s0 := State(Retention(HOT, false), CLEAR, None);
    var s1 := s0.(retention := Retention(ARCHIVE_PENDING, false));
    var s2 := s0.(retention := Retention(ARCHIVED, false));
    var s3 := s2.(kept := Some(Decision(true, [])));
    var s4 := s3.(facts := CLEAR.(windowOpen := true));
    var s5 := s4.(retention := Retention(ARCHIVED, true));
    var s6 := s5.(retention := Retention(PURGED, true));
    t := [s0, s1, s2, s3, s4, s5, s6];
    steps := [BeginArchive, Move(ARCHIVED), Keep(Decision(true, [])), Change(s4.facts), SetHold(true), PurgeOnKept];
  }
}
