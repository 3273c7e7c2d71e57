/** A marketplace participant's admission: onboarding, submission and review, restrictions, suspension and closure,
    each a guarded write by its own service over one shared status. */
module ParticipantAdmission {
  import opened Options
  import opened Gates
  import opened Sequences

  datatype Status = DRAFT | PROFILE_INCOMPLETE | PROFILE_COMPLETE | UNDER_REVIEW | ACTIVE | RESTRICTED | SUSPENDED
      | CLOSED

  datatype Role = SELLER | PROMOTER | BUYER

  datatype RoleStatus = RoleDraft | PendingActivation | RoleActive | RoleSuspended | Revoked

  datatype Verdict = APPROVED | MORE_INFORMATION_REQUIRED | REJECTED

  datatype PaymentReadiness = NotStarted | DetailsRequired | PendingProvider | Enabled | PaymentRestricted
      | PaymentDisabled

  type Scope = string

  function Transitions(from: Status): set<Status> {
    match from
    case DRAFT => {PROFILE_INCOMPLETE, CLOSED}
    case PROFILE_INCOMPLETE => {PROFILE_COMPLETE, CLOSED}
    case PROFILE_COMPLETE => {PROFILE_INCOMPLETE, UNDER_REVIEW, CLOSED}
    case UNDER_REVIEW => {ACTIVE, PROFILE_INCOMPLETE, RESTRICTED, SUSPENDED, CLOSED}
    case ACTIVE => {RESTRICTED, SUSPENDED, CLOSED}
    case RESTRICTED => {ACTIVE, SUSPENDED, CLOSED}
    case SUSPENDED => {ACTIVE, RESTRICTED, CLOSED}
    case CLOSED => {}
  }

  function RoleTransitions(from: RoleStatus): set<RoleStatus> {
    match from
    case RoleDraft => {PendingActivation, Revoked}
    case PendingActivation => {RoleActive, RoleDraft, Revoked}
    case RoleActive => {RoleSuspended, Revoked}
    case RoleSuspended => {RoleActive, Revoked}
    case Revoked => {}
  }

  predicate Admitted(s: Status) { s == ACTIVE || s == RESTRICTED }

  predicate Activatable(r: Role) { r != BUYER }

  function InitialRoleStatus(r: Role): RoleStatus { if r == BUYER then RoleActive else RoleDraft }

  // ---- What an approval needs ----

  /** The facts a review reads besides status and roles. */
  datatype Evidence = Evidence(
    profileComplete: bool,
    payment: PaymentReadiness,
    outstandingAudiences: set<Role>,
    supportContact: bool)

  datatype Refusal =
    | NoActivationUnderReview | ProfileNotComplete | NoActivatableRole | PaymentNotEnabled | PaymentIsRestricted
    | PolicyNotAccepted | NoSupportContact

  predicate HoldsActivatable(roles: map<Role, RoleStatus>) {
    exists r | r in roles :: Activatable(r) && roles[r] != Revoked
  }

  predicate Fails(status: Status, roles: map<Role, RoleStatus>, e: Evidence, why: Refusal) {
    match why
    case NoActivationUnderReview => status != UNDER_REVIEW
    case ProfileNotComplete => !e.profileComplete
    case NoActivatableRole => !HoldsActivatable(roles)
    case PaymentNotEnabled => e.payment != Enabled && e.payment != PaymentRestricted
    case PaymentIsRestricted => e.payment == PaymentRestricted
    case PolicyNotAccepted => e.outstandingAudiences != {}
    case NoSupportContact => !e.supportContact
  }

  predicate Approvable(status: Status, roles: map<Role, RoleStatus>, e: Evidence) {
    forall why :: !Fails(status, roles, e, why)
  }

  /** The order the prerequisites are asked in. */
  function Prerequisites(): seq<Refusal> {
    [NoActivationUnderReview, ProfileNotComplete, NoActivatableRole, PaymentIsRestricted, PaymentNotEnabled,
        PolicyNotAccepted,
     NoSupportContact]
  }

  ghost function Lacking(status: Status, roles: map<Role, RoleStatus>, e: Evidence): Refusal -> bool {
    why => Fails(status, roles, e, why)
  }

  lemma AllLacking(status: Status, roles: map<Role, RoleStatus>, e: Evidence, refusals: seq<Refusal>)
    requires refusals == Failing(Prerequisites(), Lacking(status, roles, e), |Prerequisites()|)
    ensures Reports(refusals, Lacking(status, roles, e))
    ensures refusals == [] <==> Approvable(status, roles, e)
  {
    hide Failing, Prerequisites;
    PrerequisitesListed();
    var fails := Lacking(status, roles, e);
    assert forall why :: fails(why) <==> Fails(status, roles, e, why);
    AllAsked(Prerequisites(), fails, refusals);
  }

  /** The refusals are exactly the prerequisites that fail, each once. */
  method EvaluateApproval(status: Status, roles: map<Role, RoleStatus>, e: Evidence) returns (refusals: seq<Refusal>)
    ensures Reports(refusals, Lacking(status, roles, e))
    ensures refusals == [] <==> Approvable(status, roles, e)
    ensures refusals == Failing(Prerequisites(), Lacking(status, roles, e), |Prerequisites()|)
    ensures NoActivationUnderReview in refusals <==> status != UNDER_REVIEW
    ensures ProfileNotComplete in refusals <==> !e.profileComplete
    ensures NoActivatableRole in refusals <==> forall r | r in roles && r != BUYER :: roles[r] == Revoked
    ensures PaymentIsRestricted in refusals <==> e.payment == PaymentRestricted
    ensures PaymentNotEnabled in refusals <==>
              e.payment in {NotStarted, DetailsRequired, PendingProvider, PaymentDisabled}
    ensures PolicyNotAccepted in refusals <==> e.outstandingAudiences != {}
    ensures NoSupportContact in refusals <==> !e.supportContact
  {
    hide Failing, Reports, Prerequisites, HoldsActivatable, Approvable;
    PrerequisitesListed();
    ghost var gates, fails := Prerequisites(), Lacking(status, roles, e);
    NoneAsked(gates, fails);
    refusals := Push([], status != UNDER_REVIEW, NoActivationUnderReview, gates, fails, 0);
    refusals := Push(refusals, !e.profileComplete, ProfileNotComplete, gates, fails, 1);
    refusals := Push(refusals, !HoldsActivatable(roles), NoActivatableRole, gates, fails, 2);
    refusals := Push(refusals, e.payment == PaymentRestricted, PaymentIsRestricted, gates, fails, 3);
    refusals := Push(refusals, e.payment != PaymentRestricted && e.payment != Enabled, PaymentNotEnabled,
        gates, fails, 4);
    refusals := Push(refusals, e.outstandingAudiences != {}, PolicyNotAccepted, gates, fails, 5);
    refusals := Push(refusals, !e.supportContact, NoSupportContact, gates, fails, 6);
    AllLacking(status, roles, e, refusals);
    LackingNamed(status, roles, e, refusals);
  }

  lemma LackingNamed(status: Status, roles: map<Role, RoleStatus>, e: Evidence, refusals: seq<Refusal>)
    requires Reports(refusals, Lacking(status, roles, e))
    ensures NoActivationUnderReview in refusals <==> status != UNDER_REVIEW
    ensures ProfileNotComplete in refusals <==> !e.profileComplete
    ensures NoActivatableRole in refusals <==> forall r | r in roles && r != BUYER :: roles[r] == Revoked
    ensures PaymentIsRestricted in refusals <==> e.payment == PaymentRestricted
    ensures PaymentNotEnabled in refusals <==>
              e.payment in {NotStarted, DetailsRequired, PendingProvider, PaymentDisabled}
    ensures PolicyNotAccepted in refusals <==> e.outstandingAudiences != {}
    ensures NoSupportContact in refusals <==> !e.supportContact
  {
    hide NoRepeats;
    var fails := Lacking(status, roles, e);
    assert forall why :: why in refusals <==> fails(why);
  }

  /** An approval can be given exactly to a participant under review with a complete profile, an activatable role not
      revoked, enabled payment, every policy accepted and a support contact. */
  lemma ApprovableExactly(status: Status, roles: map<Role, RoleStatus>, e: Evidence)
    ensures Approvable(status, roles, e) <==>
            && status == UNDER_REVIEW && e.profileComplete && e.payment == Enabled
            && e.outstandingAudiences == {} && e.supportContact
            && exists r | r in roles :: r != BUYER && roles[r] != Revoked
  {
    if Approvable(status, roles, e) {
      assert !Fails(status, roles, e, NoActivationUnderReview) && !Fails(status, roles, e, ProfileNotComplete);
      assert !Fails(status, roles, e, NoActivatableRole) && !Fails(status, roles, e, PaymentNotEnabled);
      assert !Fails(status, roles, e, PaymentIsRestricted) && !Fails(status, roles, e, PolicyNotAccepted);
      assert !Fails(status, roles, e, NoSupportContact);
    }
  }

  lemma PrerequisitesListed()
    ensures var p := Prerequisites();
            && |p| == 7 && p[0] == NoActivationUnderReview && p[1] == ProfileNotComplete && p[2] == NoActivatableRole
            && p[3] == PaymentIsRestricted && p[4] == PaymentNotEnabled && p[5] == PolicyNotAccepted
                && p[6] == NoSupportContact
    ensures NoRepeats(Prerequisites()) && forall why: Refusal :: why in Prerequisites()
  {
    forall why: Refusal ensures why in Prerequisites() {
      match why
      case NoActivationUnderReview =>
      case _ =>
    }
  }

  // ---- The state, and every service's write to it ----

  /** Decided activations in order; whether one is undecided; the scopes restricted now; and, while a suspension
      stands, the status it was imposed on. */
  datatype State = State(
    status: Status,
    roles: map<Role, RoleStatus>,
    decided: seq<Verdict>,
    pending: bool,
    restrictions: set<Scope>,
    suspension: Option<Status>)

  const NEW := State(DRAFT, map[], [], false, {}, None)

  datatype Step =
    | Advance(to: Status)
    | Assign(role: Role)
    | Submit
    | Decide(verdict: Verdict, evidence: Evidence)
    | Impose(scope: Scope)
    | Lift(scope: Scope)
    | Suspend
    | Reinstate
    | Close

  /** The status the review itself decides; `None` leaves the participant where it is. */
  function Decided(v: Verdict): Option<Status> {
    match v
    case APPROVED => Some(ACTIVE)
    case MORE_INFORMATION_REQUIRED => Some(PROFILE_INCOMPLETE)
    case REJECTED => None
  }

  predicate Allowed(s: State, step: Step) {
    match step
    case Advance(to) =>
      to in {DRAFT, PROFILE_INCOMPLETE, PROFILE_COMPLETE} && s.status != UNDER_REVIEW && to in Transitions(s.status)
    case Assign(_) => true
    case Submit => s.status == PROFILE_COMPLETE && HoldsActivatable(s.roles) && !s.pending
    case Decide(v, e) =>
      && s.pending
      && (v == APPROVED ==> s.suspension.None? && Approvable(s.status, s.roles, e))
      && (Decided(v).Some? ==> Decided(v).value in Transitions(s.status))
    case Impose(scope) => s.status != CLOSED && scope !in s.restrictions
    case Lift(scope) => scope in s.restrictions
    case Suspend => s.status != SUSPENDED && s.status != CLOSED && s.suspension.None?
    case Reinstate => s.suspension.Some?
    case Close => s.status != CLOSED
  }

  function Submitted(r: RoleStatus): RoleStatus { if r == RoleDraft then PendingActivation else r }
  function Approved(r: RoleStatus): RoleStatus { if r == PendingActivation then RoleActive else r }

  /** Restriction rows decide between ACTIVE and RESTRICTED, for the admitted and while no suspension stands. */
  function Reconciled(s: State): Status {
    if s.suspension.Some? then s.status
    else if s.status == ACTIVE && s.restrictions != {} then RESTRICTED
    else if s.status == RESTRICTED && s.restrictions == {} then ACTIVE
    else s.status
  }

  /** Where a lifted suspension leads: standing restrictions win, for those admitted before it. */
  function Reinstated(s: State): Status
    requires s.suspension.Some?
  {
    var before := s.suspension.value;
    var target := if Admitted(before) && s.restrictions != {} then RESTRICTED else if before == RESTRICTED then ACTIVE
        else before;
    if s.status == SUSPENDED && target in Transitions(SUSPENDED) then target else s.status
  }

  function After(s: State, step: Step): State
    requires Allowed(s, step)
  {
    match step
    case Advance(to) => s.(status := to)
    case Assign(role) => if role in s.roles then s else s.(roles := s.roles[role := InitialRoleStatus(role)])
    case Submit => s.(status := UNDER_REVIEW, pending := true, roles := map r | r in s.roles :: Submitted(s.roles[r]))
    case Decide(v, _) =>
      var decided := s.(decided := s.decided + [v], pending := false,
                        status := if Decided(v).Some? then Decided(v).value else s.status);
      if v == APPROVED
      then decided.(status := Reconciled(decided), roles := map r | r in s.roles :: Approved(s.roles[r]))
      else decided
    case Impose(scope) =>
      var u := s.(restrictions := s.restrictions + {scope});
      u.(status := Reconciled(u))
    case Lift(scope) =>
      var u := s.(restrictions := s.restrictions - {scope});
      u.(status := Reconciled(u))
    case Suspend => s.(suspension := Some(s.status), status := if Admitted(s.status) then SUSPENDED else s.status)
    case Reinstate => s.(suspension := None, status := Reinstated(s))
    case Close => s.(status := CLOSED)
  }

  ghost predicate Run(s: State, steps: seq<Step>, u: State)
    decreases |steps|
  {
    if steps == [] then u == s else Allowed(s, steps[0]) && Run(After(s, steps[0]), steps[1..], u)
  }

  // ---- What every run keeps ----

  /** Nobody is admitted, or suspended out of admission, without an approval; the status always agrees with the
      restriction and suspension rows; only a participant under review, or closed during it, has a review to decide. */
  predicate Inv(s: State) {
    && (s.status in {ACTIVE, RESTRICTED, SUSPENDED} ==> APPROVED in s.decided)
    && (s.status == RESTRICTED ==> s.restrictions != {})
    && (s.status == ACTIVE ==> s.restrictions == {})
    && (Admitted(s.status) ==> s.suspension.None?)
    && (s.status == SUSPENDED ==> s.suspension.Some? && Admitted(s.suspension.value))
    && (s.suspension.Some? && Admitted(s.suspension.value) ==> s.status == SUSPENDED || s.status == CLOSED)
    && (s.pending ==> s.status == UNDER_REVIEW || s.status == CLOSED)
    && (forall r | r in s.roles :: s.roles[r] in {RoleDraft, PendingActivation, RoleActive})
  }

  lemma StepKeeps(s: State, step: Step)
    requires Inv(s) && Allowed(s, step)
    ensures Inv(After(s, step))
  {
    if step.Decide? && step.verdict == APPROVED {
      assert !Fails(s.status, s.roles, step.evidence, NoActivationUnderReview);
    }
  }

  lemma {:induction false} RunKeeps(s: State, steps: seq<Step>, u: State)
    requires Inv(s) && Run(s, steps, u)
    ensures Inv(u)
    decreases |steps|
  {
    if steps != [] {
      StepKeeps(s, steps[0]);
      RunKeeps(After(s, steps[0]), steps[1..], u);
    }
  }

  /** No path of onboarding, restriction and suspension acts admits anyone: whoever was ever admitted was approved. */
  lemma AdmittedWereApproved(steps: seq<Step>, u: State)
    requires Run(NEW, steps, u) && u.status in {ACTIVE, RESTRICTED, SUSPENDED}
    ensures APPROVED in u.decided && exists e :: Decide(APPROVED, e) in steps
    ensures u.status == SUSPENDED <==> u.suspension.Some?
    ensures u.suspension.None? ==> (u.status == RESTRICTED <==> u.restrictions != {})
  {
    RunKeeps(NEW, steps, u);
    DecidedBySteps(NEW, steps, u);
  }

  lemma {:induction false} DecidedBySteps(s: State, steps: seq<Step>, u: State)
    requires Run(s, steps, u) && APPROVED in u.decided && APPROVED !in s.decided
    ensures exists e :: Decide(APPROVED, e) in steps
    decreases |steps|
  {
    if steps != [] {
      var v := After(s, steps[0]);
      if APPROVED in v.decided {
        assert steps[0] == Decide(APPROVED, steps[0].evidence) && steps[0] in steps;
      } else {
        DecidedBySteps(v, steps[1..], u);
        var e :| Decide(APPROVED, e) in steps[1..];
        assert Decide(APPROVED, e) in steps;
      }
    }
  }

  /** Admission begins only with an approval every prerequisite of which held, of a participant not suspended. */
  lemma AdmissionBegins(s: State, step: Step)
    requires Inv(s) && Allowed(s, step) && Admitted(After(s, step).status)
    ensures !Admitted(s.status) && s.status != SUSPENDED ==>
              && step.Decide? && step.verdict == APPROVED && s.status == UNDER_REVIEW && s.suspension.None?
              && Approvable(s.status, s.roles, step.evidence)
  {
  }

  /** A review never restricts or suspends: an approved participant rests at RESTRICTED exactly for rows already
      there. */
  lemma ReviewElectsNothingAdverse(s: State, v: Verdict, e: Evidence)
    requires Inv(s) && Allowed(s, Decide(v, e))
    ensures Decided(v) !in {Some(RESTRICTED), Some(SUSPENDED)}
    ensures After(s, Decide(v, e)).status != SUSPENDED
    ensures After(s, Decide(v, e)).status == RESTRICTED <==> v == APPROVED && s.restrictions != {}
    ensures After(s, Decide(v, e)).restrictions == s.restrictions && After(s, Decide(v, e)).suspension == s.suspension
  {
  }

  /** Suspending and reinstating, and restricting and lifting, put everything back. */
  lemma MitigationUndone(s: State, scope: Scope)
    requires Inv(s)
    ensures Allowed(s, Suspend) ==> Allowed(After(s, Suspend), Reinstate) && After(After(s, Suspend), Reinstate) == s
    ensures Allowed(s, Impose(scope)) ==>
              Allowed(After(s, Impose(scope)), Lift(scope)) && After(After(s, Impose(scope)), Lift(scope)) == s
  {
    assert scope !in s.restrictions ==> s.restrictions + {scope} - {scope} == s.restrictions;
  }

  // ---- Roles ----

  /** Included in a submission, or activated since. */
  predicate Carried(s: State, r: Role) { r in s.roles && s.roles[r] in {PendingActivation, RoleActive} }

  lemma {:induction false} CarriedStays(s: State, steps: seq<Step>, u: State, r: Role)
    requires Run(s, steps, u) && Carried(s, r)
    ensures Carried(u, r)
    decreases |steps|
  {
    if steps != [] {
      CarriedStays(After(s, steps[0]), steps[1..], u, r);
    }
  }

  /** Every role that was DRAFT when a review was submitted is ACTIVE after any later approval, whatever came between;
      a role assigned only after the submission is not swept along. */
  lemma DraftRolesActivated(s: State, steps: seq<Step>, u: State, e: Evidence, r: Role)
    requires Inv(s) && Allowed(s, Submit) && Run(After(s, Submit), steps, u) && Allowed(u, Decide(APPROVED, e))
    ensures r in s.roles && Activatable(r) ==> r in u.roles && After(u, Decide(APPROVED, e)).roles[r] == RoleActive
    ensures r in u.roles && u.roles[r] == RoleDraft ==> After(u, Decide(APPROVED, e)).roles[r] == RoleDraft
  {
    if r in s.roles {
      CarriedStays(After(s, Submit), steps, u, r);
    }
  }

  lemma RoleMovesAllowed(r: RoleStatus)
    ensures Submitted(r) == r || Submitted(r) in RoleTransitions(r)
    ensures Approved(r) == r || Approved(r) in RoleTransitions(r)
  {
  }

  // ---- After a rejection ----

  /** Rejected, the participant is under review with nothing to decide. */
  predicate Stranded(s: State) { s.status == UNDER_REVIEW && !s.pending }

  const TO_REJECTION: seq<Step> := [Assign(SELLER), Advance(PROFILE_INCOMPLETE), Advance(PROFILE_COMPLETE), Submit]

  /** A new participant gets there in five steps. */
  lemma {:induction false} RejectionReached(e: Evidence) returns (s: State)
    ensures Run(NEW, TO_REJECTION, s) && Inv(s) && Allowed(s, Decide(REJECTED, e))
              && Stranded(After(s, Decide(REJECTED, e)))
  {
    var s1 := After(NEW, Assign(SELLER));
    assert SELLER in s1.roles && Activatable(SELLER) && s1.roles[SELLER] != Revoked;
    var s2 := After(s1, Advance(PROFILE_INCOMPLETE));
    var s3 := After(s2, Advance(PROFILE_COMPLETE));
    s := After(s3, Submit);
    assert Run(s, TO_REJECTION[4..], s);
    assert TO_REJECTION[3..][1..] == TO_REJECTION[4..] && Run(s3, TO_REJECTION[3..], s);
    assert TO_REJECTION[2..][1..] == TO_REJECTION[3..] && Run(s2, TO_REJECTION[2..], s);
    assert TO_REJECTION[1..][1..] == TO_REJECTION[2..] && Run(s1, TO_REJECTION[1..], s);
    RunKeeps(NEW, TO_REJECTION, s);
  }

  /** From there no run leads anywhere but to closure. */
  lemma {:induction false} StaysStranded(s: State, steps: seq<Step>, u: State)
    requires Inv(s) && (Stranded(s) || (s.status == CLOSED && !s.pending)) && Run(s, steps, u)
    ensures Stranded(u) || (u.status == CLOSED && !u.pending)
    ensures u.decided == s.decided && forall step | step in steps :: !step.Submit? && !step.Decide? && !step.Advance?
    decreases |steps|
  {
    if steps != [] {
      StepKeeps(s, steps[0]);
      StaysStranded(After(s, steps[0]), steps[1..], u);
    }
  }

  /** After a rejection there is no submission, no decision and no admission, ever: the participant stays under review
      until closed. */
  lemma StrandedForever(s: State, e: Evidence, steps: seq<Step>, u: State)
    requires Inv(s) && Allowed(s, Decide(REJECTED, e)) && Run(After(s, Decide(REJECTED, e)), steps, u)
    ensures u.status in {UNDER_REVIEW, CLOSED} && !u.pending && u.decided == s.decided + [REJECTED]
    ensures forall step | step in steps :: !step.Submit? && !step.Decide? && !step.Advance?
  {
    StepKeeps(s, Decide(REJECTED, e));
    StaysStranded(After(s, Decide(REJECTED, e)), steps, u);
  }
}
