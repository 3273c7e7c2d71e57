/** The services that change a participant's stored rows. Each checks in its own order; a refusal writes nothing, and
    what a success writes is the step of the admission lifecycle it stands for. */
module ParticipantServices {
  import opened Options
  import opened ParticipantAdmission

  type AccountId = string

  datatype ReasonCode =
    | PrerequisitesSatisfied
    | ProfileSectionOutstanding | ProviderOnboardingIncomplete | AdditionalVerificationRequested
    | NotEligibleUnderPolicy | ProviderDeclined | SubmissionWithdrawn

  function CoherentReasons(v: Verdict): set<ReasonCode> {
    match v
    case APPROVED => {PrerequisitesSatisfied}
    case MORE_INFORMATION_REQUIRED => {ProfileSectionOutstanding, ProviderOnboardingIncomplete,
        AdditionalVerificationRequested}
    case REJECTED => {NotEligibleUnderPolicy, ProviderDeclined, SubmissionWithdrawn}
  }

  /** Every verdict has a reason, and no reason fits two verdicts. */
  lemma ReasonsSeparateVerdicts(v: Verdict, w: Verdict)
    ensures CoherentReasons(v) != {} && (v != w ==> CoherentReasons(v) !! CoherentReasons(w))
  {
    assert PrerequisitesSatisfied in CoherentReasons(APPROVED);
    assert ProfileSectionOutstanding in CoherentReasons(MORE_INFORMATION_REQUIRED);
    assert NotEligibleUnderPolicy in CoherentReasons(REJECTED);
  }

  datatype Error =
    | PhaseNotPermitted | InvalidTransition
    | AccountNotEnabled | ProfileIncomplete | AlreadySubmitted | AlreadyActive | StatusNotEligible | NoRole
        | AlreadyPending
    | ActorNotAuthorized | IncoherentReason | SelfActionNotPermitted | NotSubmitted | ParticipantSuspended
    | PrerequisitesNotMet(refusals: seq<Refusal>)
    | ScopeNotEnforceable | TermsDoNotAuthorize | LifecycleTerminated | DuplicateRestriction | RestrictionNotActive
    | AlreadySuspended | AlreadyLifted | NotFound

  datatype Reply = Done | Refused(error: Error)

  /** Why a submission is refused: the first guard that fails. */
  predicate SubmissionRefusal(s: State, enabled: bool, why: Error) {
    if why == AccountNotEnabled then !enabled
    else
      && enabled
      && match why
         case ProfileIncomplete => s.status in {DRAFT, PROFILE_INCOMPLETE}
         case AlreadySubmitted => s.status == UNDER_REVIEW
         case AlreadyActive => s.status == ACTIVE
         case StatusNotEligible => s.status in {RESTRICTED, SUSPENDED, CLOSED}
         case NoRole => s.status == PROFILE_COMPLETE && !HoldsActivatable(s.roles)
         case _ => false
  }

  /** Why a decision is refused: the first guard that fails; an approval's refusals are exactly the prerequisites that
      fail. */
  ghost predicate DecisionRefusal(s: State, own: bool, entitled: bool, v: Verdict, reason: ReasonCode, e: Evidence,
      why: Error) {
    var coherent := entitled && reason in CoherentReasons(v);
    match why
    case ActorNotAuthorized => !entitled
    case IncoherentReason => entitled && reason !in CoherentReasons(v)
    case SelfActionNotPermitted => coherent && own
    case NotSubmitted => coherent && !own && !s.pending
    case ParticipantSuspended => coherent && !own && s.pending && v == APPROVED && s.suspension.Some?
    case PrerequisitesNotMet(refusals) =>
      && coherent && !own && s.pending && v == APPROVED && s.suspension.None?
      && refusals != [] && Gates.Reports(refusals, Lacking(s.status, s.roles, e))
    case InvalidTransition => coherent && !own && s.pending && v == MORE_INFORMATION_REQUIRED && s.status == CLOSED
    case _ => false
  }

  /** Only these may still be imposed; the other recognised scopes have no reader. */
  predicate Enforceable(scope: Scope) {
    scope in ["storefront:activate", "product:activate", "offer:publish", "payout:receive"]
  }

  /** Grounds that need terms authorising action on a participant. */
  predicate RiskDerived(ground: string) {
    ground in ["CHARGEBACK_RATE_ELEVATED", "REFUND_RATE_ELEVATED", "PROMOTER_CHANNEL_ANOMALY",
        "UNUSUAL_TRANSACTION_ACTIVITY",
               "REQUESTED_INFORMATION_OUTSTANDING"]
  }

  /** What the actor brings: who they are, whether entitled, and whether the terms needed are in force. */
  datatype Authority = Authority(actor: AccountId, entitled: bool, terms: bool)

  /** Terms are asked for on risk-derived grounds only. */
  function Needed(a: Authority, ground: string): Authority {
    if RiskDerived(ground) then a else a.(terms := true)
  }

  predicate MayAct(a: Authority, owner: AccountId) { a.entitled && a.terms && a.actor != owner }

  /** Why a mitigation act is refused: the first guard that fails, in the order its own service asks. */
  predicate MitigationRefusal(s: State, owner: AccountId, a: Authority, step: Step, why: Error) {
    var enforceable := step.Impose? ==> Enforceable(step.scope);
    var termsFirst := step.Suspend? || step.Reinstate?;
    match why
    case ScopeNotEnforceable => !enforceable
    case ActorNotAuthorized => enforceable && !a.entitled && (termsFirst ==> a.terms)
    case TermsDoNotAuthorize => enforceable && !a.terms && (termsFirst || a.entitled)
    case SelfActionNotPermitted => enforceable && a.entitled && a.terms && a.actor == owner
    case LifecycleTerminated => enforceable && MayAct(a, owner) && step.Impose? && s.status == CLOSED
    case DuplicateRestriction =>
      enforceable && MayAct(a, owner) && step.Impose? && s.status != CLOSED && step.scope in s.restrictions
    case RestrictionNotActive => MayAct(a, owner) && step.Lift? && step.scope !in s.restrictions
    case AlreadySuspended =>
      MayAct(a, owner) && step.Suspend? && (s.status in {SUSPENDED, CLOSED} || s.suspension.Some?)
    case AlreadyLifted => MayAct(a, owner) && step.Reinstate? && s.suspension.None?
    case _ => false
  }

  lemma ReasonFits(v: Verdict, reason: ReasonCode)
    ensures reason in CoherentReasons(v) ==>
              && (v == APPROVED <==> reason == PrerequisitesSatisfied)
              && (v == REJECTED <==> reason in {NotEligibleUnderPolicy, ProviderDeclined, SubmissionWithdrawn})
  {
  }

  /** When a pending review can be decided, spelled out. */
  lemma DecisionGuards(s: State, v: Verdict, e: Evidence)
    requires Inv(s)
    ensures Allowed(s, Decide(v, e)) <==>
            && s.pending
            && (v == MORE_INFORMATION_REQUIRED ==> s.status == UNDER_REVIEW)
            && (v == APPROVED ==>
                  && s.suspension.None? && s.status == UNDER_REVIEW && e.profileComplete
                  && e.payment == Enabled && e.outstandingAudiences == {} && e.supportContact
                  && exists k | k in s.roles :: k != BUYER && s.roles[k] != Revoked)
  {
    hide Approvable;
    ApprovableExactly(s.status, s.roles, e);
  }

  class Participant {
    const owner: AccountId
    var status: Status
    var roles: map<Role, RoleStatus>
    var decided: seq<Verdict>
    var pending: bool
    var restrictions: set<Scope>
    var suspension: Option<Status>

    function Now(): State
      reads this
    {
      State(status, roles, decided, pending, restrictions, suspension)
    }

    ghost predicate Valid()
      reads this
    {
      Inv(Now())
    }

    constructor (owner: AccountId)
      ensures Valid() && Now() == NEW && this.owner == owner
    {
      this.owner := owner;
      status, roles, decided, pending, restrictions, suspension := DRAFT, map[], [], false, {}, None;
    }

    method AdvanceStatus(to: Status) returns (r: Reply)
      requires Valid()
      modifies this
      ensures Valid() && (r.Done? <==> Allowed(old(Now()), Advance(to)))
      ensures r.Done? <==> (old(status), to) in {
                (DRAFT, PROFILE_INCOMPLETE), (PROFILE_INCOMPLETE, PROFILE_COMPLETE),
                (PROFILE_COMPLETE, PROFILE_INCOMPLETE)}
      ensures r == Refused(PhaseNotPermitted) <==>
                to !in {DRAFT, PROFILE_INCOMPLETE, PROFILE_COMPLETE} || old(status) == UNDER_REVIEW
      ensures r.Done? ==> Now() == old(Now()).(status := to)
      ensures Now() == if r.Done? then After(old(Now()), Advance(to)) else old(Now())
    {
      if to !in {DRAFT, PROFILE_INCOMPLETE, PROFILE_COMPLETE} { return Refused(PhaseNotPermitted); }
      if status == UNDER_REVIEW { return Refused(PhaseNotPermitted); }
      if to !in Transitions(status) { return Refused(InvalidTransition); }
      StepKeeps(Now(), Advance(to));
      status := to;
      return Done;
    }

    method AssignRole(role: Role)
      requires Valid()
      modifies this
      ensures Valid() && Now() == After(old(Now()), Assign(role))
      ensures Now().(roles := old(roles)) == old(Now())
      ensures roles == if role in old(roles) then old(roles)
                else old(roles)[role := if role == BUYER then RoleActive else RoleDraft]
    {
      if role !in roles {
        roles := roles[role := InitialRoleStatus(role)];
      }
    }

    method SubmitForActivation(enabled: bool) returns (r: Reply)
      requires Valid()
      modifies this
      ensures Valid() && (r.Done? <==> enabled && Allowed(old(Now()), Submit))
      ensures Now() == if r.Done? then After(old(Now()), Submit) else old(Now())
      ensures r.Done? <==>
                && enabled && old(status) == PROFILE_COMPLETE
                && exists k | k in old(roles) :: k != BUYER && old(roles)[k] != Revoked
      ensures r.Done? ==>
                && Now() == old(Now()).(status := UNDER_REVIEW, pending := true, roles := roles)
                && roles.Keys == old(roles).Keys
                && forall k | k in roles ::
                     roles[k] == if old(roles)[k] == RoleDraft then PendingActivation else old(roles)[k]
      ensures r.Refused? ==> SubmissionRefusal(old(Now()), enabled, r.error)
    {
      if !enabled { return Refused(AccountNotEnabled); }
      match status {
        case PROFILE_COMPLETE =>
        case DRAFT => return Refused(ProfileIncomplete);
        case PROFILE_INCOMPLETE => return Refused(ProfileIncomplete);
        case UNDER_REVIEW => return Refused(AlreadySubmitted);
        case ACTIVE => return Refused(AlreadyActive);
        case _ => return Refused(StatusNotEligible);
      }
      if !HoldsActivatable(roles) { return Refused(NoRole); }
      if pending { return Refused(AlreadyPending); }
      StepKeeps(Now(), Submit);
      status := UNDER_REVIEW;
      roles := map r | r in roles :: Submitted(roles[r]);
      pending := true;
      return Done;
    }

    /** The actor's authority and independence first, then the evidence; a refusal of an approval names every
        prerequisite that failed. */
    method DecideActivation(reviewer: AccountId, entitled: bool, v: Verdict, reason: ReasonCode, e: Evidence)
      returns (r: Reply)
      requires Valid()
      modifies this
      ensures Valid()
      ensures r.Done? <==>
                entitled && reviewer != owner && reason in CoherentReasons(v) && Allowed(old(Now()), Decide(v, e))
      ensures Now() == if r.Done? then After(old(Now()), Decide(v, e)) else old(Now())
      ensures r.Done? <==>
                && entitled && reviewer != owner && reason in CoherentReasons(v) && old(pending)
                && (v == MORE_INFORMATION_REQUIRED ==> old(status) == UNDER_REVIEW)
                && (v == APPROVED ==>
                      && old(suspension).None? && old(status) == UNDER_REVIEW && e.profileComplete
                      && e.payment == Enabled && e.outstandingAudiences == {} && e.supportContact
                      && exists k | k in old(roles) :: k != BUYER && old(roles)[k] != Revoked)
      ensures r.Done? ==>
                && Now() == old(Now()).(status := status, decided := old(decided) + [v], pending := false,
                                        roles := roles)
                && roles.Keys == old(roles).Keys
                && status == (if v == MORE_INFORMATION_REQUIRED then PROFILE_INCOMPLETE
                              else if v == REJECTED then old(status)
                              else if restrictions != {} then RESTRICTED else ACTIVE)
                && forall k | k in roles ::
                     roles[k] == if v == APPROVED && old(roles)[k] == PendingActivation then RoleActive
                                 else old(roles)[k]
      ensures r.Done? ==> (v == APPROVED <==> reason == PrerequisitesSatisfied)
      ensures r.Done? ==> (v == REJECTED <==> reason in {NotEligibleUnderPolicy, ProviderDeclined, SubmissionWithdrawn})
      ensures r == Refused(ActorNotAuthorized) <==> !entitled
      ensures r.Refused? ==> DecisionRefusal(old(Now()), reviewer == owner, entitled, v, reason, e, r.error)
    {
      hide Inv, DecisionRefusal, Approvable, Transitions, CoherentReasons;
      DecisionGuards(Now(), v, e);
      ReasonFits(v, reason);
      r := CheckDecision(reviewer, entitled, v, reason, e);
      if r.Done? {
        StepKeeps(Now(), Decide(v, e));
        var next := Decided(v);
        decided, pending := decided + [v], false;
        if next.Some? { status := next.value; }
        if v == APPROVED {
          if restrictions != {} { status := RESTRICTED; }
          roles := map r | r in roles :: Approved(roles[r]);
        }
      }
    }

    method CheckDecision(reviewer: AccountId, entitled: bool, v: Verdict, reason: ReasonCode, e: Evidence)
      returns (r: Reply)
      requires Valid()
      ensures r.Done? <==> entitled && reviewer != owner && reason in CoherentReasons(v) && Allowed(Now(), Decide(v, e))
      ensures r == Refused(ActorNotAuthorized) <==> !entitled
      ensures r.Refused? ==> DecisionRefusal(Now(), reviewer == owner, entitled, v, reason, e, r.error)
    {
      if !entitled { return Refused(ActorNotAuthorized); }
      if reason !in CoherentReasons(v) { return Refused(IncoherentReason); }
      if reviewer == owner { return Refused(SelfActionNotPermitted); }
      if !pending { return Refused(NotSubmitted); }
      if v == APPROVED {
        if suspension.Some? { return Refused(ParticipantSuspended); }
        var refusals := EvaluateApproval(status, roles, e);
        if refusals != [] { return Refused(PrerequisitesNotMet(refusals)); }
        assert !Fails(status, roles, e, NoActivationUnderReview);
      }
      var next := Decided(v);
      if next.Some? && next.value !in Transitions(status) { return Refused(InvalidTransition); }
      return Done;
    }

    /** Two guarded updates, at most one of which can match. */
    method Reconcile()
      modifies this`status
      ensures status == Reconciled(old(Now()))
    {
      if status == ACTIVE && restrictions != {} && suspension.None? { status := RESTRICTED; }
      if status == RESTRICTED && restrictions == {} && suspension.None? { status := ACTIVE; }
    }

    method ImposeRestriction(a: Authority, scope: Scope, ground: string) returns (r: Reply)
      requires Valid()
      modifies this
      ensures Valid()
                && (r.Done? <==>
                Enforceable(scope) && MayAct(Needed(a, ground), owner) && Allowed(old(Now()), Impose(scope)))
      ensures Now() == if r.Done? then After(old(Now()), Impose(scope)) else old(Now())
      ensures r.Done? <==>
                && Enforceable(scope) && a.entitled && (RiskDerived(ground) ==> a.terms) && a.actor != owner
                && old(status) != CLOSED && scope !in old(restrictions)
      ensures r.Done? ==> Now() == old(Now()).(status := status, restrictions := old(restrictions) + {scope})
      ensures r.Done? ==> status == if old(status) == ACTIVE then RESTRICTED else old(status)
      ensures r.Refused? ==> MitigationRefusal(old(Now()), owner, Needed(a, ground), Impose(scope), r.error)
    {
      hide Inv, Enforceable, RiskDerived;
      if !Enforceable(scope) { return Refused(ScopeNotEnforceable); }
      if !a.entitled { return Refused(ActorNotAuthorized); }
      if RiskDerived(ground) && !a.terms { return Refused(TermsDoNotAuthorize); }
      if a.actor == owner { return Refused(SelfActionNotPermitted); }
      if status == CLOSED { return Refused(LifecycleTerminated); }
      if scope in restrictions { return Refused(DuplicateRestriction); }
      StepKeeps(Now(), Impose(scope));
      restrictions := restrictions + {scope};
      Reconcile();
      return Done;
    }

    method LiftRestriction(actor: AccountId, entitled: bool, scope: Scope) returns (r: Reply)
      requires Valid()
      modifies this
      ensures Valid() && (r.Done? <==> entitled && actor != owner && Allowed(old(Now()), Lift(scope)))
      ensures Now() == if r.Done? then After(old(Now()), Lift(scope)) else old(Now())
      ensures r.Done? <==> entitled && actor != owner && scope in old(restrictions)
      ensures r.Done? ==> Now() == old(Now()).(status := status, restrictions := old(restrictions) - {scope})
      ensures r.Done? ==>
                status == if old(status) == RESTRICTED && restrictions == {} then ACTIVE else old(status)
      ensures r.Refused? ==>
                MitigationRefusal(old(Now()), owner, Authority(actor, entitled, true), Lift(scope), r.error)
    {
      if !entitled { return Refused(ActorNotAuthorized); }
      if actor == owner { return Refused(SelfActionNotPermitted); }
      if scope !in restrictions { return Refused(RestrictionNotActive); }
      StepKeeps(Now(), Lift(scope));
      restrictions := restrictions - {scope};
      Reconcile();
      return Done;
    }

    /** The row is written for everyone; the status moves only where there is admission to withdraw. */
    method SuspendParticipant(a: Authority) returns (r: Reply)
      requires Valid()
      modifies this
      ensures Valid() && (r.Done? <==> MayAct(a, owner) && Allowed(old(Now()), Suspend))
      ensures Now() == if r.Done? then After(old(Now()), Suspend) else old(Now())
      ensures r.Done? <==>
                && a.entitled && a.terms && a.actor != owner
                && old(status) !in {SUSPENDED, CLOSED} && old(suspension).None?
      ensures r.Done? ==> Now() == old(Now()).(status := status, suspension := Some(old(status)))
      ensures r.Done? ==> status == if old(status) in {ACTIVE, RESTRICTED} then SUSPENDED else old(status)
      ensures r.Refused? ==> MitigationRefusal(old(Now()), owner, a, Suspend, r.error)
    {
      if !a.terms { return Refused(TermsDoNotAuthorize); }
      if !a.entitled { return Refused(ActorNotAuthorized); }
      if a.actor == owner { return Refused(SelfActionNotPermitted); }
      if status == SUSPENDED || status == CLOSED || suspension.Some? { return Refused(AlreadySuspended); }
      StepKeeps(Now(), Suspend);
      suspension := Some(status);
      if Admitted(status) && SUSPENDED in Transitions(status) { status := SUSPENDED; }
      return Done;
    }

    method ReinstateParticipant(a: Authority) returns (r: Reply)
      requires Valid()
      modifies this
      ensures Valid() && (r.Done? <==> MayAct(a, owner) && Allowed(old(Now()), Reinstate))
      ensures Now() == if r.Done? then After(old(Now()), Reinstate) else old(Now())
      ensures r.Done? <==> a.entitled && a.terms && a.actor != owner && old(suspension).Some?
      ensures r.Done? ==> Now() == old(Now()).(status := status, suspension := None)
      ensures r.Done? ==>
                status == if old(status) != SUSPENDED then old(status)
                          else if restrictions != {} then RESTRICTED else ACTIVE
      ensures r.Refused? ==> MitigationRefusal(old(Now()), owner, a, Reinstate, r.error)
    {
      if !a.terms { return Refused(TermsDoNotAuthorize); }
      if !a.entitled { return Refused(ActorNotAuthorized); }
      if a.actor == owner { return Refused(SelfActionNotPermitted); }
      if suspension.None? { return Refused(AlreadyLifted); }
      StepKeeps(Now(), Reinstate);
      var before := suspension.value;
      suspension := None;
      if status == SUSPENDED {
        var target := if Admitted(before) && restrictions != {} then RESTRICTED
            else if before == RESTRICTED then ACTIVE else before;
        if target in Transitions(SUSPENDED) { status := target; }
      }
      return Done;
    }

    method CloseParticipant(actor: AccountId) returns (r: Reply)
      requires Valid()
      modifies this
      ensures Valid() && (r.Done? <==> actor == owner && Allowed(old(Now()), Close))
      ensures Now() == if r.Done? then After(old(Now()), Close) else old(Now())
      ensures r.Done? <==> actor == owner && old(status) != CLOSED
      ensures r.Done? ==> Now() == old(Now()).(status := CLOSED)
      ensures actor != owner ==> r == Refused(NotFound)
    {
      if actor != owner { return Refused(NotFound); }
      if status == CLOSED { return Refused(LifecycleTerminated); }
      StepKeeps(Now(), Close);
      status := CLOSED;
      return Done;
    }
  }
}
