/** Which kind of artifact data may flow to, and what chains of permitted flows can and cannot reach. */
module ProjectionFlow {
  import opened Sequences

  datatype Kind =
    | SourceModel | SourceVersion | ProjectionMapping | ProjectionShape | Projection
    | AuthorityRecord | AuditRecord | GenerationRecord | PublicationReceipt | ReconciliationResult | RegistrarCopy

  datatype Role = AuthoritativeSource | Evidence | DerivedProjection

  datatype Ruling = Allow | CapsuleToSourceForbidden | OriginNotAuthoritative | RegistrarCopyNotAuthoritative

  function RoleOf(k: Kind): Role {
    match k
    case SourceModel | SourceVersion | AuthorityRecord | ProjectionMapping => AuthoritativeSource
    case AuditRecord | GenerationRecord | PublicationReceipt | ReconciliationResult => Evidence
    case ProjectionShape | Projection | RegistrarCopy => DerivedProjection
  }

  const PIPELINE: seq<Kind> := [SourceModel, SourceVersion, ProjectionMapping, ProjectionShape, Projection]

  function Stage(k: Kind): int { IndexOf(PIPELINE, k) }

  function Direction(from: Kind, to: Kind): Ruling {
    if RoleOf(to).AuthoritativeSource? && RoleOf(from).DerivedProjection? then CapsuleToSourceForbidden
    else if RoleOf(to).AuthoritativeSource? && RoleOf(from).Evidence? then OriginNotAuthoritative
    else if Stage(from) >= 0 && Stage(to) >= 0 && Stage(to) <= Stage(from) then CapsuleToSourceForbidden
    else Allow
  }

  function WriteOrigin(k: Kind, writesAuthoritative: bool): Ruling {
    if !writesAuthoritative then Allow
    else
      match RoleOf(k)
      case AuthoritativeSource => Allow
      case DerivedProjection => if k == RegistrarCopy then RegistrarCopyNotAuthoritative else CapsuleToSourceForbidden
      case Evidence => OriginNotAuthoritative
  }

  /** At least one flow, each permitted. */
  predicate Chain(c: seq<Kind>) {
    |c| >= 2 && forall i | 0 <= i < |c| - 1 :: Direction(c[i], c[i + 1]).Allow?
  }

  /** Whatever ends in an authoritative source came only from authoritative sources. */
  lemma {:induction false} AuthorityNeverDerived(c: seq<Kind>, i: nat)
    requires Chain(c) && i < |c| && RoleOf(c[|c| - 1]).AuthoritativeSource?
    ensures RoleOf(c[i]).AuthoritativeSource?
    decreases |c| - i
  {
    if i < |c| - 1 {
      AuthorityNeverDerived(c, i + 1);
      assert Direction(c[i], c[i + 1]).Allow?;
    }
  }

  /** Inside the pipeline every chain strictly advances, so none returns to where it was. */
  lemma {:induction false} PipelineAdvances(c: seq<Kind>, i: nat, j: nat)
    requires Chain(c) && (forall k | k in c :: k in PIPELINE) && i < j < |c|
    ensures Stage(c[i]) < Stage(c[j])
    decreases j
  {
    assert Direction(c[j - 1], c[j]).Allow? && c[j - 1] in PIPELINE && c[j] in PIPELINE;
    if i < j - 1 {
      PipelineAdvances(c, i, j - 1);
    }
  }

  /** The one way through the whole pipeline. */
  lemma OnlyFullChain(c: seq<Kind>)
    requires |c| == 5 && forall k | k in c :: k in PIPELINE
    ensures Chain(c) <==> c == [SourceModel, SourceVersion, ProjectionMapping, ProjectionShape, Projection]
  {
    if Chain(c) {
      AllStages(c);
    } else if c == PIPELINE {
      NextStages();
    }
  }

  lemma AllStages(c: seq<Kind>)
    requires |c| == |PIPELINE| == 5 && Chain(c) && forall k | k in c :: k in PIPELINE
    ensures c == PIPELINE
  {
    hide PIPELINE, Stage, Chain, Direction;
    forall i | 0 <= i < 5 ensures 0 <= Stage(c[i]) < 5 && PIPELINE[Stage(c[i])] == c[i] {
      StageExactly(c[i]);
    }
    PipelineAdvances(c, 0, 1);
    PipelineAdvances(c, 1, 2);
    PipelineAdvances(c, 2, 3);
    PipelineAdvances(c, 3, 4);
    assert forall i | 0 <= i < 5 :: Stage(c[i]) == i;
  }

  lemma StageExactly(k: Kind)
    requires k in PIPELINE
    ensures 0 <= Stage(k) < |PIPELINE| && PIPELINE[Stage(k)] == k
  {
    hide PIPELINE, IndexOf;
  }

  lemma StageAt(i: nat)
    requires i < |PIPELINE| && NoRepeats(PIPELINE)
    ensures Stage(PIPELINE[i]) == i
  {
    hide PIPELINE, IndexOf;
    StageExactly(PIPELINE[i]);
  }

  lemma NextStages()
    ensures Direction(SourceModel, SourceVersion).Allow? && Direction(SourceVersion, ProjectionMapping).Allow?
    ensures Direction(ProjectionMapping, ProjectionShape).Allow? && Direction(ProjectionShape, Projection).Allow?
  {
    hide Stage, IndexOf;
    assert NoRepeats(PIPELINE);
    StageAt(0);
    StageAt(1);
    StageAt(2);
    StageAt(3);
    StageAt(4);
  }

  /** Why a flow is refused: evidence into a source, a projection into a source, or back along the pipeline. */
  lemma DirectionExactly(from: Kind, to: Kind)
    ensures var source := to in {SourceModel, SourceVersion, AuthorityRecord, ProjectionMapping};
            var back := from in PIPELINE && to in PIPELINE && Stage(to) <= Stage(from);
            && (Direction(from, to) == OriginNotAuthoritative <==>
                  source && from in {AuditRecord, GenerationRecord, PublicationReceipt, ReconciliationResult})
            && (Direction(from, to) == CapsuleToSourceForbidden <==>
                  (source && from in {ProjectionShape, Projection, RegistrarCopy}) || back)
            && (Direction(from, to).Allow? || Direction(from, to) in {OriginNotAuthoritative, CapsuleToSourceForbidden})
  {
    hide PIPELINE, IndexOf;
    StageListed();
  }

  lemma StageListed()
    ensures forall k :: Stage(k) >= 0 <==> k in PIPELINE
    ensures forall k | k in PIPELINE :: RoleOf(k) != Evidence
  {
    hide IndexOf;
  }

  /** Which kinds an authoritative write may rest on, and why the others may not. */
  lemma WriteOriginExactly(k: Kind)
    ensures WriteOrigin(k, false).Allow?
    ensures WriteOrigin(k, true).Allow? <==> k in {SourceModel, SourceVersion, AuthorityRecord, ProjectionMapping}
    ensures WriteOrigin(k, true) == RegistrarCopyNotAuthoritative <==> k == RegistrarCopy
    ensures WriteOrigin(k, true) == CapsuleToSourceForbidden <==> k in {ProjectionShape, Projection}
    ensures WriteOrigin(k, true) == OriginNotAuthoritative <==>
            k in {AuditRecord, GenerationRecord, PublicationReceipt, ReconciliationResult}
  {
  }

  /** A way from one kind to another, at most one stop long. */
  function Route(from: Kind, to: Kind): seq<Kind> {
    if Direction(from, to).Allow? then [from, to]
    else if RoleOf(to).AuthoritativeSource? then [from, AuthorityRecord, to]
    else [from, RegistrarCopy, to]
  }

  predicate Reaches(from: Kind, to: Kind) {
    RoleOf(to).AuthoritativeSource? ==> RoleOf(from).AuthoritativeSource?
  }

  /** Chains reach exactly this: everything, except that only an authoritative source reaches an authoritative source.
      Off the pipeline there are ways back: a later stage reaches an earlier one of its own side, and itself. */
  lemma ReachesExactly(from: Kind, to: Kind)
    ensures Reaches(from, to) <==> exists c :: Chain(c) && c[0] == from && c[|c| - 1] == to
    ensures Reaches(from, to) ==>
              Chain(Route(from, to)) && Route(from, to)[0] == from && Route(from, to)[|Route(from, to)| - 1] == to
  {
    hide Direction;
    if Reaches(from, to) {
      RouteWorks(from, to);
    }
    forall c | Chain(c) && c[0] == from && c[|c| - 1] == to
      ensures Reaches(from, to)
    {
      if RoleOf(to).AuthoritativeSource? {
        AuthorityNeverDerived(c, 0);
      }
    }
  }

  lemma OffPipeline()
    ensures Stage(AuthorityRecord) == -1 && Stage(RegistrarCopy) == -1
  {
  }

  lemma RouteWorks(from: Kind, to: Kind)
    requires Reaches(from, to)
    ensures Chain(Route(from, to)) && Route(from, to)[0] == from && Route(from, to)[|Route(from, to)| - 1] == to
  {
    hide Stage;
    OffPipeline();
    var via := if RoleOf(to).AuthoritativeSource? then AuthorityRecord else RegistrarCopy;
    assert Direction(from, via).Allow? && Direction(via, to).Allow?;
  }

  /** An authoritative write may rest on a kind exactly when permitted flows can carry it into a source of record. */
  lemma WriteAgreesWithFlow(k: Kind)
    ensures WriteOrigin(k, true).Allow? <==>
              exists c :: Chain(c) && c[0] == k && RoleOf(c[|c| - 1]).AuthoritativeSource?
  {
    hide Direction;
    if WriteOrigin(k, true).Allow? {
      ReachesExactly(k, AuthorityRecord);
    }
    forall c | Chain(c) && c[0] == k && RoleOf(c[|c| - 1]).AuthoritativeSource?
      ensures WriteOrigin(k, true).Allow?
    {
      AuthorityNeverDerived(c, 0);
    }
  }
}
