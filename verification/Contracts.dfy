// The common records the task-graph packages exchange
// (agent-platform/contracts/contracts.go, agent-platform/blob/contracts.go).
module Contracts {
  import opened Text

  /** An instant in UTC; 0 is Go's zero time. */
  type Time = int

  predicate ValidUTC(t: Time) {
    t != 0
  }

  const AGENT_CONTROL := "agent_control"

  predicate KnownOwner(owner: string) {
    owner in {AGENT_CONTROL, "worker", "platform_governance", "blob", "research_gateway", "gexbot_provider",
              "grace", "delegation", "kernel"}
  }

  datatype RecordRef = RecordRef(owner: string, recordType: string, recordId: string, schemaRevision: nat,
                                 recordDigest: string)
  {
    predicate Valid() {
      && KnownOwner(owner) && ValidName(recordType) && ValidID(recordId)
      && schemaRevision == 1 && ValidDigest(recordDigest)
    }
  }

  /** A record owned by Control, of the given type. */
  predicate ControlRecord(ref: RecordRef, recordType: string) {
    ref.Valid() && ref.owner == AGENT_CONTROL && ref.recordType == recordType
  }

  datatype RevisionRef = RevisionRef(record: RecordRef, generation: int) {
    predicate Valid() {
      record.Valid() && generation > 0
    }
  }

  predicate ControlRevision(ref: RevisionRef, recordType: string) {
    ref.Valid() && ref.record.owner == AGENT_CONTROL && ref.record.recordType == recordType
  }

  /** A committed blob. wellFormed is the verdict of the identifier, digest, media
      type and size checks, which look at no other record. */
  datatype BlobRef = BlobRef(wellFormed: bool, origin: RecordRef, committedAt: Time) {
    predicate Valid() {
      wellFormed && origin.Valid() && ValidUTC(committedAt)
    }
  }

  predicate ObjectiveBlob(b: BlobRef) {
    b.Valid() && b.origin.owner == AGENT_CONTROL && b.origin.recordType == "task_objective"
  }

  datatype PrincipalKind = User | Workload | Kernel | OtherKind(name: string)
  datatype Audience =
    | ControlApi | Worker | ResearchGateway | GraceIntake | GraceEngine | DelegationEngine
    | Validator | Activator | KernelAudience | KernelAdmin | OtherAudience(name: string)

  datatype AuditActor = AuditActor(principalId: string, kind: PrincipalKind, audience: Audience) {
    predicate Valid() {
      ValidID(principalId) && !kind.OtherKind? && !audience.OtherAudience?
    }

    predicate ControlWorkload() {
      Valid() && kind == Workload && audience == ControlApi
    }
  }

  datatype CommandEnvelope = CommandEnvelope(schemaRevision: nat, commandId: string, actor: AuditActor,
                                             audience: Audience, commandType: string, idempotencyKey: string,
                                             requestDigest: string, causationId: string, correlationId: string,
                                             deadline: Time)
  {
    predicate Valid() {
      && schemaRevision == 1 && ValidID(commandId) && actor.Valid() && !audience.OtherAudience?
      && ValidName(commandType) && ValidID(idempotencyKey) && ValidDigest(requestDigest)
      && ValidID(causationId) && ValidID(correlationId) && ValidUTC(deadline)
    }
  }
}
