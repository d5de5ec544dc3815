/** Requests to and answers from the trusted scope attestor, and what the runner accepts of them. */
module Attestation {
  import opened Basics
  import opened RunDefs
  import opened Scopes
  import opened PipelineStates
  import opened Validation

  datatype Identity = Identity(storyId: string, runId: string, runDefId: string, runDefDigest: RunDefDigest)

  datatype ScopeRequest =
    | ReviewRequest(identity: Identity, qualityGate: QualityGate)
    | FinalRequest(identity: Identity, checkpoint: Option<Checkpoint>, qualityGate: QualityGate)

  datatype ScopeResult =
    | ReviewCheckpointed(checkpoint: Checkpoint)
    | FinalReceipted(receipt: Receipt)
    | ReviewScopeChanged(changedPaths: seq<Path>)
    | ReviewBaseStale(previousBaseOid: string, currentBaseOid: string)
    | Rejected

  /** The runner's own check: the attestation carries the requested run identity. */
  predicate MatchesRequest(c: Checkpoint, identity: Identity) {
    c.storyId == identity.storyId && c.runId == identity.runId
    && c.runDefId == identity.runDefId && c.runDefDigest == identity.runDefDigest
  }

  /** A stale base must be correlated with the active checkpoint and be a real advance. */
  predicate IsValidStaleBase(previous: string, current: string, active: Option<Checkpoint>) {
    active.Some? && active.value.baseOid == previous && IsOid(previous) && IsOid(current) && previous != current
  }

  ghost predicate WellFormedRequest(request: ScopeRequest) {
    var id := request.identity;
    && NonBlank(id.storyId) && NonBlank(id.runId) && NonBlank(id.runDefId) && id.runDefDigest.Sha256?
    && ValidQualityGate(request.qualityGate)
    && (request.FinalRequest? && request.checkpoint.Some? ==>
         ValidCheckpoint(request.checkpoint.value) && request.checkpoint.value.qualityGate == request.qualityGate)
  }

  /**
   What a trusted attestor promises: the requested gate is echoed, scopes are canonical, a final
   receipt extends the given checkpoint, and its documents are apart from the reviewed paths.
   */
  ghost predicate Honest(request: ScopeRequest, result: ScopeResult) {
    && (request.ReviewRequest? && result.ReviewCheckpointed? ==>
         ValidCheckpoint(result.checkpoint) && result.checkpoint.qualityGate == request.qualityGate)
    && (request.FinalRequest? && result.FinalReceipted? ==>
         && ValidReceipt(result.receipt) && Disjoint(result.receipt.checkpoint.reviewed, result.receipt.docs)
         && (request.checkpoint.Some? ==> result.receipt.checkpoint == request.checkpoint.value)
         && (request.checkpoint.None? ==> result.receipt.checkpoint.qualityGate == request.qualityGate))
  }
}
