/**
 Catalog materialization as a transition system: any number of workers, each between
 two of its atomic D1 or R2 steps, over one set of tables and one bucket. A worker may
 stop for ever after any step, and mutations, expiries and cleanups come in between.
 */
module CatalogProtocol {
  import opened CatalogTables

  datatype StoredObject = StoredObject(body: Body, version: nat)

  /** What one worker still remembers between two atomic steps. */
  datatype Worker =
    | Idle
    | Selected(revision: RevisionId, now: nat)
    | Unloadable(revision: RevisionId, owner: LeaseOwner)
    | ClaimedRow(revision: RevisionId, owner: LeaseOwner, now: nat)
    | Assembling(candidate: Candidate, now: nat)
    | Encoded(candidate: Candidate, body: Body, now: nat)
    | Recording(candidate: Candidate, body: Body, now: nat)
    | Recorded(candidate: Candidate, body: Body, now: nat)
    | Conflicted(candidate: Candidate, body: Body, now: nat)
    | Stored(candidate: Candidate, body: Body, version: nat, now: nat)
    | Staging(candidate: Candidate, body: Body, version: nat)
    | StagedCopy(candidate: Candidate, body: Body, version: nat)
    | Fenced(candidate: Candidate, body: Body, version: nat, now: nat)
    | Confirming(candidate: Candidate, now: nat)
    | Superseded(candidate: Candidate, now: nat)
    | Releasing(candidate: Candidate, retry: bool)
    | Collapsing(head: RevisionId)
    | CleanupSelected(revision: RevisionId, key: ObjectKey, state: ArtifactState, cutoff: nat)
    | CleanupDeleted(revision: RevisionId, key: ObjectKey, state: ArtifactState, cutoff: nat)

  datatype System = System(
    db: Tables,
    objects: map<ObjectKey, StoredObject>,
    nextVersion: nat,
    nextOwner: LeaseOwner,
    workers: map<nat, Worker>)

  const INITIAL := System(EMPTY, map[], 0, 0, map[])

  datatype Step =
    | MutateStep(filesystem: FilesystemId, root: DataRoot, now: nat)
    | CrashStep(w: nat)
    | SelectStep(w: nat, revision: RevisionId, now: nat)
    | ClaimStep(w: nat)
    | LoadStep(w: nat)
    | ReleaseUnloadableStep(w: nat, now: nat)
    | EncodeStep(w: nat, rest: nat, bytes: nat)
    | FailStep(w: nat)
    | RecordStep(w: nat)
    | ConfirmRecordStep(w: nat)
    | PutStep(w: nat)
    | RereadStep(w: nat)
    | StageStep(w: nat)
    | ConfirmStageStep(w: nat)
    | FenceStep(w: nat, now: nat)
    | PublishStep(w: nat)
    | ConfirmPublishStep(w: nat)
    | OrphanStep(w: nat)
    | ReleaseStep(w: nat, now: nat)
    | SelectHeadStep(w: nat, head: RevisionId)
    | CollapseStep(w: nat, chosen: set<RevisionId>, resolved: set<RevisionId>, now: nat)
    | RetireStep(chosen: set<RevisionId>, now: nat)
    | SelectCleanupStep(w: nat, revision: RevisionId, now: nat)
    | DeleteObjectStep(w: nat)
    | DeleteRowStep(w: nat)
    | DeltaPutStep(name: nat, body: Body)
    | DeltaDeleteStep(name: nat)

  function WorkerAt(s: System, w: nat): Worker {
    if w in s.workers then s.workers[w] else Idle
  }

  function Goto(s: System, w: nat, worker: Worker): System {
    s.(workers := s.workers[w := worker])
  }

  predicate HasCandidate(p: Worker) {
    !(p.Idle? || p.Selected? || p.Unloadable? || p.ClaimedRow? || p.Collapsing? || p.CleanupSelected? || p.CleanupDeleted?)
  }

  function ExecuteClaiming(s: System, step: Step): System {
    match step
    case SelectStep(w, r, now) =>
      if WorkerAt(s, w).Idle? && Claimable(s.db, r, now) then Goto(s, w, Selected(r, now)) else s
    case ClaimStep(w) =>
      var p := WorkerAt(s, w);
      if !p.Selected? then s
      else if !ClaimMatches(s.db, p.revision, p.now) then Goto(s, w, Idle)
      else Goto(s, w, ClaimedRow(p.revision, s.nextOwner, p.now)).(
             db := Claim(s.db, p.revision, s.nextOwner, p.now), nextOwner := s.nextOwner + 1)
    case LoadStep(w) =>
      var p := WorkerAt(s, w);
      if !p.ClaimedRow? then s
      else
        var loaded := LoadCandidate(s.db, p.revision, p.owner, p.now);
        Goto(s, w, if loaded.Some? then Assembling(loaded.value, p.now) else Unloadable(p.revision, p.owner))
    case ReleaseUnloadableStep(w, now) =>
      var p := WorkerAt(s, w);
      if !p.Unloadable? then s
      else if !HoldsLease(s.db, p.revision, p.owner) then Goto(s, w, Idle)
      else
        Goto(s, w, Idle).(db := ReleaseClaim(s.db, p.revision, p.owner, s.db.outbox[p.revision].attempts,
                                             IsMutationHead(s.db, p.revision), now))
    case _ => s
  }

  function ExecuteStaging(s: System, step: Step): System {
    match step
    case EncodeStep(w, rest, bytes) =>
      var p := WorkerAt(s, w);
      if !p.Assembling? then s
      else if bytes == 0 || bytes > MAXIMUM_CATALOG_CHECKPOINT_BYTES then Goto(s, w, Releasing(p.candidate, true))
      else Goto(s, w, Encoded(p.candidate, Body(p.candidate.filesystem, p.candidate.revision, rest, bytes), p.now))
    case FailStep(w) =>
      var p := WorkerAt(s, w);
      if HasCandidate(p) then Goto(s, w, Releasing(p.candidate, true)) else s
    case RecordStep(w) =>
      var p := WorkerAt(s, w);
      if !p.Encoded? then s
      else Goto(s, w, Recording(p.candidate, p.body, p.now)).(
             db := RecordWriting(s.db, p.candidate.revision, p.body, p.now))
    case ConfirmRecordStep(w) =>
      var p := WorkerAt(s, w);
      if !p.Recording? then s
      else if WritingConfirmed(s.db, p.candidate.revision, p.body) then
        Goto(s, w, Recorded(p.candidate, p.body, p.now))
      else Goto(s, w, Releasing(p.candidate, true))
    case PutStep(w) =>
      var p := WorkerAt(s, w);
      if !p.Recorded? then s
      else if KeyOf(p.body) in s.objects then Goto(s, w, Conflicted(p.candidate, p.body, p.now))
      else Goto(s, w, Stored(p.candidate, p.body, s.nextVersion, p.now)).(
             objects := s.objects[KeyOf(p.body) := StoredObject(p.body, s.nextVersion)],
             nextVersion := s.nextVersion + 1)
    case RereadStep(w) =>
      var p := WorkerAt(s, w);
      if !p.Conflicted? then s
      else if KeyOf(p.body) in s.objects && s.objects[KeyOf(p.body)].body == p.body then
        Goto(s, w, Stored(p.candidate, p.body, s.objects[KeyOf(p.body)].version, p.now))
      else Goto(s, w, Releasing(p.candidate, true))
    case StageStep(w) =>
      var p := WorkerAt(s, w);
      if !p.Stored? then s
      else Goto(s, w, Staging(p.candidate, p.body, p.version)).(
             db := MarkStaged(s.db, p.candidate.revision, p.body, p.version, p.now))
    case ConfirmStageStep(w) =>
      var p := WorkerAt(s, w);
      if !p.Staging? then s
      else if ArtifactMatches(s.db, p.candidate.revision, ReceiptFor(p.body, p.version), Staged) then
        Goto(s, w, StagedCopy(p.candidate, p.body, p.version))
      else Goto(s, w, Releasing(p.candidate, true))
    case _ => s
  }

  function ExecutePublishing(s: System, step: Step): System {
    match step
    case FenceStep(w, now) =>
      var p := WorkerAt(s, w);
      if !p.StagedCopy? then s
      else if LoadCandidate(s.db, p.candidate.revision, p.candidate.owner, now).Some? then
        Goto(s, w, Fenced(p.candidate, p.body, p.version, now))
      else Goto(s, w, Superseded(p.candidate, now))
    case PublishStep(w) =>
      var p := WorkerAt(s, w);
      if !p.Fenced? then s
      else if PublishAborts(s.db, p.candidate, ReceiptFor(p.body, p.version), p.now) then
        Goto(s, w, Releasing(p.candidate, true))
      else Goto(s, w, Confirming(p.candidate, p.now)).(
             db := Publish(s.db, p.candidate, ReceiptFor(p.body, p.version), p.now))
    case ConfirmPublishStep(w) =>
      var p := WorkerAt(s, w);
      if !p.Confirming? then s
      else Goto(s, w, if PublicationConfirmed(s.db, p.candidate) then Idle else Superseded(p.candidate, p.now))
    case OrphanStep(w) =>
      var p := WorkerAt(s, w);
      if !p.Superseded? then s
      else Goto(s, w, Releasing(p.candidate, false)).(db := MarkOrphaned(s.db, p.candidate.revision, p.now))
    case ReleaseStep(w, now) =>
      var p := WorkerAt(s, w);
      if !p.Releasing? then s
      else Goto(s, w, Idle).(
             db := ReleaseClaim(s.db, p.candidate.revision, p.candidate.owner, p.candidate.attempts, p.retry, now))
    case _ => s
  }

  ghost function ExecuteMaintenance(s: System, step: Step): System {
    match step
    case SelectHeadStep(w, head) =>
      if WorkerAt(s, w).Idle? && IsCatalogHead(s.db, head) then Goto(s, w, Collapsing(head)) else s
    case CollapseStep(w, chosen, resolved, now) =>
      var p := WorkerAt(s, w);
      if !p.Collapsing? || !IsFirst(chosen, Collapsible(s.db, p.head), MAXIMUM_COLLAPSES_PER_RUN) then s
      else
        var collapsed := WithCollapses(s.db, p.head, chosen);
        if !IsFirst(resolved, Unresolved(collapsed, p.head), MAXIMUM_COLLAPSES_PER_RUN) then s
        else Goto(s, w, Idle).(db := Resolve(collapsed, resolved, now))
    case RetireStep(chosen, now) =>
      if chosen <= Retirable(s.db) && |chosen| <= MAXIMUM_ARTIFACT_RETIREMENTS_PER_RUN
      then s.(db := Retire(s.db, chosen, now)) else s
    case SelectCleanupStep(w, r, now) =>
      if WorkerAt(s, w).Idle? && Cleanable(s.db, r, Cutoff(now)) then
        Goto(s, w, CleanupSelected(r, s.db.artifacts[r].key, s.db.artifacts[r].state, Cutoff(now)))
      else s
    case DeleteObjectStep(w) =>
      var p := WorkerAt(s, w);
      if !p.CleanupSelected? then s
      else Goto(s, w, CleanupDeleted(p.revision, p.key, p.state, p.cutoff)).(objects := s.objects - {p.key})
    case DeleteRowStep(w) =>
      var p := WorkerAt(s, w);
      if !p.CleanupDeleted? then s
      else Goto(s, w, Idle).(db := DeleteArtifact(s.db, p.revision, p.key, p.state, p.cutoff))
    case _ => s
  }

  predicate IsClaiming(step: Step) {
    step.SelectStep? || step.ClaimStep? || step.LoadStep? || step.ReleaseUnloadableStep?
  }

  predicate IsStaging(step: Step) {
    || step.EncodeStep? || step.FailStep? || step.RecordStep? || step.ConfirmRecordStep?
    || step.PutStep? || step.RereadStep? || step.StageStep? || step.ConfirmStageStep?
  }

  predicate IsPublishing(step: Step) {
    step.FenceStep? || step.PublishStep? || step.ConfirmPublishStep? || step.OrphanStep? || step.ReleaseStep?
  }

  /** Somebody else's doing: a namespace mutation, a crash, or the optional deltas' own objects. */
  function ExecuteOutside(s: System, step: Step): System {
    match step
    case MutateStep(f, root, now) => s.(db := Mutate(s.db, f, root, now))
    case CrashStep(w) => Goto(s, w, Idle)
    case DeltaPutStep(name, body) =>
      s.(objects := s.objects[DeltaKey(name) := StoredObject(body, s.nextVersion)], nextVersion := s.nextVersion + 1)
    case DeltaDeleteStep(name) => s.(objects := s.objects - {DeltaKey(name)})
    case _ => s
  }

  predicate IsOutside(step: Step) {
    step.MutateStep? || step.CrashStep? || step.DeltaPutStep? || step.DeltaDeleteStep?
  }

  /** One atomic step. A step that its worker is not ready for changes nothing. */
  ghost function Execute(s: System, step: Step): System {
    if IsOutside(step) then ExecuteOutside(s, step)
    else if IsClaiming(step) then ExecuteClaiming(s, step)
    else if IsStaging(step) then ExecuteStaging(s, step)
    else if IsPublishing(step) then ExecutePublishing(s, step)
    else ExecuteMaintenance(s, step)
  }

  /** Every interleaving is one list of steps. */
  ghost function Run(s: System, steps: seq<Step>): System
    decreases |steps|
  {
    if steps == [] then s else Execute(Run(s, steps[..|steps| - 1]), steps[|steps| - 1])
  }
}
