/** Who may publish, and that a retry always can. */
module CatalogLeases {
  import opened Options
  import opened CatalogTables
  import opened CatalogProtocol
  import opened CatalogInvariant
  import opened CatalogSafety

  // ---------------------------------------------------------------- one lease, one worker

  function OwnerOf(p: Worker): Option<LeaseOwner> {
    if p.Unloadable? || p.ClaimedRow? then Some(p.owner)
    else if HasCandidate(p) then Some(p.candidate.owner)
    else None
  }

  predicate OwnerOk(s: System, w: nat) {
    OwnerOf(WorkerAt(s, w)).Some? ==> OwnerOf(WorkerAt(s, w)).value < s.nextOwner
  }

  predicate OwnersDiffer(s: System, v: nat, w: nat) {
    v != w && OwnerOf(WorkerAt(s, v)).Some? ==> OwnerOf(WorkerAt(s, v)) != OwnerOf(WorkerAt(s, w))
  }

  ghost predicate LeasesOk(s: System) {
    && (forall w {:trigger OwnerOk(s, w)} :: OwnerOk(s, w))
    && (forall v, w {:trigger OwnersDiffer(s, v, w)} :: OwnersDiffer(s, v, w))
  }

  /** Between `s` and `t`, `w` kept its lease, lost it, or was given the one brand-new lease. */
  predicate OwnerMoves(s: System, t: System, step: Step, w: nat) {
    && s.nextOwner <= t.nextOwner
    && (OwnerOf(WorkerAt(t, w)) in {None, OwnerOf(WorkerAt(s, w))}
        || (OwnerOf(WorkerAt(t, w)) == Some(s.nextOwner) && t.nextOwner == s.nextOwner + 1 && step == ClaimStep(w)))
  }

  lemma ClaimingMovesOwner(s: System, step: Step, w: nat)
    ensures OwnerMoves(s, ExecuteClaiming(s, step), step, w)
  {
  }

  lemma StagingMovesOwner(s: System, step: Step, w: nat)
    ensures OwnerMoves(s, ExecuteStaging(s, step), step, w)
  {
  }

  lemma PublishingMovesOwner(s: System, step: Step, w: nat)
    ensures OwnerMoves(s, ExecutePublishing(s, step), step, w)
  {
  }

  lemma MaintenanceMovesOwner(s: System, step: Step, w: nat)
    ensures OwnerMoves(s, ExecuteMaintenance(s, step), step, w)
  {
  }

  lemma OwnersAfterStep(s: System, step: Step, w: nat)
    ensures OwnerMoves(s, Execute(s, step), step, w)
  {
    ClaimingMovesOwner(s, step, w);
    StagingMovesOwner(s, step, w);
    PublishingMovesOwner(s, step, w);
    MaintenanceMovesOwner(s, step, w);
  }

  lemma LeasesStep(s: System, step: Step)
    requires LeasesOk(s)
    ensures LeasesOk(Execute(s, step))
  {
    var t := Execute(s, step);
    forall w ensures OwnerOk(t, w) {
      OwnersAfterStep(s, step, w);
      assert OwnerOk(s, w);
    }
    forall v, w ensures OwnersDiffer(t, v, w) {
      OwnersAfterStep(s, step, v);
      OwnersAfterStep(s, step, w);
      assert OwnerOk(s, v) && OwnerOk(s, w) && OwnersDiffer(s, v, w);
    }
  }

  lemma {:induction false} LeasesAlwaysOk(steps: seq<Step>)
    ensures LeasesOk(Reached(steps))
    decreases |steps|
  {
    if steps == [] {
      forall w ensures OwnerOk(INITIAL, w) {}
      forall v, w ensures OwnersDiffer(INITIAL, v, w) {}
    } else {
      var n := |steps| - 1;
      LeasesAlwaysOk(steps[..n]);
      LeasesStep(Reached(steps[..n]), steps[n]);
    }
  }

  /** Whenever a head moves, the worker that moved it is the only one in the system with that row's lease. */
  lemma OnlyTheLeaseHolderPublishes(steps: seq<Step>, step: Step, f: FilesystemId, v: nat)
    ensures var s, t := Reached(steps), Execute(Reached(steps), step);
            f in t.db.heads && (f !in s.db.heads || t.db.heads[f] != s.db.heads[f]) ==>
              && step.PublishStep?
              && var r := t.db.heads[f].revision;
                 r in s.db.outbox && (OwnerOf(WorkerAt(s, v)) == s.db.outbox[r].owner ==> v == step.w)
  {
    hide Execute, Inv;
    var s := Reached(steps);
    HeadStep(s, step, f);
    LeasesAlwaysOk(steps);
    if step.PublishStep? { assert OwnersDiffer(s, step.w, v); }
  }

  // ---------------------------------------------------------------- crashed attempts do not block a retry

  /** What a crashed attempt may have left behind: nothing, or a row of the same bytes, with or without its object. */
  predicate RetryReady(s: System, w: nat, body: Body, now: nat, fence: nat) {
    && WorkerAt(s, w).Idle? && Claimable(s.db, body.revision, now)
    && var rev := s.db.revisions[body.revision];
       && rev.filesystem == body.filesystem
       && body.filesystem in s.db.liveRoots && s.db.liveRoots[body.filesystem] == rev.root
       && (body.revision in s.db.artifacts ==> s.db.artifacts[body.revision].sha256 == body)
       && 0 < body.bytes <= MAXIMUM_CATALOG_CHECKPOINT_BYTES
       && fence < now + CLAIM_SECONDS && HeadClockAllows(s.db, body.filesystem, fence)
  }

  lemma RetryClaims(s: System, w: nat, body: Body, now: nat, fence: nat) returns (t: System)
    requires Inv(s) && RetryReady(s, w, body, now, fence)
    ensures t == Run(s, [SelectStep(w, body.revision, now), ClaimStep(w), LoadStep(w)])
    ensures var c := Candidate(body.revision, body.filesystem, s.db.revisions[body.revision].root, s.nextOwner,
                               s.db.outbox[body.revision].attempts + 1);
            WorkerAt(t, w) == Assembling(c, now) && t.db == Claim(s.db, body.revision, s.nextOwner, now)
    ensures t.objects == s.objects && Inv(t)
  {
    var s1 := Execute(s, SelectStep(w, body.revision, now));
    ExecuteKeeps(s, SelectStep(w, body.revision, now));
    var s2 := Execute(s1, ClaimStep(w));
    ExecuteKeeps(s1, ClaimStep(w));
    t := Execute(s2, LoadStep(w));
    ExecuteKeeps(s2, LoadStep(w));
    assert IsMutationHead(s2.db, body.revision);
    RunOfThree(s, SelectStep(w, body.revision, now), ClaimStep(w), LoadStep(w));
  }

  /** The key of a revision's checkpoint is held by no other revision's row. */
  lemma KeyIsOwn(db: Tables, body: Body)
    requires TablesOk(db)
    ensures forall other | other in db.artifacts && db.artifacts[other].key == KeyOf(body) :: other == body.revision
  {
    forall other | other in db.artifacts && db.artifacts[other].key == KeyOf(body) ensures other == body.revision {
      assert ArtifactOk(db, other);
    }
  }

  lemma RetryEncodes(s: System, w: nat, c: Candidate, body: Body, now: nat) returns (t: System)
    requires Inv(s) && WorkerAt(s, w) == Assembling(c, now)
    requires c.revision == body.revision && c.filesystem == body.filesystem
    requires 0 < body.bytes <= MAXIMUM_CATALOG_CHECKPOINT_BYTES
    ensures t == Execute(s, EncodeStep(w, body.rest, body.bytes)) && Inv(t)
    ensures WorkerAt(t, w) == Encoded(c, body, now) && t.db == s.db && t.objects == s.objects
  {
    t := Execute(s, EncodeStep(w, body.rest, body.bytes));
    ExecuteKeeps(s, EncodeStep(w, body.rest, body.bytes));
  }

  lemma RetryWrites(s: System, w: nat, c: Candidate, body: Body, now: nat) returns (t: System)
    requires Inv(s) && WorkerAt(s, w) == Encoded(c, body, now) && c.revision == body.revision
    requires IsMutationHead(s.db, c.revision) && s.db.revisions[c.revision].state == Pending
    requires body.revision in s.db.artifacts ==> s.db.artifacts[body.revision].sha256 == body
    ensures t == Execute(s, RecordStep(w)) && Inv(t)
    ensures WorkerAt(t, w) == Recording(c, body, now) && WritingConfirmed(t.db, body.revision, body)
    ensures t.db == s.db.(artifacts := t.db.artifacts)
  {
    KeyIsOwn(s.db, body);
    assert ArtifactOk(s.db, body.revision) && Reachable(s.db, body.revision);
    t := Execute(s, RecordStep(w));
    ExecuteKeeps(s, RecordStep(w));
  }

  lemma RetryRecords(s: System, w: nat, c: Candidate, body: Body, now: nat) returns (t: System)
    requires Inv(s) && WorkerAt(s, w) == Assembling(c, now) && IsMutationHead(s.db, c.revision)
    requires s.db.revisions[c.revision].state == Pending
    requires c.revision == body.revision && c.filesystem == body.filesystem
    requires body.revision in s.db.artifacts ==> s.db.artifacts[body.revision].sha256 == body
    requires 0 < body.bytes <= MAXIMUM_CATALOG_CHECKPOINT_BYTES
    ensures t == Run(s, [EncodeStep(w, body.rest, body.bytes), RecordStep(w), ConfirmRecordStep(w)])
    ensures WorkerAt(t, w) == Recorded(c, body, now) && Inv(t) && WritingConfirmed(t.db, body.revision, body)
    ensures t.db == s.db.(artifacts := t.db.artifacts)
  {
    hide ExecuteOutside, ExecuteClaiming, ExecutePublishing, ExecuteMaintenance, Inv;
    var s1 := RetryEncodes(s, w, c, body, now);
    var s2 := RetryWrites(s1, w, c, body, now);
    t := Execute(s2, ConfirmRecordStep(w));
    ExecuteKeeps(s2, ConfirmRecordStep(w));
    RunOfThree(s, EncodeStep(w, body.rest, body.bytes), RecordStep(w), ConfirmRecordStep(w));
  }

  lemma RetryPuts(s: System, w: nat, c: Candidate, body: Body, now: nat) returns (t: System)
    requires Inv(s) && WorkerAt(s, w) == Recorded(c, body, now)
    ensures t == Execute(Execute(s, PutStep(w)), RereadStep(w)) && Inv(t) && t.db == s.db
    ensures WorkerAt(t, w).Stored? && WorkerAt(t, w) == Stored(c, body, WorkerAt(t, w).version, now)
    ensures Holds(t, KeyOf(body), WorkerAt(t, w).version)
    ensures KeyOf(body) in s.objects ==> t.objects == s.objects
  {
    hide ExecuteOutside, ExecuteClaiming, ExecutePublishing, ExecuteMaintenance;
    assert ObjectOk(s, KeyOf(body));
    var s1 := Execute(s, PutStep(w));
    ExecuteKeeps(s, PutStep(w));
    t := Execute(s1, RereadStep(w));
    ExecuteKeeps(s1, RereadStep(w));
  }

  lemma RetryStages(s: System, w: nat, c: Candidate, body: Body, version: nat, now: nat) returns (t: System)
    requires Inv(s) && WorkerAt(s, w) == Stored(c, body, version, now) && c.revision == body.revision
    requires WritingConfirmed(s.db, body.revision, body)
    requires s.db.artifacts[body.revision].state == Staged ==> s.db.artifacts[body.revision].version == Some(version)
    ensures t == Execute(Execute(s, StageStep(w)), ConfirmStageStep(w)) && WorkerAt(t, w) == StagedCopy(c, body, version)
    ensures ArtifactMatches(t.db, c.revision, ReceiptFor(body, version), Staged)
    ensures t.db == s.db.(artifacts := t.db.artifacts) && Inv(t)
  {
    hide ExecuteOutside, ExecuteClaiming, ExecutePublishing, ExecuteMaintenance, Inv;
    var s1 := Execute(s, StageStep(w));
    ExecuteKeeps(s, StageStep(w));
    t := Execute(s1, ConfirmStageStep(w));
    ExecuteKeeps(s1, ConfirmStageStep(w));
  }

  lemma RetryStores(s: System, w: nat, c: Candidate, body: Body, now: nat) returns (t: System)
    requires Inv(s) && WorkerAt(s, w) == Recorded(c, body, now) && WritingConfirmed(s.db, body.revision, body)
    requires c.revision == body.revision && IsMutationHead(s.db, c.revision)
    ensures t == Run(s, [PutStep(w), RereadStep(w), StageStep(w), ConfirmStageStep(w)])
    ensures WorkerAt(t, w).StagedCopy? && WorkerAt(t, w) == StagedCopy(c, body, WorkerAt(t, w).version)
    ensures ArtifactMatches(t.db, c.revision, ReceiptFor(body, WorkerAt(t, w).version), Staged)
    ensures t.db == s.db.(artifacts := t.db.artifacts) && Inv(t)
  {
    assert StoredOk(s, body.revision) && ArtifactOk(s.db, body.revision) && Reachable(s.db, body.revision);
    var s2 := RetryPuts(s, w, c, body, now);
    t := RetryStages(s2, w, c, body, WorkerAt(s2, w).version, now);
    RunOfFour(s, PutStep(w), RereadStep(w), StageStep(w), ConfirmStageStep(w));
  }

  lemma RetryFences(s: System, w: nat, c: Candidate, body: Body, version: nat, fence: nat) returns (t: System)
    requires Inv(s) && WorkerAt(s, w) == StagedCopy(c, body, version)
    requires LoadCandidate(s.db, c.revision, c.owner, fence).Some?
    ensures t == Execute(s, FenceStep(w, fence)) && WorkerAt(t, w) == Fenced(c, body, version, fence) && t.db == s.db
  {
    t := Execute(s, FenceStep(w, fence));
  }

  lemma RetryPublishes(s: System, w: nat, c: Candidate, body: Body, version: nat, fence: nat) returns (t: System)
    requires Inv(s) && WorkerAt(s, w) == StagedCopy(c, body, version)
    requires ArtifactMatches(s.db, c.revision, ReceiptFor(body, version), Staged)
    requires LoadCandidate(s.db, c.revision, c.owner, fence).Some? && HeadClockAllows(s.db, c.filesystem, fence)
    ensures t == Run(s, [FenceStep(w, fence), PublishStep(w), ConfirmPublishStep(w)])
    ensures WorkerAt(t, w).Idle? && c.filesystem in t.db.heads && t.db.heads[c.filesystem].revision == c.revision
  {
    hide Execute, Inv, PublishMatches;
    LoadedMatches(s, w, c, body, version, fence);
    var s1 := RetryFences(s, w, c, body, version, fence);
    var s2 := RetryCommits(s1, w, c, body, version, fence);
    t := RetryConfirms(s2, w, c, fence);
    RunOfThree(s, FenceStep(w, fence), PublishStep(w), ConfirmPublishStep(w));
  }

  /** What the fence reads is what the batch demands. */
  lemma LoadedMatches(s: System, w: nat, c: Candidate, body: Body, version: nat, fence: nat)
    requires Inv(s) && WorkerAt(s, w) == StagedCopy(c, body, version)
    requires ArtifactMatches(s.db, c.revision, ReceiptFor(body, version), Staged)
    requires LoadCandidate(s.db, c.revision, c.owner, fence).Some?
    ensures PublishMatches(s.db, c, ReceiptFor(body, version), fence)
  {
    hide TablesOk;
    assert WorkerOk(s, WorkerAt(s, w));
  }

  lemma RetryCommits(s: System, w: nat, c: Candidate, body: Body, version: nat, fence: nat) returns (t: System)
    requires WorkerAt(s, w) == Fenced(c, body, version, fence)
    requires PublishMatches(s.db, c, ReceiptFor(body, version), fence) && HeadClockAllows(s.db, c.filesystem, fence)
    ensures t == Execute(s, PublishStep(w)) && WorkerAt(t, w) == Confirming(c, fence) && PublicationConfirmed(t.db, c)
  {
    t := Execute(s, PublishStep(w));
  }

  lemma RetryConfirms(s: System, w: nat, c: Candidate, fence: nat) returns (t: System)
    requires WorkerAt(s, w) == Confirming(c, fence) && PublicationConfirmed(s.db, c)
    ensures t == Execute(s, ConfirmPublishStep(w)) && WorkerAt(t, w).Idle? && t.db == s.db
  {
    t := Execute(s, ConfirmPublishStep(w));
  }

  /** One undisturbed pass of `materialize`; the re-read does nothing when the put created the object. */
  function Attempt(w: nat, body: Body, now: nat, fence: nat): seq<Step> {
    [SelectStep(w, body.revision, now), ClaimStep(w), LoadStep(w)]
    + [EncodeStep(w, body.rest, body.bytes), RecordStep(w), ConfirmRecordStep(w)]
    + [PutStep(w), RereadStep(w), StageStep(w), ConfirmStageStep(w)]
    + [FenceStep(w, fence), PublishStep(w), ConfirmPublishStep(w)]
  }

  lemma {:induction false} RunSplits(s: System, first: seq<Step>, more: seq<Step>)
    ensures Run(s, first + more) == Run(Run(s, first), more)
    decreases |more|
  {
    if more == [] {
      assert first + more == first;
    } else {
      var n := |more| - 1;
      assert (first + more)[..|first + more| - 1] == first + more[..n];
      RunSplits(s, first, more[..n]);
    }
  }

  lemma RunOfThree(s: System, a: Step, b: Step, c: Step)
    ensures Run(s, [a, b, c]) == Execute(Execute(Execute(s, a), b), c)
  {
    assert Run(s, [a]) == Execute(s, a) by { assert [a][..0] == []; }
    assert Run(s, [a, b]) == Execute(Run(s, [a]), b) by { assert [a, b][..1] == [a]; }
    assert [a, b, c][..2] == [a, b];
  }

  lemma RunOfFour(s: System, a: Step, b: Step, c: Step, d: Step)
    ensures Run(s, [a, b, c, d]) == Execute(Execute(Execute(Execute(s, a), b), c), d)
  {
    assert [a, b, c, d][..3] == [a, b, c];
    RunOfThree(s, a, b, c);
  }

  /** Whatever crashed attempts left behind, one undisturbed pass over the mutation head publishes it. */
  lemma UndisturbedRetryPublishes(s: System, w: nat, body: Body, now: nat, fence: nat)
    requires Inv(s) && RetryReady(s, w, body, now, fence)
    ensures var t := Run(s, Attempt(w, body, now, fence));
            && WorkerAt(t, w).Idle? && body.filesystem in t.db.heads
            && t.db.heads[body.filesystem].revision == body.revision
  {
    hide Execute, Inv;
    var p1 := [SelectStep(w, body.revision, now), ClaimStep(w), LoadStep(w)];
    var p2 := [EncodeStep(w, body.rest, body.bytes), RecordStep(w), ConfirmRecordStep(w)];
    var p3 := [PutStep(w), RereadStep(w), StageStep(w), ConfirmStageStep(w)];
    var p4 := [FenceStep(w, fence), PublishStep(w), ConfirmPublishStep(w)];
    RunSplits(s, p1 + p2 + p3, p4);
    RunSplits(s, p1 + p2, p3);
    RunSplits(s, p1, p2);
    var s1 := RetryClaims(s, w, body, now, fence);
    var c := WorkerAt(s1, w).candidate;
    var s2 := RetryRecords(s1, w, c, body, now);
    var s3 := RetryStores(s2, w, c, body, now);
    var s4 := RetryPublishes(s3, w, c, body, WorkerAt(s3, w).version, fence);
  }
}
