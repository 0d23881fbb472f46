/** The promises catalog materialization makes about every run, whatever the interleaving. */
module CatalogSafety {
  import opened CatalogTables
  import opened CatalogProtocol
  import opened CatalogInvariant

  lemma InitialOk()
    ensures Inv(INITIAL)
  {
    forall f ensures MutationHeadOk(EMPTY, f) && HeadOk(EMPTY, f) {}
    forall r ensures RevisionOk(EMPTY, r) && ArtifactOk(EMPTY, r) && CollapseOk(EMPTY, r) && OutboxOk(EMPTY, r) {}
    forall k ensures ObjectOk(INITIAL, k) {}
    forall r ensures StoredOk(INITIAL, r) {}
    forall w ensures WorkerOk(INITIAL, WorkerAt(INITIAL, w)) {}
  }

  ghost function Reached(steps: seq<Step>): (s: System)
    ensures Inv(s)
  {
    InitialOk();
    RunKeeps(INITIAL, steps);
    Run(INITIAL, steps)
  }

  // ---------------------------------------------------------------- what a reader of the head gets

  /** The bucket holds exactly what the receipt says, and it is the checkpoint of that very revision. */
  predicate Deliverable(s: System, f: FilesystemId, receipt: Receipt) {
    && f in s.db.heads && receipt.key in s.objects
    && s.objects[receipt.key] == StoredObject(receipt.sha256, receipt.version)
    && receipt.bytes == receipt.sha256.bytes
    && receipt.sha256.filesystem == f && receipt.sha256.revision == s.db.heads[f].revision
  }

  /** Every catalog head names a published revision whose live artifact and R2 object agree with its receipt. */
  lemma HeadIsDeliverable(steps: seq<Step>, f: FilesystemId)
    requires f in Reached(steps).db.heads
    ensures var s := Reached(steps);
            var r := s.db.heads[f].revision;
            && r in s.db.revisions && s.db.revisions[r].filesystem == f && s.db.revisions[r].state == Published
            && s.db.revisions[r].root == s.db.heads[f].root && s.db.revisions[r].checkpoint.Some?
            && ArtifactMatches(s.db, r, s.db.revisions[r].checkpoint.value, Live)
            && Deliverable(s, f, s.db.revisions[r].checkpoint.value)
  {
    var s := Reached(steps);
    var r := s.db.heads[f].revision;
    assert HeadOk(s.db, f) && ArtifactOk(s.db, r) && StoredOk(s, r);
    assert IsCatalogHead(s.db, r);
    assert ObjectOk(s, s.db.artifacts[r].key);
  }

  // ---------------------------------------------------------------- how heads move

  lemma OnlyPublicationMovesHeads(s: System, step: Step)
    requires !step.PublishStep?
    ensures Execute(s, step).db.heads == s.db.heads
  {
    ClaimingMovesNoHead(s, step);
    StagingMovesNoHead(s, step);
    MaintenanceMovesNoHead(s, step);
    hide ExecuteClaiming, ExecuteStaging, ExecuteMaintenance;
  }

  lemma ClaimingMovesNoHead(s: System, step: Step)
    ensures ExecuteClaiming(s, step).db.heads == s.db.heads
  {
  }

  lemma StagingMovesNoHead(s: System, step: Step)
    ensures ExecuteStaging(s, step).db.heads == s.db.heads
  {
  }

  lemma MaintenanceMovesNoHead(s: System, step: Step)
    ensures ExecuteMaintenance(s, step).db.heads == s.db.heads
  {
    hide IsFirst, Collapsible, Unresolved, Orphan, Retirable, Cleanable;
    match step
    case CollapseStep(w, chosen, resolved, now) =>
    case RetireStep(chosen, now) =>
    case DeleteRowStep(w) =>
    case _ =>
  }

  /** The guards of the batch that moved a head, read off the state it ran in. */
  ghost predicate PublishedBy(s: System, step: Step, f: FilesystemId) {
    && step.PublishStep? && WorkerAt(s, step.w).Fenced?
    && var p := WorkerAt(s, step.w);
       && p.candidate.filesystem == f && HoldsLease(s.db, p.candidate.revision, p.candidate.owner)
       && s.db.outbox[p.candidate.revision].leaseExpiresAt > p.now
       && f in s.db.mutationHeads && s.db.mutationHeads[f].revision == p.candidate.revision
  }

  /** One step leaves a head alone, or moves it strictly forward to the mutation head, under a live lease. */
  lemma HeadStep(s: System, step: Step, f: FilesystemId)
    requires Inv(s)
    ensures var t := Execute(s, step);
            && (f in s.db.heads ==> f in t.db.heads && s.db.heads[f].revision <= t.db.heads[f].revision)
            && (f in t.db.heads && (f !in s.db.heads || t.db.heads[f] != s.db.heads[f]) ==>
                  && PublishedBy(s, step, f)
                  && t.db.heads[f].revision == s.db.mutationHeads[f].revision
                  && (f in s.db.heads ==>
                        s.db.heads[f].revision < t.db.heads[f].revision
                        && t.db.heads[f].updates == s.db.heads[f].updates + 1))
  {
    if step.PublishStep? {
      var p := WorkerAt(s, step.w);
      if p.Fenced? && f in s.db.heads {
        assert HeadOk(s.db, f) && RevisionOk(s.db, s.db.heads[f].revision);
      }
    } else {
      OnlyPublicationMovesHeads(s, step);
    }
  }

  // ---------------------------------------------------------------- what a run can never take back

  /** Heads move forward, publications are final, collapses stay. */
  ghost predicate Forward(before: Tables, after: Tables) {
    && (forall f | f in before.heads :: f in after.heads && before.heads[f].revision <= after.heads[f].revision)
    && (forall r | r in before.revisions && before.revisions[r].state == Published ::
          r in after.revisions && after.revisions[r] == before.revisions[r])
    && (forall r | r in before.collapses :: r in after.collapses && after.collapses[r] == before.collapses[r])
  }

  /** The publication batch finishes the row whose lease its worker holds, or no row. */
  lemma PublishTouchesOwnRow(db: Tables, c: Candidate, receipt: Receipt, now: nat)
    ensures var t := Publish(db, c, receipt, now);
            && t.collapses == db.collapses
            && (t.outbox != db.outbox ==>
                  && HoldsLease(db, c.revision, c.owner) && c.revision in t.outbox
                  && t.outbox == db.outbox[c.revision := t.outbox[c.revision]]
                  && t.outbox[c.revision].state == Done)
  {
    hide PublishAborts;
  }

  /** A release rewrites the row whose lease it names, or no row. */
  lemma ReleaseTouchesOwnRow(db: Tables, r: RevisionId, owner: LeaseOwner, attempts: nat, retry: bool, now: nat)
    ensures var t := ReleaseClaim(db, r, owner, attempts, retry, now);
            && t.collapses == db.collapses
            && (t.outbox != db.outbox ==>
                  HoldsLease(db, r, owner) && r in t.outbox && t.outbox == db.outbox[r := t.outbox[r]])
  {
  }

  lemma OrphaningTouchesNoRow(db: Tables, r: RevisionId, now: nat)
    ensures MarkOrphaned(db, r, now).outbox == db.outbox && MarkOrphaned(db, r, now).collapses == db.collapses
  {
  }

  lemma PublishIsForward(db: Tables, c: Candidate, receipt: Receipt, now: nat)
    requires TablesOk(db)
    ensures Forward(db, Publish(db, c, receipt, now))
  {
    forall f | f in db.heads ensures RevisionOk(db, db.heads[f].revision) && HeadOk(db, f) {}
  }

  lemma MutateIsForward(db: Tables, f: FilesystemId, root: DataRoot, now: nat)
    requires TablesOk(db)
    ensures Forward(db, Mutate(db, f, root, now))
  {
    assert RevisionOk(db, db.nextRevision);
  }

  lemma PublishingIsForward(s: System, step: Step)
    requires Inv(s)
    ensures Forward(s.db, ExecutePublishing(s, step).db)
  {
    if step.PublishStep? && WorkerAt(s, step.w).Fenced? {
      var p := WorkerAt(s, step.w);
      PublishIsForward(s.db, p.candidate, ReceiptFor(p.body, p.version), p.now);
    }
  }

  lemma MaintenanceIsForward(s: System, step: Step)
    ensures Forward(s.db, ExecuteMaintenance(s, step).db)
  {
  }

  lemma StagingIsForward(s: System, step: Step)
    ensures Forward(s.db, ExecuteStaging(s, step).db)
  {
  }

  lemma ClaimingIsForward(s: System, step: Step)
    ensures Forward(s.db, ExecuteClaiming(s, step).db)
  {
  }

  lemma OutsideIsForward(s: System, step: Step)
    requires Inv(s)
    ensures Forward(s.db, ExecuteOutside(s, step).db)
  {
    if step.MutateStep? { MutateIsForward(s.db, step.filesystem, step.root, step.now); }
  }

  lemma StepIsForward(s: System, step: Step)
    requires Inv(s)
    ensures Forward(s.db, Execute(s, step).db)
  {
    hide ExecuteOutside, ExecuteClaiming, ExecuteStaging, ExecutePublishing, ExecuteMaintenance, Inv, Forward;
    OutsideIsForward(s, step);
    ClaimingIsForward(s, step);
    StagingIsForward(s, step);
    PublishingIsForward(s, step);
    MaintenanceIsForward(s, step);
  }

  lemma ForwardChains(first: Tables, second: Tables, third: Tables)
    requires Forward(first, second) && Forward(second, third)
    ensures Forward(first, third)
  {
  }

  lemma {:induction false} RunIsForward(steps: seq<Step>, more: seq<Step>)
    ensures Forward(Reached(steps).db, Reached(steps + more).db)
    decreases |more|
  {
    hide Execute, Inv;
    if more == [] {
      assert steps + more == steps;
    } else {
      var n := |more| - 1;
      RunIsForward(steps, more[..n]);
      LastStep(steps + more[..n], more[n]);
      assert steps + more == (steps + more[..n]) + [more[n]];
      ForwardChains(Reached(steps).db, Reached(steps + more[..n]).db, Reached(steps + more).db);
    }
  }

  lemma LastStep(steps: seq<Step>, step: Step)
    ensures Reached(steps + [step]) == Execute(Reached(steps), step)
    ensures Forward(Reached(steps).db, Reached(steps + [step]).db)
  {
    hide Execute, Inv, Forward;
    assert (steps + [step])[..|steps + [step]| - 1] == steps;
    StepIsForward(Reached(steps), step);
  }

  /** A catalog head is never withdrawn and its revision never decreases, over any further run. */
  lemma HeadNeverMovesBack(steps: seq<Step>, more: seq<Step>, f: FilesystemId)
    requires f in Reached(steps).db.heads
    ensures f in Reached(steps + more).db.heads
    ensures Reached(steps).db.heads[f].revision <= Reached(steps + more).db.heads[f].revision
  {
    RunIsForward(steps, more);
  }

  /**
   As long as a head names the same revision, a reader is given the same object: same key, bytes and
   R2 version, however many cleanups, retirements and retries ran in between.
   */
  lemma DeliveredObjectIsStable(steps: seq<Step>, more: seq<Step>, f: FilesystemId)
    requires f in Reached(steps).db.heads && f in Reached(steps + more).db.heads
    requires Reached(steps).db.heads[f].revision == Reached(steps + more).db.heads[f].revision
    ensures var s, t := Reached(steps), Reached(steps + more);
            var r := s.db.heads[f].revision;
            && r in s.db.revisions && r in t.db.revisions && s.db.revisions[r].checkpoint.Some?
            && t.db.revisions[r].checkpoint == s.db.revisions[r].checkpoint
            && var key := s.db.revisions[r].checkpoint.value.key;
               key in s.objects && key in t.objects && s.objects[key] == t.objects[key]
  {
    HeadIsDeliverable(steps, f);
    HeadIsDeliverable(steps + more, f);
    RunIsForward(steps, more);
  }

  // ---------------------------------------------------------------- how outbox rows end

  /** A resolved revision is published or collapsed, never both; a collapse is justified by a newer publication. */
  lemma ResolvedOnce(steps: seq<Step>, r: RevisionId)
    ensures var db := Reached(steps).db;
            && (r in db.outbox && db.outbox[r].state == Done ==>
                  r in db.revisions && ((r in db.collapses) != (db.revisions[r].state == Published)))
            && (r in db.collapses ==>
                  var newer := db.collapses[r];
                  && r in db.revisions && newer in db.revisions && r < newer && db.revisions[newer].state == Published
                  && db.revisions[newer].filesystem == db.revisions[r].filesystem
                  && db.revisions[r].filesystem in db.heads && r < db.heads[db.revisions[r].filesystem].revision)
  {
    var db := Reached(steps).db;
    assert OutboxOk(db, r) && CollapseOk(db, r);
    if r in db.collapses {
      assert RevisionOk(db, db.collapses[r]);
    }
  }

  /** Neither outcome is ever taken back: a collapsed revision can never be published by a late worker. */
  lemma CollapsedIsNeverPublished(steps: seq<Step>, more: seq<Step>, r: RevisionId)
    requires r in Reached(steps).db.collapses
    ensures r in Reached(steps + more).db.revisions && Reached(steps + more).db.revisions[r].state == Pending
  {
    RunIsForward(steps, more);
    assert CollapseOk(Reached(steps + more).db, r);
  }
}
