/** When an outbox row can be claimed, in its own columns, and who may change it meanwhile. */
module CatalogClaims {
  import opened Options
  import opened CatalogTables
  import opened CatalogProtocol
  import opened CatalogInvariant
  import opened CatalogSafety

  // ---------------------------------------------------------------- one claim

  /** A waiting row opens at its retry time, or at once without one; a claimed row when its lease runs out. */
  predicate OpensAt(o: Outbox, from: Option<nat>) {
    && (o.state == Waiting ==> from == Some(if o.retryAt.Some? then o.retryAt.value else 0))
    && (o.state == OutboxState.Claimed ==> from == Some(o.leaseExpiresAt))
    && (o.state == Done ==> from == None)
  }

  /** The revision is pending and the newest of its filesystem. */
  predicate IsWanted(db: Tables, r: RevisionId) {
    && r in db.revisions && db.revisions[r].state == Pending
    && db.revisions[r].filesystem in db.mutationHeads && db.mutationHeads[db.revisions[r].filesystem].revision == r
  }

  /** A lease of five minutes for an owner of its own, one attempt more, and no other row. */
  predicate IsNextClaim(before: Tables, after: Tables, r: RevisionId, owner: LeaseOwner, now: nat) {
    && r in before.outbox && r in after.outbox
    && after == before.(outbox := before.outbox[r := after.outbox[r]])
    && after.outbox[r].state == OutboxState.Claimed && after.outbox[r].owner == Some(owner)
    && after.outbox[r].leaseExpiresAt == now + 300 && after.outbox[r].retryAt == None
    && after.outbox[r].attempts == before.outbox[r].attempts + 1 && after.outbox[r].updatedAt == now
  }

  /** A claim succeeds exactly when the revision is still wanted and its row is open by the worker's clock. */
  lemma ClaimsExactlyWhenOpen(s: System, w: nat, from: Option<nat>)
    requires WorkerAt(s, w).Selected? && WorkerAt(s, w).revision in s.db.outbox
    requires OpensAt(s.db.outbox[WorkerAt(s, w).revision], from)
    ensures var p, t := WorkerAt(s, w), Execute(s, ClaimStep(w));
            if IsWanted(s.db, p.revision) && from.Some? && from.value <= p.now then
              && IsNextClaim(s.db, t.db, p.revision, s.nextOwner, p.now) && t.nextOwner > s.nextOwner
              && WorkerAt(t, w) == ClaimedRow(p.revision, s.nextOwner, p.now)
            else t.db == s.db && WorkerAt(t, w).Idle?
  {
  }

  /** A row is selected exactly while its revision is wanted and not collapsed, and the row is open. */
  lemma SelectsExactlyWhenOpen(s: System, w: nat, r: RevisionId, now: nat, from: Option<nat>)
    requires WorkerAt(s, w).Idle? && r in s.db.outbox && OpensAt(s.db.outbox[r], from)
    ensures var t := Execute(s, SelectStep(w, r, now));
            && t == s.(workers := t.workers)
            && (if IsWanted(s.db, r) && r !in s.db.collapses && from.Some? && from.value <= now
                then WorkerAt(t, w) == Selected(r, now) else t == s)
  {
  }

  /** A claim that could not be loaded is given back: for a retry while the revision is the newest, else open at once. */
  lemma UnloadableIsGivenBack(s: System, w: nat, now: nat)
    requires WorkerAt(s, w).Unloadable? && WorkerAt(s, w).revision in s.db.outbox
    ensures var p, t := WorkerAt(s, w), Execute(s, ReleaseUnloadableStep(w, now));
            var r, o := p.revision, s.db.outbox[p.revision];
            && WorkerAt(t, w).Idle? && t.objects == s.objects
            && if o.state == OutboxState.Claimed && o.owner == Some(p.owner) then
                 && t.db == s.db.(outbox := s.db.outbox[r := t.db.outbox[r]])
                 && t.db.outbox[r].state == Waiting && t.db.outbox[r].owner == None && t.db.outbox[r].attempts == o.attempts
                 && t.db.outbox[r].leaseExpiresAt == 0 && t.db.outbox[r].updatedAt == now
                 && (if r in s.db.revisions && s.db.revisions[r].filesystem in s.db.mutationHeads
                        && s.db.mutationHeads[s.db.revisions[r].filesystem].revision == r
                     then OpensAt(t.db.outbox[r], Some(now + RetryDelay(o.attempts, r))) else t.db.outbox[r].retryAt == None)
               else t.db == s.db
  {
  }

  // ---------------------------------------------------------------- who may change a row

  /** The worker came to `r` under this owner. */
  predicate Holds(p: Worker, r: RevisionId, owner: LeaseOwner) {
    || (HasCandidate(p) && p.candidate.revision == r && p.candidate.owner == owner)
    || (p.Unloadable? && p.revision == r && p.owner == owner)
  }

  /** A claim once the row is open, a collapse, or a step of the row's own owner. */
  predicate MayChange(s: System, step: Step, r: RevisionId, from: Option<nat>)
    requires r in s.db.outbox
  {
    || (step.ClaimStep? && WorkerAt(s, step.w).Selected? && WorkerAt(s, step.w).revision == r
        && from.Some? && from.value <= WorkerAt(s, step.w).now)
    || (step.CollapseStep? && r in step.resolved)
    || ((step.PublishStep? || step.ReleaseStep? || step.ReleaseUnloadableStep?)
        && s.db.outbox[r].owner.Some? && Holds(WorkerAt(s, step.w), r, s.db.outbox[r].owner.value))
  }

  lemma ClaimingLeaves(s: System, step: Step, r: RevisionId, from: Option<nat>)
    requires r in s.db.outbox && OpensAt(s.db.outbox[r], from) && !MayChange(s, step, r, from)
    ensures var t := ExecuteClaiming(s, step); r in t.db.outbox && t.db.outbox[r] == s.db.outbox[r]
  {
  }

  lemma StagingLeaves(s: System, step: Step, r: RevisionId)
    ensures ExecuteStaging(s, step).db.outbox == s.db.outbox
  {
  }

  lemma PublishingLeaves(s: System, step: Step, r: RevisionId, from: Option<nat>)
    requires r in s.db.outbox && !MayChange(s, step, r, from)
    ensures var t := ExecutePublishing(s, step); r in t.db.outbox && t.db.outbox[r] == s.db.outbox[r]
  {
    hide PublishAborts, Publish, ReleaseClaim, MarkOrphaned, LoadCandidate, PublicationConfirmed;
    match step
    case PublishStep(w) =>
      var p := WorkerAt(s, w);
      if p.Fenced? { PublishTouchesOwnRow(s.db, p.candidate, ReceiptFor(p.body, p.version), p.now); }
    case OrphanStep(w) =>
      var p := WorkerAt(s, w);
      if p.Superseded? { OrphaningTouchesNoRow(s.db, p.candidate.revision, p.now); }
    case ReleaseStep(w, now) =>
      var p := WorkerAt(s, w);
      if p.Releasing? {
        ReleaseTouchesOwnRow(s.db, p.candidate.revision, p.candidate.owner, p.candidate.attempts, p.retry, now);
      }
    case _ =>
  }

  lemma MaintenanceLeaves(s: System, step: Step, r: RevisionId, from: Option<nat>)
    requires r in s.db.outbox && !MayChange(s, step, r, from)
    ensures var t := ExecuteMaintenance(s, step); r in t.db.outbox && t.db.outbox[r] == s.db.outbox[r]
  {
    hide IsFirst, Collapsible, Unresolved, Orphan, Retirable, Cleanable;
  }

  lemma OutsideLeaves(s: System, step: Step, r: RevisionId)
    requires Inv(s) && r in s.db.outbox
    ensures var t := ExecuteOutside(s, step); r in t.db.outbox && t.db.outbox[r] == s.db.outbox[r]
  {
    assert RevisionOk(s.db, s.db.nextRevision) && OutboxOk(s.db, s.db.nextRevision);
  }

  lemma StepLeavesRow(s: System, step: Step, r: RevisionId, from: Option<nat>)
    requires Inv(s) && r in s.db.outbox && OpensAt(s.db.outbox[r], from) && !MayChange(s, step, r, from)
    ensures var t := Execute(s, step); r in t.db.outbox && t.db.outbox[r] == s.db.outbox[r]
  {
    hide ExecuteOutside, ExecuteClaiming, ExecuteStaging, ExecutePublishing, ExecuteMaintenance, Inv, MayChange, OpensAt;
    OutsideLeaves(s, step, r);
    ClaimingLeaves(s, step, r, from);
    StagingLeaves(s, step, r);
    PublishingLeaves(s, step, r, from);
    MaintenanceLeaves(s, step, r, from);
  }

  /** A row stays as it is in any run without a step that may change it: no claim comes before its time. */
  lemma {:induction false} RowRests(steps: seq<Step>, more: seq<Step>, r: RevisionId, from: Option<nat>)
    requires r in Reached(steps).db.outbox && OpensAt(Reached(steps).db.outbox[r], from)
    requires forall i :: 0 <= i < |more| && r in Reached(steps + more[..i]).db.outbox ==>
               !MayChange(Reached(steps + more[..i]), more[i], r, from)
    ensures r in Reached(steps + more).db.outbox && Reached(steps + more).db.outbox[r] == Reached(steps).db.outbox[r]
    decreases |more|
  {
    hide Execute, Inv, MayChange, OpensAt;
    if more == [] {
      assert steps + more == steps;
    } else {
      var n := |more| - 1;
      forall i | 0 <= i < n && r in Reached(steps + more[..n][..i]).db.outbox
        ensures !MayChange(Reached(steps + more[..n][..i]), more[..n][i], r, from)
      {
        assert more[..n][..i] == more[..i];
      }
      RowRests(steps, more[..n], r, from);
      StepLeavesRow(Reached(steps + more[..n]), more[n], r, from);
      assert steps + more == (steps + more[..n]) + [more[n]];
      assert (steps + more)[..|steps + more| - 1] == steps + more[..n];
    }
  }

  // ---------------------------------------------------------------- the release

  /** A release that is to be retried leaves a waiting row that opens between one minute and six hours and a minute later. */
  lemma ReleaseSetsRetry(s: System, w: nat, now: nat)
    requires WorkerAt(s, w).Releasing?
    requires var c := WorkerAt(s, w).candidate;
             c.revision in s.db.outbox && s.db.outbox[c.revision].state == OutboxState.Claimed
             && s.db.outbox[c.revision].owner == Some(c.owner)
    ensures var r, t := WorkerAt(s, w).candidate.revision, Execute(s, ReleaseStep(w, now));
            && WorkerAt(t, w).Idle? && r in t.db.outbox && t.db == s.db.(outbox := s.db.outbox[r := t.db.outbox[r]])
            && t.db.outbox[r].state == Waiting && t.db.outbox[r].owner == None && t.db.outbox[r].leaseExpiresAt == 0
            && t.db.outbox[r].attempts == s.db.outbox[r].attempts && t.db.outbox[r].updatedAt == now
            && if WorkerAt(s, w).retry
               then t.db.outbox[r].retryAt.Some? && now + 60 <= t.db.outbox[r].retryAt.value <= now + 6 * 3600 + 60
               else t.db.outbox[r].retryAt == None
  {
  }

  /** Every attempt up to the ninth doubles the wait of the one before, from one minute on; the revision adds up to another. */
  lemma WaitDoubles(attempt: nat, r: RevisionId)
    requires attempt >= 1
    ensures RetryDelay(1, r) == 60 + r % 61
    ensures attempt <= 8 ==> RetryDelay(attempt + 1, r) - r % 61 == 2 * (RetryDelay(attempt, r) - r % 61)
    ensures attempt >= 9 ==> RetryDelay(attempt, r) == RetryDelay(9, r)
  {
    assert Doubled(60, 8) == 256 * 60 by { assert Doubled(60, 4) == 960 && Doubled(60, 6) == 3840; }
    if attempt <= 8 { DoubledGrows(60, attempt, 8); }
  }

  lemma {:induction false} DoubledGrows(base: nat, m: nat, n: nat)
    requires m <= n
    ensures Doubled(base, m) <= Doubled(base, n)
  {
    if m < n { DoubledGrows(base, m, n - 1); }
  }
}
