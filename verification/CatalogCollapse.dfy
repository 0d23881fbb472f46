/** What collapsing the revisions below a published head leaves behind, row by row and over whole runs. */
module CatalogCollapse {
  import opened Options
  import opened CatalogTables
  import opened CatalogProtocol
  import opened CatalogInvariant
  import opened CatalogSafety

  // ---------------------------------------------------------------- one collapse, in its rows

  /** `r` was a pending revision below the published `head` of its filesystem that nothing had collapsed. */
  predicate WasCollapsible(before: Tables, head: RevisionId, r: RevisionId) {
    && r < head && r in before.revisions && before.revisions[r].state == Pending && r !in before.collapses
    && head in before.revisions && before.revisions[head].state == Published
    && before.revisions[head].filesystem == before.revisions[r].filesystem
  }

  /** The new collapses: older ones stay, the chosen ones point at the head, and no lower one is passed over. */
  ghost predicate CollapsesRows(before: Tables, after: Tables, head: RevisionId, chosen: set<RevisionId>) {
    && (forall r :: r in after.collapses <==> r in before.collapses || r in chosen)
    && (forall r | r in before.collapses :: after.collapses[r] == before.collapses[r])
    && (forall r | r in chosen :: WasCollapsible(before, head, r) && after.collapses[r] == head)
    && (forall x: RevisionId, y: RevisionId | x in chosen && WasCollapsible(before, head, y) && y < x :: y in chosen)
    && (|chosen| < MAXIMUM_COLLAPSES_PER_RUN ==> forall r | WasCollapsible(before, head, r) :: r in chosen)
    && |chosen| <= MAXIMUM_COLLAPSES_PER_RUN
  }

  /** The settled rows: finished, with the attempts they had; a staged object of theirs is given up. */
  ghost predicate SettlesRows(before: Tables, after: Tables, head: RevisionId, resolved: set<RevisionId>, now: nat) {
    && (forall r :: r in after.outbox <==> r in before.outbox)
    && (forall r :: r in after.artifacts <==> r in before.artifacts)
    && (forall r | r in resolved ::
          && r in after.collapses && after.collapses[r] == head && r in before.outbox && before.outbox[r].state != Done
          && after.outbox[r].state == Done && after.outbox[r].owner == None && after.outbox[r].leaseExpiresAt == 0
          && after.outbox[r].retryAt == None && after.outbox[r].attempts == before.outbox[r].attempts
          && after.outbox[r].updatedAt == now)
    && (forall r | r in before.outbox && r !in resolved :: after.outbox[r] == before.outbox[r])
    && (forall r | r in before.artifacts && r in resolved && before.artifacts[r].state == Staged ::
          && after.artifacts[r].state == Orphaned && after.artifacts[r].updatedAt == now
          && after.artifacts[r].key == before.artifacts[r].key && after.artifacts[r].sha256 == before.artifacts[r].sha256
          && after.artifacts[r].bytes == before.artifacts[r].bytes
          && after.artifacts[r].version == before.artifacts[r].version)
    && (forall r | r in before.artifacts && !(r in resolved && before.artifacts[r].state == Staged) ::
          after.artifacts[r] == before.artifacts[r])
  }

  /** Everything else stays as it was. */
  predicate SparesTheRest(before: Tables, after: Tables) {
    && after.nextRevision == before.nextRevision && after.liveRoots == before.liveRoots
    && after.revisions == before.revisions && after.mutationHeads == before.mutationHeads && after.heads == before.heads
  }

  /** A collapsed revision of `head` whose outbox row is still open. */
  predicate IsOpen(db: Tables, head: RevisionId, r: RevisionId) {
    r in db.collapses && db.collapses[r] == head && r in db.outbox && db.outbox[r].state != Done
  }

  /** The tables after one collapse run of `head`. */
  ghost predicate Collapsed(
    before: Tables, after: Tables, head: RevisionId, chosen: set<RevisionId>, resolved: set<RevisionId>, now: nat)
  {
    && CollapsesRows(before, after, head, chosen)
    && SettlesRows(before, after, head, resolved, now)
    && SparesTheRest(before, after)
    && (|resolved| < MAXIMUM_COLLAPSES_PER_RUN ==> forall r :: !IsOpen(after, head, r))
  }

  lemma CollapsingLeaves(before: Tables, head: RevisionId, chosen: set<RevisionId>)
    requires IsFirst(chosen, Collapsible(before, head), MAXIMUM_COLLAPSES_PER_RUN)
    ensures CollapsesRows(before, WithCollapses(before, head, chosen), head, chosen)
  {
    forall r ensures r in Collapsible(before, head) <==> WasCollapsible(before, head, r) {}
  }

  lemma ResolvingLeaves(collapsed: Tables, head: RevisionId, resolved: set<RevisionId>, now: nat)
    requires IsFirst(resolved, Unresolved(collapsed, head), MAXIMUM_COLLAPSES_PER_RUN)
    ensures SettlesRows(collapsed, Resolve(collapsed, resolved, now), head, resolved, now)
    ensures |resolved| < MAXIMUM_COLLAPSES_PER_RUN ==> forall r :: !IsOpen(Resolve(collapsed, resolved, now), head, r)
  {
    forall r ensures r in Unresolved(collapsed, head) <==> IsOpen(collapsed, head, r) {}
  }

  /** The insertion changes the collapses alone and the two updates the rows alone, so they add up. */
  lemma CollapseAddsUp(
    before: Tables, between: Tables, after: Tables, head: RevisionId,
    chosen: set<RevisionId>, resolved: set<RevisionId>, now: nat)
    requires between == before.(collapses := between.collapses)
    requires after == between.(artifacts := after.artifacts, outbox := after.outbox)
    requires CollapsesRows(before, between, head, chosen) && SettlesRows(between, after, head, resolved, now)
    requires |resolved| < MAXIMUM_COLLAPSES_PER_RUN ==> forall r :: !IsOpen(after, head, r)
    ensures Collapsed(before, after, head, chosen, resolved, now)
  {
  }

  lemma CollapseLeaves(before: Tables, head: RevisionId, chosen: set<RevisionId>, resolved: set<RevisionId>, now: nat)
    requires IsFirst(chosen, Collapsible(before, head), MAXIMUM_COLLAPSES_PER_RUN)
    requires IsFirst(resolved, Unresolved(WithCollapses(before, head, chosen), head), MAXIMUM_COLLAPSES_PER_RUN)
    ensures Collapsed(before, Resolve(WithCollapses(before, head, chosen), resolved, now), head, chosen, resolved, now)
  {
    hide IsFirst, Collapsible, Unresolved, Orphan, CollapsesRows, SettlesRows, IsOpen, Collapsed;
    var between := WithCollapses(before, head, chosen);
    CollapsingLeaves(before, head, chosen);
    ResolvingLeaves(between, head, resolved, now);
    CollapseAddsUp(before, between, Resolve(between, resolved, now), head, chosen, resolved, now);
  }

  // ---------------------------------------------------------------- as a step of the protocol

  /** A collapse step leaves these rows, and nothing else of the system but its own worker's place. */
  lemma CollapseStepLeaves(s: System, w: nat, chosen: set<RevisionId>, resolved: set<RevisionId>, now: nat)
    requires WorkerAt(s, w).Collapsing? && WorkerAt(Execute(s, CollapseStep(w, chosen, resolved, now)), w).Idle?
    ensures var t := Execute(s, CollapseStep(w, chosen, resolved, now));
            Collapsed(s.db, t.db, WorkerAt(s, w).head, chosen, resolved, now) && t.objects == s.objects
  {
    hide IsFirst, Collapsible, Unresolved, WithCollapses, Resolve, Collapsed;
    var head := WorkerAt(s, w).head;
    CollapseLeaves(s.db, head, chosen, resolved, now);
  }

  // ---------------------------------------------------------------- over every run

  /** A finished row is never touched again. */
  ghost predicate KeepsDone(before: Tables, after: Tables) {
    forall r | r in before.outbox && before.outbox[r].state == Done ::
      r in after.outbox && after.outbox[r] == before.outbox[r]
  }

  /** No collapsed revision has an open row, whatever the limits on one run. */
  predicate CollapseSettled(db: Tables, r: RevisionId) {
    r in db.collapses ==> r in db.outbox && db.outbox[r].state == Done
  }

  lemma OutsideKeepsDone(s: System, step: Step)
    requires Inv(s)
    ensures KeepsDone(s.db, ExecuteOutside(s, step).db) && ExecuteOutside(s, step).db.collapses == s.db.collapses
  {
    assert RevisionOk(s.db, s.db.nextRevision) && OutboxOk(s.db, s.db.nextRevision);
  }

  lemma ClaimingKeepsDone(s: System, step: Step)
    ensures KeepsDone(s.db, ExecuteClaiming(s, step).db) && ExecuteClaiming(s, step).db.collapses == s.db.collapses
  {
  }

  lemma StagingKeepsDone(s: System, step: Step)
    ensures KeepsDone(s.db, ExecuteStaging(s, step).db) && ExecuteStaging(s, step).db.collapses == s.db.collapses
  {
  }

  lemma PublishKeepsDone(s: System, w: nat)
    ensures KeepsDone(s.db, ExecutePublishing(s, PublishStep(w)).db)
    ensures ExecutePublishing(s, PublishStep(w)).db.collapses == s.db.collapses
  {
    hide PublishAborts, Publish;
    var p := WorkerAt(s, w);
    if p.Fenced? { PublishTouchesOwnRow(s.db, p.candidate, ReceiptFor(p.body, p.version), p.now); }
  }

  lemma ReleaseKeepsDone(s: System, w: nat, now: nat)
    ensures KeepsDone(s.db, ExecutePublishing(s, ReleaseStep(w, now)).db)
    ensures ExecutePublishing(s, ReleaseStep(w, now)).db.collapses == s.db.collapses
  {
    hide ReleaseClaim;
    var p := WorkerAt(s, w);
    if p.Releasing? { ReleaseTouchesOwnRow(s.db, p.candidate.revision, p.candidate.owner, p.candidate.attempts, p.retry, now); }
  }

  lemma OrphanKeepsDone(s: System, w: nat)
    ensures ExecutePublishing(s, OrphanStep(w)).db.outbox == s.db.outbox
    ensures ExecutePublishing(s, OrphanStep(w)).db.collapses == s.db.collapses
  {
    hide MarkOrphaned;
    var p := WorkerAt(s, w);
    if p.Superseded? { OrphaningTouchesNoRow(s.db, p.candidate.revision, p.now); }
  }

  lemma PublishingKeepsDone(s: System, step: Step)
    ensures KeepsDone(s.db, ExecutePublishing(s, step).db) && ExecutePublishing(s, step).db.collapses == s.db.collapses
  {
    match step
    case PublishStep(w) => PublishKeepsDone(s, w);
    case OrphanStep(w) => OrphanKeepsDone(s, w);
    case ReleaseStep(w, now) => ReleaseKeepsDone(s, w, now);
    case _ => OthersKeepTables(s, step);
  }

  lemma OthersKeepTables(s: System, step: Step)
    requires !step.PublishStep? && !step.OrphanStep? && !step.ReleaseStep?
    ensures ExecutePublishing(s, step).db == s.db
  {
    hide LoadCandidate, PublicationConfirmed;
  }

  lemma MaintenanceKeepsDone(s: System, step: Step)
    ensures KeepsDone(s.db, ExecuteMaintenance(s, step).db)
    ensures !step.CollapseStep? ==> ExecuteMaintenance(s, step).db.collapses == s.db.collapses
  {
    hide IsFirst, Collapsible, Unresolved, Orphan, Retirable, Cleanable;
  }

  lemma StepKeepsDone(s: System, step: Step)
    requires Inv(s)
    ensures KeepsDone(s.db, Execute(s, step).db)
    ensures !step.CollapseStep? ==> Execute(s, step).db.collapses == s.db.collapses
  {
    hide ExecuteOutside, ExecuteClaiming, ExecuteStaging, ExecutePublishing, ExecuteMaintenance, Inv, KeepsDone;
    OutsideKeepsDone(s, step);
    ClaimingKeepsDone(s, step);
    StagingKeepsDone(s, step);
    PublishingKeepsDone(s, step);
    MaintenanceKeepsDone(s, step);
  }

  lemma SubsetOfSameSize(few: set<RevisionId>, many: set<RevisionId>)
    requires few <= many && |many| <= |few|
    ensures few == many
  {
    assert many == few + (many - few);
  }

  /** At most 500 rows are opened by one collapse, and the same batch may settle 500: it settles them all. */
  lemma CollapseSettles(
    before: Tables, after: Tables, head: RevisionId, chosen: set<RevisionId>, resolved: set<RevisionId>, now: nat)
    requires TablesOk(before) && Collapsed(before, after, head, chosen, resolved, now)
    requires forall r {:trigger CollapseSettled(before, r)} :: CollapseSettled(before, r)
    ensures forall r {:trigger CollapseSettled(after, r)} :: CollapseSettled(after, r)
  {
    forall r ensures CollapseSettled(after, r) {
      assert CollapseSettled(before, r) && RevisionOk(before, r);
      if r in chosen && |resolved| < MAXIMUM_COLLAPSES_PER_RUN {
        assert !IsOpen(after, head, r);
      } else if r in chosen {
        forall x | x in resolved ensures x in chosen { assert CollapseSettled(before, x); }
        SubsetOfSameSize(resolved, chosen);
      }
    }
  }

  lemma StepKeepsSettled(s: System, step: Step)
    requires Inv(s)
    requires forall r {:trigger CollapseSettled(s.db, r)} :: CollapseSettled(s.db, r)
    ensures forall r {:trigger CollapseSettled(Execute(s, step).db, r)} :: CollapseSettled(Execute(s, step).db, r)
  {
    var t := Execute(s, step);
    StepKeepsDone(s, step);
    if step.CollapseStep? && t != s {
      hide IsFirst, Collapsible, Unresolved, WithCollapses, Resolve, Collapsed, KeepsDone, ExecuteOutside, ExecuteClaiming,
        ExecuteStaging, ExecutePublishing, CollapseSettled;
      CollapseStepLeaves(s, step.w, step.chosen, step.resolved, step.now);
      CollapseSettles(s.db, t.db, WorkerAt(s, step.w).head, step.chosen, step.resolved, step.now);
    } else {
      hide Execute, Inv;
      forall r ensures CollapseSettled(t.db, r) { assert CollapseSettled(s.db, r); }
    }
  }

  /** So in every run a revision is finished exactly when it is published or collapsed, and then for good. */
  lemma {:induction false} CollapsesAreSettled(steps: seq<Step>)
    ensures var db := Reached(steps).db;
            forall r {:trigger CollapseSettled(db, r)} :: CollapseSettled(db, r)
    decreases |steps|
  {
    hide Execute, Inv;
    if steps == [] {
      forall r ensures CollapseSettled(INITIAL.db, r) {}
    } else {
      var n := |steps| - 1;
      CollapsesAreSettled(steps[..n]);
      StepKeepsSettled(Reached(steps[..n]), steps[n]);
    }
  }

  lemma DoneExactly(steps: seq<Step>, r: RevisionId)
    requires r in Reached(steps).db.revisions
    ensures var db := Reached(steps).db;
            r in db.outbox
            && (db.outbox[r].state == Done <==> r in db.collapses || db.revisions[r].state == Published)
  {
    CollapsesAreSettled(steps);
    var db := Reached(steps).db;
    assert CollapseSettled(db, r) && RevisionOk(db, r) && OutboxOk(db, r);
  }

  lemma {:induction false} DoneIsFinal(steps: seq<Step>, more: seq<Step>)
    ensures KeepsDone(Reached(steps).db, Reached(steps + more).db)
    decreases |more|
  {
    hide Execute, Inv;
    if more == [] {
      assert steps + more == steps;
    } else {
      var n := |more| - 1;
      DoneIsFinal(steps, more[..n]);
      StepKeepsDone(Reached(steps + more[..n]), more[n]);
      assert steps + more == (steps + more[..n]) + [more[n]];
      assert (steps + more)[..|steps + more| - 1] == steps + more[..n];
    }
  }

  function Backlog(db: Tables, head: RevisionId): set<RevisionId> {
    set r | r in db.revisions && WasCollapsible(db, head, r)
  }

  /** One run over at most 500 older revisions leaves none of them open: each is published or collapsed, and finished. */
  lemma BacklogIsCleared(steps: seq<Step>, w: nat, chosen: set<RevisionId>, resolved: set<RevisionId>, now: nat, r: RevisionId)
    requires var s := Reached(steps);
             && WorkerAt(s, w).Collapsing? && WorkerAt(Execute(s, CollapseStep(w, chosen, resolved, now)), w).Idle?
             && var head := WorkerAt(s, w).head;
                && |Backlog(s.db, head)| <= MAXIMUM_COLLAPSES_PER_RUN
                && head in s.db.revisions && s.db.revisions[head].state == Published
                && r in s.db.revisions && s.db.revisions[r].filesystem == s.db.revisions[head].filesystem && r < head
    ensures var db := Reached(steps + [CollapseStep(w, chosen, resolved, now)]).db;
            && r in db.outbox && db.outbox[r].state == Done
            && (Reached(steps).db.revisions[r].state == Pending ==> r in db.collapses)
  {
    var s, step := Reached(steps), CollapseStep(w, chosen, resolved, now);
    CollapseStepLeaves(s, w, chosen, resolved, now);
    assert (steps + [step])[..|steps + [step]| - 1] == steps;
    DoneExactly(steps + [step], r);
    assert RevisionOk(s.db, r);
    if s.db.revisions[r].state == Pending && r !in s.db.collapses {
      var backlog := Backlog(s.db, WorkerAt(s, w).head);
      assert chosen <= backlog && r in backlog;
      if |chosen| == MAXIMUM_COLLAPSES_PER_RUN { SubsetOfSameSize(chosen, backlog); }
    }
  }

  // ---------------------------------------------------------------- a collapse run is never refused

  lemma {:induction false} LeastOf(ids: set<RevisionId>) returns (least: RevisionId)
    requires ids != {}
    ensures least in ids && forall x | x in ids :: least <= x
    decreases |ids|
  {
    var x :| x in ids;
    least := x;
    if ids - {x} != {} {
      var other := LeastOf(ids - {x});
      if other < x { least := other; }
    }
    forall y | y in ids ensures least <= y { assert y == x || y in ids - {x}; }
  }

  lemma {:induction false} FirstOf(ids: set<RevisionId>, n: nat) returns (chosen: set<RevisionId>)
    ensures IsFirst(chosen, ids, n) && |chosen| == if |ids| < n then |ids| else n
    decreases n
  {
    if n == 0 || ids == {} {
      chosen := {};
    } else {
      var least := LeastOf(ids);
      var rest := FirstOf(ids - {least}, n - 1);
      chosen := rest + {least};
      assert ids == (ids - {least}) + {least};
      forall x, y | x in chosen && y in ids && y < x ensures y in chosen {
        if y != least { assert x in rest && y in ids - {least}; }
      }
    }
  }

  /** Every collapsing worker can run its batch, over the oldest 500 of the backlog or all of it. */
  lemma CollapseRuns(s: System, w: nat, now: nat) returns (chosen: set<RevisionId>, resolved: set<RevisionId>)
    requires WorkerAt(s, w).Collapsing?
    ensures var head, t := WorkerAt(s, w).head, Execute(s, CollapseStep(w, chosen, resolved, now));
            && WorkerAt(t, w).Idle? && Collapsed(s.db, t.db, head, chosen, resolved, now)
            && |chosen| == if |Backlog(s.db, head)| < 500 then |Backlog(s.db, head)| else 500
  {
    hide IsFirst, Collapsed, Collapsible, Unresolved, WithCollapses, Resolve;
    var head := WorkerAt(s, w).head;
    BacklogExactly(s.db, head);
    chosen := FirstOf(Collapsible(s.db, head), MAXIMUM_COLLAPSES_PER_RUN);
    resolved := FirstOf(Unresolved(WithCollapses(s.db, head, chosen), head), MAXIMUM_COLLAPSES_PER_RUN);
    CollapseLeaves(s.db, head, chosen, resolved, now);
  }

  lemma BacklogExactly(db: Tables, head: RevisionId)
    ensures Collapsible(db, head) == Backlog(db, head)
  {
  }
}
