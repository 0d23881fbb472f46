/**
 The tables as the database holds them: rows rewritten in place, one method for each D1 statement or
 batch of `vfs_catalog_materialization.rs`. A batch runs statement by statement, each with the
 triggers that watch it, and a trigger that raises undoes the whole batch. Every method is tied to
 the atomic step of `CatalogTables` that the protocol proofs use.
 */
module CatalogStore {
  import opened Options
  import opened CatalogTables
  import opened CatalogInvariant
  import opened CatalogCollapse

  // ---------------------------------------------------------------- the statements of the publication batch

  function RevisionStatements(db: Tables, c: Candidate, receipt: Receipt, now: nat): Tables {
    if PublishMatches(db, c, receipt, now) then
      db.(revisions := db.revisions[c.revision := Revision(c.filesystem, c.root, Published, Some(receipt))])
    else if c.revision in db.revisions && db.revisions[c.revision].state == Materialized
            && db.revisions[c.revision].checkpoint == Some(receipt) then
      db.(revisions := db.revisions[c.revision := db.revisions[c.revision].(state := Published)])
    else db
  }

  /** `None` is a raised trigger. */
  function ArtifactStatement(db: Tables, r: RevisionId, now: nat): Option<Tables> {
    if !StagedAgain(db, r) then Some(db)
    else if !MatchesRevision(db, r) then None
    else Some(db.(artifacts := db.artifacts[r := db.artifacts[r].(state := Live, updatedAt := now)]))
  }

  /** The trigger on both ways of writing a head: its published revision has a live, identical artifact. */
  predicate HasLiveReceipt(db: Tables, r: RevisionId)
    requires r in db.revisions
  {
    r in db.artifacts && db.artifacts[r].state == Live && MatchesRevision(db, r)
  }

  function HeadStatement(db: Tables, r: RevisionId, now: nat): Option<Tables> {
    if !IsMutationHead(db, r) || db.revisions[r].state != Published then Some(db)
    else
      var f := db.revisions[r].filesystem;
      if !HasLiveReceipt(db, r) then None
      else if f in db.heads && (r <= db.heads[f].revision || now < db.heads[f].updatedAt) then None
      else
        var updates := if f in db.heads then db.heads[f].updates + 1 else 1;
        Some(db.(heads := db.heads[f := Head(r, db.revisions[r].root, updates, now)]))
  }

  predicate IsHeadOfItsFilesystem(db: Tables, r: RevisionId)
    requires r in db.revisions
  {
    db.revisions[r].filesystem in db.heads && db.heads[db.revisions[r].filesystem].revision == r
  }

  function OutboxStatement(db: Tables, r: RevisionId, owner: LeaseOwner, now: nat): Option<Tables> {
    if !(HoldsLease(db, r, owner) && r in db.revisions && db.revisions[r].state == Published) then Some(db)
    else if r !in db.collapses && !IsHeadOfItsFilesystem(db, r) then None
    else Some(db.(outbox := db.outbox[r := Outbox(Done, None, 0, None, db.outbox[r].attempts, now)]))
  }

  function Batch(db: Tables, c: Candidate, receipt: Receipt, now: nat): Option<Tables> {
    var first := ArtifactStatement(RevisionStatements(db, c, receipt, now), c.revision, now);
    var second := if first.Some? then HeadStatement(first.value, c.revision, now) else None;
    if second.Some? then OutboxStatement(second.value, c.revision, c.owner, now) else None
  }

  /** The statements and their triggers compose to the one atomic step. */
  lemma BatchIsPublish(db: Tables, c: Candidate, receipt: Receipt, now: nat)
    requires TablesOk(db)
    ensures Batch(db, c, receipt, now).Some? <==> !PublishAborts(db, c, receipt, now)
    ensures Batch(db, c, receipt, now).Some? ==> Batch(db, c, receipt, now).value == Publish(db, c, receipt, now)
    ensures PublishAborts(db, c, receipt, now) ==> Publish(db, c, receipt, now) == db
  {
    assert RevisionOk(db, c.revision);
    if PublishMatches(db, c, receipt, now) {
      PendingIsAhead(db, c, receipt, now);
    }
  }

  /** A pending mutation head is strictly above the catalog head. */
  lemma PendingIsAhead(db: Tables, c: Candidate, receipt: Receipt, now: nat)
    requires TablesOk(db) && PublishMatches(db, c, receipt, now)
    ensures c.filesystem in db.heads ==> db.heads[c.filesystem].revision < c.revision
  {
    if c.filesystem in db.heads {
      assert HeadOk(db, c.filesystem);
      assert RevisionOk(db, db.heads[c.filesystem].revision);
    }
  }

  class CatalogDatabase {
    var nextRevision: RevisionId
    var liveRoots: map<FilesystemId, DataRoot>
    var revisions: map<RevisionId, Revision>
    var mutationHeads: map<FilesystemId, MutationHead>
    var outbox: map<RevisionId, Outbox>
    var artifacts: map<RevisionId, Artifact>
    var collapses: map<RevisionId, RevisionId>
    var heads: map<FilesystemId, Head>

    function View(): Tables
      reads this
    {
      Tables(nextRevision, liveRoots, revisions, mutationHeads, outbox, artifacts, collapses, heads)
    }

    ghost predicate Valid()
      reads this
    {
      TablesOk(View())
    }

    constructor ()
      ensures Valid() && View() == EMPTY
    {
      nextRevision, liveRoots, revisions, mutationHeads := 0, map[], map[], map[];
      outbox, artifacts, collapses, heads := map[], map[], map[], map[];
      new;
      forall r ensures RevisionOk(EMPTY, r) && ArtifactOk(EMPTY, r) && CollapseOk(EMPTY, r) && OutboxOk(EMPTY, r) {}
      forall f ensures MutationHeadOk(EMPTY, f) && HeadOk(EMPTY, f) {}
    }

    /** The three `catalog_statements`; a mutation head may not go back in time. */
    method Mutate(f: FilesystemId, root: DataRoot, now: nat) returns (committed: bool)
      requires Valid()
      modifies this
      ensures Valid() && View() == CatalogTables.Mutate(old(View()), f, root, now)
      ensures committed <==> !(f in old(mutationHeads) && old(mutationHeads)[f].updatedAt > now)
    {
      hide TablesOk, Evolves;
      MutateKeepsTables(View(), f, root, now);
      committed := !(f in mutationHeads && mutationHeads[f].updatedAt > now);
      if committed {
        hide CatalogTables.Mutate;
        InsertRevision(f, root, now);
      }
    }

    method InsertRevision(f: FilesystemId, root: DataRoot, now: nat)
      requires !(f in mutationHeads && mutationHeads[f].updatedAt > now)
      modifies this
      ensures View() == CatalogTables.Mutate(old(View()), f, root, now)
    {
      var r := nextRevision;
      var updates := if f in mutationHeads then mutationHeads[f].updates + 1 else 1;
      nextRevision := r + 1;
      liveRoots := liveRoots[f := root];
      revisions := revisions[r := Revision(f, root, Pending, None)];
      outbox := outbox[r := Outbox(Waiting, None, 0, None, 0, now)];
      mutationHeads := mutationHeads[f := MutationHead(r, updates, now)];
    }

    /** `claim_latest` after its selection: take the lease if the row is still due, then read it back. */
    method ClaimLatest(r: RevisionId, owner: LeaseOwner, now: nat) returns (loaded: Option<Candidate>)
      requires Valid()
      modifies this
      ensures Valid() && View() == (
                var claimed := CatalogTables.Claim(old(View()), r, owner, now);
                if ClaimMatches(old(View()), r, now) && LoadCandidate(claimed, r, owner, now).None?
                then CatalogTables.ReleaseClaim(claimed, r, owner, claimed.outbox[r].attempts, true, now) else claimed)
      ensures loaded == if ClaimMatches(old(View()), r, now)
                        then LoadCandidate(CatalogTables.Claim(old(View()), r, owner, now), r, owner, now) else None
    {
      ClaimKeepsTables(View(), r, owner, now);
      if !ClaimMatches(View(), r, now) { return None; }
      ghost var was := View();
      outbox := outbox[r := Outbox(Claimed, Some(owner), now + CLAIM_SECONDS, None, outbox[r].attempts + 1, now)];
      assert View() == CatalogTables.Claim(was, r, owner, now);
      loaded := LoadCandidate(View(), r, owner, now);
      if loaded.None? {
        // release_unloadable_claim: the revision is still the mutation head, so it is retried later
        assert IsMutationHead(was, r) && IsMutationHead(View(), r);
        Release(r, owner, outbox[r].attempts, IsMutationHead(View(), r), now);
      }
    }

    method Release(r: RevisionId, owner: LeaseOwner, attempts: nat, retry: bool, now: nat)
      requires Valid()
      modifies this
      ensures Valid() && View() == ReleaseClaim(old(View()), r, owner, attempts, retry, now)
    {
      ReleaseKeepsTables(View(), r, owner, attempts, retry, now);
      if HoldsLease(View(), r, owner) {
        var retryAt := if retry then Some(now + RetryDelay(attempts, r)) else None;
        outbox := outbox[r := Outbox(Waiting, None, 0, retryAt, outbox[r].attempts, now)];
      }
    }

    /** Record the intent before the object exists; fails unless the row it finds is this very artifact. */
    method RecordWriting(r: RevisionId, body: Body, now: nat) returns (ok: bool)
      requires Valid() && r in revisions && body.revision == r && body.filesystem == revisions[r].filesystem
      modifies this
      ensures Valid() && View() == CatalogTables.RecordWriting(old(View()), r, body, now)
      ensures ok <==> (r in old(artifacts) ==> old(artifacts)[r].sha256 == body && old(artifacts)[r].state in {Writing, Staged})
    {
      RecordKeepsTables(View(), r, body, now);
      assert ArtifactOk(View(), r);
      if r !in artifacts {
        forall other | other in artifacts ensures artifacts[other].key != KeyOf(body) {
          assert ArtifactOk(View(), other);
        }
        artifacts := artifacts[r := Artifact(KeyOf(body), body, body.bytes, None, Writing, now)];
      }
      ok := WritingConfirmed(View(), r, body);
    }

    /** Record the stored version; fails unless the row then carries exactly this receipt. */
    method MarkStaged(r: RevisionId, body: Body, version: nat, now: nat) returns (ok: bool)
      requires Valid()
      modifies this
      ensures Valid() && View() == CatalogTables.MarkStaged(old(View()), r, body, version, now)
      ensures ok <==> && r in old(artifacts) && old(artifacts)[r].sha256 == body
                      && (old(artifacts)[r].state == Writing
                          || (old(artifacts)[r].state == Staged && old(artifacts)[r].version == Some(version)))
    {
      StageKeepsTables(View(), r, body, version, now);
      assert ArtifactOk(View(), r);
      if r in artifacts && artifacts[r].key == KeyOf(body) && artifacts[r].sha256 == body
         && artifacts[r].bytes == body.bytes && artifacts[r].state == Writing {
        artifacts := artifacts[r := artifacts[r].(state := Staged, version := Some(version), updatedAt := now)];
      }
      ok := ArtifactMatches(View(), r, ReceiptFor(body, version), Staged);
    }

    method MarkOrphaned(r: RevisionId, now: nat)
      requires Valid()
      modifies this
      ensures Valid() && View() == CatalogTables.MarkOrphaned(old(View()), r, now)
    {
      if r in artifacts && artifacts[r].state == Staged && !Reachable(View(), r) {
        OrphanKeepsTables(View(), {r}, Staged, now);
        assert CatalogTables.MarkOrphaned(View(), r, now).artifacts == Orphan(artifacts, {r}, Staged, now);
        artifacts := artifacts[r := artifacts[r].(state := Orphaned, updatedAt := now)];
      }
    }

    method DeleteArtifact(r: RevisionId, key: ObjectKey, state: ArtifactState, cutoff: nat)
      requires Valid()
      modifies this
      ensures Valid() && View() == CatalogTables.DeleteArtifact(old(View()), r, key, state, cutoff)
    {
      DeleteKeepsTables(View(), r, key, state, cutoff);
      if r in artifacts && artifacts[r].key == key && artifacts[r].state == state
         && artifacts[r].updatedAt <= cutoff && !IsCatalogHead(View(), r) {
        artifacts := artifacts - {r};
      }
    }

    // -------------------------------------------------------------- the publication batch

    /** `UPDATE vfs_catalog_revisions SET state = 'materialized'` and then `'published'`. */
    method PublishRevision(c: Candidate, receipt: Receipt, now: nat)
      modifies this`revisions
      ensures View() == RevisionStatements(old(View()), c, receipt, now)
    {
      var r := c.revision;
      if PublishMatches(View(), c, receipt, now) {
        revisions := revisions[r := revisions[r].(state := Materialized, checkpoint := Some(receipt))];
      }
      if r in revisions && revisions[r].state == Materialized && revisions[r].checkpoint == Some(receipt) {
        revisions := revisions[r := revisions[r].(state := CatalogTables.Published)];
      }
    }

    /** `UPDATE ... SET state = 'published'` on a staged artifact; its trigger demands the revision's exact receipt. */
    method PublishArtifact(r: RevisionId, now: nat) returns (raised: bool)
      modifies this`artifacts
      ensures if raised then ArtifactStatement(old(View()), r, now).None? && View() == old(View())
              else ArtifactStatement(old(View()), r, now) == Some(View())
    {
      if !StagedAgain(View(), r) { return false; }
      if !MatchesRevision(View(), r) { return true; }
      artifacts := artifacts[r := artifacts[r].(state := Live, updatedAt := now)];
      return false;
    }

    /** The upsert of the head and the two triggers on it. */
    method MoveHead(r: RevisionId, now: nat) returns (raised: bool)
      modifies this`heads
      ensures if raised then HeadStatement(old(View()), r, now).None? && View() == old(View())
              else HeadStatement(old(View()), r, now) == Some(View())
    {
      if !IsMutationHead(View(), r) || revisions[r].state != CatalogTables.Published { return false; }
      var f := revisions[r].filesystem;
      if !HasLiveReceipt(View(), r) { return true; }
      if f in heads {
        if r <= heads[f].revision || now < heads[f].updatedAt { return true; }
        heads := heads[f := Head(r, revisions[r].root, heads[f].updates + 1, now)];
      } else {
        heads := heads[f := Head(r, revisions[r].root, 1, now)];
      }
      return false;
    }

    /** The outbox row is done; its trigger demands that the head is there or the row was collapsed. */
    method FinishOutbox(r: RevisionId, owner: LeaseOwner, now: nat) returns (raised: bool)
      modifies this`outbox
      ensures if raised then OutboxStatement(old(View()), r, owner, now).None? && View() == old(View())
              else OutboxStatement(old(View()), r, owner, now) == Some(View())
    {
      if !(HoldsLease(View(), r, owner) && r in revisions && revisions[r].state == CatalogTables.Published) { return false; }
      if r !in collapses && !IsHeadOfItsFilesystem(View(), r) { return true; }
      outbox := outbox[r := Outbox(Done, None, 0, None, outbox[r].attempts, now)];
      return false;
    }

    /** The statements in order, up to the first trigger that raises. */
    method RunBatch(c: Candidate, receipt: Receipt, now: nat) returns (raised: bool)
      modifies this`revisions, this`artifacts, this`heads, this`outbox
      ensures if raised then Batch(old(View()), c, receipt, now).None? && outbox == old(outbox)
              else Batch(old(View()), c, receipt, now) == Some(View())
    {
      hide RevisionStatements, ArtifactStatement, HeadStatement, OutboxStatement;
      PublishRevision(c, receipt, now);
      raised := PublishArtifact(c.revision, now);
      if raised { return; }
      raised := MoveHead(c.revision, now);
      if raised { return; }
      raised := FinishOutbox(c.revision, c.owner, now);
    }

    /**
     The publication batch. When any trigger raises, everything is undone. It is exactly the one
     atomic step `CatalogTables.Publish`, and aborts exactly when that says so.
     */
    method Publish(c: Candidate, receipt: Receipt, now: nat) returns (committed: bool)
      requires Valid()
      modifies this
      ensures Valid() && View() == CatalogTables.Publish(old(View()), c, receipt, now)
      ensures committed <==> !PublishAborts(old(View()), c, receipt, now)
    {
      hide TablesOk, Evolves, Batch, CatalogTables.Publish, PublishAborts;
      PublishKeepsTables(View(), c, receipt, now);
      BatchIsPublish(View(), c, receipt, now);
      var before := (revisions, artifacts, heads);
      var raised := RunBatch(c, receipt, now);
      if raised { revisions, artifacts, heads := before.0, before.1, before.2; }
      committed := !raised;
    }

    // -------------------------------------------------------------- historical revisions

    /** Collapse up to 500 older pending revisions into a published one, and settle up to 500 of their rows. */
    method CollapseHistorical(head: RevisionId, now: nat) returns (ghost chosen: set<RevisionId>, ghost resolved: set<RevisionId>)
      requires Valid()
      modifies this
      ensures Valid()
      ensures IsFirst(chosen, Collapsible(old(View()), head), MAXIMUM_COLLAPSES_PER_RUN)
      ensures var collapsed := WithCollapses(old(View()), head, chosen);
              && IsFirst(resolved, Unresolved(collapsed, head), MAXIMUM_COLLAPSES_PER_RUN)
              && View() == Resolve(collapsed, resolved, now)
      ensures Collapsed(old(View()), View(), head, chosen, resolved, now)
    {
      hide TablesOk, Evolves, IsFirst, Collapsible, Unresolved, Orphan, WithCollapses, Resolve, Collapsed;
      ghost var before := View();
      chosen := Collapse(head);
      resolved := Settle(head, now);
      CollapseLeaves(before, head, chosen, resolved, now);
    }

    /** The insertion of the collapses. */
    method Collapse(head: RevisionId) returns (chosen: set<RevisionId>)
      requires Valid()
      modifies this`collapses
      ensures Valid() && View() == WithCollapses(old(View()), head, chosen)
      ensures IsFirst(chosen, Collapsible(old(View()), head), MAXIMUM_COLLAPSES_PER_RUN)
    {
      hide TablesOk, Evolves, Collapsible;
      chosen := FirstIds(Collapsible(View(), head), MAXIMUM_COLLAPSES_PER_RUN);
      WithCollapsesKeepsTables(View(), head, chosen);
      collapses := WithCollapses(View(), head, chosen).collapses;
    }

    /** The two updates of what the collapsed revisions left behind. */
    method Settle(head: RevisionId, now: nat) returns (resolved: set<RevisionId>)
      requires Valid()
      modifies this`artifacts, this`outbox
      ensures Valid() && View() == Resolve(old(View()), resolved, now)
      ensures IsFirst(resolved, Unresolved(old(View()), head), MAXIMUM_COLLAPSES_PER_RUN)
    {
      hide TablesOk, Evolves, Unresolved, Orphan;
      resolved := FirstIds(Unresolved(View(), head), MAXIMUM_COLLAPSES_PER_RUN);
      ResolveKeepsTables(View(), head, resolved, now);
      artifacts := Orphan(artifacts, resolved, Staged, now);
      outbox := map r | r in outbox ::
        if r in resolved && outbox[r].state != Done then Outbox(Done, None, 0, None, outbox[r].attempts, now) else outbox[r];
    }
  }

  /** `ORDER BY id LIMIT n` over a finite set of ids. */
  method FirstIds(ids: set<RevisionId>, n: nat) returns (chosen: set<RevisionId>)
    ensures IsFirst(chosen, ids, n)
  {
    chosen := {};
    var rest := ids;
    while |chosen| < n && rest != {}
      invariant rest == ids - chosen && chosen <= ids && |chosen| <= n
      invariant forall x, y | x in chosen && y in rest :: x < y
      invariant |chosen| + |rest| == |ids|
      decreases |rest|
    {
      var least := Least(rest);
      chosen, rest := chosen + {least}, rest - {least};
    }
    forall y | y in ids && y !in chosen ensures y in rest {}
  }

  method Least(ids: set<RevisionId>) returns (least: RevisionId)
    requires ids != {}
    ensures least in ids && forall x | x in ids :: least <= x
  {
    least :| least in ids;
    var rest := ids - {least};
    while rest != {}
      invariant rest <= ids && least in ids
      invariant forall x | x in ids && x !in rest :: least <= x
      decreases |rest|
    {
      var x :| x in rest;
      if x < least { least := x; }
      rest := rest - {x};
    }
  }
}
