/** What mutations, staging, retirement and collection leave in the rows and in the bucket. */
module CatalogEffects {
  import opened Options
  import opened CatalogTables
  import opened CatalogProtocol
  import opened CatalogInvariant
  import opened CatalogSafety
  import opened CatalogClaims

  // ---------------------------------------------------------------- mutations

  /** Rows of other revisions and heads of other filesystems are as before. */
  predicate SparesOthers(before: Tables, after: Tables, f: FilesystemId, r: RevisionId) {
    && (forall x | x in before.revisions :: x in after.revisions && after.revisions[x] == before.revisions[x])
    && (forall x | x in before.outbox && x != r :: x in after.outbox && after.outbox[x] == before.outbox[x])
    && (forall g | g in before.mutationHeads && g != f :: g in after.mutationHeads && after.mutationHeads[g] == before.mutationHeads[g])
    && (forall g | g in before.liveRoots && g != f :: g in after.liveRoots && after.liveRoots[g] == before.liveRoots[g])
    && after.artifacts == before.artifacts && after.collapses == before.collapses && after.heads == before.heads
  }

  /** A mutation makes a revision that never was, pending with its root, wanted at once, and the only newest one. */
  lemma MutationIsWanted(s: System, f: FilesystemId, root: DataRoot, now: nat)
    requires Inv(s) && (f in s.db.mutationHeads ==> s.db.mutationHeads[f].updatedAt <= now)
    ensures var t := Execute(s, MutateStep(f, root, now));
            && f in t.db.mutationHeads
            && var r := t.db.mutationHeads[f].revision;
               && r !in s.db.revisions && r !in s.db.outbox && r in t.db.revisions && r in t.db.outbox
               && (forall x | x in s.db.revisions :: x < r)
               && t.db.revisions[r] == Revision(f, root, Pending, None) && IsWanted(t.db, r)
               && OpensAt(t.db.outbox[r], Some(0)) && t.db.outbox[r].attempts == 0 && t.db.outbox[r].owner == None
               && f in t.db.liveRoots && t.db.liveRoots[f] == root && t.db.mutationHeads[f].updatedAt == now
               && t.db.mutationHeads[f].updates == (if f in s.db.mutationHeads then s.db.mutationHeads[f].updates else 0) + 1
               && SparesOthers(s.db, t.db, f, r)
    ensures var t := Execute(s, MutateStep(f, root, now)); t.objects == s.objects && t.workers == s.workers
  {
    assert RevisionOk(s.db, s.db.nextRevision) && OutboxOk(s.db, s.db.nextRevision);
    forall x | x in s.db.revisions ensures x < s.db.nextRevision { assert RevisionOk(s.db, x); }
  }

  /** A mutation whose clock is behind the newest revision's changes nothing. */
  lemma LateMutationRefused(s: System, f: FilesystemId, root: DataRoot, now: nat)
    requires f in s.db.mutationHeads && now < s.db.mutationHeads[f].updatedAt
    ensures Execute(s, MutateStep(f, root, now)) == s
  {
  }

  // ---------------------------------------------------------------- loading and staging

  /** A claim is gone on with exactly while its lease is live, its revision wanted and its root the live one. */
  lemma LoadsExactlyWhenCurrent(s: System, w: nat)
    requires WorkerAt(s, w).ClaimedRow?
    ensures var p, q := WorkerAt(s, w), WorkerAt(Execute(s, LoadStep(w)), w);
            if && IsWanted(s.db, p.revision) && p.revision in s.db.outbox
               && s.db.outbox[p.revision].state == OutboxState.Claimed && s.db.outbox[p.revision].owner == Some(p.owner)
               && p.now < s.db.outbox[p.revision].leaseExpiresAt
               && s.db.revisions[p.revision].filesystem in s.db.liveRoots
               && s.db.liveRoots[s.db.revisions[p.revision].filesystem] == s.db.revisions[p.revision].root
            then
              q == Assembling(Candidate(p.revision, s.db.revisions[p.revision].filesystem, s.db.revisions[p.revision].root,
                                        p.owner, s.db.outbox[p.revision].attempts), p.now)
            else q == Unloadable(p.revision, p.owner)
    ensures Execute(s, LoadStep(w)).db == s.db
  {
  }

  /** The intent is written before the object exists, once for a revision, and never over another's key. */
  lemma RecordsIntent(s: System, w: nat)
    requires Inv(s) && WorkerAt(s, w).Encoded?
    ensures var p, t := WorkerAt(s, w), Execute(s, RecordStep(w));
            var r := p.candidate.revision;
            && t.objects == s.objects && t.db == s.db.(artifacts := t.db.artifacts)
            && (forall x | x in s.db.artifacts :: x in t.db.artifacts && t.db.artifacts[x] == s.db.artifacts[x])
            && (r !in s.db.artifacts ==>
                  && t.db.artifacts.Keys == s.db.artifacts.Keys + {r}
                  && t.db.artifacts[r] == Artifact(CheckpointKey(p.body.filesystem, p.body), p.body, p.body.bytes, None, Writing, p.now))
            && (r in s.db.artifacts ==> t.db.artifacts == s.db.artifacts)
  {
    hide TablesOk;
    var p := WorkerAt(s, w);
    assert WorkerOk(s, p);
    KeysAreOwn(s, p.body);
  }

  lemma KeysAreOwn(s: System, body: Body)
    requires Inv(s)
    ensures forall x | x in s.db.artifacts && s.db.artifacts[x].key == KeyOf(body) :: x == body.revision
  {
    forall x | x in s.db.artifacts && s.db.artifacts[x].key == KeyOf(body) ensures x == body.revision {
      assert ArtifactOk(s.db, x);
    }
  }

  /** Staging gives a row that is still being written this stored version, and touches no other. */
  lemma StagesVersion(s: System, w: nat)
    requires Inv(s) && WorkerAt(s, w).Stored?
    ensures var p, t := WorkerAt(s, w), Execute(s, StageStep(w));
            var r := p.candidate.revision;
            && t.objects == s.objects && t.db == s.db.(artifacts := t.db.artifacts)
            && t.db.artifacts.Keys == s.db.artifacts.Keys
            && (forall x | x in s.db.artifacts && x != r :: t.db.artifacts[x] == s.db.artifacts[x])
            && (r in s.db.artifacts ==>
                  if s.db.artifacts[r].state == Writing && s.db.artifacts[r].sha256 == p.body then
                    t.db.artifacts[r] == s.db.artifacts[r].(state := Staged, version := Some(p.version), updatedAt := p.now)
                  else t.db.artifacts[r] == s.db.artifacts[r])
  {
    hide TablesOk;
    assert ArtifactOk(s.db, WorkerAt(s, w).candidate.revision) by { RowOf(s, WorkerAt(s, w).candidate.revision); }
  }

  lemma RowOf(s: System, r: RevisionId)
    requires Inv(s)
    ensures ArtifactOk(s.db, r)
  {
  }

  // ---------------------------------------------------------------- where a worker goes on, and where it gives the claim back

  /** An empty or oversized checkpoint is given back for a retry; any other is encoded for its own revision. */
  lemma EncodesWithinLimits(s: System, w: nat, rest: nat, bytes: nat)
    requires WorkerAt(s, w).Assembling?
    ensures var p, t := WorkerAt(s, w), Execute(s, EncodeStep(w, rest, bytes));
            && t == s.(workers := t.workers)
            && WorkerAt(t, w) == if 1 <= bytes <= 32 * 1024 * 1024
                                 then Encoded(p.candidate, Body(p.candidate.filesystem, p.candidate.revision, rest, bytes), p.now)
                                 else Releasing(p.candidate, true)
  {
  }

  /** A failure anywhere between claim and publication gives the claim back for a retry. */
  lemma FailureGivesBack(s: System, w: nat)
    requires HasCandidate(WorkerAt(s, w))
    ensures var t := Execute(s, FailStep(w));
            t == s.(workers := t.workers) && WorkerAt(t, w) == Releasing(WorkerAt(s, w).candidate, true)
  {
  }

  /** The object is stored only after its intent was read back, in the writing or staged state. */
  lemma StoresOnlyRecorded(s: System, w: nat)
    requires Inv(s) && WorkerAt(s, w).Recording?
    ensures var p, t := WorkerAt(s, w), Execute(s, ConfirmRecordStep(w));
            var r := p.candidate.revision;
            && t == s.(workers := t.workers)
            && WorkerAt(t, w) == if r in s.db.artifacts && s.db.artifacts[r].sha256 == p.body
                                    && (s.db.artifacts[r].state == Writing || s.db.artifacts[r].state == Staged)
                                 then Recorded(p.candidate, p.body, p.now) else Releasing(p.candidate, true)
  {
    RowOf(s, WorkerAt(s, w).candidate.revision);
    hide Inv;
  }

  /** A put never overwrites: it stores a new version under a free key, and else goes by the bytes that are there. */
  lemma PutNeverOverwrites(s: System, w: nat)
    requires WorkerAt(s, w).Recorded?
    ensures var p, t := WorkerAt(s, w), Execute(s, PutStep(w));
            var key := CheckpointKey(p.body.filesystem, p.body);
            && t.db == s.db
            && (forall k | k in s.objects :: k in t.objects && t.objects[k] == s.objects[k])
            && (key in s.objects ==> t.objects == s.objects && WorkerAt(t, w) == Conflicted(p.candidate, p.body, p.now))
            && (key !in s.objects ==>
                  && t.objects == s.objects[key := StoredObject(p.body, s.nextVersion)] && t.nextVersion > s.nextVersion
                  && WorkerAt(t, w) == Stored(p.candidate, p.body, s.nextVersion, p.now))
  {
  }

  lemma ConflictNeedsTheSameBytes(s: System, w: nat)
    requires WorkerAt(s, w).Conflicted?
    ensures var p, t := WorkerAt(s, w), Execute(s, RereadStep(w));
            var key := CheckpointKey(p.body.filesystem, p.body);
            && t == s.(workers := t.workers)
            && WorkerAt(t, w) == if key in s.objects && s.objects[key].body == p.body
                                 then Stored(p.candidate, p.body, s.objects[key].version, p.now) else Releasing(p.candidate, true)
  {
  }

  /** Publication is tried only with a staged row that carries this version, under a live claim of the wanted revision. */
  lemma PublishesOnlyStaged(s: System, w: nat)
    requires Inv(s) && WorkerAt(s, w).Staging?
    ensures var p, t := WorkerAt(s, w), Execute(s, ConfirmStageStep(w));
            var r := p.candidate.revision;
            && t == s.(workers := t.workers)
            && WorkerAt(t, w) == if r in s.db.artifacts && s.db.artifacts[r].state == Staged && s.db.artifacts[r].sha256 == p.body
                                    && s.db.artifacts[r].version == Some(p.version)
                                 then StagedCopy(p.candidate, p.body, p.version) else Releasing(p.candidate, true)
  {
    RowOf(s, WorkerAt(s, w).candidate.revision);
    hide Inv;
  }

  lemma FencedOnlyWhenCurrent(s: System, w: nat, now: nat)
    requires WorkerAt(s, w).StagedCopy?
    ensures var p, t := WorkerAt(s, w), Execute(s, FenceStep(w, now));
            var r := p.candidate.revision;
            && t == s.(workers := t.workers)
            && WorkerAt(t, w) == if && IsWanted(s.db, r) && r in s.db.outbox && s.db.outbox[r].state == OutboxState.Claimed
                                    && s.db.outbox[r].owner == Some(p.candidate.owner) && now < s.db.outbox[r].leaseExpiresAt
                                    && s.db.revisions[r].filesystem in s.db.liveRoots
                                    && s.db.liveRoots[s.db.revisions[r].filesystem] == s.db.revisions[r].root
                                 then Fenced(p.candidate, p.body, p.version, now) else Superseded(p.candidate, now)
  {
  }

  /** A worker is done when the head names its revision, published, finished and live; else it looks superseded. */
  lemma DoneExactlyWhenPublished(s: System, w: nat)
    requires WorkerAt(s, w).Confirming?
    ensures var p, t := WorkerAt(s, w), Execute(s, ConfirmPublishStep(w));
            var r, f := p.candidate.revision, p.candidate.filesystem;
            && t == s.(workers := t.workers)
            && WorkerAt(t, w) == if && f in s.db.heads && s.db.heads[f].revision == r
                                    && r in s.db.revisions && s.db.revisions[r].state == Published
                                    && r in s.db.outbox && s.db.outbox[r].state == Done
                                    && r in s.db.artifacts && s.db.artifacts[r].state == Live
                                 then Idle else Superseded(p.candidate, p.now)
  {
  }

  // ---------------------------------------------------------------- publication

  /** The worker's claim is live, its revision wanted with the root it knows, and its version staged. */
  predicate MayPublish(db: Tables, c: Candidate, body: Body, version: nat, now: nat) {
    var r := c.revision;
    && IsWanted(db, r) && db.revisions[r].filesystem == c.filesystem && db.revisions[r].root == c.root
    && r in db.outbox && db.outbox[r].state == OutboxState.Claimed && db.outbox[r].owner == Some(c.owner)
    && now < db.outbox[r].leaseExpiresAt
    && r in db.artifacts && db.artifacts[r].state == Staged && db.artifacts[r].sha256 == body
    && db.artifacts[r].version == Some(version)
  }

  /** The revision is published with its receipt, its artifact live, its row finished, and the head names it. */
  predicate IsPublished(before: Tables, after: Tables, c: Candidate, body: Body, version: nat, now: nat) {
    var r, f := c.revision, c.filesystem;
    && r in after.revisions && after.revisions[r].state == Published && after.revisions[r].filesystem == f
    && after.revisions[r].root == c.root
    && after.revisions[r].checkpoint == Some(Receipt(CheckpointKey(body.filesystem, body), body, version, body.bytes))
    && r in before.artifacts && r in after.artifacts
    && after.artifacts[r] == before.artifacts[r].(state := Live, updatedAt := now)
    && r in before.outbox && r in after.outbox && after.outbox[r].state == Done && after.outbox[r].owner == None
    && after.outbox[r].retryAt == None && after.outbox[r].leaseExpiresAt == 0
    && after.outbox[r].attempts == before.outbox[r].attempts && after.outbox[r].updatedAt == now
    && f in after.heads && after.heads[f].revision == r && after.heads[f].root == c.root && after.heads[f].updatedAt == now
    && after == before.(revisions := before.revisions[r := after.revisions[r]], artifacts := before.artifacts[r := after.artifacts[r]],
                        outbox := before.outbox[r := after.outbox[r]], heads := before.heads[f := after.heads[f]])
  }

  /** So it is published, unless the head's clock is ahead. */
  lemma PublicationLeaves(s: System, w: nat)
    requires Inv(s) && WorkerAt(s, w).Fenced?
    requires var p := WorkerAt(s, w); MayPublish(s.db, p.candidate, p.body, p.version, p.now)
    ensures var p, t := WorkerAt(s, w), Execute(s, PublishStep(w));
            && t.objects == s.objects
            && (if p.candidate.filesystem in s.db.heads && s.db.heads[p.candidate.filesystem].updatedAt > p.now then
                  t.db == s.db && WorkerAt(t, w) == Releasing(p.candidate, true)
                else
                  IsPublished(s.db, t.db, p.candidate, p.body, p.version, p.now) && WorkerAt(t, w) == Confirming(p.candidate, p.now))
  {
    RowOf(s, WorkerAt(s, w).candidate.revision);
    hide Inv;
  }

  /** Without live claim, wanted revision or staged version nothing is published. */
  lemma NothingElsePublishes(s: System, w: nat)
    requires WorkerAt(s, w).Fenced?
    requires var p := WorkerAt(s, w); !MayPublish(s.db, p.candidate, p.body, p.version, p.now)
    ensures var t := Execute(s, PublishStep(w)).db;
            t.heads == s.db.heads && t.revisions == s.db.revisions && t.outbox == s.db.outbox
  {
    var p := WorkerAt(s, w);
    MatchesOnlyWhenAllowed(s.db, p.candidate, p.body, p.version, p.now);
    hide PublishMatches, PublishAborts, StagedAgain, MayPublish;
  }

  lemma MatchesOnlyWhenAllowed(db: Tables, c: Candidate, body: Body, version: nat, now: nat)
    ensures PublishMatches(db, c, ReceiptFor(body, version), now) ==> MayPublish(db, c, body, version, now)
  {
  }

  // ---------------------------------------------------------------- retirement

  /** No head of either kind names the revision. */
  predicate NoHeadNames(db: Tables, r: RevisionId) {
    && (forall f | f in db.heads :: db.heads[f].revision != r)
    && (r in db.revisions && db.revisions[r].filesystem in db.mutationHeads ==>
          db.mutationHeads[db.revisions[r].filesystem].revision != r)
  }

  /** These artifacts are given up at `now`, and no other row changes. */
  predicate GivesUp(before: Tables, after: Tables, given: set<RevisionId>, now: nat) {
    && after == before.(artifacts := after.artifacts) && after.artifacts.Keys == before.artifacts.Keys
    && (forall r | r in before.artifacts && r in given ::
          after.artifacts[r] == before.artifacts[r].(state := Orphaned, updatedAt := now))
    && (forall r | r in before.artifacts && r !in given :: after.artifacts[r] == before.artifacts[r])
  }

  lemma ReachableExactly(db: Tables, r: RevisionId)
    ensures Reachable(db, r) <==> !NoHeadNames(db, r)
  {
  }

  /** A worker that found itself superseded gives up its staged copy unless a head names the revision. */
  lemma SupersededGivesUp(s: System, w: nat)
    requires WorkerAt(s, w).Superseded?
    ensures var p, t := WorkerAt(s, w), Execute(s, OrphanStep(w));
            var r := p.candidate.revision;
            && t.objects == s.objects && WorkerAt(t, w) == Releasing(p.candidate, false)
            && GivesUp(s.db, t.db,
                       if r in s.db.artifacts && s.db.artifacts[r].state == Staged && NoHeadNames(s.db, r) then {r} else {}, p.now)
  {
    ReachableExactly(s.db, WorkerAt(s, w).candidate.revision);
  }

  /** Retirement gives up up to 100 live artifacts that no head names any more, and nothing else. */
  lemma RetirementGivesUp(s: System, chosen: set<RevisionId>, now: nat)
    requires |chosen| <= 100
    requires forall r | r in chosen :: r in s.db.artifacts && s.db.artifacts[r].state == Live && NoHeadNames(s.db, r)
    ensures var t := Execute(s, RetireStep(chosen, now)); t.objects == s.objects && GivesUp(s.db, t.db, chosen, now)
  {
    forall r ensures Reachable(s.db, r) <==> !NoHeadNames(s.db, r) { ReachableExactly(s.db, r); }
  }

  lemma OthersAreNotRetired(s: System, chosen: set<RevisionId>, now: nat, r: RevisionId)
    requires r in chosen && (r !in s.db.artifacts || s.db.artifacts[r].state != Live || !NoHeadNames(s.db, r))
    ensures Execute(s, RetireStep(chosen, now)) == s
  {
    ReachableExactly(s.db, r);
  }

  // ---------------------------------------------------------------- collection

  /** An artifact may be collected once it was given up, or left unfinished by another than the newest revision, for a day. */
  predicate MayBeCollected(db: Tables, r: RevisionId, now: nat) {
    && r in db.artifacts && (if now < 86_400 then db.artifacts[r].updatedAt == 0 else db.artifacts[r].updatedAt + 86_400 <= now)
    && (forall f | f in db.heads :: db.heads[f].revision != r)
    && (db.artifacts[r].state == Orphaned
        || (db.artifacts[r].state == Writing && !(r in db.revisions && db.revisions[r].filesystem in db.mutationHeads
                                                   && db.mutationHeads[db.revisions[r].filesystem].revision == r)))
  }

  lemma CollectsExactly(s: System, w: nat, r: RevisionId, now: nat)
    requires WorkerAt(s, w).Idle?
    ensures var t := Execute(s, SelectCleanupStep(w, r, now));
            && t.db == s.db && t.objects == s.objects
            && (WorkerAt(t, w).CleanupSelected? <==> MayBeCollected(s.db, r, now))
            && (!MayBeCollected(s.db, r, now) ==> t == s)
  {
  }

  lemma SelectionRemembers(s: System, w: nat, r: RevisionId, now: nat)
    requires WorkerAt(s, w).Idle? && MayBeCollected(s.db, r, now)
    ensures var t := Execute(s, SelectCleanupStep(w, r, now));
            && t.db == s.db && t.objects == s.objects && WorkerAt(t, w).CleanupSelected?
            && WorkerAt(t, w).revision == r && WorkerAt(t, w).key == s.db.artifacts[r].key
            && WorkerAt(t, w).state == s.db.artifacts[r].state && s.db.artifacts[r].updatedAt <= WorkerAt(t, w).cutoff
  {
    CollectsExactly(s, w, r, now);
  }

  lemma ObjectGoes(s: System, w: nat)
    requires WorkerAt(s, w).CleanupSelected?
    ensures var p, t := WorkerAt(s, w), Execute(s, DeleteObjectStep(w));
            && t.db == s.db && t.objects == s.objects - {p.key}
            && WorkerAt(t, w) == CleanupDeleted(p.revision, p.key, p.state, p.cutoff)
  {
  }

  lemma RowGoes(s: System, w: nat)
    requires WorkerAt(s, w).CleanupDeleted? && WorkerAt(s, w).revision in s.db.artifacts
    requires var p := WorkerAt(s, w);
             && s.db.artifacts[p.revision].key == p.key && s.db.artifacts[p.revision].state == p.state
             && s.db.artifacts[p.revision].updatedAt <= p.cutoff
             && forall f | f in s.db.heads :: s.db.heads[f].revision != p.revision
    ensures var p, t := WorkerAt(s, w), Execute(s, DeleteRowStep(w));
            t.db == s.db.(artifacts := s.db.artifacts - {p.revision}) && t.objects == s.objects && WorkerAt(t, w).Idle?
  {
    assert !IsCatalogHead(s.db, WorkerAt(s, w).revision);
  }

  /** An undisturbed collection takes away the object and its row, and nothing else. */
  lemma CollectionTakesBoth(s: System, w: nat, r: RevisionId, now: nat)
    requires WorkerAt(s, w).Idle? && MayBeCollected(s.db, r, now)
    ensures var t := Execute(Execute(Execute(s, SelectCleanupStep(w, r, now)), DeleteObjectStep(w)), DeleteRowStep(w));
            && WorkerAt(t, w).Idle?
            && t.db == s.db.(artifacts := s.db.artifacts - {r}) && t.objects == s.objects - {s.db.artifacts[r].key}
  {
    hide Execute;
    SelectionRemembers(s, w, r, now);
    var s1 := Execute(s, SelectCleanupStep(w, r, now));
    ObjectGoes(s1, w);
    RowGoes(Execute(s1, DeleteObjectStep(w)), w);
  }

  /** A row that was written again since its selection, or is named by a head, stays. */
  lemma ChangedRowStays(s: System, w: nat)
    requires WorkerAt(s, w).CleanupDeleted?
    requires var p := WorkerAt(s, w);
             p.revision in s.db.artifacts ==>
               || s.db.artifacts[p.revision].key != p.key || s.db.artifacts[p.revision].state != p.state
               || s.db.artifacts[p.revision].updatedAt > p.cutoff
               || exists f :: f in s.db.heads && s.db.heads[f].revision == p.revision
    ensures Execute(s, DeleteRowStep(w)).db == s.db
  {
  }
}
