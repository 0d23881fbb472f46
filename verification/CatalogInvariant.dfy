/** What every reachable state of catalog materialization satisfies, proved step by step. */
module CatalogInvariant {
  import opened Options
  import opened CatalogTables
  import opened CatalogProtocol

  // ---------------------------------------------------------------- tables, row by row

  /** Between batches a revision is pending without a receipt, or published with one, not above its head. */
  predicate RevisionOk(db: Tables, r: RevisionId) {
    r in db.revisions ==>
      var f := db.revisions[r].filesystem;
      && r < db.nextRevision && r in db.outbox
      && f in db.mutationHeads && r <= db.mutationHeads[f].revision
      && db.revisions[r].state != Materialized
      && (db.revisions[r].state == Published ==>
            && db.revisions[r].checkpoint.Some? && f in db.heads && r <= db.heads[f].revision
            && db.outbox[r].state == Done)
  }

  predicate MutationHeadOk(db: Tables, f: FilesystemId) {
    f in db.mutationHeads ==>
      var r := db.mutationHeads[f].revision;
      r in db.revisions && db.revisions[r].filesystem == f
  }

  /** The head's receipt is exactly its live artifact row. */
  predicate HeadOk(db: Tables, f: FilesystemId) {
    f in db.heads ==>
      var r := db.heads[f].revision;
      && r in db.revisions && db.revisions[r].filesystem == f && db.revisions[r].root == db.heads[f].root
      && db.revisions[r].state == Published && db.revisions[r].checkpoint.Some?
      && ArtifactMatches(db, r, db.revisions[r].checkpoint.value, Live)
  }

  predicate ArtifactOk(db: Tables, r: RevisionId) {
    r in db.artifacts ==>
      var a := db.artifacts[r];
      && r in db.revisions && a.key == KeyOf(a.sha256) && a.bytes == a.sha256.bytes
      && a.sha256.revision == r && a.sha256.filesystem == db.revisions[r].filesystem
      && (a.state == Writing <==> a.version == None)
      && (a.state == Orphaned ==> !Reachable(db, r))
      && (a.state == Live ==> db.revisions[r].state == Published)
  }

  predicate CollapseOk(db: Tables, r: RevisionId) {
    r in db.collapses ==>
      var newer := db.collapses[r];
      && r in db.revisions && newer in db.revisions && r < newer
      && db.revisions[r].filesystem == db.revisions[newer].filesystem
      && db.revisions[r].state == Pending && db.revisions[newer].state == Published
  }

  predicate OutboxOk(db: Tables, r: RevisionId) {
    r in db.outbox ==>
      r in db.revisions
      && (db.outbox[r].state == Done ==> r in db.collapses || db.revisions[r].state == Published)
  }

  ghost predicate TablesOk(db: Tables) {
    && (forall r {:trigger RevisionOk(db, r)} :: RevisionOk(db, r))
    && (forall f {:trigger MutationHeadOk(db, f)} :: MutationHeadOk(db, f))
    && (forall f {:trigger HeadOk(db, f)} :: HeadOk(db, f))
    && (forall r {:trigger ArtifactOk(db, r)} :: ArtifactOk(db, r))
    && (forall r {:trigger CollapseOk(db, r)} :: CollapseOk(db, r))
    && (forall r {:trigger OutboxOk(db, r)} :: OutboxOk(db, r))
  }

  // ---------------------------------------------------------------- bucket and workers

  predicate Holds(s: System, key: ObjectKey, version: nat) {
    key in s.objects && s.objects[key].version == version
  }

  predicate ObjectOk(s: System, k: ObjectKey) {
    k in s.objects && k.CheckpointKey? ==> s.objects[k].body == k.sha256
  }

  /** A staged or live artifact that is still reachable has its exact object in the bucket. */
  predicate StoredOk(s: System, r: RevisionId) {
    r in s.db.artifacts && s.db.artifacts[r].version.Some? && Reachable(s.db, r) ==>
      Holds(s, s.db.artifacts[r].key, s.db.artifacts[r].version.value)
  }

  predicate CandidateOk(db: Tables, c: Candidate) {
    && c.revision in db.revisions
    && db.revisions[c.revision].filesystem == c.filesystem && db.revisions[c.revision].root == c.root
  }

  predicate HasBody(p: Worker) {
    HasCandidate(p) && !(p.Assembling? || p.Confirming? || p.Superseded? || p.Releasing?)
  }

  predicate HasVersion(p: Worker) {
    p.Stored? || p.Staging? || p.StagedCopy? || p.Fenced?
  }

  /** A cleanup in flight only ever targets a revision that can never be reachable again. */
  predicate WorkerOk(s: System, p: Worker) {
    && (p.Selected? || p.ClaimedRow? ==> p.revision in s.db.revisions)
    && (HasCandidate(p) ==> CandidateOk(s.db, p.candidate))
    && (HasBody(p) ==> p.body.revision == p.candidate.revision && p.body.filesystem == p.candidate.filesystem)
    && (HasVersion(p) && Reachable(s.db, p.candidate.revision) ==> Holds(s, KeyOf(p.body), p.version))
    && (p.CleanupSelected? || p.CleanupDeleted? ==>
          && p.revision in s.db.revisions && !Reachable(s.db, p.revision)
          && p.key.CheckpointKey? && p.key.sha256.revision == p.revision)
  }

  ghost predicate Inv(s: System) {
    && TablesOk(s.db)
    && (forall k {:trigger ObjectOk(s, k)} :: ObjectOk(s, k))
    && (forall r {:trigger StoredOk(s, r)} :: StoredOk(s, r))
    && (forall w {:trigger WorkerAt(s, w)} :: WorkerOk(s, WorkerAt(s, w)))
  }

  // ---------------------------------------------------------------- how the tables may move

  /** What any table step guarantees to everyone else: identities stay, and reachability only shrinks. */
  ghost predicate Evolves(before: Tables, after: Tables) {
    && before.nextRevision <= after.nextRevision
    && (forall r | r in before.revisions ::
          && r in after.revisions && after.revisions[r].filesystem == before.revisions[r].filesystem
          && after.revisions[r].root == before.revisions[r].root)
    && (forall r {:trigger Reachable(after, r)} | r in before.revisions && Reachable(after, r) :: Reachable(before, r))
  }

  lemma SameHeadsSameReach(db: Tables, after: Tables)
    requires after.heads == db.heads && after.mutationHeads == db.mutationHeads
    requires after.revisions == db.revisions
    ensures forall r :: Reachable(after, r) == Reachable(db, r)
    ensures forall r :: IsCatalogHead(after, r) == IsCatalogHead(db, r)
    ensures forall r :: IsMutationHead(after, r) == IsMutationHead(db, r)
  {
  }

  /** A table step that only rewrites artifact rows, keeping each in order and the live ones of heads untouched. */
  lemma ArtifactStep(db: Tables, after: Tables)
    requires TablesOk(db) && after == db.(artifacts := after.artifacts)
    requires forall r :: ArtifactOk(after, r)
    requires forall r | r in db.artifacts && IsCatalogHead(db, r) :: r in after.artifacts && after.artifacts[r] == db.artifacts[r]
    ensures TablesOk(after) && Evolves(db, after)
  {
    SameHeadsSameReach(db, after);
    forall r ensures RevisionOk(after, r) && CollapseOk(after, r) && OutboxOk(after, r) {
      assert RevisionOk(db, r) && CollapseOk(db, r) && OutboxOk(db, r);
    }
    forall f ensures MutationHeadOk(after, f) && HeadOk(after, f) {
      assert MutationHeadOk(db, f) && HeadOk(db, f);
      if f in db.heads { assert IsCatalogHead(db, db.heads[f].revision); }
    }
  }

  /** A table step that only rewrites outbox rows, resolving only what is published or collapsed. */
  lemma OutboxStep(db: Tables, after: Tables)
    requires TablesOk(db) && after == db.(outbox := after.outbox)
    requires after.outbox.Keys == db.outbox.Keys
    requires forall r | r in after.outbox && after.outbox[r].state == Done ::
               db.outbox[r].state == Done || r in db.collapses
    requires forall r | r in db.outbox && db.outbox[r].state == Done :: after.outbox[r].state == Done
    ensures TablesOk(after) && Evolves(db, after)
  {
    SameHeadsSameReach(db, after);
    forall r ensures RevisionOk(after, r) && CollapseOk(after, r) && OutboxOk(after, r) && ArtifactOk(after, r) {
      assert RevisionOk(db, r) && CollapseOk(db, r) && OutboxOk(db, r) && ArtifactOk(db, r);
    }
    forall f ensures MutationHeadOk(after, f) && HeadOk(after, f) {
      assert MutationHeadOk(db, f) && HeadOk(db, f);
    }
  }

  // ---------------------------------------------------------------- every table step

  lemma MutateKeepsTables(db: Tables, f: FilesystemId, root: DataRoot, now: nat)
    requires TablesOk(db)
    ensures TablesOk(Mutate(db, f, root, now)) && Evolves(db, Mutate(db, f, root, now))
  {
    var after := Mutate(db, f, root, now);
    if after != db {
      var newest := db.nextRevision;
      assert RevisionOk(db, newest);
      forall r ensures IsCatalogHead(after, r) == IsCatalogHead(db, r) {}
      forall r | r in db.revisions && IsMutationHead(after, r) ensures IsMutationHead(db, r) {}
      forall r ensures RevisionOk(after, r) && CollapseOk(after, r) && OutboxOk(after, r) && ArtifactOk(after, r) {
        assert RevisionOk(db, r) && CollapseOk(db, r) && OutboxOk(db, r) && ArtifactOk(db, r);
        if r in db.revisions { assert MutationHeadOk(db, db.revisions[r].filesystem); }
        if r in db.collapses { assert RevisionOk(db, db.collapses[r]); }
      }
      forall g ensures MutationHeadOk(after, g) && HeadOk(after, g) {
        assert MutationHeadOk(db, g) && HeadOk(db, g);
        if g in db.heads { assert RevisionOk(db, db.heads[g].revision); }
        if g in db.mutationHeads { assert RevisionOk(db, db.mutationHeads[g].revision); }
      }
    }
  }

  lemma ClaimKeepsTables(db: Tables, r: RevisionId, owner: LeaseOwner, now: nat)
    requires TablesOk(db)
    ensures TablesOk(Claim(db, r, owner, now)) && Evolves(db, Claim(db, r, owner, now))
  {
    OutboxStep(db, Claim(db, r, owner, now));
  }

  lemma ReleaseKeepsTables(db: Tables, r: RevisionId, owner: LeaseOwner, attempts: nat, retry: bool, now: nat)
    requires TablesOk(db)
    ensures var after := ReleaseClaim(db, r, owner, attempts, retry, now); TablesOk(after) && Evolves(db, after)
  {
    OutboxStep(db, ReleaseClaim(db, r, owner, attempts, retry, now));
  }

  lemma RecordKeepsTables(db: Tables, r: RevisionId, body: Body, now: nat)
    requires TablesOk(db) && r in db.revisions
    requires body.revision == r && body.filesystem == db.revisions[r].filesystem
    ensures var after := RecordWriting(db, r, body, now); TablesOk(after) && Evolves(db, after)
  {
    var after := RecordWriting(db, r, body, now);
    if after != db {
      SameHeadsSameReach(db, after);
      forall x ensures ArtifactOk(after, x) { assert ArtifactOk(db, x); }
      ArtifactStep(db, after);
    }
  }

  lemma StageKeepsTables(db: Tables, r: RevisionId, body: Body, version: nat, now: nat)
    requires TablesOk(db)
    ensures var after := MarkStaged(db, r, body, version, now); TablesOk(after) && Evolves(db, after)
  {
    var after := MarkStaged(db, r, body, version, now);
    if after != db {
      SameHeadsSameReach(db, after);
      LiveAtHead(db);
      forall x ensures ArtifactOk(after, x) { assert ArtifactOk(db, x); }
      ArtifactStep(db, after);
    }
  }

  /** The artifact of a catalog head is live. */
  lemma LiveAtHead(db: Tables)
    requires TablesOk(db)
    ensures forall r | IsCatalogHead(db, r) :: r in db.artifacts && db.artifacts[r].state == Live
  {
    forall r | IsCatalogHead(db, r) ensures r in db.artifacts && db.artifacts[r].state == Live {
      var f :| f in db.heads && db.heads[f].revision == r;
      assert HeadOk(db, f);
    }
  }

  /** Reviving an identical staged row of a published revision. */
  lemma RevivalKeepsTables(db: Tables, after: Tables, r: RevisionId, now: nat)
    requires TablesOk(db) && StagedAgain(db, r)
    requires after == db.(artifacts := db.artifacts[r := db.artifacts[r].(state := Live, updatedAt := now)])
    ensures TablesOk(after) && Evolves(db, after)
  {
    SameHeadsSameReach(db, after);
    LiveAtHead(db);
    forall x ensures ArtifactOk(after, x) { assert ArtifactOk(db, x); }
    ArtifactStep(db, after);
  }

  lemma PublicationReach(db: Tables, c: Candidate, receipt: Receipt, now: nat)
    requires PublishMatches(db, c, receipt, now) && HeadClockAllows(db, c.filesystem, now)
    ensures forall x | Reachable(Publish(db, c, receipt, now), x) :: Reachable(db, x)
  {
    var after := Publish(db, c, receipt, now);
    forall x | Reachable(after, x) ensures Reachable(db, x) {
      if IsCatalogHead(after, x) {
        var f :| f in after.heads && after.heads[f].revision == x;
        if f == c.filesystem {
          assert IsMutationHead(db, x);
        } else {
          assert f in db.heads;
        }
      } else {
        assert IsMutationHead(db, x);
      }
    }
  }

  lemma PublicationKeepsTables(db: Tables, c: Candidate, receipt: Receipt, now: nat)
    requires TablesOk(db) && PublishMatches(db, c, receipt, now) && HeadClockAllows(db, c.filesystem, now)
    ensures var after := Publish(db, c, receipt, now); TablesOk(after) && Evolves(db, after)
  {
    var after := Publish(db, c, receipt, now);
    PublicationReach(db, c, receipt, now);
    forall x ensures RevisionOk(after, x) { assert RevisionOk(db, x); }
    forall x ensures ArtifactOk(after, x) { assert ArtifactOk(db, x); }
    forall x ensures CollapseOk(after, x) && OutboxOk(after, x) {
      assert CollapseOk(db, x) && OutboxOk(db, x);
      if x in db.collapses { assert RevisionOk(db, db.collapses[x]); }
    }
    forall f ensures MutationHeadOk(after, f) && HeadOk(after, f) {
      assert MutationHeadOk(db, f) && HeadOk(db, f);
    }
  }

  lemma PublishKeepsTables(db: Tables, c: Candidate, receipt: Receipt, now: nat)
    requires TablesOk(db)
    ensures var after := Publish(db, c, receipt, now); TablesOk(after) && Evolves(db, after)
  {
    if PublishMatches(db, c, receipt, now) && HeadClockAllows(db, c.filesystem, now) {
      PublicationKeepsTables(db, c, receipt, now);
    } else if !PublishAborts(db, c, receipt, now) && StagedAgain(db, c.revision) {
      RevivalKeepsTables(db, Publish(db, c, receipt, now), c.revision, now);
    }
  }

  /** Orphaning artifacts of unreachable revisions, from the staged or the live state. */
  lemma OrphanKeepsTables(db: Tables, chosen: set<RevisionId>, from: ArtifactState, now: nat)
    requires TablesOk(db) && from in {Staged, Live}
    requires forall r | r in chosen && r in db.artifacts && db.artifacts[r].state == from :: !Reachable(db, r)
    ensures var after := db.(artifacts := Orphan(db.artifacts, chosen, from, now)); TablesOk(after) && Evolves(db, after)
  {
    var after := db.(artifacts := Orphan(db.artifacts, chosen, from, now));
    SameHeadsSameReach(db, after);
    forall x ensures ArtifactOk(after, x) { assert ArtifactOk(db, x); }
    ArtifactStep(db, after);
  }

  /** So the collapse batch never meets the trigger that protects reachable artifacts. */
  lemma CollapsedIsUnreachable(db: Tables, r: RevisionId)
    requires TablesOk(db) && r in db.collapses
    ensures !Reachable(db, r)
  {
    var newer := db.collapses[r];
    assert CollapseOk(db, r) && RevisionOk(db, newer);
    forall f | f in db.heads ensures db.heads[f].revision != r { assert HeadOk(db, f); }
  }

  lemma WithCollapsesKeepsTables(db: Tables, head: RevisionId, chosen: set<RevisionId>)
    requires TablesOk(db) && chosen <= Collapsible(db, head)
    ensures var after := WithCollapses(db, head, chosen); TablesOk(after) && Evolves(db, after)
  {
    var after := WithCollapses(db, head, chosen);
    SameHeadsSameReach(db, after);
    forall r ensures RevisionOk(after, r) && CollapseOk(after, r) && OutboxOk(after, r) && ArtifactOk(after, r) {
      assert RevisionOk(db, r) && CollapseOk(db, r) && OutboxOk(db, r) && ArtifactOk(db, r);
    }
    forall f ensures MutationHeadOk(after, f) && HeadOk(after, f) {
      assert MutationHeadOk(db, f) && HeadOk(db, f);
    }
  }

  lemma ResolveKeepsTables(db: Tables, head: RevisionId, resolved: set<RevisionId>, now: nat)
    requires TablesOk(db) && resolved <= Unresolved(db, head)
    ensures var after := Resolve(db, resolved, now); TablesOk(after) && Evolves(db, after)
  {
    forall r | r in resolved ensures !Reachable(db, r) { CollapsedIsUnreachable(db, r); }
    OrphanKeepsTables(db, resolved, Staged, now);
    var orphaned := db.(artifacts := Orphan(db.artifacts, resolved, Staged, now));
    OutboxStep(orphaned, Resolve(db, resolved, now));
    SameHeadsSameReach(db, orphaned);
  }

  lemma DeleteKeepsTables(db: Tables, r: RevisionId, key: ObjectKey, state: ArtifactState, cutoff: nat)
    requires TablesOk(db)
    ensures var after := DeleteArtifact(db, r, key, state, cutoff); TablesOk(after) && Evolves(db, after)
  {
    var after := DeleteArtifact(db, r, key, state, cutoff);
    if after != db {
      SameHeadsSameReach(db, after);
      forall x ensures ArtifactOk(after, x) { assert ArtifactOk(db, x); }
      ArtifactStep(db, after);
    }
  }

  // ---------------------------------------------------------------- every system step

  /**
   A table step, possibly moving worker `w` to `p`, keeps the system invariant when it stages no
   version that the bucket lacks.
   */
  lemma TableStepKeeps(s: System, db: Tables, w: nat, p: Worker)
    requires Inv(s) && TablesOk(db) && Evolves(s.db, db)
    requires WorkerOk(s.(db := db), p)
    requires forall r | r in db.artifacts && db.artifacts[r].version.Some? && Reachable(db, r) ::
               || (r in s.db.artifacts && s.db.artifacts[r].key == db.artifacts[r].key
                   && s.db.artifacts[r].version == db.artifacts[r].version)
               || Holds(s, db.artifacts[r].key, db.artifacts[r].version.value)
    ensures Inv(Goto(s, w, p).(db := db))
  {
    var t := Goto(s, w, p).(db := db);
    forall k ensures ObjectOk(t, k) { assert ObjectOk(s, k); }
    forall r ensures StoredOk(t, r) {
      assert StoredOk(s, r) && ArtifactOk(s.db, r);
    }
    forall v ensures WorkerOk(t, WorkerAt(t, v)) {
      assert WorkerOk(s, WorkerAt(s, v));
    }
  }

  /** A step in which only worker `w` moves. */
  lemma MoveKeeps(s: System, w: nat, p: Worker)
    requires Inv(s) && WorkerOk(s, p)
    ensures Inv(Goto(s, w, p))
  {
    var t := Goto(s, w, p);
    forall k ensures ObjectOk(t, k) { assert ObjectOk(s, k); }
    forall r ensures StoredOk(t, r) { assert StoredOk(s, r); }
    forall v ensures WorkerOk(t, WorkerAt(t, v)) { assert WorkerOk(s, WorkerAt(s, v)); }
  }

  lemma ClaimKeeps(s: System, w: nat)
    requires Inv(s) && WorkerAt(s, w).Selected?
    ensures Inv(ExecuteClaiming(s, ClaimStep(w)))
  {
    hide TablesOk;
    var p := WorkerAt(s, w);
    assert WorkerOk(s, p);
    if ClaimMatches(s.db, p.revision, p.now) {
      ClaimKeepsTables(s.db, p.revision, s.nextOwner, p.now);
      OwnerCounterIsFree(s, s.nextOwner + 1);
      TableStepKeeps(s.(nextOwner := s.nextOwner + 1), Claim(s.db, p.revision, s.nextOwner, p.now), w,
                     ClaimedRow(p.revision, s.nextOwner, p.now));
    } else {
      MoveKeeps(s, w, Idle);
    }
  }

  lemma ReleaseUnloadableKeeps(s: System, w: nat, now: nat)
    requires Inv(s) && WorkerAt(s, w).Unloadable?
    ensures Inv(ExecuteClaiming(s, ReleaseUnloadableStep(w, now)))
  {
    hide TablesOk;
    var p := WorkerAt(s, w);
    if HoldsLease(s.db, p.revision, p.owner) {
      var attempts, retry := s.db.outbox[p.revision].attempts, IsMutationHead(s.db, p.revision);
      ReleaseKeepsTables(s.db, p.revision, p.owner, attempts, retry, now);
      TableStepKeeps(s, ReleaseClaim(s.db, p.revision, p.owner, attempts, retry, now), w, Idle);
    } else {
      MoveKeeps(s, w, Idle);
    }
  }

  lemma ClaimingKeeps(s: System, step: Step)
    requires Inv(s)
    ensures Inv(ExecuteClaiming(s, step))
  {
    hide TablesOk;
    match step
    case SelectStep(w, r, now) =>
      if WorkerAt(s, w).Idle? && Claimable(s.db, r, now) { MoveKeeps(s, w, Selected(r, now)); }
    case ClaimStep(w) =>
      if WorkerAt(s, w).Selected? { ClaimKeeps(s, w); }
    case LoadStep(w) =>
      var p := WorkerAt(s, w);
      if p.ClaimedRow? {
        var loaded := LoadCandidate(s.db, p.revision, p.owner, p.now);
        MoveKeeps(s, w, if loaded.Some? then Assembling(loaded.value, p.now) else Unloadable(p.revision, p.owner));
      }
    case ReleaseUnloadableStep(w, now) =>
      if WorkerAt(s, w).Unloadable? { ReleaseUnloadableKeeps(s, w, now); }
    case _ =>
  }

  lemma OwnerCounterIsFree(s: System, next: LeaseOwner)
    requires Inv(s)
    ensures Inv(s.(nextOwner := next))
  {
    var t := s.(nextOwner := next);
    forall k ensures ObjectOk(t, k) { assert ObjectOk(s, k); }
    forall r ensures StoredOk(t, r) { assert StoredOk(s, r); }
    forall v ensures WorkerOk(t, WorkerAt(t, v)) { assert WorkerOk(s, WorkerAt(s, v)); }
  }

  lemma EncodeKeeps(s: System, w: nat, rest: nat, bytes: nat)
    requires Inv(s)
    ensures Inv(ExecuteStaging(s, EncodeStep(w, rest, bytes)))
  {
    var p := WorkerAt(s, w);
    assert WorkerOk(s, p);
    if p.Assembling? {
      MoveKeeps(s, w,
        if bytes == 0 || bytes > MAXIMUM_CATALOG_CHECKPOINT_BYTES then Releasing(p.candidate, true)
        else Encoded(p.candidate, Body(p.candidate.filesystem, p.candidate.revision, rest, bytes), p.now));
    }
  }

  lemma RecordKeeps(s: System, w: nat)
    requires Inv(s)
    ensures Inv(ExecuteStaging(s, RecordStep(w)))
  {
    var p := WorkerAt(s, w);
    assert WorkerOk(s, p);
    if p.Encoded? {
      RecordKeepsTables(s.db, p.candidate.revision, p.body, p.now);
      TableStepKeeps(s, RecordWriting(s.db, p.candidate.revision, p.body, p.now), w, Recording(p.candidate, p.body, p.now));
    }
  }

  /** A create-only put under a fresh key cannot disturb a recorded version. */
  lemma PutKeeps(s: System, w: nat)
    requires Inv(s)
    ensures Inv(ExecuteStaging(s, PutStep(w)))
  {
    var t, p := ExecuteStaging(s, PutStep(w)), WorkerAt(s, w);
    assert WorkerOk(s, p);
    if p.Recorded? && KeyOf(p.body) in s.objects {
      MoveKeeps(s, w, Conflicted(p.candidate, p.body, p.now));
    } else if p.Recorded? {
      forall k ensures ObjectOk(t, k) { assert ObjectOk(s, k); }
      forall r ensures StoredOk(t, r) { assert StoredOk(s, r); }
      forall v ensures WorkerOk(t, WorkerAt(t, v)) { assert WorkerOk(s, WorkerAt(s, v)); }
    }
  }

  lemma StageKeeps(s: System, w: nat)
    requires Inv(s)
    ensures Inv(ExecuteStaging(s, StageStep(w)))
  {
    var p := WorkerAt(s, w);
    assert WorkerOk(s, p);
    if p.Stored? {
      StageKeepsTables(s.db, p.candidate.revision, p.body, p.version, p.now);
      TableStepKeeps(s, MarkStaged(s.db, p.candidate.revision, p.body, p.version, p.now), w,
                     Staging(p.candidate, p.body, p.version));
    }
  }

  /** The checks that follow a statement only decide where the worker goes next. */
  lemma CheckKeeps(s: System, step: Step)
    requires Inv(s)
    requires step.FailStep? || step.ConfirmRecordStep? || step.RereadStep? || step.ConfirmStageStep?
    ensures Inv(ExecuteStaging(s, step))
  {
    hide TablesOk;
    var p := WorkerAt(s, step.w);
    assert WorkerOk(s, p);
    var t := ExecuteStaging(s, step);
    if t != s {
      MoveKeeps(s, step.w, WorkerAt(t, step.w));
      assert t == Goto(s, step.w, WorkerAt(t, step.w));
    }
  }

  lemma StagingKeeps(s: System, step: Step)
    requires Inv(s) && IsStaging(step)
    ensures Inv(ExecuteStaging(s, step))
  {
    match step
    case EncodeStep(w, rest, bytes) => EncodeKeeps(s, w, rest, bytes);
    case RecordStep(w) => RecordKeeps(s, w);
    case PutStep(w) => PutKeeps(s, w);
    case StageStep(w) => StageKeeps(s, w);
    case _ => CheckKeeps(s, step);
  }

  lemma FenceKeeps(s: System, w: nat, now: nat)
    requires Inv(s)
    ensures Inv(ExecutePublishing(s, FenceStep(w, now)))
  {
    var p := WorkerAt(s, w);
    assert WorkerOk(s, p);
    if p.StagedCopy? {
      MoveKeeps(s, w,
        if LoadCandidate(s.db, p.candidate.revision, p.candidate.owner, now).Some?
        then Fenced(p.candidate, p.body, p.version, now) else Superseded(p.candidate, now));
    }
  }

  lemma PublishKeeps(s: System, w: nat)
    requires Inv(s)
    ensures Inv(ExecutePublishing(s, PublishStep(w)))
  {
    var p := WorkerAt(s, w);
    assert WorkerOk(s, p);
    if p.Fenced? {
      var receipt := ReceiptFor(p.body, p.version);
      if PublishAborts(s.db, p.candidate, receipt, p.now) {
        MoveKeeps(s, w, Releasing(p.candidate, true));
      } else {
        PublishKeepsTables(s.db, p.candidate, receipt, p.now);
        TableStepKeeps(s, Publish(s.db, p.candidate, receipt, p.now), w, Confirming(p.candidate, p.now));
      }
    }
  }

  lemma OrphanKeeps(s: System, w: nat)
    requires Inv(s)
    ensures Inv(ExecutePublishing(s, OrphanStep(w)))
  {
    var p := WorkerAt(s, w);
    assert WorkerOk(s, p);
    if p.Superseded? {
      var r := p.candidate.revision;
      if MarkOrphaned(s.db, r, p.now) != s.db {
        OrphanKeepsTables(s.db, {r}, Staged, p.now);
        assert MarkOrphaned(s.db, r, p.now).artifacts == Orphan(s.db.artifacts, {r}, Staged, p.now);
      }
      TableStepKeeps(s, MarkOrphaned(s.db, r, p.now), w, Releasing(p.candidate, false));
    }
  }

  lemma ReleaseKeeps(s: System, w: nat, now: nat)
    requires Inv(s)
    ensures Inv(ExecutePublishing(s, ReleaseStep(w, now)))
  {
    var p := WorkerAt(s, w);
    if p.Releasing? {
      var c := p.candidate;
      ReleaseKeepsTables(s.db, c.revision, c.owner, c.attempts, p.retry, now);
      TableStepKeeps(s, ReleaseClaim(s.db, c.revision, c.owner, c.attempts, p.retry, now), w, Idle);
    }
  }

  lemma PublishingKeeps(s: System, step: Step)
    requires Inv(s) && IsPublishing(step)
    ensures Inv(ExecutePublishing(s, step))
  {
    match step
    case FenceStep(w, now) => FenceKeeps(s, w, now);
    case PublishStep(w) => PublishKeeps(s, w);
    case ConfirmPublishStep(w) =>
      var p := WorkerAt(s, w);
      assert WorkerOk(s, p);
      if p.Confirming? {
        MoveKeeps(s, w, if PublicationConfirmed(s.db, p.candidate) then Idle else Superseded(p.candidate, p.now));
      }
    case OrphanStep(w) => OrphanKeeps(s, w);
    case ReleaseStep(w, now) => ReleaseKeeps(s, w, now);
  }

  /** Deleting the object of an unreachable revision leaves every reachable receipt intact. */
  lemma DeleteObjectKeeps(s: System, w: nat)
    requires Inv(s) && WorkerAt(s, w).CleanupSelected?
    ensures Inv(ExecuteMaintenance(s, DeleteObjectStep(w)))
  {
    var t, p := ExecuteMaintenance(s, DeleteObjectStep(w)), WorkerAt(s, w);
    assert WorkerOk(s, p);
    forall k ensures ObjectOk(t, k) { assert ObjectOk(s, k); }
    forall r ensures StoredOk(t, r) { assert StoredOk(s, r) && ArtifactOk(s.db, r); }
    forall v ensures WorkerOk(t, WorkerAt(t, v)) { assert WorkerOk(s, WorkerAt(s, v)); }
  }

  lemma CollapseKeeps(s: System, w: nat, chosen: set<RevisionId>, resolved: set<RevisionId>, now: nat)
    requires Inv(s) && WorkerAt(s, w).Collapsing?
    requires chosen <= Collapsible(s.db, WorkerAt(s, w).head)
    requires resolved <= Unresolved(WithCollapses(s.db, WorkerAt(s, w).head, chosen), WorkerAt(s, w).head)
    ensures Inv(Goto(s, w, Idle).(db := Resolve(WithCollapses(s.db, WorkerAt(s, w).head, chosen), resolved, now)))
  {
    var head := WorkerAt(s, w).head;
    WithCollapsesKeepsTables(s.db, head, chosen);
    var collapsed := WithCollapses(s.db, head, chosen);
    ResolveKeepsTables(collapsed, head, resolved, now);
    SameHeadsSameReach(s.db, collapsed);
    TableStepKeeps(s, Resolve(collapsed, resolved, now), w, Idle);
  }

  lemma CleanupKeeps(s: System, w: nat)
    requires Inv(s) && WorkerAt(s, w).CleanupDeleted?
    ensures Inv(ExecuteMaintenance(s, DeleteRowStep(w)))
  {
    var p := WorkerAt(s, w);
    DeleteKeepsTables(s.db, p.revision, p.key, p.state, p.cutoff);
    TableStepKeeps(s, DeleteArtifact(s.db, p.revision, p.key, p.state, p.cutoff), w, Idle);
  }

  lemma SelectCleanupKeeps(s: System, w: nat, r: RevisionId, now: nat)
    requires Inv(s) && Cleanable(s.db, r, Cutoff(now))
    ensures Inv(Goto(s, w, CleanupSelected(r, s.db.artifacts[r].key, s.db.artifacts[r].state, Cutoff(now))))
  {
    assert ArtifactOk(s.db, r);
    MoveKeeps(s, w, CleanupSelected(r, s.db.artifacts[r].key, s.db.artifacts[r].state, Cutoff(now)));
  }

  lemma MaintenanceKeeps(s: System, step: Step)
    requires Inv(s)
    ensures Inv(ExecuteMaintenance(s, step))
  {
    match step
    case SelectHeadStep(w, head) =>
      if WorkerAt(s, w).Idle? && IsCatalogHead(s.db, head) { MoveKeeps(s, w, Collapsing(head)); }
    case CollapseStep(w, chosen, resolved, now) =>
      var p := WorkerAt(s, w);
      if ExecuteMaintenance(s, step) != s { CollapseKeeps(s, w, chosen, resolved, now); }
    case RetireStep(chosen, now) =>
      if chosen <= Retirable(s.db) && |chosen| <= MAXIMUM_ARTIFACT_RETIREMENTS_PER_RUN {
        OrphanKeepsTables(s.db, chosen, Live, now);
        TableOnlyKeeps(s, Retire(s.db, chosen, now));
      }
    case SelectCleanupStep(w, r, now) =>
      if WorkerAt(s, w).Idle? && Cleanable(s.db, r, Cutoff(now)) {
        SelectCleanupKeeps(s, w, r, now);
      }
    case DeleteObjectStep(w) =>
      if WorkerAt(s, w).CleanupSelected? { DeleteObjectKeeps(s, w); }
    case DeleteRowStep(w) =>
      if WorkerAt(s, w).CleanupDeleted? { CleanupKeeps(s, w); }
    case _ =>
  }

  /** A table step by no particular worker. */
  lemma TableOnlyKeeps(s: System, db: Tables)
    requires Inv(s) && TablesOk(db) && Evolves(s.db, db)
    requires forall r | r in db.artifacts && db.artifacts[r].version.Some? && Reachable(db, r) ::
               r in s.db.artifacts && s.db.artifacts[r].key == db.artifacts[r].key
               && s.db.artifacts[r].version == db.artifacts[r].version
    ensures Inv(s.(db := db))
  {
    var t := s.(db := db);
    forall k ensures ObjectOk(t, k) { assert ObjectOk(s, k); }
    forall r ensures StoredOk(t, r) { assert StoredOk(s, r) && ArtifactOk(s.db, r); }
    forall v ensures WorkerOk(t, WorkerAt(t, v)) { assert WorkerOk(s, WorkerAt(s, v)); }
  }

  /** Delta objects live under keys no checkpoint uses. */
  lemma DeltaKeeps(s: System, objects: map<ObjectKey, StoredObject>, next: nat)
    requires Inv(s)
    requires forall k: ObjectKey | k.CheckpointKey? :: (k in objects <==> k in s.objects) && (k in objects ==> objects[k] == s.objects[k])
    ensures Inv(s.(objects := objects, nextVersion := next))
  {
    var t := s.(objects := objects, nextVersion := next);
    forall k ensures ObjectOk(t, k) { assert ObjectOk(s, k); }
    forall r ensures StoredOk(t, r) { assert StoredOk(s, r) && ArtifactOk(s.db, r); }
    forall v ensures WorkerOk(t, WorkerAt(t, v)) { assert WorkerOk(s, WorkerAt(s, v)); }
  }

  lemma OutsideKeeps(s: System, step: Step)
    requires Inv(s)
    ensures Inv(ExecuteOutside(s, step))
  {
    match step
    case MutateStep(f, root, now) =>
      MutateKeepsTables(s.db, f, root, now);
      TableOnlyKeeps(s, Mutate(s.db, f, root, now));
    case CrashStep(w) => MoveKeeps(s, w, Idle);
    case DeltaPutStep(name, body) =>
      DeltaKeeps(s, s.objects[DeltaKey(name) := StoredObject(body, s.nextVersion)], s.nextVersion + 1);
    case DeltaDeleteStep(name) => DeltaKeeps(s, s.objects - {DeltaKey(name)}, s.nextVersion);
    case _ =>
  }

  /** Every atomic step, by anyone, keeps the invariant. */
  lemma ExecuteKeeps(s: System, step: Step)
    requires Inv(s)
    ensures Inv(Execute(s, step))
  {
    if IsOutside(step) {
      OutsideKeeps(s, step);
    } else if IsClaiming(step) {
      ClaimingKeeps(s, step);
    } else if IsStaging(step) {
      StagingKeeps(s, step);
    } else if IsPublishing(step) {
      PublishingKeeps(s, step);
    } else {
      MaintenanceKeeps(s, step);
    }
  }

  lemma {:induction false} RunKeeps(s: System, steps: seq<Step>)
    requires Inv(s)
    ensures Inv(Run(s, steps))
    decreases |steps|
  {
    if steps != [] {
      RunKeeps(s, steps[..|steps| - 1]);
      ExecuteKeeps(Run(s, steps[..|steps| - 1]), steps[|steps| - 1]);
    }
  }
}
