/**
 The D1 tables behind catalog materialization, and every statement or batch that
 `vfs_catalog_materialization.rs` issues against them, as a function from table
 contents to table contents. One function is one atomic D1 step.

 A SHA-256 digest is represented by the bytes it digests, which makes it injective.
 A checkpoint serializes its filesystem and revision identity, so those two are
 fields of the encoded bytes; everything else it serializes is `rest`.
 */
module CatalogTables {
  import opened Options

  type FilesystemId = nat
  type RevisionId = nat
  type LeaseOwner = nat
  type DataRoot = nat

  const CLAIM_SECONDS := 300
  const ORPHAN_GRACE_SECONDS := 86_400
  const MAXIMUM_COLLAPSES_PER_RUN := 500
  const MAXIMUM_ARTIFACT_RETIREMENTS_PER_RUN := 100
  const MAXIMUM_CATALOG_CHECKPOINT_BYTES := 33_554_432

  datatype Body = Body(filesystem: FilesystemId, revision: RevisionId, rest: nat, bytes: nat)
  type Sha256 = Body

  datatype ObjectKey =
    | CheckpointKey(filesystem: FilesystemId, sha256: Sha256)
    | DeltaKey(name: nat)

  /** Everything a publication records about one immutable R2 object. */
  datatype Receipt = Receipt(key: ObjectKey, sha256: Sha256, version: nat, bytes: nat)

  datatype RevisionState = Pending | Materialized | Published
  datatype Revision =
    Revision(filesystem: FilesystemId, root: DataRoot, state: RevisionState, checkpoint: Option<Receipt>)

  datatype OutboxState = Waiting | Claimed | Done
  datatype Outbox = Outbox(
    state: OutboxState, owner: Option<LeaseOwner>, leaseExpiresAt: nat,
    retryAt: Option<nat>, attempts: nat, updatedAt: nat)

  datatype ArtifactState = Writing | Staged | Live | Orphaned
  datatype Artifact = Artifact(
    key: ObjectKey, sha256: Sha256, bytes: nat, version: Option<nat>,
    state: ArtifactState, updatedAt: nat)

  datatype MutationHead = MutationHead(revision: RevisionId, updates: nat, updatedAt: nat)
  datatype Head = Head(revision: RevisionId, root: DataRoot, updates: nat, updatedAt: nat)

  datatype Tables = Tables(
    nextRevision: RevisionId,
    liveRoots: map<FilesystemId, DataRoot>,
    revisions: map<RevisionId, Revision>,
    mutationHeads: map<FilesystemId, MutationHead>,
    outbox: map<RevisionId, Outbox>,
    artifacts: map<RevisionId, Artifact>,
    collapses: map<RevisionId, RevisionId>,
    heads: map<FilesystemId, Head>)

  /** What `claim_latest` hands to `materialize`. */
  datatype Candidate = Candidate(
    revision: RevisionId, filesystem: FilesystemId, root: DataRoot, owner: LeaseOwner, attempts: nat)

  const EMPTY := Tables(0, map[], map[], map[], map[], map[], map[], map[])

  function KeyOf(body: Body): ObjectKey {
    CheckpointKey(body.filesystem, body)
  }

  // ---------------------------------------------------------------- predicates of the SQL guards

  predicate IsMutationHead(db: Tables, r: RevisionId) {
    r in db.revisions &&
    var f := db.revisions[r].filesystem;
    f in db.mutationHeads && db.mutationHeads[f].revision == r
  }

  predicate IsCatalogHead(db: Tables, r: RevisionId) {
    exists f | f in db.heads :: db.heads[f].revision == r
  }

  /** The rows no artifact may be orphaned under (trigger `require_unreachable_vfs_catalog_orphan`). */
  predicate Reachable(db: Tables, r: RevisionId) {
    IsCatalogHead(db, r) || IsMutationHead(db, r)
  }

  predicate Due(o: Outbox, now: nat) {
    || (o.state == Waiting && (o.retryAt == None || o.retryAt.value <= now))
    || (o.state == Claimed && o.leaseExpiresAt <= now)
  }

  predicate Claimable(db: Tables, r: RevisionId, now: nat) {
    && r in db.outbox && IsMutationHead(db, r) && db.revisions[r].state == Pending
    && r !in db.collapses && Due(db.outbox[r], now)
  }

  predicate HoldsLease(db: Tables, r: RevisionId, owner: LeaseOwner) {
    r in db.outbox && db.outbox[r].state == Claimed && db.outbox[r].owner == Some(owner)
  }

  predicate ArtifactMatches(db: Tables, r: RevisionId, receipt: Receipt, state: ArtifactState) {
    && r in db.artifacts && db.artifacts[r].state == state
    && db.artifacts[r].key == receipt.key && db.artifacts[r].sha256 == receipt.sha256
    && db.artifacts[r].bytes == receipt.bytes && db.artifacts[r].version == Some(receipt.version)
  }

  // ---------------------------------------------------------------- namespace mutations

  /** `catalog_statements`: a fresh pending revision, its outbox row and the moved mutation head. */
  function Mutate(db: Tables, f: FilesystemId, root: DataRoot, now: nat): Tables {
    if f in db.mutationHeads && db.mutationHeads[f].updatedAt > now then db
    else
      var r := db.nextRevision;
      var updates := if f in db.mutationHeads then db.mutationHeads[f].updates + 1 else 1;
      db.(nextRevision := r + 1,
          liveRoots := db.liveRoots[f := root],
          revisions := db.revisions[r := Revision(f, root, Pending, None)],
          outbox := db.outbox[r := Outbox(Waiting, None, 0, None, 0, now)],
          mutationHeads := db.mutationHeads[f := MutationHead(r, updates, now)])
  }

  // ---------------------------------------------------------------- claiming

  predicate ClaimMatches(db: Tables, r: RevisionId, now: nat) {
    r in db.outbox && Due(db.outbox[r], now) && IsMutationHead(db, r) && db.revisions[r].state == Pending
  }

  function Claim(db: Tables, r: RevisionId, owner: LeaseOwner, now: nat): Tables {
    if !ClaimMatches(db, r, now) then db
    else
      var o := db.outbox[r];
      db.(outbox := db.outbox[r := Outbox(Claimed, Some(owner), now + CLAIM_SECONDS, None, o.attempts + 1, now)])
  }

  function LoadCandidate(db: Tables, r: RevisionId, owner: LeaseOwner, now: nat): Option<Candidate> {
    if IsMutationHead(db, r) && HoldsLease(db, r, owner) && db.outbox[r].leaseExpiresAt > now
       && db.revisions[r].state == Pending && db.revisions[r].filesystem in db.liveRoots
       && db.liveRoots[db.revisions[r].filesystem] == db.revisions[r].root
    then
      Some(Candidate(r, db.revisions[r].filesystem, db.revisions[r].root, owner, db.outbox[r].attempts))
    else None
  }

  function Doubled(base: nat, exponent: nat): (r: nat)
    ensures r >= base
  {
    if exponent == 0 then base else 2 * Doubled(base, exponent - 1)
  }

  function RetryDelay(attempt: nat, r: RevisionId): (delay: nat)
    ensures 60 <= delay <= 6 * 60 * 60 + 60
  {
    var exponent := if attempt == 0 then 0 else if attempt - 1 > 8 then 8 else attempt - 1;
    var doubled := Doubled(60, exponent);
    (if doubled < 6 * 60 * 60 then doubled else 6 * 60 * 60) + r % 61
  }

  function ReleaseClaim(db: Tables, r: RevisionId, owner: LeaseOwner, attempts: nat, retry: bool, now: nat): Tables {
    if !HoldsLease(db, r, owner) then db
    else
      var retryAt := if retry then Some(now + RetryDelay(attempts, r)) else None;
      db.(outbox := db.outbox[r := Outbox(Waiting, None, 0, retryAt, db.outbox[r].attempts, now)])
  }

  // ---------------------------------------------------------------- staging one artifact

  /** `INSERT ... ON CONFLICT(revision_id) DO NOTHING`; a key held by another revision fails the statement. */
  function RecordWriting(db: Tables, r: RevisionId, body: Body, now: nat): Tables {
    if r in db.artifacts || r !in db.revisions
       || (exists other | other in db.artifacts :: db.artifacts[other].key == KeyOf(body))
    then db
    else db.(artifacts := db.artifacts[r := Artifact(KeyOf(body), body, body.bytes, None, Writing, now)])
  }

  predicate WritingConfirmed(db: Tables, r: RevisionId, body: Body) {
    && r in db.artifacts && db.artifacts[r].key == KeyOf(body) && db.artifacts[r].sha256 == body
    && db.artifacts[r].bytes == body.bytes && db.artifacts[r].state in {Writing, Staged}
  }

  function MarkStaged(db: Tables, r: RevisionId, body: Body, version: nat, now: nat): Tables {
    if r in db.artifacts && db.artifacts[r].key == KeyOf(body) && db.artifacts[r].sha256 == body
       && db.artifacts[r].bytes == body.bytes && db.artifacts[r].state == Writing
    then db.(artifacts := db.artifacts[r :=
           db.artifacts[r].(state := Staged, version := Some(version), updatedAt := now)])
    else db
  }

  // ---------------------------------------------------------------- publication

  function ReceiptFor(body: Body, version: nat): Receipt {
    Receipt(KeyOf(body), body, version, body.bytes)
  }

  predicate PublishMatches(db: Tables, c: Candidate, receipt: Receipt, now: nat) {
    && c.revision in db.revisions
    && db.revisions[c.revision].filesystem == c.filesystem && db.revisions[c.revision].root == c.root
    && db.revisions[c.revision].state == Pending
    && c.filesystem in db.mutationHeads && db.mutationHeads[c.filesystem].revision == c.revision
    && HoldsLease(db, c.revision, c.owner) && db.outbox[c.revision].leaseExpiresAt > now
    && ArtifactMatches(db, c.revision, receipt, Staged)
  }

  /** A head may not go back in time (trigger `require_monotonic_published_vfs_catalog_head_update`). */
  predicate HeadClockAllows(db: Tables, f: FilesystemId, now: nat) {
    f in db.heads ==> db.heads[f].updatedAt <= now
  }

  /** A staged copy of a revision that some other worker already published. */
  predicate StagedAgain(db: Tables, r: RevisionId) {
    r in db.artifacts && db.artifacts[r].state == Staged && r in db.revisions && db.revisions[r].state == Published
  }

  predicate MatchesRevision(db: Tables, r: RevisionId)
    requires r in db.artifacts && r in db.revisions
  {
    && db.revisions[r].checkpoint.Some?
    && ArtifactMatches(db, r, db.revisions[r].checkpoint.value, db.artifacts[r].state)
  }

  /**
   When a trigger aborts the batch: the head would go back in time, or would be set to itself again,
   or an already published revision has been staged again as another object.
   */
  predicate PublishAborts(db: Tables, c: Candidate, receipt: Receipt, now: nat) {
    if PublishMatches(db, c, receipt, now) then !HeadClockAllows(db, c.filesystem, now)
    else
      || (IsMutationHead(db, c.revision) && db.revisions[c.revision].state == Published)
      || (StagedAgain(db, c.revision) && !MatchesRevision(db, c.revision))
  }

  /** The publication batch as one step: it publishes everything, or at most revives an identical staged row. */
  function Publish(db: Tables, c: Candidate, receipt: Receipt, now: nat): Tables {
    var r := c.revision;
    if PublishAborts(db, c, receipt, now) then db
    else if PublishMatches(db, c, receipt, now) then
      var updates := if c.filesystem in db.heads then db.heads[c.filesystem].updates + 1 else 1;
      db.(revisions := db.revisions[r := Revision(c.filesystem, c.root, Published, Some(receipt))],
          artifacts := db.artifacts[r := db.artifacts[r].(state := Live, updatedAt := now)],
          heads := db.heads[c.filesystem := Head(r, c.root, updates, now)],
          outbox := db.outbox[r := Outbox(Done, None, 0, None, db.outbox[r].attempts, now)])
    else if StagedAgain(db, r) then
      db.(artifacts := db.artifacts[r := db.artifacts[r].(state := Live, updatedAt := now)])
    else db
  }

  predicate PublicationConfirmed(db: Tables, c: Candidate) {
    && c.filesystem in db.heads && db.heads[c.filesystem].revision == c.revision
    && c.revision in db.revisions && db.revisions[c.revision].state == Published
    && c.revision in db.outbox && db.outbox[c.revision].state == Done
    && c.revision in db.artifacts && db.artifacts[c.revision].state == Live
  }

  // ---------------------------------------------------------------- retirement

  function MarkOrphaned(db: Tables, r: RevisionId, now: nat): Tables {
    if r in db.artifacts && db.artifacts[r].state == Staged && !Reachable(db, r)
    then db.(artifacts := db.artifacts[r := db.artifacts[r].(state := Orphaned, updatedAt := now)])
    else db
  }

  function Retirable(db: Tables): set<RevisionId> {
    set r | r in db.artifacts && db.artifacts[r].state == Live && !Reachable(db, r)
  }

  function Orphan(artifacts: map<RevisionId, Artifact>, chosen: set<RevisionId>, from: ArtifactState, now: nat)
    : map<RevisionId, Artifact>
  {
    map r | r in artifacts ::
      if r in chosen && artifacts[r].state == from
      then artifacts[r].(state := Orphaned, updatedAt := now) else artifacts[r]
  }

  function Retire(db: Tables, chosen: set<RevisionId>, now: nat): Tables {
    db.(artifacts := Orphan(db.artifacts, chosen, Live, now))
  }

  /** `chosen` is what `ORDER BY id LIMIT n` returns from `ids`. */
  ghost predicate IsFirst(chosen: set<RevisionId>, ids: set<RevisionId>, n: nat) {
    && chosen <= ids && |chosen| <= n && (|chosen| < n ==> chosen == ids)
    && forall x, y | x in chosen && y in ids && y < x :: y in chosen
  }

  function Collapsible(db: Tables, head: RevisionId): set<RevisionId> {
    if head in db.revisions && db.revisions[head].state == Published then
      set r | r in db.revisions && db.revisions[r].filesystem == db.revisions[head].filesystem
              && r < head && db.revisions[r].state == Pending && r !in db.collapses
    else {}
  }

  function WithCollapses(db: Tables, head: RevisionId, chosen: set<RevisionId>): Tables {
    db.(collapses := map r | r in db.collapses.Keys + chosen :: if r in db.collapses then db.collapses[r] else head)
  }

  function Unresolved(db: Tables, head: RevisionId): set<RevisionId> {
    set r | r in db.collapses && db.collapses[r] == head && r in db.outbox && db.outbox[r].state != Done
  }

  function Resolve(db: Tables, chosen: set<RevisionId>, now: nat): Tables {
    db.(artifacts := Orphan(db.artifacts, chosen, Staged, now),
        outbox := map r | r in db.outbox ::
          if r in chosen && db.outbox[r].state != Done
          then Outbox(Done, None, 0, None, db.outbox[r].attempts, now) else db.outbox[r])
  }

  // ---------------------------------------------------------------- garbage collection

  predicate Cleanable(db: Tables, r: RevisionId, cutoff: nat) {
    && r in db.artifacts && db.artifacts[r].updatedAt <= cutoff && !IsCatalogHead(db, r)
    && (db.artifacts[r].state == Orphaned || (db.artifacts[r].state == Writing && !IsMutationHead(db, r)))
  }

  function Cutoff(now: nat): nat {
    if now < ORPHAN_GRACE_SECONDS then 0 else now - ORPHAN_GRACE_SECONDS
  }

  function DeleteArtifact(db: Tables, r: RevisionId, key: ObjectKey, state: ArtifactState, cutoff: nat): Tables {
    if r in db.artifacts && db.artifacts[r].key == key && db.artifacts[r].state == state
       && db.artifacts[r].updatedAt <= cutoff && !IsCatalogHead(db, r)
    then db.(artifacts := db.artifacts - {r})
    else db
  }
}
