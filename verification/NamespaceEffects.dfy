/**
 What a batch does to the links and subjects of the tree, and how far the revision of an entry tells
 that nothing happened to its subject since.
 */
module NamespaceEffects {
  import opened Options
  import opened NamespaceTables
  import opened NamespaceProtocol
  import opened NamespaceInvariant
  import opened NamespaceMounts
  import opened NamespaceSafety

  // ---------------------------------------------------------------- one batch, as links that come and go

  /** A file or directory that the tree has a row for, and whether it is active. */
  predicate IsKnown(ns: Namespace, x: Subject) {
    match x
    case FileSubject(f) => f in ns.files
    case DirectorySubject(d) => d in ns.directories
  }

  predicate IsLive(ns: Namespace, x: Subject) {
    match x
    case FileSubject(f) => f in ns.files && ns.files[f].active
    case DirectorySubject(d) => d in ns.directories && ns.directories[d].active
  }

  predicate IsAt(p: DirectoryId, n: string, q: DirectoryId, m: string) {
    p == q && n == m
  }

  /** The entry that a batch makes. A put over an entry makes none. */
  predicate Makes(request: Request, p: DirectoryId, n: string, x: Subject) {
    match request
    case Mkdir(parent, name, child) => IsAt(p, n, parent, name) && x == DirectorySubject(child)
    case Rename(_, _, destination, newName, subject, _) => IsAt(p, n, destination, newName) && x == subject
    case PutNew(d, name, f, _) => IsAt(p, n, d, name) && x == FileSubject(f)
    case _ => false
  }

  predicate LinkedAfter(ns: Namespace, request: Request, p: DirectoryId, n: string, x: Subject) {
    || Makes(request, p, n, x)
    || (LinkTo(ns, p, n, x) && !(Deletes(request) && IsAt(p, n, Start(request), request.name)))
  }

  lemma MkdirLinks(ns: Namespace, parent: DirectoryId, name: string, child: DirectoryId, p: DirectoryId, n: string, x: Subject)
    requires MkdirCommits(ns, parent, name, child) && child !in ns.entries
    ensures LinkTo(ApplyMkdir(ns, parent, name, child), p, n, x) <==>
              (IsAt(p, n, parent, name) && x == DirectorySubject(child)) || LinkTo(ns, p, n, x)
  {
    hide NameFree;
  }

  lemma RemoveLinks(ns: Namespace, d: DirectoryId, name: string, subject: Subject, p: DirectoryId, n: string, x: Subject)
    requires d in ns.entries
    ensures LinkTo(ApplyRemove(ns, d, name, subject), p, n, x) <==> LinkTo(ns, p, n, x) && !IsAt(p, n, d, name)
  {
    var cut := ns.(entries := ns.entries[d := ns.entries[d] - {name}]);
    assert LinkTo(cut, p, n, x) <==> LinkTo(ns, p, n, x) && !IsAt(p, n, d, name);
    assert Tombstone(cut, subject).entries == cut.entries;
  }

  lemma RenameLinks(
    ns: Namespace, source: DirectoryId, name: string, destination: DirectoryId, newName: string,
    subject: Subject, revision: nat, p: DirectoryId, n: string, x: Subject)
    requires source in ns.entries && destination in ns.entries && newName !in ns.entries[destination]
    ensures LinkTo(ApplyRename(ns, source, name, destination, newName, subject, revision), p, n, x) <==>
              || (IsAt(p, n, destination, newName) && x == subject)
              || (LinkTo(ns, p, n, x) && !IsAt(p, n, source, name))
  {
    var t := ApplyRename(ns, source, name, destination, newName, subject, revision);
    var deleted := ns.entries[source := ns.entries[source] - {name}];
    assert t.entries == deleted[destination := deleted[destination][newName := Entry(subject, revision + 1)]];
    assert p in deleted && n in deleted[p] <==> p in ns.entries && n in ns.entries[p] && !IsAt(p, n, source, name);
  }

  lemma PutLinks(ns: Namespace, d: DirectoryId, name: string, f: FileId, p: DirectoryId, n: string, x: Subject)
    requires IsActive(ns, d) && d in ns.drivers
    ensures name !in ns.entries[d] ==>
              (LinkTo(ApplyPutNew(ns, d, name, f), p, n, x) <==>
                 (IsAt(p, n, d, name) && x == FileSubject(f)) || LinkTo(ns, p, n, x))
    ensures name in ns.entries[d] && ns.entries[d][name].subject == FileSubject(f) ==>
              (LinkTo(ApplyPutOver(ns, d, name, f), p, n, x) <==> LinkTo(ns, p, n, x))
  {
  }

  lemma AppliedLinks(ns: Namespace, request: Request, plan: Plan, p: DirectoryId, n: string, x: Subject)
    requires ns.entries.Keys == ns.directories.Keys && Commits(ns, request, plan)
    ensures LinkTo(Applied(ns, request, plan), p, n, x) <==> LinkedAfter(ns, request, p, n, x)
  {
    hide IsChain, AtOrAbove, IsFree, NameFree, FenceHolds, SameDriver, LinkTo;
    hide ApplyMkdir, ApplyRemove, ApplyRename, ApplyPutNew, ApplyPutOver;
    match request
    case Mkdir(parent, name, child) => MkdirLinks(ns, parent, name, child, p, n, x);
    case Remove(d, name, subject, revision) => RemoveLinks(ns, d, name, subject, p, n, x);
    case Rename(source, name, destination, newName, subject, revision) =>
      RenameLinks(ns, source, name, destination, newName, subject, revision, p, n, x);
    case PutNew(d, name, f, driver) => PutLinks(ns, d, name, f, p, n, x);
    case PutOver(d, name, f, driver, revision) => PutLinks(ns, d, name, f, p, n, x);
  }

  /** A batch that commits deletes the entry of a removal or rename, makes at most one, and touches no other link. */
  lemma CommitLinks(ns: Namespace, request: Request, plan: Plan, p: DirectoryId, n: string, x: Subject)
    requires Rooted(ns) && Commits(ns, request, plan)
    ensures LinkTo(Commit(ns, request, plan), p, n, x) <==> LinkedAfter(ns, request, p, n, x)
  {
    hide Commits, Applied, Bump, LinkedAfter, Rooted;
    var t := Applied(ns, request, plan);
    KeysOfRooted(ns);
    AppliedLinks(ns, request, plan, p, n, x);
    BumpHasShape(t, plan);
    assert SameLink(t, Bump(t, plan), p, n);
  }

  predicate LiveAfter(ns: Namespace, request: Request, x: Subject) {
    || (request.Mkdir? && x == DirectorySubject(request.child))
    || (request.PutNew? && x == FileSubject(request.file))
    || (IsLive(ns, x) && !(request.Remove? && x == request.subject))
  }

  lemma RemoveLives(ns: Namespace, d: DirectoryId, name: string, subject: Subject, x: Subject)
    requires d in ns.entries
    ensures IsLive(ApplyRemove(ns, d, name, subject), x) <==> IsLive(ns, x) && x != subject
    ensures IsKnown(ns, x) ==> IsKnown(ApplyRemove(ns, d, name, subject), x)
  {
  }

  lemma RenameLives(
    ns: Namespace, source: DirectoryId, name: string, destination: DirectoryId, newName: string,
    subject: Subject, revision: nat, x: Subject)
    requires source in ns.entries && destination in ns.entries
    ensures IsLive(ApplyRename(ns, source, name, destination, newName, subject, revision), x) <==> IsLive(ns, x)
    ensures IsKnown(ns, x) ==> IsKnown(ApplyRename(ns, source, name, destination, newName, subject, revision), x)
  {
  }

  lemma AppliedLives(ns: Namespace, request: Request, plan: Plan, x: Subject)
    requires Commits(ns, request, plan)
    ensures IsLive(Applied(ns, request, plan), x) <==> LiveAfter(ns, request, x)
    ensures IsKnown(ns, x) ==> IsKnown(Applied(ns, request, plan), x)
    ensures request.Mkdir? ==> !IsKnown(ns, DirectorySubject(request.child))
    ensures request.PutNew? ==> !IsKnown(ns, FileSubject(request.file))
  {
    hide IsChain, AtOrAbove, IsFree, NameFree, FenceHolds, SameDriver, ApplyRemove, ApplyRename;
    match request
    case Mkdir(parent, name, child) =>
    case Remove(d, name, subject, revision) => RemoveLives(ns, d, name, subject, x);
    case Rename(source, name, destination, newName, subject, revision) =>
      RenameLives(ns, source, name, destination, newName, subject, revision, x);
    case PutNew(d, name, f, driver) =>
    case PutOver(d, name, f, driver, revision) =>
  }

  /** Mkdir and a new put bring a subject to life that never was, a removal retires its own, and no other lives or dies. */
  lemma CommitLives(ns: Namespace, request: Request, plan: Plan, x: Subject)
    requires Commits(ns, request, plan)
    ensures IsLive(Commit(ns, request, plan), x) <==> LiveAfter(ns, request, x)
    ensures IsKnown(ns, x) ==> IsKnown(Commit(ns, request, plan), x)
    ensures request.Mkdir? ==> !IsKnown(ns, DirectorySubject(request.child))
    ensures request.PutNew? ==> !IsKnown(ns, FileSubject(request.file))
  {
    hide Commits, Applied, LiveAfter;
    AppliedLives(ns, request, plan, x);
  }

  // ---------------------------------------------------------------- one batch, as revisions of entries

  /** The revision that a batch leaves on an entry, before the bump. */
  function RevisionAfter(ns: Namespace, request: Request, p: DirectoryId, n: string): nat {
    if request.Rename? && IsAt(p, n, request.destination, request.newName) then request.revision + 1
    else if request.PutOver? && IsAt(p, n, request.directory, request.name) then request.revision + 1
    else if p in ns.entries && n in ns.entries[p] then ns.entries[p][n].revision
    else 1
  }

  lemma RemoveRevisions(ns: Namespace, d: DirectoryId, name: string, subject: Subject, p: DirectoryId, n: string)
    requires d in ns.entries
    ensures var t := ApplyRemove(ns, d, name, subject);
            p in t.entries && n in t.entries[p] ==>
              p in ns.entries && n in ns.entries[p] && t.entries[p][n] == ns.entries[p][n]
  {
    var cut := ns.(entries := ns.entries[d := ns.entries[d] - {name}]);
    assert Tombstone(cut, subject).entries == cut.entries;
  }

  lemma RenameRevisions(
    ns: Namespace, source: DirectoryId, name: string, destination: DirectoryId, newName: string,
    subject: Subject, revision: nat, p: DirectoryId, n: string)
    requires source in ns.entries && destination in ns.entries
    ensures var t := ApplyRename(ns, source, name, destination, newName, subject, revision);
            p in t.entries && n in t.entries[p] ==>
              if IsAt(p, n, destination, newName) then t.entries[p][n].revision == revision + 1
              else p in ns.entries && n in ns.entries[p] && t.entries[p][n] == ns.entries[p][n]
  {
    var t := ApplyRename(ns, source, name, destination, newName, subject, revision);
    var deleted := ns.entries[source := ns.entries[source] - {name}];
    assert t.entries == deleted[destination := deleted[destination][newName := Entry(subject, revision + 1)]];
  }

  lemma AppliedRevisions(ns: Namespace, request: Request, plan: Plan, p: DirectoryId, n: string, x: Subject)
    requires ns.entries.Keys == ns.directories.Keys && Commits(ns, request, plan)
    requires LinkTo(Applied(ns, request, plan), p, n, x)
    ensures Applied(ns, request, plan).entries[p][n].revision == RevisionAfter(ns, request, p, n)
  {
    hide IsChain, AtOrAbove, IsFree, NameFree, FenceHolds, SameDriver, ApplyRemove, ApplyRename;
    match request
    case Mkdir(parent, name, child) =>
    case Remove(d, name, subject, revision) => RemoveRevisions(ns, d, name, subject, p, n);
    case Rename(source, name, destination, newName, subject, revision) =>
      RenameRevisions(ns, source, name, destination, newName, subject, revision, p, n);
    case PutNew(d, name, f, driver) =>
    case PutOver(d, name, f, driver, revision) =>
  }

  /** The entry of a committed rename or put over has a revision above the one that its handler loaded; others stay or grow. */
  lemma CommitRevisions(ns: Namespace, request: Request, plan: Plan, p: DirectoryId, n: string, x: Subject)
    requires Rooted(ns) && Commits(ns, request, plan) && LinkTo(Commit(ns, request, plan), p, n, x)
    ensures Commit(ns, request, plan).entries[p][n].revision >= RevisionAfter(ns, request, p, n)
    ensures x.FileSubject? ==> Commit(ns, request, plan).entries[p][n].revision == RevisionAfter(ns, request, p, n)
  {
    hide Commits, Applied, RevisionAfter, Rooted;
    var t := Applied(ns, request, plan);
    KeysOfRooted(ns);
    assert LinkTo(t, p, n, x);
    AppliedRevisions(ns, request, plan, p, n, x);
  }

  /** A planned directory's link was there before the batch, as the plan shows it. */
  lemma PlannedLinkWasThere(ns: Namespace, request: Request, plan: Plan, p: DirectoryId, n: string, c: DirectoryId)
    requires DirectoriesOk(ns) && Rooted(ns) && PlanOk(ns, plan) && Commits(ns, request, plan)
    requires LinkedAfter(ns, request, p, n, DirectorySubject(c)) && c in plan
    ensures LinkTo(ns, p, n, DirectorySubject(c)) && !Makes(request, p, n, DirectorySubject(c))
    ensures ns.directories[c].parent == Some(p) && ns.directories[c].name == n
    ensures plan[c] == Row(ns.directories[c], ns.entries[c])
  {
    hide DirectoriesOk, Rooted, AtOrAbove, IsFree, NameFree;
    assert RowOk(ns, plan, c) && Unchanged(ns, plan, c);
    TreeHas(ns, p, n);
    if Makes(request, p, n, DirectorySubject(c)) {
      if request.Rename? {
        RenamedDirectoryMoves(ns, c, request.source, request.name, request.destination, request.newName);
      }
    }
  }

  /** The revision of a directory's entry moves with every batch that plans both ends of it, and with no other. */
  lemma LinksMoveWithPlan(ns: Namespace, request: Request, plan: Plan, p: DirectoryId, n: string, c: DirectoryId)
    requires DirectoriesOk(ns) && Rooted(ns) && PlanOk(ns, plan) && Commits(ns, request, plan)
    requires LinkTo(Commit(ns, request, plan), p, n, DirectorySubject(c))
    ensures Commit(ns, request, plan).entries[p][n].revision
            == RevisionAfter(ns, request, p, n) + if c in plan && p in plan then 1 else 0
  {
    hide DirectoriesOk, Rooted, AtOrAbove, IsFree, NameFree, Commits, Applied, RevisionAfter, LinkedAfter, PlanOk;
    var t := Applied(ns, request, plan);
    KeysOfRooted(ns);
    CommitLinks(ns, request, plan, p, n, DirectorySubject(c));
    assert LinkTo(t, p, n, DirectorySubject(c));
    AppliedRevisions(ns, request, plan, p, n, DirectorySubject(c));
    if c in plan {
      PlannedLinkWasThere(ns, request, plan, p, n, c);
      if p in plan { PlannedEntryIsCurrent(ns, request, plan, p, n, c); }
    }
  }

  lemma PlannedEntryIsCurrent(ns: Namespace, request: Request, plan: Plan, p: DirectoryId, n: string, c: DirectoryId)
    requires PlanOk(ns, plan) && Commits(ns, request, plan) && p in plan
    requires LinkTo(ns, p, n, DirectorySubject(c)) && !Makes(request, p, n, DirectorySubject(c))
    ensures n in plan[p].entries && plan[p].entries[n].revision == RevisionAfter(ns, request, p, n)
  {
    hide AtOrAbove, IsFree, NameFree;
    assert RowOk(ns, plan, p) && Unchanged(ns, plan, p);
  }

  /** The entries of `x` have revisions above `r`, except that at `q`, `m` it may still be `r`. */
  predicate EntryFrom(ns: Namespace, x: Subject, q: DirectoryId, m: string, r: nat, p: DirectoryId, n: string) {
    LinkTo(ns, p, n, x) ==> ns.entries[p][n].revision > r || (ns.entries[p][n].revision == r && IsAt(p, n, q, m))
  }

  ghost predicate HeldFrom(ns: Namespace, x: Subject, q: DirectoryId, m: string, r: nat) {
    IsKnown(ns, x) && forall p, n {:trigger EntryFrom(ns, x, q, m, r, p, n)} :: EntryFrom(ns, x, q, m, r, p, n)
  }

  /** A rename moves the entry that its handler loaded to a higher revision; a file or directory is never made twice. */
  lemma CommitKeepsFrom(ns: Namespace, request: Request, plan: Plan, x: Subject, q: DirectoryId, m: string, r: nat)
    requires Rooted(ns) && Commits(ns, request, plan) && HeldFrom(ns, x, q, m, r)
    requires Deletes(request) ==> LinkTo(ns, Start(request), request.name, request.subject)
    ensures HeldFrom(Commit(ns, request, plan), x, q, m, r)
  {
    hide Rooted, Applied, Commit, FenceHolds, IsFree, AtOrAbove, NameFree;
    var t := Commit(ns, request, plan);
    CommitLives(ns, request, plan, x);
    forall p, n ensures EntryFrom(t, x, q, m, r, p, n) {
      if LinkTo(t, p, n, x) {
        CommitLinks(ns, request, plan, p, n, x);
        CommitRevisions(ns, request, plan, p, n, x);
        assert EntryFrom(ns, x, q, m, r, p, n) && EntryFrom(ns, x, q, m, r, Start(request), request.name);
      }
    }
  }

  // ---------------------------------------------------------------- over every run

  lemma StepKeepsFrom(s: System, step: Step, x: Subject, q: DirectoryId, m: string, r: nat)
    requires Inv(s) && FilesOk(s.ns) && Rooted(s.ns) && Faithful(s, step) && HeldFrom(s.ns, x, q, m, r)
    ensures HeldFrom(Execute(s, step).ns, x, q, m, r)
  {
    hide DirectoriesOk, FilesOk, Rooted, Commits, RemovesItsSubject, PlanOk, Admits, Desired, ChangeIsSafe, EntryFrom;
    var p := WorkerAt(s, step.w);
    assert WorkerOk(s.ns, p);
    if CommitsBatch(s, step) {
      FaithfulIsCareful(s.ns, p.request, p.plan);
      CommitKeepsFrom(s.ns, p.request, p.plan, x, q, m, r);
    } else {
      StepWithoutBatch(s, step);
      SameEntriesFrom(s.ns, Execute(s, step).ns, x, q, m, r);
    }
  }

  lemma SameEntriesFrom(ns: Namespace, t: Namespace, x: Subject, q: DirectoryId, m: string, r: nat)
    requires t.entries == ns.entries && t.files == ns.files && t.directories == ns.directories
    requires HeldFrom(ns, x, q, m, r)
    ensures HeldFrom(t, x, q, m, r)
  {
    forall p, n ensures EntryFrom(t, x, q, m, r, p, n) { assert EntryFrom(ns, x, q, m, r, p, n); }
  }

  lemma StepWithoutBatch(s: System, step: Step)
    requires !CommitsBatch(s, step)
    ensures var ns, t := s.ns, Execute(s, step).ns;
            t.entries == ns.entries && t.files == ns.files && t.directories == ns.directories
  {
    hide Commits, Admits, Desired, ChangeIsSafe, PlacementCommits, Read;
    if step.CommitStep? && WorkerAt(s, step.w).Planned? {
      CommitRefused(s.ns, WorkerAt(s, step.w).request, WorkerAt(s, step.w).plan);
    }
  }

  lemma {:induction false} RunKeepsFrom(
    root: DirectoryId, driver: Option<Driver>, steps: seq<Step>, more: seq<Step>,
    x: Subject, q: DirectoryId, m: string, r: nat)
    requires AlwaysFaithful(Initial(root, driver), steps + more)
    requires HeldFrom(Run(Initial(root, driver), steps).ns, x, q, m, r)
    ensures HeldFrom(Run(Initial(root, driver), steps + more).ns, x, q, m, r)
    decreases |more|
  {
    hide Execute, Inv, FilesOk, Rooted, HeldFrom, Faithful;
    if more == [] {
      assert steps + more == steps;
    } else {
      var s0, k := Initial(root, driver), |more| - 1;
      assert (steps + more)[..|steps + more| - 1] == steps + more[..k];
      RunKeepsFrom(root, driver, steps, more[..k], x, q, m, r);
      InitialOk(root, driver);
      RunKeepsFiles(s0, steps + more[..k]);
      AlwaysRooted(root, driver, steps + more[..k]);
      StepKeepsFrom(Run(s0, steps + more[..k]), more[k], x, q, m, r);
    }
  }

  lemma {:induction false} FaithfulBefore(s: System, steps: seq<Step>, more: seq<Step>)
    requires AlwaysFaithful(s, steps + more)
    ensures AlwaysFaithful(s, steps)
    decreases |more|
  {
    hide Execute, Faithful;
    if more == [] {
      assert steps + more == steps;
    } else {
      assert (steps + more)[..|steps + more| - 1] == steps + more[..|more| - 1];
      FaithfulBefore(s, steps, more[..|more| - 1]);
    }
  }

  /** A subject's only entry, with its revision. */
  lemma HeldFromHere(ns: Namespace, x: Subject, p: DirectoryId, n: string)
    requires TreeOk(ns) && LinkTo(ns, p, n, x)
    ensures HeldFrom(ns, x, p, n, ns.entries[p][n].revision)
  {
    hide DirectoriesOk, FilesOk;
    TreeHas(ns, p, n);
    if x.FileSubject? { FilesHave(ns, x.file, p, n, p, n); }
    forall q, m ensures EntryFrom(ns, x, p, n, ns.entries[p][n].revision, q, m) {
      TreeHas(ns, q, m);
      if x.FileSubject? { FilesHave(ns, x.file, p, n, q, m); }
    }
  }

  /** Wherever a subject's entry is later, its revision has grown, or it is in the same place at the same revision. */
  lemma RevisionTells(
    root: DirectoryId, driver: Option<Driver>, steps: seq<Step>, more: seq<Step>,
    x: Subject, p: DirectoryId, n: string, q: DirectoryId, m: string)
    requires AlwaysFaithful(Initial(root, driver), steps + more)
    requires LinkTo(Run(Initial(root, driver), steps).ns, p, n, x)
    requires LinkTo(Run(Initial(root, driver), steps + more).ns, q, m, x)
    ensures var before, after := Run(Initial(root, driver), steps).ns, Run(Initial(root, driver), steps + more).ns;
            || before.entries[p][n].revision < after.entries[q][m].revision
            || (before.entries[p][n].revision == after.entries[q][m].revision && IsAt(p, n, q, m))
  {
    hide Run, AlwaysFaithful, Inv, TreeOk;
    var s0 := Initial(root, driver);
    InitialOk(root, driver);
    FaithfulBefore(s0, steps, more);
    RunKeepsFiles(s0, steps);
    assert TreeOk(Run(s0, steps).ns) by { InvIsTree(Run(s0, steps)); }
    HeldFromHere(Run(s0, steps).ns, x, p, n);
    var r := Run(s0, steps).ns.entries[p][n].revision;
    RunKeepsFrom(root, driver, steps, more, x, p, n, r);
    assert EntryFrom(Run(s0, steps + more).ns, x, p, n, r, q, m);
  }

  lemma InvIsTree(s: System)
    requires Inv(s) && FilesOk(s.ns)
    ensures TreeOk(s.ns)
  {
    hide FilesOk, DirectoriesOk;
  }

  /** The requests that name an entry by its revision. */
  predicate NamesRevision(request: Request) {
    request.Remove? || request.Rename? || request.PutOver?
  }

  /** Where a rename or a put over leaves the entry of its subject. */
  predicate Leaves(request: Request, p: DirectoryId, n: string, x: Subject) {
    || (request.PutOver? && IsAt(p, n, request.directory, request.name) && x == FileSubject(request.file))
    || (request.Rename? && IsAt(p, n, request.destination, request.newName) && x == request.subject)
  }

  /** The entry that they leave names their subject at a revision above the one their handler loaded. */
  lemma LeavesHigher(ns: Namespace, request: Request, plan: Plan, p: DirectoryId, n: string, x: Subject)
    requires Rooted(ns) && Commits(ns, request, plan) && Leaves(request, p, n, x)
    ensures LinkTo(Commit(ns, request, plan), p, n, x)
    ensures Commit(ns, request, plan).entries[p][n].revision > request.revision
  {
    hide Rooted, FenceHolds, IsFree, AtOrAbove, NameFree, Applied, Bump;
    CommitLinks(ns, request, plan, p, n, x);
    CommitRevisions(ns, request, plan, p, n, x);
  }

  /** A request with another revision than the entry it names is refused, whatever is planned. */
  lemma OtherRevisionRefused(ns: Namespace, late: Request, plan: Plan)
    requires NamesRevision(late) && Start(late) in ns.entries && late.name in ns.entries[Start(late)]
    requires ns.entries[Start(late)][late.name].revision != late.revision
    ensures !Commits(ns, late, plan)
  {
    hide FenceHolds, IsFree, AtOrAbove, NameFree;
  }

  /** So right after a put over an entry none of those loaded before it can delete, move or overwrite the new version. */
  lemma OverwriteRefusesOld(ns: Namespace, done: Request, plan: Plan, late: Request, replanned: Plan)
    requires Rooted(ns) && Commits(ns, done, plan) && done.PutOver?
    requires NamesRevision(late) && IsAt(Start(late), late.name, done.directory, done.name) && late.revision <= done.revision
    ensures !Commits(Commit(ns, done, plan), late, replanned)
    ensures LinkTo(Commit(ns, done, plan), done.directory, done.name, FileSubject(done.file))
  {
    hide Rooted, Commits, Commit;
    LeavesHigher(ns, done, plan, done.directory, done.name, FileSubject(done.file));
    OtherRevisionRefused(Commit(ns, done, plan), late, replanned);
  }

  /**
   After a rename or a put over an entry, no request with a revision from before it ever takes the entry of that
   subject again, whatever is planned: it is refused wherever the entry is by then.
   */
  lemma MovedIsNeverTaken(
    root: DirectoryId, driver: Option<Driver>, steps: seq<Step>, w: nat, more: seq<Step>,
    p: DirectoryId, n: string, x: Subject, late: Request, plan: Plan)
    requires AlwaysFaithful(Initial(root, driver), steps + [CommitStep(w)] + more)
    requires CommitsBatch(Run(Initial(root, driver), steps), CommitStep(w))
    requires var done := WorkerAt(Run(Initial(root, driver), steps), w).request;
             Leaves(done, p, n, x) && NamesRevision(late) && late.revision <= done.revision
    requires LinkTo(Run(Initial(root, driver), steps + [CommitStep(w)] + more).ns, Start(late), late.name, x)
    ensures !Commits(Run(Initial(root, driver), steps + [CommitStep(w)] + more).ns, late, plan)
  {
    hide AlwaysFaithful, Inv, TreeOk, Commits, Commit, Rooted;
    var s0 := Initial(root, driver);
    var moved := steps + [CommitStep(w)];
    assert moved[..|moved| - 1] == steps;
    var s := Run(s0, steps);
    AlwaysRooted(root, driver, steps);
    LeavesHigher(s.ns, WorkerAt(s, w).request, WorkerAt(s, w).plan, p, n, x);
    hide Run;
    RevisionTells(root, driver, moved, more, x, p, n, Start(late), late.name);
    OtherRevisionRefused(Run(s0, moved + more).ns, late, plan);
  }

  /** Nor does a request ever take an entry it has not loaded from its subject: the place and the revision are still the same. */
  lemma TakesWhatItLoaded(
    root: DirectoryId, driver: Option<Driver>, steps: seq<Step>, more: seq<Step>,
    p: DirectoryId, n: string, x: Subject, request: Request, plan: Plan)
    requires AlwaysFaithful(Initial(root, driver), steps + more)
    requires LinkTo(Run(Initial(root, driver), steps).ns, p, n, x)
    requires NamesRevision(request) && request.revision == Run(Initial(root, driver), steps).ns.entries[p][n].revision
    requires var after := Run(Initial(root, driver), steps + more).ns;
             LinkTo(after, Start(request), request.name, x) && Commits(after, request, plan)
    ensures IsAt(Start(request), request.name, p, n)
    ensures Run(Initial(root, driver), steps + more).ns.entries[p][n] == Run(Initial(root, driver), steps).ns.entries[p][n]
  {
    hide Run, AlwaysFaithful, Commits;
    RevisionTells(root, driver, steps, more, x, p, n, Start(request), request.name);
    var after := Run(Initial(root, driver), steps + more).ns;
    if after.entries[Start(request)][request.name].revision != request.revision {
      OtherRevisionRefused(after, request, plan);
    }
  }
}
