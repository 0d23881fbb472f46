/** What the namespace promises over every run of interleaved mutations and driver replacements. */
module NamespaceSafety {
  import opened Options
  import opened NamespaceTables
  import opened NamespaceProtocol
  import opened NamespaceInvariant
  import opened NamespaceMounts

  /** A chosen relationship is still the one `desired` would choose, unless the directory is gone. */
  ghost predicate AnswerHolds(ns: Namespace, d: DirectoryId, driver: Driver, desired: DesiredMount) {
    d in ns.directories && (ns.directories[d].active ==> Desired(ns, d, driver) == Some(desired))
  }

  ghost predicate WorkerOk(ns: Namespace, p: Worker) {
    && (p.Walking? || p.Planned? ==> PlanOk(ns, p.plan))
    && (p.Planned? ==> Covers(p.request, p.plan))
    && (p.Placing? ==>
          p.directory in ns.directories && (p.chosen.Some? ==> AnswerHolds(ns, p.directory, p.driver, p.chosen.value)))
    && (p.PlacementReady? ==> AnswerHolds(ns, p.directory, p.driver, p.desired))
  }

  ghost predicate Inv(s: System) {
    DirectoriesOk(s.ns) && forall w {:trigger WorkerAt(s, w)} :: WorkerOk(s.ns, WorkerAt(s, w))
  }

  /** The tables moved in order and fairly to everyone else; worker `w` moved on to `p`. */
  lemma TableStepKeeps(s: System, t: Namespace, w: nat, p: Worker)
    requires Inv(s) && DirectoriesOk(t) && WorkerOk(t, p)
    requires forall d {:trigger Pins(s.ns, t, d)} :: Pins(s.ns, t, d)
    requires forall d {:trigger DriversStay(s.ns, t, d)} :: DriversStay(s.ns, t, d)
    ensures Inv(Goto(s, w, p).(ns := t))
  {
    hide DirectoriesOk, PlanOk, Desired, DriversStay, AnswerHolds;
    var u := Goto(s, w, p).(ns := t);
    forall v ensures WorkerOk(u.ns, WorkerAt(u, v)) {
      if v != w {
        var q := WorkerAt(s, v);
        assert WorkerOk(s.ns, q);
        if q.Walking? || q.Planned? { PinsKeepsPlan(s.ns, t, q.plan); }
        if q.Placing? {
          TreeHas(s.ns, q.directory, "");
          assert Pins(s.ns, t, q.directory);
          if q.chosen.Some? { AnswerStays(s.ns, t, q.directory, q.driver, q.chosen.value); }
        }
        if q.PlacementReady? { AnswerStays(s.ns, t, q.directory, q.driver, q.desired); }
      }
    }
  }

  lemma AnswerStays(ns: Namespace, t: Namespace, d: DirectoryId, driver: Driver, desired: DesiredMount)
    requires DirectoriesOk(ns) && DirectoriesOk(t) && Pins(ns, t, d) && DriversStay(ns, t, d)
    requires AnswerHolds(ns, d, driver, desired)
    ensures AnswerHolds(t, d, driver, desired)
  {
    hide IsChain, ChainOk, Desired;
    assert DirectoryOk(ns, d);
    if t.directories[d].active { DesiredStays(ns, t, d, driver); }
  }

  lemma MoveKeeps(s: System, w: nat, p: Worker)
    requires Inv(s) && WorkerOk(s.ns, p)
    ensures Inv(Goto(s, w, p))
  {
    hide DirectoriesOk;
    forall v ensures WorkerOk(s.ns, WorkerAt(Goto(s, w, p), v)) { assert WorkerOk(s.ns, WorkerAt(s, v)); }
  }

  /** One read extends the plan with the row of today. */
  lemma ReadKeeps(ns: Namespace, p: Worker)
    requires p.Walking? && WorkerOk(ns, p)
    ensures WorkerOk(ns, Read(ns, p))
  {
    hide LinksShown;
    var q := Read(ns, p);
    if q.Walking? || q.Planned? {
      forall d ensures RowOk(ns, q.plan, d) { assert RowOk(ns, p.plan, d); }
    }
  }

  lemma CommitRefused(ns: Namespace, request: Request, plan: Plan)
    requires !Commits(ns, request, plan)
    ensures Commit(ns, request, plan) == ns
  {
  }

  lemma CommitStepKeeps(s: System, w: nat)
    requires Inv(s) && WorkerAt(s, w).Planned? && Careful(s, CommitStep(w))
    ensures Inv(Execute(s, CommitStep(w)))
  {
    hide DirectoriesOk, Commits, Commit, DriversStay, Pins;
    var p := WorkerAt(s, w);
    assert WorkerOk(s.ns, p);
    var t := Commit(s.ns, p.request, p.plan);
    if Commits(s.ns, p.request, p.plan) {
      CommitKeepsDirectories(s.ns, p.request, p.plan);
    } else {
      CommitRefused(s.ns, p.request, p.plan);
    }
    forall d ensures Pins(s.ns, t, d) { CommitPins(s.ns, p.request, p.plan, d); }
    forall d ensures DriversStay(s.ns, t, d) { CommitKeepsDrivers(s.ns, p.request, p.plan, d); }
    TableStepKeeps(s, t, w, if Commits(s.ns, p.request, p.plan) then Idle else Restart(p.request));
  }

  lemma PlacementStepKeeps(s: System, w: nat)
    requires Inv(s) && WorkerAt(s, w).PlacementReady?
    ensures Inv(Execute(s, CommitPlacementStep(w)))
  {
    hide DirectoriesOk, PlacementCommits, DriversStay, Desired;
    var p := WorkerAt(s, w);
    assert WorkerOk(s.ns, p);
    var t := ReplacePlacement(s.ns, p.directory, p.driver, p.desired, p.expected, p.oldCount);
    PlacementKeeps(s.ns, p.directory, p.driver, p.desired, p.expected, p.oldCount);
    forall d ensures Pins(s.ns, t, d) {}
    forall d ensures DriversStay(s.ns, t, d) {
      PlacementKeepsDrivers(s.ns, p.directory, p.driver, p.desired, p.expected, p.oldCount, d);
    }
    TableStepKeeps(s, t, w, Idle);
  }

  lemma ExecuteKeeps(s: System, step: Step)
    requires Inv(s) && Careful(s, step)
    ensures Inv(Execute(s, step))
  {
    hide DirectoriesOk, Desired, ChangeIsSafe, Commits, Admits;
    assert WorkerOk(s.ns, WorkerAt(s, step.w));
    match step
    case BeginStep(w, request) =>
      if WorkerAt(s, w).Idle? { MoveKeeps(s, w, Admitted(request, 0)); }
    case AdmitStep(w) =>
      if Execute(s, step) != s { MoveKeeps(s, w, WorkerAt(Execute(s, step), w)); }
    case ReadStep(w) =>
      if WorkerAt(s, w).Walking? {
        ReadKeeps(s.ns, WorkerAt(s, w));
        MoveKeeps(s, w, Read(s.ns, WorkerAt(s, w)));
      }
    case CommitStep(w) =>
      if WorkerAt(s, w).Planned? { CommitStepKeeps(s, w); }
    case BeginPlacementStep(w, d, driver, expected) =>
      if Execute(s, step) != s { MoveKeeps(s, w, Placing(d, driver, expected, None, false)); }
    case PlacementReadStep(w) =>
      if WorkerAt(s, w).Placing? { MoveKeeps(s, w, PlacementRead(s.ns, WorkerAt(s, w))); }
    case CommitPlacementStep(w) =>
      if WorkerAt(s, w).PlacementReady? { PlacementStepKeeps(s, w); }
    case CrashStep(w) => MoveKeeps(s, w, Idle);
  }

  lemma {:induction false} RunKeeps(s: System, steps: seq<Step>)
    requires Inv(s) && AlwaysCareful(s, steps)
    ensures Inv(Run(s, steps))
    decreases |steps|
  {
    hide Execute;
    if steps != [] {
      var n := |steps| - 1;
      RunKeeps(s, steps[..n]);
      ExecuteKeeps(Run(s, steps[..n]), steps[n]);
    }
  }

  lemma InitialOk(root: DirectoryId, driver: Option<Driver>)
    ensures Inv(Initial(root, driver)) && FilesOk(Initial(root, driver).ns)
  {
    hide DirectoriesOk, FilesOk;
    BootstrapOk(root, driver);
  }

  // ---------------------------------------------------------------- files

  /** While no removal is swapped, no batch takes a directory's entry for another's, and files stay in order too. */
  lemma ExecuteKeepsFiles(s: System, step: Step)
    requires Inv(s) && FilesOk(s.ns) && Faithful(s, step)
    ensures Careful(s, step) && FilesOk(Execute(s, step).ns)
  {
    hide DirectoriesOk, FilesOk, Desired, ChangeIsSafe, Commits, KeepsDirectories, RemovesItsSubject, PlanOk, Admits;
    var p := WorkerAt(s, step.w);
    assert WorkerOk(s.ns, p);
    if CommitsBatch(s, step) {
      FaithfulIsCareful(s.ns, p.request, p.plan);
      CommitKeeps(s.ns, p.request, p.plan);
    } else if step.CommitStep? && p.Planned? {
      CommitRefused(s.ns, p.request, p.plan);
    } else if step.CommitPlacementStep? && p.PlacementReady? {
      PlacementKeepsFiles(s.ns, p.directory, p.driver, p.desired, p.expected, p.oldCount);
    }
  }

  lemma {:induction false} RunKeepsFiles(s: System, steps: seq<Step>)
    requires Inv(s) && FilesOk(s.ns) && AlwaysFaithful(s, steps)
    ensures AlwaysCareful(s, steps) && Inv(Run(s, steps)) && FilesOk(Run(s, steps).ns)
    decreases |steps|
  {
    hide Execute, Inv, FilesOk, Careful;
    if steps != [] {
      var n := |steps| - 1;
      RunKeepsFiles(s, steps[..n]);
      ExecuteKeepsFiles(Run(s, steps[..n]), steps[n]);
      ExecuteKeeps(Run(s, steps[..n]), steps[n]);
    }
  }

  ghost function Reached(root: DirectoryId, driver: Option<Driver>, steps: seq<Step>): (s: System)
    requires AlwaysCareful(Initial(root, driver), steps)
    ensures Inv(s)
  {
    InitialOk(root, driver);
    RunKeeps(Initial(root, driver), steps);
    Run(Initial(root, driver), steps)
  }

  // ---------------------------------------------------------------- the promises about directories

  /** No run ever puts two explicit mounts on one path to the root. */
  lemma MountsNeverNest(root: DirectoryId, driver: Option<Driver>, steps: seq<Step>, c: seq<DirectoryId>, i: nat, j: nat)
    requires AlwaysCareful(Initial(root, driver), steps)
    ensures var ns := Reached(root, driver, steps).ns;
            IsChain(ns.directories, c) && i < |c| && j < |c| && IsExplicit(ns, c[i]) && IsExplicit(ns, c[j]) ==> i == j
  {
    hide DirectoriesOk, IsChain;
    var ns := Reached(root, driver, steps).ns;
    if IsChain(ns.directories, c) && i < |c| && j < |c| && IsExplicit(ns, c[i]) && IsExplicit(ns, c[j]) {
      OneMountPerPath(ns, c, i, j);
    }
  }

  /** Every active directory has a path to the root, and its stored driver is the one that path resolves to. */
  lemma DriversAreResolved(root: DirectoryId, driver: Option<Driver>, steps: seq<Step>, d: DirectoryId)
    requires AlwaysCareful(Initial(root, driver), steps)
    ensures var ns := Reached(root, driver, steps).ns;
            d in ns.directories && ns.directories[d].active ==>
              exists c :: IsChain(ns.directories, c) && c[0] == d
                && Resolved(ns, c) == if d in ns.drivers then Some(ns.drivers[d]) else None
  {
    var ns := Reached(root, driver, steps).ns;
    if d in ns.directories && ns.directories[d].active {
      assert ChainOk(ns, d);
      var c :| IsChain(ns.directories, c) && c[0] == d;
      StoredIsResolved(ns, c);
    }
  }

  /** A mount never repeats the driver that its parent already has. */
  lemma MountsChangeDriver(root: DirectoryId, driver: Option<Driver>, steps: seq<Step>, d: DirectoryId)
    requires AlwaysCareful(Initial(root, driver), steps)
    ensures var ns := Reached(root, driver, steps).ns;
            IsExplicit(ns, d) ==>
              && d in ns.directories && ns.directories[d].parent.Some?
              && ns.directories[d].parent.value in ns.drivers && ns.root in ns.drivers
              && ns.drivers[ns.directories[d].parent.value] == ns.drivers[ns.root] != ns.mounts[d].driver
  {
    hide IsChain, ChainOk;
    var ns := Reached(root, driver, steps).ns;
    assert MountOk(ns, d) && DirectoryOk(ns, d);
  }

  /** Entries that name directories and active rows are linked one to one. */
  lemma DirectoriesAreLinked(root: DirectoryId, driver: Option<Driver>, steps: seq<Step>, p: DirectoryId, name: string, d: DirectoryId)
    requires AlwaysCareful(Initial(root, driver), steps)
    ensures var ns := Reached(root, driver, steps).ns;
            && (p in ns.entries && name in ns.entries[p] ==> p in ns.directories && ns.directories[p].active)
            && (LinkTo(ns, p, name, DirectorySubject(d)) <==>
                  d in ns.directories && ns.directories[d].active && ns.directories[d].parent == Some(p)
                  && ns.directories[d].name == name)
  {
    hide IsChain, ChainOk;
    var ns := Reached(root, driver, steps).ns;
    assert EntryOk(ns, p, name) && DirectoryOk(ns, d);
  }

  /** The relationship a handler computed is still right when its batch runs, however long it waited. */
  lemma AnswerNeverGoesStale(root: DirectoryId, driver: Option<Driver>, steps: seq<Step>, w: nat)
    requires AlwaysCareful(Initial(root, driver), steps)
    ensures var s := Reached(root, driver, steps);
            var p := WorkerAt(s, w);
            p.PlacementReady? && IsActive(s.ns, p.directory) ==>
              Desired(s.ns, p.directory, p.driver) == Some(p.desired)
  {
    hide DirectoriesOk;
    assert WorkerOk(Reached(root, driver, steps).ns, WorkerAt(Reached(root, driver, steps), w));
  }

  // ---------------------------------------------------------------- the promise about files

  /** Every entry of a file names an active one on its directory's driver, and every active file has one entry. */
  lemma FilesAreLinked(root: DirectoryId, driver: Option<Driver>, steps: seq<Step>, p: DirectoryId, name: string, f: FileId)
    requires AlwaysFaithful(Initial(root, driver), steps)
    ensures var ns := Run(Initial(root, driver), steps).ns;
            && (LinkTo(ns, p, name, FileSubject(f)) ==>
                  && f in ns.files && ns.files[f].active && p in ns.drivers && ns.files[f].driver == ns.drivers[p]
                  && forall q, m :: LinkTo(ns, q, m, FileSubject(f)) ==> q == p && m == name)
            && (f in ns.files && ns.files[f].active ==> exists q, m :: LinkTo(ns, q, m, FileSubject(f)))
  {
    hide Run, AlwaysFaithful, Inv;
    InitialOk(root, driver);
    RunKeepsFiles(Initial(root, driver), steps);
    FilesAreLinkedNow(Run(Initial(root, driver), steps).ns, p, name, f);
  }

  lemma FilesAreLinkedNow(ns: Namespace, p: DirectoryId, name: string, f: FileId)
    requires FilesOk(ns)
    ensures LinkTo(ns, p, name, FileSubject(f)) ==>
              && f in ns.files && ns.files[f].active && p in ns.drivers && ns.files[f].driver == ns.drivers[p]
              && forall q, m :: LinkTo(ns, q, m, FileSubject(f)) ==> q == p && m == name
    ensures f in ns.files && ns.files[f].active ==> exists q, m :: LinkTo(ns, q, m, FileSubject(f))
  {
    assert FileEntryOk(ns, p, name) && FileOk(ns, f);
    forall q, m | LinkTo(ns, q, m, FileSubject(f)) && LinkTo(ns, p, name, FileSubject(f)) ensures q == p && m == name {
      assert OneHome(ns, f, p, name, q, m);
    }
  }

  /** A run in which no removal is swapped takes no directory's entry either, so the promises above hold in it. */
  lemma FaithfulRunsAreCareful(root: DirectoryId, driver: Option<Driver>, steps: seq<Step>)
    requires AlwaysFaithful(Initial(root, driver), steps)
    ensures AlwaysCareful(Initial(root, driver), steps)
  {
    hide Run, AlwaysFaithful, AlwaysCareful, Inv;
    InitialOk(root, driver);
    RunKeepsFiles(Initial(root, driver), steps);
  }

  // ---------------------------------------------------------------- one replacement per placement revision

  /** A directory's placement revision is above `expected`, for good. */
  predicate PlacementPast(ns: Namespace, d: DirectoryId, expected: nat) {
    d in ns.directories && d in ns.placements && ns.placements[d] > expected
  }

  lemma PlacementPastStays(s: System, step: Step, d: DirectoryId, expected: nat)
    requires PlacementPast(s.ns, d, expected)
    ensures PlacementPast(Execute(s, step).ns, d, expected)
  {
    hide IsChain, AtOrAbove, IsFree, NameFree, Desired, ChangeIsSafe, FenceHolds;
    if step.CommitStep? && WorkerAt(s, step.w).Planned? {
      var q := WorkerAt(s, step.w);
      if Commits(s.ns, q.request, q.plan) { PlacementPastApplied(s.ns, q.request, q.plan, d, expected); }
    }
  }

  lemma PlacementPastApplied(ns: Namespace, request: Request, plan: Plan, d: DirectoryId, expected: nat)
    requires PlacementPast(ns, d, expected) && Commits(ns, request, plan)
    ensures PlacementPast(Bump(Applied(ns, request, plan), plan), d, expected)
  {
    hide IsChain, AtOrAbove, IsFree, NameFree, FenceHolds;
  }

  /** Of all replacements that loaded the same placement revision, at most one ever commits. */
  lemma {:induction false} OneReplacementPerRevision(
    s: System, d: DirectoryId, driver: Driver, desired: DesiredMount, expected: nat, oldCount: nat, steps: seq<Step>)
    requires PlacementCommits(s.ns, d, driver, desired, expected, oldCount)
    ensures var after := s.(ns := ReplacePlacement(s.ns, d, driver, desired, expected, oldCount));
            forall other, kind, count :: !PlacementCommits(Run(after, steps).ns, d, other, kind, expected, count)
  {
    hide Execute, Run;
    PlacementPastRuns(s.(ns := ReplacePlacement(s.ns, d, driver, desired, expected, oldCount)), d, expected, steps);
  }

  lemma {:induction false} PlacementPastRuns(s: System, d: DirectoryId, expected: nat, steps: seq<Step>)
    requires PlacementPast(s.ns, d, expected)
    ensures PlacementPast(Run(s, steps).ns, d, expected)
    decreases |steps|
  {
    hide Execute;
    if steps != [] {
      PlacementPastRuns(s, d, expected, steps[..|steps| - 1]);
      PlacementPastStays(Run(s, steps[..|steps| - 1]), steps[|steps| - 1], d, expected);
    }
  }

  // ---------------------------------------------------------------- when the promises need their condition

  /**
   A batch deletes by name and revision, but retires or moves the subject its handler loaded. It keeps the
   directories in order exactly when the entry of an active directory goes with that directory.
   */
  lemma DirectoriesKeptExactly(ns: Namespace, request: Request, plan: Plan)
    requires DirectoriesOk(ns) && PlanOk(ns, plan) && Covers(request, plan) && Commits(ns, request, plan)
    ensures DirectoriesOk(Commit(ns, request, plan)) <==> KeepsDirectories(ns, request)
  {
    hide DirectoriesOk, Commits, Commit, PlanOk;
    if KeepsDirectories(ns, request) {
      CommitKeepsDirectories(ns, request, plan);
    } else {
      CarelessBreaks(ns, request, plan);
    }
  }

  lemma CarelessBreaks(ns: Namespace, request: Request, plan: Plan)
    requires DirectoriesOk(ns) && PlanOk(ns, plan) && Covers(request, plan) && Commits(ns, request, plan)
    requires !KeepsDirectories(ns, request)
    ensures !DirectoriesOk(Commit(ns, request, plan))
  {
    hide DirectoriesOk, FilesOk, PlanOk, Bump, IsFree, NameFree, AtOrAbove, IsChain, FenceHolds, ApplyRemove, ApplyRename;
    var d, name := Start(request), request.name;
    var held := ns.entries[d][name].subject;
    TreeHas(ns, d, name);
    if request.Remove? {
      RemovalOrphans(ns, d, name, request.subject, plan);
      var t := Commit(ns, request, plan);
      if held.DirectorySubject? {
        if DirectoriesOk(t) { TreeHas(t, held.directory, name); }
      } else {
        var s := request.subject.directory;
        TreeHas(ns, s, name);
        RetiresLinked(ns, d, name, s, plan);
      }
    } else {
      if request.subject.DirectorySubject? {
        RenamedDirectoryMoves(ns, request.subject.directory, d, name, request.destination, request.newName);
        MovedDirectoryWasThere(ns, d, name, request.subject.directory);
      } else {
        RenameOrphans(ns, request, plan);
      }
    }
  }

  /** A removal that retires a linked directory elsewhere leaves its entry behind. */
  lemma RetiresLinked(ns: Namespace, d: DirectoryId, name: string, s: DirectoryId, plan: Plan)
    requires DirectoriesOk(ns) && d in ns.entries && IsActiveDirectory(ns, DirectorySubject(s))
    requires !LinkTo(ns, d, name, DirectorySubject(s))
    ensures !DirectoriesOk(Bump(ApplyRemove(ns, d, name, DirectorySubject(s)), plan))
  {
    hide DirectoriesOk, IsChain;
    TreeHas(ns, s, name);
    var row := ns.directories[s];
    var t := Bump(ApplyRemove(ns, d, name, DirectorySubject(s)), plan);
    assert s in t.directories && !t.directories[s].active;
    if DirectoriesOk(t) {
      TreeHas(t, s, row.name);
      if row.parent.Some? {
        assert LinkTo(t, row.parent.value, row.name, DirectorySubject(s));
        TreeHas(t, row.parent.value, row.name);
      }
    }
  }

  /** A rename of a file that deletes a directory's entry leaves the directory without one. */
  lemma RenameOrphans(ns: Namespace, request: Request, plan: Plan)
    requires DirectoriesOk(ns) && request.Rename? && Commits(ns, request, plan) && request.subject.FileSubject?
    requires request.source in ns.entries && request.name in ns.entries[request.source]
    requires ns.entries[request.source][request.name].subject.DirectorySubject?
    ensures !DirectoriesOk(Commit(ns, request, plan))
  {
    hide DirectoriesOk, IsFree, NameFree, AtOrAbove, IsChain, FenceHolds;
    var c := ns.entries[request.source][request.name].subject.directory;
    TreeHas(ns, c, request.name);
    TreeHas(ns, request.source, request.name);
    var t := Commit(ns, request, plan);
    assert c in t.directories && t.directories[c].active && t.directories[c].parent == Some(request.source);
    assert !LinkTo(t, request.source, request.name, DirectorySubject(c));
    if DirectoriesOk(t) { TreeHas(t, c, request.name); }
  }

  /**
   A removal keeps directories and files in order exactly when the entry still names the subject that its
   handler loaded.
   */
  lemma RemovalIsExactlyFaithful(ns: Namespace, request: Request, plan: Plan)
    requires TreeOk(ns) && PlanOk(ns, plan) && request.Remove? && Covers(request, plan) && Commits(ns, request, plan)
    ensures TreeOk(Commit(ns, request, plan)) <==> RemovesItsSubject(ns, request)
  {
    hide DirectoriesOk, FilesOk, Commits, FenceHolds;
    if RemovesItsSubject(ns, request) {
      CommitKeeps(ns, request, plan);
    } else {
      SwappedEntryBreaks(ns, request, plan);
    }
  }

  /** `t` has lost the entry at `d`, `name`; no other row was retired than `subject`, and no file entry appeared. */
  ghost predicate Orphans(ns: Namespace, t: Namespace, d: DirectoryId, name: string, subject: Subject) {
    && !(d in t.entries && name in t.entries[d])
    && (forall c | c in ns.directories && DirectorySubject(c) != subject ::
          c in t.directories && t.directories[c].active == ns.directories[c].active
          && t.directories[c].parent == ns.directories[c].parent && t.directories[c].name == ns.directories[c].name)
    && (forall f | f in ns.files && FileSubject(f) != subject :: f in t.files && t.files[f].active == ns.files[f].active)
    && (forall p, n, f | LinkTo(t, p, n, FileSubject(f)) :: LinkTo(ns, p, n, FileSubject(f)))
  }

  lemma RemovalOrphans(ns: Namespace, d: DirectoryId, name: string, subject: Subject, plan: Plan)
    requires d in ns.entries
    ensures Orphans(ns, Bump(ApplyRemove(ns, d, name, subject), plan), d, name, subject)
  {
    hide Bump, Orphans, ApplyRemove;
    var t := ApplyRemove(ns, d, name, subject);
    ApplyRemoveOrphans(ns, d, name, subject);
    BumpOrphans(ns, t, d, name, subject, plan);
  }

  lemma ApplyRemoveOrphans(ns: Namespace, d: DirectoryId, name: string, subject: Subject)
    requires d in ns.entries
    ensures Orphans(ns, ApplyRemove(ns, d, name, subject), d, name, subject)
  {
    var cut := ns.(entries := ns.entries[d := ns.entries[d] - {name}]);
    var t := ApplyRemove(ns, d, name, subject);
    assert t == Tombstone(cut, subject) && t.entries == cut.entries;
    forall p, n, f | LinkTo(t, p, n, FileSubject(f)) ensures LinkTo(ns, p, n, FileSubject(f)) {
      assert LinkTo(cut, p, n, FileSubject(f));
    }
    hide LinkTo, ApplyRemove;
  }

  lemma BumpOrphans(ns: Namespace, t: Namespace, d: DirectoryId, name: string, subject: Subject, plan: Plan)
    requires Orphans(ns, t, d, name, subject)
    ensures Orphans(ns, Bump(t, plan), d, name, subject)
  {
    var u := Bump(t, plan);
    forall p, n, f | LinkTo(u, p, n, FileSubject(f)) ensures LinkTo(ns, p, n, FileSubject(f)) {
      assert LinkTo(t, p, n, FileSubject(f));
    }
  }

  lemma SwappedEntryBreaks(ns: Namespace, request: Request, plan: Plan)
    requires TreeOk(ns) && request.Remove? && Commits(ns, request, plan) && !RemovesItsSubject(ns, request)
    ensures !TreeOk(Commit(ns, request, plan))
  {
    hide DirectoriesOk, FilesOk, FenceHolds, Bump, ApplyRemove;
    var t := Commit(ns, request, plan);
    var d, name := request.directory, request.name;
    RemovalOrphans(ns, d, name, request.subject, plan);
    TreeHas(ns, d, name);
    match ns.entries[d][name].subject
    case DirectorySubject(c) =>
      assert !DirectoryOk(t, c);
      if DirectoriesOk(t) { TreeHas(t, c, name); }
    case FileSubject(f) =>
      FilesHave(ns, f, d, name, d, name);
      forall p, n ensures !LinkTo(t, p, n, FileSubject(f)) { FilesHave(ns, f, p, n, d, name); }
      assert !FileOk(t, f);
      if FilesOk(t) { FilesHave(t, f, d, name, d, name); }
  }

  /** `change_is_safe` lets an unchanged driver through, but a populated mount cannot be written again. */
  lemma ReplacementRefusedExactly(ns: Namespace, d: DirectoryId, driver: Driver, desired: DesiredMount)
    requires DirectoriesOk(ns) && IsActive(ns, d) && d in ns.placements
    requires Desired(ns, d, driver) == Some(desired) && ChangeIsSafe(ns, d, driver)
    ensures PlacementCommits(ns, d, driver, desired, ns.placements[d], DriverCount(ns, d))
            <==> !(desired.ExplicitMount? && ns.entries[d] != map[])
  {
    hide IsChain, ChainOk, ChangeIsSafe, UnderMount;
    assert DirectoryOk(ns, d);
    UnderFewerMounts(ns, d);
  }

  lemma UnderFewerMounts(ns: Namespace, d: DirectoryId)
    ensures UnderMount(ns.(mounts := ns.mounts - {d}), d) ==> UnderMount(ns, d)
  {
    var fewer := ns.(mounts := ns.mounts - {d});
    if UnderMount(fewer, d) {
      var c, i :| IsChain(fewer.directories, c) && c[0] == d && 1 <= i < |c| && IsExplicit(fewer, c[i]);
      assert IsExplicit(ns, c[i]);
    }
  }

  // ---------------------------------------------------------------- whatever is swapped

  lemma ExecuteRooted(s: System, step: Step)
    requires Rooted(s.ns)
    ensures Rooted(Execute(s, step).ns)
  {
    hide Rooted, Commits, Commit, Desired, ChangeIsSafe, PlacementCommits, Admits, Read;
    var p := WorkerAt(s, step.w);
    if step.CommitStep? && p.Planned? { CommitRooted(s.ns, p.request, p.plan); }
    if step.CommitPlacementStep? && p.PlacementReady? {
      ReplacementRooted(s.ns, p.directory, p.driver, p.desired, p.expected, p.oldCount);
    }
  }

  /** In every run each row has entries and a chain to the root, and no two rows share parent and name. */
  lemma {:induction false} AlwaysRooted(root: DirectoryId, driver: Option<Driver>, steps: seq<Step>)
    ensures Rooted(Run(Initial(root, driver), steps).ns)
    decreases |steps|
  {
    hide Execute, Rooted;
    if steps == [] {
      BootstrapRooted(root, driver);
    } else {
      AlwaysRooted(root, driver, steps[..|steps| - 1]);
      ExecuteRooted(Run(Initial(root, driver), steps[..|steps| - 1]), steps[|steps| - 1]);
    }
  }

  // ---------------------------------------------------------------- names of removed directories

  /** A tombstone holding the name `n` below `p`. */
  predicate Buried(ns: Namespace, d: DirectoryId, p: DirectoryId, n: string) {
    && d in ns.directories && !ns.directories[d].active
    && ns.directories[d].parent == Some(p) && ns.directories[d].name == n
  }

  lemma BuriedStays(s: System, step: Step, d: DirectoryId, p: DirectoryId, n: string)
    requires Buried(s.ns, d, p, n)
    ensures Buried(Execute(s, step).ns, d, p, n)
  {
    hide IsChain, AtOrAbove, IsFree, NameFree, Desired, ChangeIsSafe, FenceHolds;
    if step.CommitStep? && WorkerAt(s, step.w).Planned? {
      var q := WorkerAt(s, step.w);
      if Commits(s.ns, q.request, q.plan) { BuriedStaysApplied(s.ns, q.request, q.plan, d, p, n); }
    }
  }

  lemma BuriedStaysApplied(ns: Namespace, request: Request, plan: Plan, d: DirectoryId, p: DirectoryId, n: string)
    requires Buried(ns, d, p, n) && Commits(ns, request, plan)
    ensures Buried(Bump(Applied(ns, request, plan), plan), d, p, n)
  {
    hide IsChain, AtOrAbove, IsFree, NameFree, FenceHolds, Bump;
    var t := Applied(ns, request, plan);
    match request {
      case Mkdir(parent, name, child) => assert Buried(t, d, p, n);
      case Remove(dir, name, subject, revision) => assert Buried(t, d, p, n);
      case Rename(source, name, destination, newName, subject, revision) => assert Buried(t, d, p, n);
      case PutNew(dir, name, f, driver) => assert Buried(t, d, p, n);
      case PutOver(dir, name, f, driver, revision) => assert Buried(t, d, p, n);
    }
    BuriedStaysBumped(t, plan, d, p, n);
  }

  lemma BuriedStaysBumped(ns: Namespace, plan: Plan, d: DirectoryId, p: DirectoryId, n: string)
    requires Buried(ns, d, p, n)
    ensures Buried(Bump(ns, plan), d, p, n)
  {
  }

  /** Once a directory is removed, no later mkdir or directory rename can ever take its name there again. */
  lemma {:induction false} RemovedNameIsGone(s: System, steps: seq<Step>, d: DirectoryId, p: DirectoryId, n: string)
    requires Rooted(s.ns) && Buried(s.ns, d, p, n)
    ensures var ns := Run(s, steps).ns;
            && Rooted(ns) && Buried(ns, d, p, n)
            && (forall child, plan :: !Commits(ns, Mkdir(p, n, child), plan))
            && (forall source, name, c, revision, plan ::
                  !Commits(ns, Rename(source, name, p, n, DirectorySubject(c), revision), plan))
    decreases |steps|
  {
    hide Execute, Rooted, Buried, Commits;
    if steps != [] {
      var k := |steps| - 1;
      RemovedNameIsGone(s, steps[..k], d, p, n);
      BuriedStays(Run(s, steps[..k]), steps[k], d, p, n);
      ExecuteRooted(Run(s, steps[..k]), steps[k]);
    }
    NameIsTaken(Run(s, steps).ns, d, p, n);
  }

  /** A tombstone is the only row in its place, so nothing can be made or moved there. */
  lemma NameIsTaken(ns: Namespace, d: DirectoryId, p: DirectoryId, n: string)
    requires Rooted(ns) && Buried(ns, d, p, n)
    ensures forall child, plan :: !Commits(ns, Mkdir(p, n, child), plan)
    ensures forall source, name, c, revision, plan ::
              !Commits(ns, Rename(source, name, p, n, DirectorySubject(c), revision), plan)
  {
    hide IsChain, ChainOk, AtOrAbove, IsFree, FenceHolds;
    assert !NameFree(ns, p, n);
    forall c ensures !MoveMatches(ns, c, p, n) { assert OneRow(ns, c, d); }
  }
}
