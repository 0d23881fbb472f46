/**
 A concrete run in which a removal deletes the wrong entry: between loading its subject and planning,
 the entry is replaced by another of the same name and revision.
 */
module NamespaceSwap {
  import opened Options
  import opened NamespaceTables
  import opened NamespaceProtocol
  import opened NamespaceInvariant
  import opened NamespaceRuns

  const ROOT: DirectoryId := 0
  const DRIVER: Driver := 5
  const FIRST := FileSubject(1)
  const SECOND := FileSubject(2)

  /** The root directory alone, at some revision, with its driver. */
  function RootOnly(revision: nat, entries: map<string, Entry>, files: map<FileId, File>): Namespace {
    Namespace(ROOT, map[ROOT := Directory(None, "", true, revision)], map[ROOT := entries], files,
              map[ROOT := DRIVER], map[ROOT := Mount(DRIVER, Default)], map[ROOT := 2])
  }

  function RootPlan(revision: nat, entries: map<string, Entry>): Plan {
    map[ROOT := Row(Directory(None, "", true, revision), entries)]
  }

  lemma BumpRoot(revision: nat, entries: map<string, Entry>, read: map<string, Entry>, files: map<FileId, File>)
    requires forall n | n in entries :: entries[n].subject.FileSubject?
    ensures Bump(RootOnly(revision, entries, files), RootPlan(revision, read)) == RootOnly(revision + 1, entries, files)
  {
    var plan := RootPlan(revision, read);
    hide LinkPlanned;
    FilesHaveNoLinks(entries, plan);
    var t := Bump(RootOnly(revision, entries, files), plan);
    assert t.entries == map[ROOT := entries];
    assert t.directories == map[ROOT := Directory(None, "", true, revision + 1)];
  }

  lemma FilesHaveNoLinks(entries: map<string, Entry>, plan: Plan)
    requires forall n | n in entries :: entries[n].subject.FileSubject?
    ensures BumpedLinks(entries, ROOT, plan) == entries
  {
  }

  /** One put from begin to commit when nobody comes in between. */
  function Alone(w: nat, request: Request): seq<Step> {
    [BeginStep(w, request), ReadStep(w), CommitStep(w)]
  }

  lemma ReadsRoot(s: System, w: nat, request: Request, revision: nat, entries: map<string, Entry>, files: map<FileId, File>)
    requires s.ns == RootOnly(revision, entries, files) && WorkerAt(s, w) == Restart(request)
    requires Start(request) == ROOT && (request.PutNew? || request.Remove?)
    requires request.PutNew? ==> request.name !in entries
    requires request.Remove? ==> request.name in entries && entries[request.name].revision == request.revision
    ensures Execute(s, ReadStep(w)) == Goto(s, w, Planned(request, RootPlan(revision, entries), {ROOT}))
  {
    var plan := RootPlan(revision, entries);
    assert LinksShown(plan);
    assert PlanAccepted(request, plan, {ROOT});
    assert Restart(request).plan[ROOT := Row(s.ns.directories[ROOT], s.ns.entries[ROOT])] == plan;
    assert {} + {ROOT} == {ROOT};
    assert Read(s.ns, WorkerAt(s, w)) == Planned(request, plan, {ROOT});
  }

  lemma Puts(s: System, w: nat, f: FileId, revision: nat, files: map<FileId, File>)
    requires s.ns == RootOnly(revision, map[], files) && WorkerAt(s, w).Idle? && f !in files
    ensures var request := PutNew(ROOT, "x", f, DRIVER);
            Execute(Execute(Execute(s, BeginStep(w, request)), ReadStep(w)), CommitStep(w))
            == Goto(s, w, Idle).(ns := RootOnly(revision + 1, map["x" := Entry(FileSubject(f), 1)],
                                                files[f := File(true, DRIVER)]))
  {
    hide Bump, Read;
    var request := PutNew(ROOT, "x", f, DRIVER);
    var s1 := Execute(s, BeginStep(w, request));
    ReadsRoot(s1, w, request, revision, map[], files);
    var s2 := Execute(s1, ReadStep(w));
    var plan := RootPlan(revision, map[]);
    var entries, more := map["x" := Entry(FileSubject(f), 1)], files[f := File(true, DRIVER)];
    assert Commits(s.ns, request, plan);
    assert ApplyPutNew(s.ns, ROOT, "x", f) == RootOnly(revision, entries, more);
    BumpRoot(revision, entries, map[], more);
    assert Commit(s.ns, request, plan) == RootOnly(revision + 1, entries, more);
    assert Goto(Goto(Goto(s, w, Restart(request)), w, Planned(request, plan, {ROOT})), w, Idle) == Goto(s, w, Idle);
  }

  /** A planned removal of `x` deletes whatever entry has revision 1 and retires `f`. */
  lemma Removes(s: System, w: nat, f: FileId, g: FileId, revision: nat, files: map<FileId, File>)
    requires s.ns == RootOnly(revision, map["x" := Entry(FileSubject(g), 1)], files) && f in files
    requires WorkerAt(s, w) == Restart(Remove(ROOT, "x", FileSubject(f), 1))
    ensures Execute(Execute(s, ReadStep(w)), CommitStep(w))
            == Goto(s, w, Idle).(ns := RootOnly(revision + 1, map[], files[f := files[f].(active := false)]))
  {
    var request := Remove(ROOT, "x", FileSubject(f), 1);
    var entries, fewer := map["x" := Entry(FileSubject(g), 1)], files[f := files[f].(active := false)];
    ReadsRoot(s, w, request, revision, entries, files);
    var plan := RootPlan(revision, entries);
    assert Commits(s.ns, request, plan);
    assert entries - {"x"} == map[];
    assert ApplyRemove(s.ns, ROOT, "x", FileSubject(f)) == RootOnly(revision, map[], fewer);
    BumpRoot(revision, map[], entries, fewer);
    assert Goto(Goto(s, w, Planned(request, plan, {ROOT})), w, Idle) == Goto(s, w, Idle);
  }

  const REMOVE_FIRST := Remove(ROOT, "x", FIRST, 1)

  /** Worker 1 loads the first file of `x`; worker 0 removes it and puts a second; worker 1 goes on. */
  function SwapRun(): seq<Step> {
    BeforeRemoval() + Alone(0, PutNew(ROOT, "x", 2, DRIVER)) + [ReadStep(1), CommitStep(1)]
  }

  /** The steps up to the second put, after which worker 1 still means to remove the first file. */
  function BeforeRemoval(): seq<Step> {
    Alone(0, PutNew(ROOT, "x", 1, DRIVER)) + [BeginStep(1, REMOVE_FIRST), AdmitStep(1)]
    + [BeginStep(0, REMOVE_FIRST), AdmitStep(0)] + [ReadStep(0), CommitStep(0)]
  }

  lemma FirstIsRemoved()
    ensures var s := Run(Initial(ROOT, Some(DRIVER)), BeforeRemoval());
            && s.ns == RootOnly(3, map[], map[1 := File(false, DRIVER)])
            && WorkerAt(s, 1) == Restart(REMOVE_FIRST) && WorkerAt(s, 0).Idle?
  {
    hide Execute;
    var s0 := Initial(ROOT, Some(DRIVER));
    assert s0.ns == RootOnly(1, map[], map[]);
    var r1 := Alone(0, PutNew(ROOT, "x", 1, DRIVER));
    Puts(s0, 0, 1, 1, map[]);
    RunThree(s0, r1[0], r1[1], r1[2]);
    assert r1 == [r1[0], r1[1], r1[2]];
    var files := map[1 := File(true, DRIVER)];
    var s1 := Run(s0, r1);
    assert s1.ns == RootOnly(2, map["x" := Entry(FIRST, 1)], files);
    var r2 := r1 + [BeginStep(1, REMOVE_FIRST), AdmitStep(1)];
    RunConcat(s0, r1, [BeginStep(1, REMOVE_FIRST), AdmitStep(1)]);
    RunTwo(Run(s0, r1), BeginStep(1, REMOVE_FIRST), AdmitStep(1));
    Begins(s1, 1, files);
    var s2 := Run(s0, r2);
    var r3 := r2 + [BeginStep(0, REMOVE_FIRST), AdmitStep(0)];
    RunConcat(s0, r2, [BeginStep(0, REMOVE_FIRST), AdmitStep(0)]);
    RunTwo(Run(s0, r2), BeginStep(0, REMOVE_FIRST), AdmitStep(0));
    Begins(s2, 0, files);
    RunConcat(s0, r3, [ReadStep(0), CommitStep(0)]);
    RunTwo(Run(s0, r3), ReadStep(0), CommitStep(0));
    Removes(Run(s0, r3), 0, 1, 1, 2, files);
  }

  /** After the run the second file is active, but no entry names it. */
  lemma SwapHappens()
    ensures var ns := Run(Initial(ROOT, Some(DRIVER)), SwapRun()).ns;
            && 2 in ns.files && ns.files[2].active && (forall p, n :: !LinkTo(ns, p, n, SECOND)) && !TreeOk(ns)
  {
    hide Execute, Run;
    FirstIsRemoved();
    var s0 := Initial(ROOT, Some(DRIVER));
    var r3 := BeforeRemoval();
    var files := map[1 := File(false, DRIVER)];
    var put := Alone(0, PutNew(ROOT, "x", 2, DRIVER));
    Puts(Run(s0, r3), 0, 2, 3, files);
    RunConcat(s0, r3, [put[0], put[1], put[2]]);
    RunThree(Run(s0, r3), put[0], put[1], put[2]);
    assert r3 + put == r3 + [put[0], put[1], put[2]];
    Removes(Run(s0, r3 + put), 1, 1, 2, 4, files[2 := File(true, DRIVER)]);
    RunConcat(s0, r3 + put, [ReadStep(1), CommitStep(1)]);
    RunTwo(Run(s0, r3 + put), ReadStep(1), CommitStep(1));
    assert SwapRun() == r3 + put + [ReadStep(1), CommitStep(1)];
    var ns := Run(s0, SwapRun()).ns;
    assert !FileOk(ns, 2);
    if TreeOk(ns) { FilesHave(ns, 2, ROOT, "x", ROOT, "x"); }
  }

  lemma Begins(s: System, w: nat, files: map<FileId, File>)
    requires s.ns == RootOnly(2, map["x" := Entry(FIRST, 1)], files) && WorkerAt(s, w).Idle?
    ensures Execute(Execute(s, BeginStep(w, REMOVE_FIRST)), AdmitStep(w)) == Goto(s, w, Restart(REMOVE_FIRST))
  {
    GotoTwice(s, w, Admitting(REMOVE_FIRST, 0), Restart(REMOVE_FIRST));
  }
}
