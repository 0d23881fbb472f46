/** A handler that nobody disturbs carries its request through: its own checks refuse nothing that the tree allows. */
module NamespaceProgress {
  import opened Options
  import opened NamespaceTables
  import opened NamespaceProtocol
  import opened NamespaceInvariant
  import opened NamespaceMounts
  import opened NamespaceSafety
  import opened NamespaceEffects
  import opened NamespaceAdmission
  import opened NamespaceRuns

  // ---------------------------------------------------------------- what the tree must allow

  predicate IsFreeName(ns: Namespace, d: DirectoryId, name: string) {
    && d in ns.entries && name !in ns.entries[d]
    && forall x | x in ns.directories :: !(ns.directories[x].parent == Some(d) && ns.directories[x].name == name)
  }

  /** Beyond what admission looks for: free names and new ids, and for a put the driver and, if it overwrites, the file. */
  predicate Allows(ns: Namespace, request: Request) {
    && (forall k :: 0 <= k < 4 ==> Finds(ns, request, k))
    && match request
       case Mkdir(parent, name, child) => child !in ns.directories && IsFreeName(ns, parent, name)
       case Remove(_, _, _, _) => true
       case Rename(_, _, destination, newName, subject, _) =>
         && destination in ns.entries && newName !in ns.entries[destination]
         && (subject.DirectorySubject? ==> IsFreeName(ns, destination, newName))
       case PutNew(d, name, f, driver) =>
         && IsListed(ns, d) && name !in ns.entries[d] && f !in ns.files && d in ns.drivers && ns.drivers[d] == driver
       case PutOver(d, name, f, driver, revision) =>
         && IsListed(ns, d) && Holds(ns, d, name, FileSubject(f), revision) && d in ns.drivers && ns.drivers[d] == driver
  }

  /** A path of at most 32 directories from `d` up to the root. */
  predicate IsPath(ns: Namespace, c: seq<DirectoryId>, d: DirectoryId) {
    IsChain(ns.directories, c) && c[0] == d && |c| <= 32
  }

  /** The paths that the planner walks; a directory is not moved below itself. */
  predicate HasPaths(ns: Namespace, request: Request, c: seq<DirectoryId>, e: seq<DirectoryId>) {
    && IsPath(ns, c, Start(request))
    && (if request.Rename? then IsPath(ns, e, request.destination) else e == [])
    && (request.Rename? && request.subject.DirectorySubject? ==> request.subject.directory !in e)
  }

  // ---------------------------------------------------------------- walking up

  function SetOf(c: seq<DirectoryId>): set<DirectoryId> {
    set d | d in c
  }

  /** The rows of today. */
  function RowsFor(ns: Namespace, ds: set<DirectoryId>): Plan {
    map d | d in ds && d in ns.directories && d in ns.entries :: Row(ns.directories[d], ns.entries[d])
  }

  predicate AllListed(ns: Namespace, c: seq<DirectoryId>) {
    forall d | d in c :: IsListed(ns, d)
  }

  function Reads(w: nat, n: nat): seq<Step> {
    seq(n, _ => ReadStep(w))
  }

  lemma NoRepeats(directories: map<DirectoryId, Directory>, c: seq<DirectoryId>, i: nat, j: nat)
    requires IsChain(directories, c) && i < j < |c|
    ensures c[i] != c[j]
  {
    if c[i] == c[j] {
      ChainTail(directories, c, i);
      ChainTail(directories, c, j);
      ChainUnique(directories, c[i..], c[j..]);
    }
  }

  lemma {:induction false} SizeOfSet(c: seq<DirectoryId>)
    ensures |SetOf(c)| <= |c|
  {
    if c != [] {
      SizeOfSet(c[1..]);
      assert SetOf(c) == SetOf(c[1..]) + {c[0]} by { assert c == [c[0]] + c[1..]; }
    }
  }

  lemma OneMoreDirectory(c: seq<DirectoryId>, i: nat)
    requires i < |c|
    ensures SetOf(c[..i + 1]) == SetOf(c[..i]) + {c[i]}
  {
    assert c[..i + 1] == c[..i] + [c[i]];
  }

  lemma OneMoreRow(ns: Namespace, ds: set<DirectoryId>, d: DirectoryId)
    requires IsListed(ns, d)
    ensures RowsFor(ns, ds + {d})
            == if d in RowsFor(ns, ds) then RowsFor(ns, ds) else RowsFor(ns, ds)[d := Row(ns.directories[d], ns.entries[d])]
  {
  }

  /** One read of a listed directory that the walk has not seen. */
  lemma ReadsListed(ns: Namespace, request: Request, ds: set<DirectoryId>, walked: set<DirectoryId>, d: DirectoryId, second: bool)
    requires IsListed(ns, d) && d !in walked && |walked| < 32
    ensures var plan := RowsFor(ns, ds + {d});
            Read(ns, Walking(request, RowsFor(ns, ds), walked, d, second)) ==
              if ns.directories[d].parent.Some? then Walking(request, plan, walked + {d}, ns.directories[d].parent.value, second)
              else if request.Rename? && !second then Walking(request, plan, {}, request.destination, true)
              else if PlanAccepted(request, plan, walked + {d}) then Planned(request, plan, walked + {d}) else Idle
  {
    hide PlanAccepted, RowsFor;
    OneMoreRow(ns, ds, d);
  }

  /** After `i` reads of a walk up `c` the worker has the rows of the first `i` directories and goes on to the next. */
  predicate IsWalking(s: System, t: System, w: nat, request: Request, before: set<DirectoryId>, second: bool, c: seq<DirectoryId>, i: nat)
    requires i < |c|
  {
    t == Goto(s, w, Walking(request, RowsFor(s.ns, before + SetOf(c[..i])), SetOf(c[..i]), c[i], second))
  }

  lemma NextIsNew(ns: Namespace, c: seq<DirectoryId>, i: nat)
    requires IsChain(ns.directories, c) && |c| <= 32 && i < |c|
    ensures c[i] !in SetOf(c[..i]) && |SetOf(c[..i])| < 32
  {
    forall j | 0 <= j < i ensures c[j] != c[i] { NoRepeats(ns.directories, c, j, i); }
    SizeOfSet(c[..i]);
  }

  lemma ReadsOn(s: System, t: System, w: nat, request: Request, before: set<DirectoryId>, second: bool, c: seq<DirectoryId>, i: nat)
    requires IsChain(s.ns.directories, c) && AllListed(s.ns, c) && |c| <= 32 && i + 1 < |c|
    requires IsWalking(s, t, w, request, before, second, c, i)
    ensures IsWalking(s, Execute(t, ReadStep(w)), w, request, before, second, c, i + 1)
  {
    hide Read, RowsFor, SetOf;
    assert c[i] in c && ParentIs(s.ns.directories, c[i], c[i + 1]);
    OneMoreDirectory(c, i);
    NextIsNew(s.ns, c, i);
    assert before + SetOf(c[..i]) + {c[i]} == before + SetOf(c[..i + 1]);
    ReadsListed(s.ns, request, before + SetOf(c[..i]), SetOf(c[..i]), c[i], second);
    GotoTwice(s, w, WorkerAt(t, w), WorkerAt(Execute(t, ReadStep(w)), w));
  }

  lemma {:induction false} WalksUp(
    s: System, w: nat, request: Request, before: set<DirectoryId>, second: bool, c: seq<DirectoryId>, i: nat)
    requires IsChain(s.ns.directories, c) && AllListed(s.ns, c) && |c| <= 32 && i < |c|
    requires WorkerAt(s, w) == Walking(request, RowsFor(s.ns, before), {}, c[0], second)
    ensures IsWalking(s, Run(s, Reads(w, i)), w, request, before, second, c, i)
    decreases i
  {
    hide Execute;
    if i == 0 {
      assert SetOf(c[..0]) == {} && before + {} == before;
      assert s.workers == s.workers[w := WorkerAt(s, w)];
    } else {
      WalksUp(s, w, request, before, second, c, i - 1);
      assert Reads(w, i)[..i - 1] == Reads(w, i - 1);
      ReadsOn(s, Run(s, Reads(w, i - 1)), w, request, before, second, c, i - 1);
    }
  }

  /** The read of the root ends the walk. */
  lemma ReadsRoot(s: System, t: System, w: nat, request: Request, before: set<DirectoryId>, second: bool, c: seq<DirectoryId>)
    requires IsChain(s.ns.directories, c) && AllListed(s.ns, c) && |c| <= 32
    requires IsWalking(s, t, w, request, before, second, c, |c| - 1)
    ensures var plan := RowsFor(s.ns, before + SetOf(c));
            Execute(t, ReadStep(w)) == Goto(s, w,
              if request.Rename? && !second then Walking(request, plan, {}, request.destination, true)
              else if PlanAccepted(request, plan, SetOf(c)) then Planned(request, plan, SetOf(c)) else Idle)
  {
    hide Read, RowsFor, SetOf, PlanAccepted;
    var i := |c| - 1;
    assert c[i] in c && c[..i + 1] == c;
    OneMoreDirectory(c, i);
    NextIsNew(s.ns, c, i);
    assert before + SetOf(c[..i]) + {c[i]} == before + SetOf(c);
    ReadsListed(s.ns, request, before + SetOf(c[..i]), SetOf(c[..i]), c[i], second);
    GotoTwice(s, w, WorkerAt(t, w), WorkerAt(Execute(t, ReadStep(w)), w));
  }

  lemma WalkToRoot(s: System, w: nat, request: Request, before: set<DirectoryId>, second: bool, c: seq<DirectoryId>)
    requires IsChain(s.ns.directories, c) && AllListed(s.ns, c) && |c| <= 32
    requires WorkerAt(s, w) == Walking(request, RowsFor(s.ns, before), {}, c[0], second)
    ensures var plan := RowsFor(s.ns, before + SetOf(c));
            Run(s, Reads(w, |c|)) == Goto(s, w,
              if request.Rename? && !second then Walking(request, plan, {}, request.destination, true)
              else if PlanAccepted(request, plan, SetOf(c)) then Planned(request, plan, SetOf(c)) else Idle)
  {
    hide Execute, PlanAccepted;
    WalksUp(s, w, request, before, second, c, |c| - 1);
    assert Reads(w, |c|)[..|c| - 1] == Reads(w, |c| - 1);
    ReadsRoot(s, Run(s, Reads(w, |c| - 1)), w, request, before, second, c);
  }

  // ---------------------------------------------------------------- admission

  function AdmitSteps(w: nat, n: nat): seq<Step> {
    seq(n, _ => AdmitStep(w))
  }

  lemma {:induction false} PassesAdmission(s: System, w: nat, request: Request, k: nat)
    requires WorkerAt(s, w) == Onward(request, 0) && k <= ChecksOf(request)
    requires forall j: nat | j < k :: Finds(s.ns, request, j)
    ensures Run(s, AdmitSteps(w, k)) == Goto(s, w, Onward(request, k))
    decreases k
  {
    hide Execute, Finds;
    if k == 0 {
      OnwardIsStored(s, w, request);
    } else {
      PassesAdmission(s, w, request, k - 1);
      assert AdmitSteps(w, k)[..k - 1] == AdmitSteps(w, k - 1);
      var t := Run(s, AdmitSteps(w, k - 1));
      AdmissionGoesOn(t, w);
      GotoTwice(s, w, Onward(request, k - 1), Onward(request, k));
    }
  }

  lemma OnwardIsStored(s: System, w: nat, request: Request)
    requires WorkerAt(s, w) == Onward(request, 0)
    ensures s == Goto(s, w, Onward(request, 0))
  {
    assert s.workers == s.workers[w := WorkerAt(s, w)];
  }

  // ---------------------------------------------------------------- the planner's own check

  /** The directories on a path upwards are listed and linked one to the next. */
  lemma PathIsLinked(ns: Namespace, c: seq<DirectoryId>, i: nat)
    requires DirectoriesOk(ns) && IsChain(ns.directories, c) && IsListed(ns, c[0]) && i < |c|
    ensures AllListed(ns, c)
    ensures i + 1 < |c| ==> LinkTo(ns, c[i + 1], ns.directories[c[i]].name, DirectorySubject(c[i]))
  {
    ActiveChain(ns, c);
    forall d | d in c ensures IsListed(ns, d) {
      var j :| 0 <= j < |c| && c[j] == d;
    }
    hide IsChain, ChainOk;
    if i + 1 < |c| {
      ChainStep(ns, c, i);
      assert DirectoryOk(ns, c[i]);
    }
  }

  lemma ChainStep(ns: Namespace, c: seq<DirectoryId>, i: nat)
    requires IsChain(ns.directories, c) && i + 1 < |c|
    ensures ParentIs(ns.directories, c[i], c[i + 1])
  {
  }

  lemma LinksAreShown(ns: Namespace, c: seq<DirectoryId>, e: seq<DirectoryId>)
    requires DirectoriesOk(ns) && IsChain(ns.directories, c) && IsListed(ns, c[0])
    requires e != [] ==> IsChain(ns.directories, e) && IsListed(ns, e[0])
    ensures LinksShown(RowsFor(ns, SetOf(c) + SetOf(e)))
  {
    hide DirectoriesOk, IsChain;
    var plan := RowsFor(ns, SetOf(c) + SetOf(e));
    forall d | d in plan ensures LinkShown(plan, d) {
      if d in c {
        LinkOnPath(ns, plan, c, d);
      } else {
        LinkOnPath(ns, plan, e, d);
      }
    }
  }

  lemma LinkOnPath(ns: Namespace, plan: Plan, c: seq<DirectoryId>, d: DirectoryId)
    requires DirectoriesOk(ns) && IsChain(ns.directories, c) && IsListed(ns, c[0]) && d in c && d in plan
    requires forall x | x in c && IsListed(ns, x) :: x in plan && plan[x] == Row(ns.directories[x], ns.entries[x])
    ensures LinkShown(plan, d)
  {
    hide DirectoriesOk;
    var i :| 0 <= i < |c| && c[i] == d;
    PathIsLinked(ns, c, i);
    if i + 1 < |c| { ChainStep(ns, c, i); }
  }

  /** The entry of a directory that is to be removed or moved names a directory with that parent and name. */
  lemma SubjectIsChild(ns: Namespace, d: DirectoryId, name: string, s: DirectoryId)
    requires DirectoriesOk(ns) && LinkTo(ns, d, name, DirectorySubject(s))
    ensures MoveMatches(ns, s, d, name) && s in ns.entries
  {
    hide IsChain, ChainOk;
    assert EntryOk(ns, d, name) && DirectoryOk(ns, s);
  }

  /** A directory without entries lies on no path from another, and a directory on none from its parent. */
  lemma NotOnPath(ns: Namespace, c: seq<DirectoryId>, s: DirectoryId)
    requires DirectoriesOk(ns) && IsChain(ns.directories, c) && IsListed(ns, c[0])
    requires (s in ns.entries && ns.entries[s] == map[] && c[0] != s) || ParentIs(ns.directories, s, c[0])
    ensures s !in c
  {
    hide DirectoriesOk;
    if s in c {
      var i :| 0 <= i < |c| && c[i] == s;
      if ParentIs(ns.directories, s, c[0]) {
        ChainExtends(ns.directories, s, c);
        NoRepeats(ns.directories, [s] + c, 0, i + 1);
      } else {
        PathIsLinked(ns, c, i - 1);
      }
    }
  }

  lemma PlanIsAccepted(ns: Namespace, request: Request, c: seq<DirectoryId>, e: seq<DirectoryId>)
    requires TreeOk(ns) && Allows(ns, request) && HasPaths(ns, request, c, e)
    ensures PlanAccepted(request, RowsFor(ns, SetOf(c) + SetOf(e)), if request.Rename? then SetOf(e) else SetOf(c))
  {
    hide DirectoriesOk, FilesOk, IsChain;
    AllowsListed(ns, request);
    LinksAreShown(ns, c, e);
    PathStarts(ns, c, Start(request));
    if request.Rename? { PathStarts(ns, e, request.destination); }
    hide LinksShown;
    RowsOfHere(ns, SetOf(c) + SetOf(e), Start(request));
    if request.Rename? { RowsOfHere(ns, SetOf(c) + SetOf(e), request.destination); }
    hide RowsFor;
    match request
    case Mkdir(parent, name, child) =>
    case Remove(d, name, subject, revision) => assert Finds(ns, request, 0);
    case Rename(source, name, destination, newName, subject, revision) => assert Finds(ns, request, 0);
    case PutNew(d, name, f, driver) =>
    case PutOver(d, name, f, driver, revision) =>
  }

  lemma RowsOfHere(ns: Namespace, ds: set<DirectoryId>, d: DirectoryId)
    requires IsListed(ns, d) && d in ds
    ensures d in RowsFor(ns, ds) && RowsFor(ns, ds)[d] == Row(ns.directories[d], ns.entries[d])
  {
  }

  lemma AllowsListed(ns: Namespace, request: Request)
    requires Allows(ns, request)
    ensures IsListed(ns, Start(request)) && (request.Rename? ==> IsListed(ns, request.destination))
  {
    assert Finds(ns, request, 0) && Finds(ns, request, 1);
  }

  lemma PathStarts(ns: Namespace, c: seq<DirectoryId>, d: DirectoryId)
    requires IsPath(ns, c, d)
    ensures d in c
  {
  }

  // ---------------------------------------------------------------- the batch

  /** Nothing that the batch looks at besides the admission and the plan refuses it. */
  lemma BatchCommits(ns: Namespace, request: Request, c: seq<DirectoryId>, e: seq<DirectoryId>)
    requires TreeOk(ns) && Allows(ns, request) && HasPaths(ns, request, c, e)
    ensures Commits(ns, request, RowsFor(ns, SetOf(c) + SetOf(e)))
  {
    hide DirectoriesOk, FilesOk;
    var plan := RowsFor(ns, SetOf(c) + SetOf(e));
    assert FenceHolds(ns, plan);
    hide FenceHolds;
    AllowsListed(ns, request);
    match request {
      case Mkdir(parent, name, child) => assert Finds(ns, request, 1);
      case Remove(d, name, subject, revision) => RemovalCommits(ns, request, c);
      case Rename(source, name, destination, newName, subject, revision) => MoveCommits(ns, request, c, e);
      case PutNew(d, name, f, driver) =>
      case PutOver(d, name, f, driver, revision) => FilesHave(ns, f, d, name, d, name);
    }
  }

  lemma RemovalCommits(ns: Namespace, request: Request, c: seq<DirectoryId>)
    requires DirectoriesOk(ns) && request.Remove? && Allows(ns, request) && IsPath(ns, c, request.directory)
    ensures RemoveCommits(ns, request.directory, request.name, request.subject, request.revision, RowsFor(ns, SetOf(c) + SetOf([])))
  {
    hide DirectoriesOk;
    assert Finds(ns, request, 0) && Finds(ns, request, 1) && Finds(ns, request, 2);
    if request.subject.DirectorySubject? {
      var s := request.subject.directory;
      assert LinkTo(ns, request.directory, request.name, request.subject);
      SubjectIsChild(ns, request.directory, request.name, s);
      NotOnPath(ns, c, s);
    }
  }

  lemma MoveCommits(ns: Namespace, request: Request, c: seq<DirectoryId>, e: seq<DirectoryId>)
    requires TreeOk(ns) && request.Rename? && Allows(ns, request) && HasPaths(ns, request, c, e)
    ensures RenameCommits(ns, request.source, request.name, request.destination, request.newName, request.subject,
                          request.revision, RowsFor(ns, SetOf(c) + SetOf(e)))
  {
    hide DirectoriesOk, FilesOk;
    assert Finds(ns, request, 0) && Finds(ns, request, 1) && Finds(ns, request, 2) && Finds(ns, request, 3);
    assert LinkTo(ns, request.source, request.name, request.subject);
    OnlyLink(ns, request.source, request.name, request.subject);
    match request.subject
    case FileSubject(f) => FilesHave(ns, f, request.source, request.name, request.source, request.name);
    case DirectorySubject(s) =>
      SubjectIsChild(ns, request.source, request.name, s);
      NotOnPath(ns, c, s);
      NotAbove(ns, s, e);
  }

  lemma OnlyLink(ns: Namespace, d: DirectoryId, name: string, subject: Subject)
    requires TreeOk(ns) && LinkTo(ns, d, name, subject)
    ensures IsFree(ns, subject, d, name)
  {
    hide DirectoriesOk, FilesOk;
    forall q, m | q in ns.entries && m in ns.entries[q] && ns.entries[q][m].subject == subject ensures q == d && m == name {
      TreeHas(ns, d, name);
      TreeHas(ns, q, m);
      if subject.FileSubject? { FilesHave(ns, subject.file, d, name, q, m); }
    }
  }

  /** A directory that is not on the one path up from another is not above it. */
  lemma NotAbove(ns: Namespace, s: DirectoryId, e: seq<DirectoryId>)
    requires IsChain(ns.directories, e) && s !in e
    ensures !AtOrAbove(ns, s, e[0])
  {
    forall c | IsChain(ns.directories, c) && c[0] == e[0] ensures s !in c { ChainUnique(ns.directories, c, e); }
  }

  // ---------------------------------------------------------------- the whole request

  /** Begin, admission, and the walk or the two walks up, then the batch. */
  function Undisturbed(w: nat, request: Request, c: seq<DirectoryId>, e: seq<DirectoryId>): seq<Step> {
    [BeginStep(w, request)] + (AdmitSteps(w, ChecksOf(request)) + (Reads(w, |c|) + (Reads(w, |e|) + [CommitStep(w)])))
  }

  lemma PlansUndisturbed(s: System, w: nat, request: Request, c: seq<DirectoryId>, e: seq<DirectoryId>)
    requires TreeOk(s.ns) && Allows(s.ns, request) && HasPaths(s.ns, request, c, e)
    requires WorkerAt(s, w) == Walking(request, map[], {}, Start(request), false)
    ensures Run(s, Reads(w, |c|) + Reads(w, |e|))
            == Goto(s, w, Planned(request, RowsFor(s.ns, SetOf(c) + SetOf(e)), if request.Rename? then SetOf(e) else SetOf(c)))
  {
    hide TreeOk, Allows, PlanAccepted, Run;
    AllowsListed(s.ns, request);
    PathsAreListed(s.ns, request, c, e);
    PlanIsAccepted(s.ns, request, c, e);
    assert RowsFor(s.ns, {}) == map[];
    assert {} + SetOf(c) == SetOf(c);
    WalkToRoot(s, w, request, {}, false, c);
    RunConcat(s, Reads(w, |c|), Reads(w, |e|));
    var t := Run(s, Reads(w, |c|));
    if request.Rename? {
      WalkToRoot(t, w, request, SetOf(c), true, e);
      GotoTwice(s, w, WorkerAt(t, w), WorkerAt(Run(t, Reads(w, |e|)), w));
    } else {
      assert SetOf(c) + SetOf(e) == SetOf(c) && Reads(w, |e|) == [];
      assert Reads(w, |c|) + Reads(w, |e|) == Reads(w, |c|);
    }
  }

  lemma PathsAreListed(ns: Namespace, request: Request, c: seq<DirectoryId>, e: seq<DirectoryId>)
    requires TreeOk(ns) && Allows(ns, request) && HasPaths(ns, request, c, e)
    ensures AllListed(ns, c) && (request.Rename? ==> AllListed(ns, e))
  {
    hide DirectoriesOk, FilesOk;
    AllowsListed(ns, request);
    PathIsLinked(ns, c, 0);
    if request.Rename? { PathIsLinked(ns, e, 0); }
  }

  /**
   In a tree in order, a request that the tree allows, and whose directories lie at most 32 deep, is carried
   through by its worker alone: its links and subjects come and go as it says.
   */
  lemma UndisturbedRequestCommits(s: System, w: nat, request: Request, c: seq<DirectoryId>, e: seq<DirectoryId>,
                                  p: DirectoryId, n: string, x: Subject)
    requires TreeOk(s.ns) && Rooted(s.ns) && WorkerAt(s, w).Idle?
    requires Allows(s.ns, request) && HasPaths(s.ns, request, c, e)
    ensures var t := Run(s, Undisturbed(w, request, c, e));
            && WorkerAt(t, w).Idle? && (forall v | v != w :: WorkerAt(t, v) == WorkerAt(s, v))
            && (LinkTo(t.ns, p, n, x) <==> LinkedAfter(s.ns, request, p, n, x))
            && (IsLive(t.ns, x) <==> LiveAfter(s.ns, request, x))
  {
    hide Execute, Run, TreeOk, Rooted, Allows, HasPaths, Commits, Commit, LinkedAfter, LiveAfter, IsLive, Finds, ChecksOf;
    var plan := RowsFor(s.ns, SetOf(c) + SetOf(e));
    var t := CarriesThrough(s, w, request, c, e);
    BatchCommits(s.ns, request, c, e);
    CommitLinks(s.ns, request, plan, p, n, x);
    CommitLives(s.ns, request, plan, x);
  }

  lemma CarriesThrough(s: System, w: nat, request: Request, c: seq<DirectoryId>, e: seq<DirectoryId>) returns (t: System)
    requires TreeOk(s.ns) && WorkerAt(s, w).Idle? && Allows(s.ns, request) && HasPaths(s.ns, request, c, e)
    ensures t == Run(s, Undisturbed(w, request, c, e))
    ensures t == Goto(s, w, Idle).(ns := Commit(s.ns, request, RowsFor(s.ns, SetOf(c) + SetOf(e))))
  {
    hide Run, TreeOk, HasPaths, Commits, Commit, ChecksOf;
    var plan := RowsFor(s.ns, SetOf(c) + SetOf(e));
    var planned := Planned(request, plan, if request.Rename? then SetOf(e) else SetOf(c));
    var begun := Goto(s, w, Onward(request, 0));
    AdmissionBegins(s, w, request);
    AllFound(s.ns, request);
    hide Execute, Finds, Allows;
    PassesAdmission(begun, w, request, ChecksOf(request));
    var walking := Goto(s, w, Walking(request, map[], {}, Start(request), false));
    GotoTwice(s, w, Onward(request, 0), Onward(request, ChecksOf(request)));
    OnwardEnds(request);
    PlansUndisturbed(walking, w, request, c, e);
    GotoTwice(s, w, Walking(request, map[], {}, Start(request), false), planned);
    var walks := Reads(w, |c|) + Reads(w, |e|);
    assert Reads(w, |c|) + (Reads(w, |e|) + [CommitStep(w)]) == walks + [CommitStep(w)];
    RunFirst(s, BeginStep(w, request), AdmitSteps(w, ChecksOf(request)) + (walks + [CommitStep(w)]));
    RunConcat(begun, AdmitSteps(w, ChecksOf(request)), walks + [CommitStep(w)]);
    RunConcat(walking, walks, [CommitStep(w)]);
    RunOne(Goto(s, w, planned), CommitStep(w));
    BatchCommits(s.ns, request, c, e);
    CommitsFrom(s, w, planned);
    t := Goto(s, w, Idle).(ns := Commit(s.ns, request, plan));
  }

  lemma AllFound(ns: Namespace, request: Request)
    requires Allows(ns, request)
    ensures forall j: nat | j < ChecksOf(request) :: Finds(ns, request, j)
  {
    hide Finds;
  }

  lemma OnwardEnds(request: Request)
    ensures Onward(request, ChecksOf(request)) == Walking(request, map[], {}, Start(request), false)
  {
  }

  lemma CommitsFrom(s: System, w: nat, p: Worker)
    requires p.Planned? && Commits(s.ns, p.request, p.plan)
    ensures Execute(Goto(s, w, p), CommitStep(w)) == Goto(s, w, Idle).(ns := Commit(s.ns, p.request, p.plan))
  {
    hide Commits, Commit;
    GotoTwice(s, w, p, Idle);
  }
}
