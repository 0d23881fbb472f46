/**
 Namespace handlers as a transition system: each worker makes its admission checks one read at a time, walks
 up the tree one directory read at a time, and then tries its one batch. Everything may change between two steps.
 */
module NamespaceProtocol {
  import opened Options
  import opened NamespaceTables

  datatype Worker =
    | Idle
    | Admitting(request: Request, passed: nat)
    | Walking(request: Request, plan: Plan, walked: set<DirectoryId>, next: DirectoryId, second: bool)
    | Planned(request: Request, plan: Plan, walked: set<DirectoryId>)
    | Placing(directory: DirectoryId, driver: Driver, expected: nat, chosen: Option<DesiredMount>, safe: bool)
    | PlacementReady(directory: DirectoryId, driver: Driver, desired: DesiredMount, expected: nat, oldCount: nat)

  datatype System = System(ns: Namespace, workers: map<nat, Worker>)

  datatype Step =
    | BeginStep(w: nat, request: Request)
    | AdmitStep(w: nat)
    | ReadStep(w: nat)
    | CommitStep(w: nat)
    | BeginPlacementStep(w: nat, directory: DirectoryId, driver: Driver, expected: nat)
    | PlacementReadStep(w: nat)
    | CommitPlacementStep(w: nat)
    | CrashStep(w: nat)

  function WorkerAt(s: System, w: nat): Worker {
    if w in s.workers then s.workers[w] else Idle
  }

  function Goto(s: System, w: nat, worker: Worker): System {
    s.(workers := s.workers[w := worker])
  }

  /** Where the planner starts walking. */
  function Start(request: Request): DirectoryId {
    match request
    case Mkdir(parent, _, _) => parent
    case Remove(d, _, _, _) => d
    case Rename(source, _, _, _, _, _) => source
    case PutNew(d, _, _, _) => d
    case PutOver(d, _, _, _, _) => d
  }

  predicate HasEntry(ns: Namespace, d: DirectoryId, name: string, subject: Subject, revision: nat) {
    d in ns.entries && name in ns.entries[d] && ns.entries[d][name] == Entry(subject, revision)
  }

  /** How many reads a handler makes before it plans. A put's own reads belong to its intent. */
  function AdmissionReads(request: Request): nat {
    match request
    case Mkdir(_, _, _) => 2
    case Remove(_, _, subject, _) => if subject.DirectorySubject? then 3 else 1
    case Rename(_, _, _, _, subject, _) => if subject.DirectorySubject? then 4 else 3
    case PutNew(_, _, _, _) => 0
    case PutOver(_, _, _, _, _) => 0
  }

  /**
   What the read after `passed` others must show; it says nothing about later states. The first read of a removal
   or a rename loads the entry, and with it the subject of the request.
   */
  predicate Admits(ns: Namespace, request: Request, passed: nat) {
    match request
    case Mkdir(parent, _, _) => if passed == 0 then IsActive(ns, parent) else parent in ns.drivers
    case Remove(d, name, subject, revision) =>
      if passed == 0 then IsActive(ns, d) && HasEntry(ns, d, name, subject, revision)
      else if passed == 1 then
        subject.DirectorySubject? ==> subject.directory in ns.entries && ns.entries[subject.directory] == map[]
      else subject.DirectorySubject? ==> !IsExplicit(ns, subject.directory)
    case Rename(source, name, destination, newName, subject, revision) =>
      if passed == 0 then
        IsActive(ns, source) && HasEntry(ns, source, name, subject, revision) && (source != destination || name != newName)
      else if passed == 1 then IsActive(ns, destination)
      else if passed == 2 then SameDriver(ns, source, destination)
      else subject.DirectorySubject? ==> !IsExplicit(ns, subject.directory)
    case PutNew(d, _, _, _) => true
    case PutOver(d, _, _, _, _) => true
  }

  /** Every directory of the plan is linked from its parent, as the rows show them. */
  predicate LinkShown(plan: Plan, d: DirectoryId)
    requires d in plan
  {
    var row := plan[d].directory;
    row.parent.Some? ==>
      && row.parent.value in plan && row.name in plan[row.parent.value].entries
      && plan[row.parent.value].entries[row.name].subject == DirectorySubject(d)
  }

  predicate LinksShown(plan: Plan) {
    forall d | d in plan :: LinkShown(plan, d)
  }

  /** What the planner demands of the rows it read; `walked` is the last chain it walked. */
  predicate PlanAccepted(request: Request, plan: Plan, walked: set<DirectoryId>) {
    && LinksShown(plan) && Start(request) in plan
    && var here := plan[Start(request)].entries;
       match request
       case Mkdir(_, name, _) => name !in here
       case Remove(_, name, _, revision) => name in here && here[name].revision == revision
       case Rename(_, name, destination, newName, _, revision) =>
         && name in here && here[name].revision == revision
         && destination in plan && newName !in plan[destination].entries
         && (here[name].subject.DirectorySubject? ==> here[name].subject.directory !in walked)
       case PutNew(_, name, _, _) => name !in here
       case PutOver(_, name, f, _, revision) => name in here && here[name] == Entry(FileSubject(f), revision)
  }

  function Restart(request: Request): Worker {
    Walking(request, map[], {}, Start(request), false)
  }

  /** After `passed` admission reads: the next one, or the walk. */
  function Admitted(request: Request, passed: nat): Worker {
    if passed < AdmissionReads(request) then Admitting(request, passed) else Restart(request)
  }

  /** One read of the walk. The first row read of a directory is kept. */
  function Read(ns: Namespace, p: Worker): Worker
    requires p.Walking?
  {
    var d := p.next;
    if !IsActive(ns, d) || d in p.walked || |p.walked| >= MAXIMUM_DIRECTORY_DEPTH then Idle
    else
      var plan := if d in p.plan then p.plan else p.plan[d := Row(ns.directories[d], ns.entries[d])];
      var walked := p.walked + {d};
      match ns.directories[d].parent
      case Some(parent) => Walking(p.request, plan, walked, parent, p.second)
      case None =>
        if p.request.Rename? && !p.second then Walking(p.request, plan, {}, p.request.destination, true)
        else if PlanAccepted(p.request, plan, walked) then Planned(p.request, plan, walked)
        else Idle
  }

  /** A replacement asks for the relationship, then whether the change is safe, then for the old rows. */
  ghost function PlacementRead(ns: Namespace, p: Worker): Worker
    requires p.Placing?
  {
    if p.chosen.None? then
      var desired := Desired(ns, p.directory, p.driver);
      if desired.Some? then p.(chosen := desired) else Idle
    else if !p.safe then
      if ChangeIsSafe(ns, p.directory, p.driver) then p.(safe := true) else Idle
    else PlacementReady(p.directory, p.driver, p.chosen.value, p.expected, DriverCount(ns, p.directory))
  }

  ghost function Execute(s: System, step: Step): System {
    match step
    case BeginStep(w, request) =>
      if WorkerAt(s, w).Idle? then Goto(s, w, Admitted(request, 0)) else s
    case AdmitStep(w) =>
      var p := WorkerAt(s, w);
      if !p.Admitting? then s
      else Goto(s, w, if Admits(s.ns, p.request, p.passed) then Admitted(p.request, p.passed + 1) else Idle)
    case ReadStep(w) =>
      if WorkerAt(s, w).Walking? then Goto(s, w, Read(s.ns, WorkerAt(s, w))) else s
    case CommitStep(w) =>
      var p := WorkerAt(s, w);
      if !p.Planned? then s
      else
        Goto(s, w, if Commits(s.ns, p.request, p.plan) then Idle else Restart(p.request)).(
          ns := Commit(s.ns, p.request, p.plan))
    case BeginPlacementStep(w, d, driver, expected) =>
      if !WorkerAt(s, w).Idle? || !IsActive(s.ns, d) || d !in s.ns.placements || s.ns.placements[d] != expected then s
      else Goto(s, w, Placing(d, driver, expected, None, false))
    case PlacementReadStep(w) =>
      if WorkerAt(s, w).Placing? then Goto(s, w, PlacementRead(s.ns, WorkerAt(s, w))) else s
    case CommitPlacementStep(w) =>
      var p := WorkerAt(s, w);
      if !p.PlacementReady? then s
      else Goto(s, w, Idle).(ns := ReplacePlacement(s.ns, p.directory, p.driver, p.desired, p.expected, p.oldCount))
    case CrashStep(w) => Goto(s, w, Idle)
  }

  function Initial(root: DirectoryId, driver: Option<Driver>): System {
    System(Bootstrap(root, driver), map[])
  }

  ghost function Run(s: System, steps: seq<Step>): System
    decreases |steps|
  {
    if steps == [] then s else Execute(Run(s, steps[..|steps| - 1]), steps[|steps| - 1])
  }

  /** A removal whose entry still has the subject that the handler loaded. */
  predicate RemovesItsSubject(ns: Namespace, request: Request) {
    request.Remove? && request.directory in ns.entries && request.name in ns.entries[request.directory] ==>
      ns.entries[request.directory][request.name].subject == request.subject
  }

  /** The step is a batch that goes through. */
  ghost predicate CommitsBatch(s: System, step: Step) {
    step.CommitStep? && WorkerAt(s, step.w).Planned? && Commits(s.ns, WorkerAt(s, step.w).request, WorkerAt(s, step.w).plan)
  }

  ghost predicate Faithful(s: System, step: Step) {
    CommitsBatch(s, step) ==> RemovesItsSubject(s.ns, WorkerAt(s, step.w).request)
  }

  /** No removal in the run deletes an entry that was swapped for another of the same revision. */
  ghost predicate AlwaysFaithful(s: System, steps: seq<Step>)
    decreases |steps|
  {
    steps == []
    || (AlwaysFaithful(s, steps[..|steps| - 1]) && Faithful(Run(s, steps[..|steps| - 1]), steps[|steps| - 1]))
  }

  predicate IsActiveDirectory(ns: Namespace, subject: Subject) {
    subject.DirectorySubject? && subject.directory in ns.directories && ns.directories[subject.directory].active
  }

  /** Where the batch of a removal or a rename deletes an entry. */
  predicate Deletes(request: Request) {
    request.Remove? || request.Rename?
  }

  /** A batch deletes the entry of an active directory exactly if that directory is its subject. */
  predicate KeepsDirectories(ns: Namespace, request: Request) {
    Deletes(request) && Start(request) in ns.entries && request.name in ns.entries[Start(request)] ==>
      var held := ns.entries[Start(request)][request.name].subject;
      IsActiveDirectory(ns, held) || IsActiveDirectory(ns, request.subject) ==> held == request.subject
  }

  ghost predicate Careful(s: System, step: Step) {
    CommitsBatch(s, step) ==> KeepsDirectories(s.ns, WorkerAt(s, step.w).request)
  }

  /** No batch in the run takes a directory's entry for another's; files may be swapped. */
  ghost predicate AlwaysCareful(s: System, steps: seq<Step>)
    decreases |steps|
  {
    steps == []
    || (AlwaysCareful(s, steps[..|steps| - 1]) && Careful(Run(s, steps[..|steps| - 1]), steps[|steps| - 1]))
  }
}
