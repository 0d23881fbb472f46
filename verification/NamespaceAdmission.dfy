/** What a handler has seen before it plans, and what its planning reads do. */
module NamespaceAdmission {
  import opened Options
  import opened NamespaceTables
  import opened NamespaceProtocol
  import opened NamespaceInvariant
  import opened NamespaceMounts
  import opened NamespaceSafety

  // ---------------------------------------------------------------- admission

  /** The reads of a handler, in order: how many there are, and what each must find. */
  function ChecksOf(request: Request): nat {
    match request
    case Mkdir(_, _, _) => 2
    case Remove(_, _, subject, _) => (match subject case FileSubject(_) => 1 case DirectorySubject(_) => 3)
    case Rename(_, _, _, _, subject, _) => (match subject case FileSubject(_) => 3 case DirectorySubject(_) => 4)
    case PutNew(_, _, _, _) => 0
    case PutOver(_, _, _, _, _) => 0
  }

  predicate IsListed(ns: Namespace, d: DirectoryId) {
    d in ns.directories && ns.directories[d].active && d in ns.entries
  }

  predicate Holds(ns: Namespace, d: DirectoryId, name: string, subject: Subject, revision: nat) {
    d in ns.entries && name in ns.entries[d] && ns.entries[d][name].subject == subject && ns.entries[d][name].revision == revision
  }

  predicate IsMounted(ns: Namespace, d: DirectoryId) {
    d in ns.mounts && ns.mounts[d].kind == Explicit
  }

  /**
   A mkdir wants a listed parent with a driver. A removal wants the entry it names, and of a directory that it is
   empty and no mount. A rename wants the entry and another place, a listed destination on the same driver, and of a
   directory that it is no mount.
   */
  predicate Finds(ns: Namespace, request: Request, k: nat) {
    match request
    case Mkdir(parent, _, _) => (k == 0 ==> IsListed(ns, parent)) && (k == 1 ==> parent in ns.drivers)
    case Remove(d, name, subject, revision) =>
      && (k == 0 ==> IsListed(ns, d) && Holds(ns, d, name, subject, revision))
      && (k == 1 && subject.DirectorySubject? ==> subject.directory in ns.entries && |ns.entries[subject.directory]| == 0)
      && (k == 2 && subject.DirectorySubject? ==> !IsMounted(ns, subject.directory))
    case Rename(source, name, destination, newName, subject, revision) =>
      && (k == 0 ==> IsListed(ns, source) && Holds(ns, source, name, subject, revision) && !(source == destination && name == newName))
      && (k == 1 ==> IsListed(ns, destination))
      && (k == 2 ==> source in ns.drivers && destination in ns.drivers && ns.drivers[source] == ns.drivers[destination])
      && (k == 3 && subject.DirectorySubject? ==> !IsMounted(ns, subject.directory))
    case _ => true
  }

  /** After `passed` reads a handler reads on, or begins to plan at its first directory. */
  function Onward(request: Request, passed: nat): Worker {
    if passed < ChecksOf(request) then Admitting(request, passed) else Walking(request, map[], {}, Start(request), false)
  }

  lemma ChecksAreReads(request: Request)
    ensures AdmissionReads(request) == ChecksOf(request)
  {
  }

  lemma AdmitsExactly(ns: Namespace, request: Request, k: nat)
    requires k < ChecksOf(request)
    ensures Admits(ns, request, k) <==> Finds(ns, request, k)
  {
    forall d | d in ns.entries ensures ns.entries[d] == map[] <==> |ns.entries[d]| == 0 {}
  }

  /** A handler goes on exactly when its next read finds what it wants, and gives up otherwise. */
  lemma AdmissionGoesOn(s: System, w: nat)
    requires WorkerAt(s, w).Admitting? && WorkerAt(s, w).passed < ChecksOf(WorkerAt(s, w).request)
    ensures var p := WorkerAt(s, w);
            Execute(s, AdmitStep(w)) ==
              Goto(s, w, if Finds(s.ns, p.request, p.passed) then Onward(p.request, p.passed + 1) else Idle)
  {
    var p := WorkerAt(s, w);
    AdmitsExactly(s.ns, p.request, p.passed);
    ChecksAreReads(p.request);
  }

  lemma AdmissionBegins(s: System, w: nat, request: Request)
    ensures Execute(s, BeginStep(w, request)) == if WorkerAt(s, w).Idle? then Goto(s, w, Onward(request, 0)) else s
  {
    ChecksAreReads(request);
  }

  // ---------------------------------------------------------------- over every run

  /** At some moment of the run the read `k` of the request found what it wanted. */
  ghost predicate Found(s: System, steps: seq<Step>, request: Request, k: nat) {
    exists i :: 0 <= i <= |steps| && Finds(Run(s, steps[..i]).ns, request, k)
  }

  ghost predicate AdmittedSo(s: System, steps: seq<Step>, p: Worker) {
    && (p.Admitting? ==> p.passed < ChecksOf(p.request) && forall k: nat | k < p.passed :: Found(s, steps, p.request, k))
    && (p.Walking? || p.Planned? ==> forall k: nat | k < ChecksOf(p.request) :: Found(s, steps, p.request, k))
  }

  lemma FoundStays(s: System, steps: seq<Step>, step: Step, request: Request, k: nat)
    requires Found(s, steps, request, k)
    ensures Found(s, steps + [step], request, k)
  {
    hide Run, Finds;
    var i :| 0 <= i <= |steps| && Finds(Run(s, steps[..i]).ns, request, k);
    assert (steps + [step])[..i] == steps[..i];
  }

  lemma FoundNow(s: System, steps: seq<Step>, request: Request, k: nat)
    requires Finds(Run(s, steps).ns, request, k)
    ensures Found(s, steps, request, k)
  {
    hide Run, Finds;
    assert steps[..|steps|] == steps;
  }

  lemma StepAdmits(s: System, steps: seq<Step>, step: Step, w: nat)
    requires AdmittedSo(s, steps, WorkerAt(Run(s, steps), w))
    ensures AdmittedSo(s, steps + [step], WorkerAt(Execute(Run(s, steps), step), w))
  {
    var now := Run(s, steps);
    var p, q := WorkerAt(now, w), WorkerAt(Execute(now, step), w);
    assert p.Admitting? ==> forall k: nat | k < p.passed :: Found(s, steps + [step], p.request, k) by {
      if p.Admitting? { forall k: nat | k < p.passed ensures Found(s, steps + [step], p.request, k) { FoundStays(s, steps, step, p.request, k); } }
    }
    assert p.Walking? || p.Planned? ==> forall k: nat | k < ChecksOf(p.request) :: Found(s, steps + [step], p.request, k) by {
      if p.Walking? || p.Planned? {
        forall k: nat | k < ChecksOf(p.request) ensures Found(s, steps + [step], p.request, k) { FoundStays(s, steps, step, p.request, k); }
      }
    }
    hide Found, Run, Finds, ChecksOf, Admits, AdmissionReads, PlanAccepted;
    if step.w == w {
      match step
      case BeginStep(_, request) => AdmissionBegins(now, w, request);
      case AdmitStep(_) =>
        if p.Admitting? {
          AdmissionGoesOn(now, w);
          if Finds(now.ns, p.request, p.passed) {
            FoundNow(s, steps, p.request, p.passed);
            FoundStays(s, steps, step, p.request, p.passed);
          }
        }
      case _ => OtherStepsKeepRequest(now, step);
    } else {
      OtherWorkersStay(now, step, w);
    }
  }

  lemma OtherWorkersStay(s: System, step: Step, w: nat)
    requires step.w != w
    ensures WorkerAt(Execute(s, step), w) == WorkerAt(s, w)
  {
    hide Commit, Commits, Read, PlacementRead, ReplacePlacement, Admits, AdmissionReads;
  }

  /** Planning, committing and placing never turn to another request, nor back to its reads. */
  lemma OtherStepsKeepRequest(s: System, step: Step)
    requires !step.BeginStep? && !step.AdmitStep?
    ensures var p, q := WorkerAt(s, step.w), WorkerAt(Execute(s, step), step.w);
            && (q.Admitting? ==> q == p)
            && (q.Walking? || q.Planned? ==> (p.Walking? || p.Planned?) && q.request == p.request)
  {
    hide Commit, Commits, ReplacePlacement, Admits, AdmissionReads, PlanAccepted, Desired, ChangeIsSafe;
  }

  /** In every run whoever plans or commits has seen, at some moment before, each thing its admission wants. */
  lemma {:induction false} AdmissionTookPlace(root: DirectoryId, driver: Option<Driver>, steps: seq<Step>, w: nat)
    ensures AdmittedSo(Initial(root, driver), steps, WorkerAt(Run(Initial(root, driver), steps), w))
    decreases |steps|
  {
    hide Execute, AdmittedSo;
    var s0 := Initial(root, driver);
    if steps == [] {
      NobodyAdmitted(s0, steps, WorkerAt(s0, w));
    } else {
      var n := |steps| - 1;
      AdmissionTookPlace(root, driver, steps[..n], w);
      StepAdmits(s0, steps[..n], steps[n], w);
      assert steps == steps[..n] + [steps[n]];
    }
  }

  lemma NobodyAdmitted(s: System, steps: seq<Step>, p: Worker)
    requires p.Idle?
    ensures AdmittedSo(s, steps, p)
  {
  }
}
