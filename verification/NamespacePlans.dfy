/**
 A planner walks up the tree one read at a time while others rewrite it. The rows it has may belong to
 different moments; the fence over their revisions makes them one moment again.
 */
module NamespacePlans {
  import opened Options
  import opened NamespaceTables
  import opened NamespaceProtocol
  import opened NamespaceInvariant
  import opened DirectoryPaging

  /** As long as the row of `d` is still the one in the plan, the walk went on to its parent. */
  predicate StepKept(ns: Namespace, plan: Plan, walked: set<DirectoryId>, next: Option<DirectoryId>, d: DirectoryId) {
    d in walked ==>
      d in plan
      && (Unchanged(ns, plan, d) && plan[d].directory.parent.Some? ==>
            plan[d].directory.parent.value in walked || next == plan[d].directory.parent)
  }

  ghost predicate WalkKept(ns: Namespace, plan: Plan, walked: set<DirectoryId>, next: Option<DirectoryId>) {
    PlanOk(ns, plan) && forall d {:trigger StepKept(ns, plan, walked, next, d)} :: StepKept(ns, plan, walked, next, d)
  }

  /** Where the current walk began: at the destination of a rename in its second walk, else at the first directory. */
  function Begun(request: Request, second: bool): DirectoryId {
    if request.Rename? && second then request.destination else Start(request)
  }

  ghost predicate WalkOk(ns: Namespace, p: Worker) {
    && (p.Walking? ==>
          && WalkKept(ns, p.plan, p.walked, Some(p.next))
          && (Begun(p.request, p.second) in p.walked || p.next == Begun(p.request, p.second)))
    && (p.Planned? ==>
          WalkKept(ns, p.plan, p.walked, None) && Begun(p.request, true) in p.walked
          && PlanAccepted(p.request, p.plan, p.walked))
  }

  ghost predicate PlansInv(s: System) {
    PlansCover(s) && forall w {:trigger WorkerAt(s, w)} :: WalkOk(s.ns, WorkerAt(s, w))
  }

  lemma WalkStays(ns: Namespace, t: Namespace, p: Worker)
    requires WalkOk(ns, p) && forall d {:trigger Pins(ns, t, d)} :: Pins(ns, t, d)
    ensures WalkOk(t, p)
  {
    hide PlanAccepted;
    if p.Walking? || p.Planned? {
      PinsKeepsPlan(ns, t, p.plan);
      var next := if p.Walking? then Some(p.next) else None;
      forall d ensures StepKept(t, p.plan, p.walked, next, d) {
        assert StepKept(ns, p.plan, p.walked, next, d) && RowOk(ns, p.plan, d) && Pins(ns, t, d);
      }
    }
  }

  /** One read: the row of today either is the plan's row, or shows that the plan's row is out of date. */
  lemma ReadKeepsWalk(ns: Namespace, p: Worker)
    requires p.Walking? && WalkOk(ns, p)
    ensures WalkOk(ns, Read(ns, p))
  {
    hide PlanAccepted;
    var q := Read(ns, p);
    if q.Walking? || q.Planned? {
      forall d ensures RowOk(ns, q.plan, d) { assert RowOk(ns, p.plan, d); }
      var next := if q.Walking? then Some(q.next) else None;
      forall d ensures StepKept(ns, q.plan, q.walked, next, d) {
        assert StepKept(ns, p.plan, p.walked, Some(p.next), d) && RowOk(ns, p.plan, d) && RowOk(ns, p.plan, p.next);
      }
    }
  }

  lemma StepKeepsPlans(s: System, step: Step)
    requires PlansInv(s)
    ensures PlansInv(Execute(s, step))
  {
    hide Commit, Commits, ReplacePlacement, Desired, ChangeIsSafe, PlanAccepted, Read, PlansCover, Admits;
    CoverStep(s, step);
    var t := Execute(s, step);
    forall d ensures Pins(s.ns, t.ns, d) { StepPins(s, step, d); }
    forall w ensures WalkOk(t.ns, WorkerAt(t, w)) {
      var p := WorkerAt(s, w);
      assert WalkOk(s.ns, p);
      if step.ReadStep? && step.w == w && p.Walking? {
        ReadKeepsWalk(s.ns, p);
      } else if WorkerAt(t, w) == p {
        WalkStays(s.ns, t.ns, p);
      } else {
        Restarted(t.ns, WorkerAt(t, w));
      }
    }
  }

  lemma Restarted(ns: Namespace, p: Worker)
    requires p.Walking? ==> p == Restart(p.request)
    requires !p.Planned?
    ensures WalkOk(ns, p)
  {
    if p.Walking? {
      forall d ensures RowOk(ns, p.plan, d) && StepKept(ns, p.plan, p.walked, Some(p.next), d) {}
    }
  }

  lemma {:induction false} RunKeepsPlans(s: System, steps: seq<Step>)
    requires PlansInv(s)
    ensures PlansInv(Run(s, steps))
    decreases |steps|
  {
    hide Execute, PlansInv;
    if steps != [] {
      RunKeepsPlans(s, steps[..|steps| - 1]);
      StepKeepsPlans(Run(s, steps[..|steps| - 1]), steps[|steps| - 1]);
    }
  }

  /** When the fence holds, a finished walk holds every directory from where it began up to the root. */
  lemma {:induction false} FencedWalkIsChain(ns: Namespace, plan: Plan, walked: set<DirectoryId>, c: seq<DirectoryId>, i: nat)
    requires WalkKept(ns, plan, walked, None) && FenceHolds(ns, plan)
    requires IsChain(ns.directories, c) && c[0] in walked && i < |c|
    ensures c[i] in walked && c[i] in plan && c[i] in ns.directories && c[i] in ns.entries
    ensures plan[c[i]] == Row(ns.directories[c[i]], ns.entries[c[i]])
  {
    if i > 0 {
      FencedWalkIsChain(ns, plan, walked, c, i - 1);
      assert StepKept(ns, plan, walked, None, c[i - 1]) && RowOk(ns, plan, c[i - 1]) && Unchanged(ns, plan, c[i - 1]);
      assert ParentIs(ns.directories, c[i - 1], c[i]);
    }
    assert StepKept(ns, plan, walked, None, c[i]) && RowOk(ns, plan, c[i]) && Unchanged(ns, plan, c[i]);
  }

  /**
   However its reads were interleaved, a planned rename whose fence holds does not move a directory
   below itself: the planner's own check suffices, and the cycle trigger never fires on it.
   */
  lemma PlannedRenameNeverCycles(root: DirectoryId, driver: Option<Driver>, steps: seq<Step>, w: nat)
    ensures var s := Run(Initial(root, driver), steps);
            var p := WorkerAt(s, w);
            p.Planned? && p.request.Rename? && FenceHolds(s.ns, p.plan) ==>
              && p.request.source in s.ns.entries && p.request.name in s.ns.entries[p.request.source]
              && var subject := s.ns.entries[p.request.source][p.request.name].subject;
                 subject.DirectorySubject? ==> !AtOrAbove(s.ns, subject.directory, p.request.destination)
  {
    hide Run, LinksShown;
    var s0 := Initial(root, driver);
    assert PlansInv(s0);
    RunKeepsPlans(s0, steps);
    var s := Run(s0, steps);
    var p := WorkerAt(s, w);
    assert WalkOk(s.ns, p);
    if p.Planned? && p.request.Rename? && FenceHolds(s.ns, p.plan) {
      var source := p.request.source;
      assert RowOk(s.ns, p.plan, source) && Unchanged(s.ns, p.plan, source);
      forall c | IsChain(s.ns.directories, c) && c[0] == p.request.destination
        ensures forall i :: 0 <= i < |c| ==> c[i] in p.walked
      {
        forall i | 0 <= i < |c| ensures c[i] in p.walked { FencedWalkIsChain(s.ns, p.plan, p.walked, c, i); }
      }
    }
  }

  /** A plan whose fence holds describes the tree at that very moment. */
  lemma FencedPlanIsCurrent(root: DirectoryId, driver: Option<Driver>, steps: seq<Step>, w: nat, d: DirectoryId)
    ensures var s := Run(Initial(root, driver), steps);
            var p := WorkerAt(s, w);
            p.Planned? && FenceHolds(s.ns, p.plan) && d in p.plan ==>
              d in s.ns.directories && d in s.ns.entries && p.plan[d] == Row(s.ns.directories[d], s.ns.entries[d])
  {
    hide Run, PlanAccepted;
    var s0 := Initial(root, driver);
    assert PlansInv(s0);
    RunKeepsPlans(s0, steps);
    var s := Run(s0, steps);
    assert WalkOk(s.ns, WorkerAt(s, w));
    if WorkerAt(s, w).Planned? && FenceHolds(s.ns, WorkerAt(s, w).plan) && d in WorkerAt(s, w).plan {
      assert RowOk(s.ns, WorkerAt(s, w).plan, d) && Unchanged(s.ns, WorkerAt(s, w).plan, d);
    }
  }

  /** Every directory of a finished plan is below one of the plan whose entries name it, up to one without parent. */
  lemma PlansAreLinked(root: DirectoryId, driver: Option<Driver>, steps: seq<Step>, w: nat, d: DirectoryId)
    ensures var p := WorkerAt(Run(Initial(root, driver), steps), w);
            p.Planned? && d in p.plan && p.plan[d].directory.parent.Some? ==>
              var above := p.plan[d].directory.parent.value;
              && above in p.plan && p.plan[d].directory.name in p.plan[above].entries
              && p.plan[above].entries[p.plan[d].directory.name].subject == DirectorySubject(d)
  {
    hide Run;
    var s0 := Initial(root, driver);
    assert PlansInv(s0);
    RunKeepsPlans(s0, steps);
    assert WalkOk(Run(s0, steps).ns, WorkerAt(Run(s0, steps), w));
    var p := WorkerAt(Run(s0, steps), w);
    if p.Planned? && d in p.plan { assert LinkShown(p.plan, d); }
  }
}
