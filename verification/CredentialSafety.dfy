/**
 What every run of claims, renewals and replacements keeps, and exactly when a success that was reported is not
 the credential that was stored.
 */
module CredentialSafety {
  import opened Options
  import opened CredentialRefresh
  import opened CredentialProtocol

  // ---------------------------------------------------------------- the invariant of every run

  predicate Agrees(db: Tables) {
    db.refresh.Some? ==> db.envelope.Some? && db.refresh.value.observed == db.envelope.value.revision
  }

  /** The history tells who wrote what the tables hold. */
  predicate HistoryOk(s: System) {
    && (s.db.envelope.Some? <==> s.author.Some?)
    && (s.author.Some? ==>
          && s.author.value.serial < s.serial && s.author.value.revision == s.db.envelope.value.revision
          && s.author.value.at == s.db.envelope.value.rotatedAt)
    && (s.written.Some? <==> s.db.refresh.Some?)
    && (s.written.Some? ==>
          && s.written.value.serial < s.serial && s.written.value.revision == s.db.refresh.value.observed
          && s.db.refresh.value.lastSucceededAt == Some(s.written.value.at))
  }

  predicate TaskOf(p: Worker) {
    p.Holding? || p.Renewed? || p.Checking? || p.Failing?
  }

  /** While the row lives, a task is of the live claim, or of an earlier one with a smaller token. */
  predicate TaskOk(s: System, task: Task, from: Origin) {
    && from.era <= s.era && from.taken <= from.claim <= s.claims
    && s.db.envelope.Some? && task.observed <= s.db.envelope.value.revision
    && (from.era == s.era ==>
          && s.db.refresh.Some? && task.fence <= s.db.refresh.value.fence
          && (task.fence == s.db.refresh.value.fence <==> from.claim == s.claims)
          && (s.db.refresh.value.state == Claimed && task.fence == s.db.refresh.value.fence ==>
                s.db.refresh.value.observed == task.observed))
    && (from.claim == s.claims && s.db.refresh.Some? && s.db.refresh.value.state == Claimed ==> from.era == s.era)
  }

  predicate HasSerial(p: Worker) {
    p.Renewed? || p.Checking? || p.Replacing?
  }

  predicate Wrote(last: Option<Write>, serial: nat) {
    last.Some? && last.value.serial == serial
  }

  predicate SerialOk(s: System, p: Worker) {
    && (HasSerial(p) ==> p.serial < s.serial)
    && (p.Renewed? || p.Replacing? ==> !Wrote(s.author, p.serial) && !Wrote(s.written, p.serial))
    && (p.Checking? ==>
          && s.db.envelope.Some?
          && (p.effect.Stored? ==>
                && p.task.observed + 1 <= s.db.envelope.value.revision
                && (s.db.envelope.value.revision == p.task.observed + 1 <==> Wrote(s.author, p.serial)))
          && (!p.effect.Stored? ==> !Wrote(s.author, p.serial))
          && (p.effect.Nothing? ==> !Wrote(s.written, p.serial)))
  }

  /** A loaded driver revision is not from the future, and has moved on if a first envelope came since. */
  predicate ReplacingOk(s: System, p: Worker) {
    p.Replacing? ==>
      && p.replacement.driver <= s.db.driver
      && (p.replacement.loaded.None? && s.db.envelope.Some? ==> p.replacement.driver < s.db.driver)
  }

  predicate WorkerOk(s: System, p: Worker) {
    && (TaskOf(p) ==> TaskOk(s, p.task, p.from))
    && (p.Taken? ==> p.claim <= s.claims)
    && ReplacingOk(s, p)
    && SerialOk(s, p)
  }

  predicate DifferentSerials(s: System, v: nat, w: nat) {
    v != w && HasSerial(WorkerAt(s, v)) && HasSerial(WorkerAt(s, w)) ==> WorkerAt(s, v).serial != WorkerAt(s, w).serial
  }

  /** A committed token is behind the row's, or is the row's and no longer claimed. */
  predicate CommitOk(s: System, c: (nat, nat)) {
    && c.0 <= s.era
    && (c.0 == s.era ==>
          && s.db.refresh.Some? && c.1 <= s.db.refresh.value.fence
          && (s.db.refresh.value.state == Claimed ==> c.1 < s.db.refresh.value.fence))
  }

  /** No token of one life of the row commits twice. */
  predicate LogOk(s: System) {
    && (forall i :: 0 <= i < |s.commits| ==> CommitOk(s, s.commits[i]))
    && (forall i, j :: 0 <= i < j < |s.commits| ==> s.commits[i] != s.commits[j])
  }

  ghost predicate Inv(s: System) {
    && Agrees(s.db) && HistoryOk(s)
    && (forall w {:trigger WorkerAt(s, w)} :: WorkerOk(s, WorkerAt(s, w)))
    && (forall v, w {:trigger WorkerAt(s, v), WorkerAt(s, w)} :: DifferentSerials(s, v, w))
    && LogOk(s)
  }

  /** What a commit does: both rows under its own revision, the row alone one revision later, or nothing. */
  lemma CommitByRevision(db: Tables, task: Task, material: nat, refreshAfter: nat, now: nat)
    requires Agrees(db)
    ensures var t := CommitRefresh(db, task, material, refreshAfter, now);
            if !Fenced(db, task, now) then t == db
            else if db.refresh.value.observed == task.observed then
              && t.envelope == Some(Envelope(db.envelope.value.revision + 1, material, now))
              && t.refresh.Some? && t.refresh.value.observed == task.observed + 1 && t.refresh.value.state == Ready
              && t.refresh.value.lastSucceededAt == Some(now) && t.refresh.value.fence == db.refresh.value.fence
            else if db.refresh.value.observed == task.observed + 1 then
              && t.envelope == db.envelope
              && t.refresh.Some? && t.refresh.value.observed == task.observed + 1 && t.refresh.value.state == Ready
              && t.refresh.value.lastSucceededAt == Some(now) && t.refresh.value.fence == db.refresh.value.fence
            else t == db
    ensures CommitRefresh(db, task, material, refreshAfter, now).driver == db.driver
  {
  }

  lemma LogKeeps(s: System, step: Step)
    requires LogOk(s)
    ensures LogOk(Execute(s, step))
  {
    var t := Execute(s, step);
    forall i | 0 <= i < |t.commits| ensures CommitOk(t, t.commits[i]) {
      if i < |s.commits| { assert CommitOk(s, s.commits[i]); }
    }
    forall i, j | 0 <= i < j < |t.commits| ensures t.commits[i] != t.commits[j] {
      if j == |s.commits| { assert CommitOk(s, s.commits[i]); }
    }
  }

  lemma CommitWorkersKeep(s: System, w: nat, refreshAfter: nat, v: nat)
    requires Inv(s)
    ensures WorkerOk(ExecuteCommit(s, w, refreshAfter), WorkerAt(ExecuteCommit(s, w, refreshAfter), v))
  {
    hide CommitRefresh, LogOk;
    var p := WorkerAt(s, w);
    assert WorkerOk(s, WorkerAt(s, v)) && WorkerOk(s, p) && DifferentSerials(s, v, w);
    if p.Renewed? { CommitByRevision(s.db, p.task, p.material, refreshAfter, p.from.now); }
  }

  lemma SerialOfWorker(s: System, w: nat)
    requires Inv(s)
    ensures SerialOk(s, WorkerAt(s, w))
  {
    assert WorkerOk(s, WorkerAt(s, w));
  }

  lemma CommitKeeps(s: System, w: nat, refreshAfter: nat)
    requires Inv(s)
    ensures Inv(ExecuteCommit(s, w, refreshAfter))
  {
    hide CommitRefresh, LogOk, WorkerOk;
    var t := ExecuteCommit(s, w, refreshAfter);
    var p := WorkerAt(s, w);
    LogKeeps(s, CommitStep(w, refreshAfter));
    forall v ensures WorkerOk(t, WorkerAt(t, v)) { CommitWorkersKeep(s, w, refreshAfter, v); }
    forall u, v ensures DifferentSerials(t, u, v) { assert DifferentSerials(s, u, v); }
    if p.Renewed? {
      SerialOfWorker(s, w);
      CommitByRevision(s.db, p.task, p.material, refreshAfter, p.from.now);
    }
  }

  lemma ReplaceKeeps(s: System, w: nat)
    requires Inv(s)
    ensures Inv(ExecuteReplace(s, w))
  {
    hide LogOk;
    var t := ExecuteReplace(s, w);
    LogKeeps(s, ReplaceStep(w));
    forall v ensures WorkerOk(t, WorkerAt(t, v)) {
      assert WorkerOk(s, WorkerAt(s, v)) && WorkerOk(s, WorkerAt(s, w)) && DifferentSerials(s, v, w);
    }
    forall u, v ensures DifferentSerials(t, u, v) { assert DifferentSerials(s, u, v); }
  }

  lemma WorkerStepWorkersKeep(s: System, step: Step, v: nat)
    requires Inv(s) && !step.CommitStep? && !step.ReplaceStep?
    ensures WorkerOk(ExecuteWorker(s, step), WorkerAt(ExecuteWorker(s, step), v))
  {
    hide LogOk;
    assert WorkerOk(s, WorkerAt(s, v)) && WorkerOk(s, WorkerAt(s, step.w));
  }

  lemma WorkerStepKeeps(s: System, step: Step)
    requires Inv(s) && !step.CommitStep? && !step.ReplaceStep?
    ensures Inv(ExecuteWorker(s, step))
  {
    hide LogOk, WorkerOk;
    var t := ExecuteWorker(s, step);
    LogKeeps(s, step);
    forall v ensures WorkerOk(t, WorkerAt(t, v)) { WorkerStepWorkersKeep(s, step, v); }
    forall u, v ensures DifferentSerials(t, u, v) {
      assert DifferentSerials(s, u, v);
      SerialOfWorker(s, u);
      SerialOfWorker(s, v);
    }
  }

  lemma ExecuteKeeps(s: System, step: Step)
    requires Inv(s)
    ensures Inv(Execute(s, step))
  {
    hide Inv, ExecuteWorker, ExecuteCommit, ExecuteReplace;
    match step
    case CommitStep(w, refreshAfter) => CommitKeeps(s, w, refreshAfter);
    case ReplaceStep(w) => ReplaceKeeps(s, w);
    case _ => WorkerStepKeeps(s, step);
  }

  lemma InitialOk()
    ensures Inv(INITIAL)
  {
    assert LogOk(INITIAL) && HistoryOk(INITIAL) && Agrees(INITIAL.db);
    forall v ensures WorkerOk(INITIAL, WorkerAt(INITIAL, v)) { assert WorkerAt(INITIAL, v) == Idle; }
    forall u, v ensures DifferentSerials(INITIAL, u, v) { assert WorkerAt(INITIAL, v) == Idle; }
  }

  lemma {:induction false} RunKeeps(steps: seq<Step>)
    ensures Inv(Run(steps))
    decreases |steps|
  {
    hide Execute;
    InitialOk();
    if steps != [] {
      RunKeeps(steps[..|steps| - 1]);
      ExecuteKeeps(Run(steps[..|steps| - 1]), steps[|steps| - 1]);
    }
  }

  // ---------------------------------------------------------------- what runs without coincidence also keep

  /** A task of an earlier life of the row is behind the envelope by the replacements in between. */
  predicate NotMixed(s: System, p: Worker) {
    && (TaskOf(p) && p.from.era < s.era ==>
          && s.db.envelope.Some? && p.task.observed + 1 <= s.db.envelope.value.revision
          && (s.db.refresh.Some? ==> p.task.observed + 2 <= s.db.envelope.value.revision))
    && (p.Checking? ==> !p.effect.TookRow?)
  }

  /** Row and envelope are written together. */
  ghost predicate Unmixed(s: System) {
    && (s.db.refresh.Some? ==> s.written == s.author)
    && (forall w {:trigger WorkerAt(s, w)} :: NotMixed(s, WorkerAt(s, w)))
  }

  lemma ExecuteUnmixed(s: System, step: Step)
    requires Inv(s) && Unmixed(s) && NoCoincidence(s, step)
    ensures Unmixed(Execute(s, step))
  {
    hide LogOk, SerialOk, CommitRefresh;
    var t := Execute(s, step);
    assert WorkerOk(s, WorkerAt(s, step.w)) && NotMixed(s, WorkerAt(s, step.w));
    if step.CommitStep? && WorkerAt(s, step.w).Renewed? {
      var p := WorkerAt(s, step.w);
      CommitByRevision(s.db, p.task, p.material, step.refreshAfter, p.from.now);
    }
    forall v ensures NotMixed(t, WorkerAt(t, v)) { assert NotMixed(s, WorkerAt(s, v)) && WorkerOk(s, WorkerAt(s, v)); }
  }

  lemma {:induction false} RunUnmixed(steps: seq<Step>)
    requires NeverCoincides(steps)
    ensures Unmixed(Run(steps))
    decreases |steps|
  {
    hide Execute;
    if steps != [] {
      RunUnmixed(steps[..|steps| - 1]);
      RunKeeps(steps[..|steps| - 1]);
      ExecuteUnmixed(Run(steps[..|steps| - 1]), steps[|steps| - 1]);
    } else {
      forall v ensures NotMixed(INITIAL, WorkerAt(INITIAL, v)) { assert WorkerAt(INITIAL, v) == Idle; }
    }
  }

  // ---------------------------------------------------------------- the promises

  /** In every run the row observes its envelope's revision, and no token of one life of the row commits twice. */
  lemma RevisionsAgree(steps: seq<Step>)
    ensures Agrees(Run(steps).db)
    ensures var commits := Run(steps).commits; forall i, j :: 0 <= i < j < |commits| ==> commits[i] != commits[j]
  {
    hide Run;
    RunKeeps(steps);
    assert LogOk(Run(steps));
  }

  predicate StoresBoth(s: System, t: System, p: Worker)
    requires p.Renewed?
  {
    && s.db.envelope.Some? && s.db.refresh.Some? && t.db.refresh.Some?
    && t.db.envelope == Some(Envelope(s.db.envelope.value.revision + 1, p.material, p.from.now))
    && t.db.refresh.value.observed == s.db.refresh.value.observed + 1 && t.db.refresh.value.state == Ready
  }

  predicate MovesRowAlone(s: System, t: System, p: Worker)
    requires p.Renewed?
  {
    && t.db.envelope == s.db.envelope && s.db.refresh.Some? && t.db.refresh.Some?
    && s.db.refresh.value.state == Claimed && t.db.refresh.value.state == Ready
    && t.db.refresh.value.observed == s.db.refresh.value.observed
  }

  /**
   In every run a commit under a live token raises both revisions if the row still observes its revision,
   completes the row alone if the row observes the next one, and otherwise changes nothing. The row alone can
   only be a later life than the one the claim was made in.
   */
  lemma CommitReachesExactly(steps: seq<Step>, w: nat, refreshAfter: nat)
    ensures var s, t := Run(steps), Execute(Run(steps), CommitStep(w, refreshAfter));
            var p := WorkerAt(s, w);
            p.Renewed? ==>
              && (StoresBoth(s, t, p) <==>
                    Fenced(s.db, p.task, p.from.now) && s.db.refresh.value.observed == p.task.observed)
              && (MovesRowAlone(s, t, p) <==>
                    Fenced(s.db, p.task, p.from.now) && s.db.refresh.value.observed == p.task.observed + 1)
              && (StoresBoth(s, t, p) || MovesRowAlone(s, t, p) || t.db == s.db)
              && (MovesRowAlone(s, t, p) ==> p.from.era < s.era)
  {
    hide Run, CommitRefresh;
    RunKeeps(steps);
    var s := Run(steps);
    var p := WorkerAt(s, w);
    assert WorkerOk(s, p);
    if p.Renewed? { CommitByRevision(s.db, p.task, p.material, refreshAfter, p.from.now); }
  }

  /** A commit stores its credential if the claim it was loaded from is the live one, and else changes nothing. */
  predicate CommitsAsLoaded(s: System, t: System, p: Worker)
    requires p.Renewed?
  {
    if p.from.claim == s.claims && Fenced(s.db, p.task, p.from.now) then StoresBoth(s, t, p) else t.db == s.db
  }

  /** So it does without coincident replacements, or while the row was never deleted. */
  lemma CommitRaisesBoth(steps: seq<Step>, w: nat, refreshAfter: nat)
    requires NeverCoincides(steps) || Run(steps).era == 0
    ensures var s, t := Run(steps), Execute(Run(steps), CommitStep(w, refreshAfter));
            var p := WorkerAt(s, w);
            p.Renewed? ==> CommitsAsLoaded(s, t, p)
  {
    hide Run, CommitRefresh;
    RunKeeps(steps);
    if NeverCoincides(steps) { RunUnmixed(steps); }
    var s := Run(steps);
    var p := WorkerAt(s, w);
    assert WorkerOk(s, p);
    assert NeverCoincides(steps) ==> NotMixed(s, p);
    if p.Renewed? { CommitByRevision(s.db, p.task, p.material, refreshAfter, p.from.now); }
  }

  /** The replacements of one driver all start renewal, or all end it. */
  predicate OneKind(steps: seq<Step>, managed: bool) {
    forall i :: 0 <= i < |steps| && steps[i].BeginReplaceStep? ==> steps[i].managed == managed
  }

  predicate ReplacesAs(p: Worker, managed: bool) {
    p.Replacing? ==> p.replacement.managed == managed
  }

  /** Then no row is ever deleted: either none is created, or every replacement writes one. */
  lemma {:induction false} OneKindNeverDeletes(steps: seq<Step>, managed: bool)
    requires OneKind(steps, managed)
    ensures var s := Run(steps);
            && s.era == 0 && (!managed ==> s.db.refresh.None?)
            && forall w {:trigger WorkerAt(s, w)} :: ReplacesAs(WorkerAt(s, w), managed)
    decreases |steps|
  {
    hide Execute;
    if steps == [] {
      forall w ensures ReplacesAs(WorkerAt(INITIAL, w), managed) { assert WorkerAt(INITIAL, w) == Idle; }
    } else {
      var n := |steps| - 1;
      assert OneKind(steps[..n], managed);
      OneKindNeverDeletes(steps[..n], managed);
      OneKindStep(Run(steps[..n]), steps[n], managed);
    }
  }

  lemma OneKindStep(s: System, step: Step, managed: bool)
    requires s.era == 0 && (!managed ==> s.db.refresh.None?)
    requires forall w {:trigger WorkerAt(s, w)} :: ReplacesAs(WorkerAt(s, w), managed)
    requires step.BeginReplaceStep? ==> step.managed == managed
    ensures var t := Execute(s, step);
            && t.era == 0 && (!managed ==> t.db.refresh.None?)
            && forall w {:trigger WorkerAt(t, w)} :: ReplacesAs(WorkerAt(t, w), managed)
  {
    var t := Execute(s, step);
    assert ReplacesAs(WorkerAt(s, step.w), managed);
    forall w ensures ReplacesAs(WorkerAt(t, w), managed) { assert ReplacesAs(WorkerAt(s, w), managed); }
  }

  /** So a driver whose credentials are all of one kind needs no further condition, coincidences included. */
  lemma CommitOfOneKind(steps: seq<Step>, managed: bool, w: nat, refreshAfter: nat)
    requires OneKind(steps, managed)
    ensures var s, t := Run(steps), Execute(Run(steps), CommitStep(w, refreshAfter));
            var p := WorkerAt(s, w);
            p.Renewed? ==> CommitsAsLoaded(s, t, p)
  {
    hide Run, Execute;
    OneKindNeverDeletes(steps, managed);
    CommitRaisesBoth(steps, w, refreshAfter);
  }

  /**
   In every run a failure ends the live claim exactly when the tokens agree, and that is the claim its worker took
   exactly when the row was not deleted since the load and no other worker claimed between claim and load.
   */
  lemma FailureReachesExactly(steps: seq<Step>, w: nat)
    ensures var s, t := Run(steps), Execute(Run(steps), FailStep(w));
            var p := WorkerAt(s, w);
            p.Failing? ==>
              && (t.db != s.db <==>
                    s.db.refresh.Some? && s.db.refresh.value.state == Claimed && s.db.refresh.value.fence == p.task.fence)
              && (t.db != s.db ==>
                    && (p.from.taken == s.claims <==> p.from.era == s.era && p.from.taken == p.from.claim)
                    && (p.from.claim == s.claims <==> p.from.era == s.era))
              && (t.db != s.db && p.from.claim == s.claims ==> s.db.refresh.value.observed == p.task.observed)
              && (t.db != s.db && p.from.claim != s.claims && NeverCoincides(steps) ==>
                    s.db.refresh.value.observed >= p.task.observed + 2)
  {
    hide Run;
    RunKeeps(steps);
    if NeverCoincides(steps) { RunUnmixed(steps); }
    var s := Run(steps);
    assert WorkerOk(s, WorkerAt(s, w));
    assert NeverCoincides(steps) ==> NotMixed(s, WorkerAt(s, w));
  }

  /** The ways in which a worker whose claim was superseded still holds a token that is live. */
  predicate LateLoad(s: System, from: Origin) {
    from.taken < from.claim == s.claims
  }

  predicate LaterLife(s: System, from: Origin) {
    from.era < s.era
  }

  /**
   In every run the commit of a worker whose claim was superseded changes something exactly when its token is live
   because its load came late, or because the row was deleted since and observes its revision or the next.
   */
  lemma SupersededCommitExactly(steps: seq<Step>, w: nat, refreshAfter: nat)
    ensures var s, t := Run(steps), Execute(Run(steps), CommitStep(w, refreshAfter));
            var p := WorkerAt(s, w);
            p.Renewed? && p.from.taken < s.claims ==>
              && (t.db != s.db <==>
                    && Fenced(s.db, p.task, p.from.now)
                    && (LateLoad(s, p.from)
                        || (LaterLife(s, p.from) && p.task.observed <= s.db.refresh.value.observed <= p.task.observed + 1)))
              && (NeverCoincides(steps) || s.era == 0 ==>
                    (t.db != s.db <==> Fenced(s.db, p.task, p.from.now) && LateLoad(s, p.from)))
  {
    hide Run, CommitRefresh;
    RunKeeps(steps);
    if NeverCoincides(steps) { RunUnmixed(steps); }
    var s := Run(steps);
    var p := WorkerAt(s, w);
    assert WorkerOk(s, p);
    assert NeverCoincides(steps) ==> NotMixed(s, p);
    if p.Renewed? { CommitByRevision(s.db, p.task, p.material, refreshAfter, p.from.now); }
  }

  /** The same of a failure: a late load, or a later life of the row. */
  lemma SupersededFailureExactly(steps: seq<Step>, w: nat)
    ensures var s, t := Run(steps), Execute(Run(steps), FailStep(w));
            var p := WorkerAt(s, w);
            p.Failing? && p.from.taken < s.claims ==>
              (t.db != s.db <==>
                 && s.db.refresh.Some? && s.db.refresh.value.state == Claimed && s.db.refresh.value.fence == p.task.fence
                 && (LateLoad(s, p.from) || LaterLife(s, p.from)))
  {
    hide Run;
    RunKeeps(steps);
    assert WorkerOk(Run(steps), WorkerAt(Run(steps), w));
  }

  // ---------------------------------------------------------------- which claim a load finds

  /** What became of a claim with this life, token and number, as long as its worker made no further step. */
  predicate ClaimAged(s: System, w: nat, now: nat, era: nat, fence: nat, claim: nat) {
    && WorkerAt(s, w) == Taken(now, claim) && claim <= s.claims && era <= s.era
    && (s.claims == claim && s.db.refresh.Some? && s.db.refresh.value.state == Claimed ==>
          s.era == era && s.db.refresh.value.fence == fence)
    && (s.era == era ==> s.db.refresh.Some? && fence <= s.db.refresh.value.fence)
    && (s.claims > claim && s.era == era ==> s.db.refresh.value.fence > fence)
  }

  lemma ClaimAges(s: System, step: Step, w: nat, now: nat, era: nat, fence: nat, claim: nat)
    requires ClaimAged(s, w, now, era, fence, claim) && step.w != w
    ensures ClaimAged(Execute(s, step), w, now, era, fence, claim)
    ensures Execute(s, step).claims == s.claims + (if TakesClaim(s, step) then 1 else 0)
  {
  }

  predicate OthersClaimed(steps: seq<Step>, m: nat) {
    exists k :: m < k < |steps| && TakesClaim(Run(steps[..k]), steps[k])
  }

  lemma {:induction false} ClaimAgesAlong(steps: seq<Step>, m: nat, w: nat)
    requires m < |steps| && steps[m].w == w && TakesClaim(Run(steps[..m]), steps[m])
    requires forall k :: m < k < |steps| ==> steps[k].w != w
    ensures var b, s := Run(steps[..m]), Run(steps);
            && ClaimAged(s, w, steps[m].now, b.era, b.db.refresh.value.fence + 1, b.claims + 1)
            && (s.claims == b.claims + 1 <==> !OthersClaimed(steps, m))
    decreases |steps|
  {
    hide Execute, Run, ClaimAged, OthersClaimed;
    var n := |steps| - 1;
    var b := Run(steps[..m]);
    RunEnds(steps);
    OthersOneMore(steps, m);
    if m == n {
      FirstClaim(b, steps[m]);
    } else {
      assert steps[..n][..m] == steps[..m];
      ClaimAgesAlong(steps[..n], m, w);
      ClaimAges(Run(steps[..n]), steps[n], w, steps[m].now, b.era, b.db.refresh.value.fence + 1, b.claims + 1);
      ClaimsGrow(Run(steps[..n]), w, steps[m].now, b.era, b.db.refresh.value.fence + 1, b.claims + 1);
    }
  }

  lemma RunEnds(steps: seq<Step>)
    requires steps != []
    ensures Run(steps) == Execute(Run(steps[..|steps| - 1]), steps[|steps| - 1])
  {
  }

  lemma ClaimsGrow(s: System, w: nat, now: nat, era: nat, fence: nat, claim: nat)
    requires ClaimAged(s, w, now, era, fence, claim)
    ensures claim <= s.claims
  {
  }

  lemma OthersOneMore(steps: seq<Step>, m: nat)
    requires m < |steps|
    ensures var n := |steps| - 1;
            if m == n then !OthersClaimed(steps, m)
            else OthersClaimed(steps, m) <==> OthersClaimed(steps[..n], m) || TakesClaim(Run(steps[..n]), steps[n])
  {
    hide Run, TakesClaim;
    var n := |steps| - 1;
    var before := steps[..n];
    if m < n {
      forall k | m < k < n ensures TakesClaim(Run(before[..k]), before[k]) <==> TakesClaim(Run(steps[..k]), steps[k]) {
        assert before[..k] == steps[..k];
      }
    }
  }

  lemma FirstClaim(s: System, step: Step)
    requires TakesClaim(s, step)
    ensures var t := Execute(s, step);
            ClaimAged(t, step.w, step.now, s.era, s.db.refresh.value.fence + 1, s.claims + 1) && t.claims == s.claims + 1
  {
  }

  /**
   The load asks for any live claim: it finds the token that its worker has just taken, in the same life of the row,
   exactly when no other worker has claimed in between.
   */
  lemma LoadFindsOwnExactly(steps: seq<Step>, m: nat, w: nat)
    requires m < |steps| && steps[m].w == w && TakesClaim(Run(steps[..m]), steps[m])
    requires forall k :: m < k < |steps| ==> steps[k].w != w
    ensures var b, s, t := Run(steps[..m]), Run(steps), Execute(Run(steps), LoadStep(w));
            var p := WorkerAt(t, w);
            p.Holding? ==>
              && (s.era == b.era && p.task.fence == b.db.refresh.value.fence + 1 <==> !OthersClaimed(steps, m))
              && (p.from.taken == p.from.claim <==> !OthersClaimed(steps, m))
  {
    hide Run;
    ClaimAgesAlong(steps, m, w);
  }

  // ---------------------------------------------------------------- which reported success was stored

  predicate StoredAs(write: Option<Write>, revision: nat, at: nat) {
    write.Some? && write.value.revision == revision && write.value.at == at
  }

  /**
   In every run a replacement commits without storing its credential exactly when another credential was stored
   as the same revision in the same second and the driver's revision is the loaded one or the next.
   */
  lemma ReplacementLostExactly(steps: seq<Step>, w: nat)
    ensures var s, t := Run(steps), Execute(Run(steps), ReplaceStep(w));
            var p := WorkerAt(s, w);
            p.Replacing? ==>
              && (ReplaceCommits(s.db, p.replacement) && !Wrote(t.author, p.serial) <==>
                    && p.replacement.loaded.Some? && StoredAs(s.author, RevisionAfter(p.replacement), p.replacement.now)
                    && p.replacement.driver <= s.db.driver <= p.replacement.driver + 1)
              && (ReplaceCommits(s.db, p.replacement) && !Wrote(t.author, p.serial) <==> Coincides(s.db, p.replacement))
              && (Coincides(s.db, p.replacement) ==> t.db.envelope == s.db.envelope)
  {
    hide Run;
    RunKeeps(steps);
    var s := Run(steps);
    assert WorkerOk(s, WorkerAt(s, w));
  }

  /**
   In every run a renewal that did not store its credential still reports success exactly when the row is ready
   and was last completed at its revision in its second, by somebody else or by its own row statement alone.
   */
  lemma RenewalMistakenExactly(steps: seq<Step>, w: nat)
    ensures var s := Run(steps);
            var p := WorkerAt(s, w);
            p.Checking? ==>
              && (WorkerAt(Execute(s, CheckStep(w)), w) == Reported(true) && !Wrote(s.author, p.serial) <==>
                    && s.db.refresh.Some? && s.db.refresh.value.state == Ready && !p.effect.Stored?
                    && StoredAs(s.written, p.task.observed + 1, p.from.now))
              && (WorkerAt(Execute(s, CheckStep(w)), w) == Reported(true) && p.effect.Nothing? ==> !Wrote(s.written, p.serial))
              && (p.effect.Stored? && WorkerAt(Execute(s, CheckStep(w)), w) == Reported(true) ==> Wrote(s.author, p.serial))
  {
    hide Run;
    RunKeeps(steps);
    var s := Run(steps);
    assert WorkerOk(s, WorkerAt(s, w));
  }

  /**
   Without coincident replacements that is exactly when another credential, a replacement's or another renewal's,
   was stored as that revision in that second and the row is still ready.
   */
  lemma RenewalMistakenWithoutCoincidence(steps: seq<Step>, w: nat)
    requires NeverCoincides(steps)
    ensures var s := Run(steps);
            var p := WorkerAt(s, w);
            p.Checking? ==>
              (WorkerAt(Execute(s, CheckStep(w)), w) == Reported(true) && !p.effect.Stored? <==>
                 && s.db.refresh.Some? && s.db.refresh.value.state == Ready
                 && StoredAs(s.author, p.task.observed + 1, p.from.now) && !Wrote(s.author, p.serial))
  {
    hide Run;
    RunKeeps(steps);
    RunUnmixed(steps);
    var s := Run(steps);
    assert WorkerOk(s, WorkerAt(s, w)) && NotMixed(s, WorkerAt(s, w));
  }
}
