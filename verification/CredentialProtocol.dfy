/**
 Workers that claim the refresh row under a fencing token, renew outside the database and commit under that
 token, while operators replace the credential or stop its renewal. The history beside the tables is for the
 properties alone: no step looks at it.
 */
module CredentialProtocol {
  import opened Options
  import opened CredentialRefresh

  /**
   Where a task comes from: the life of the row and the number of the claim it was loaded from, the number of the
   claim that its worker took, and the worker's clock.
   */
  datatype Origin = Origin(era: nat, claim: nat, taken: nat, now: nat)

  /** What a commit did: stored its credential, moved only the row, or nothing. */
  datatype Effect = Stored | TookRow | Nothing

  /** Every credential, renewed or handed in by an operator, has a serial of its own. */
  datatype Worker =
    | Idle
    | Taken(now: nat, claim: nat)
    | Holding(task: Task, from: Origin)
    | Renewed(task: Task, from: Origin, material: nat, serial: nat)
    | Checking(task: Task, from: Origin, serial: nat, effect: Effect)
    | Reported(ok: bool)
    | Failing(task: Task, from: Origin, reauthenticate: bool)
    | Replacing(replacement: Replacement, serial: nat)

  /** A credential written as some revision in some second. */
  datatype Write = Write(serial: nat, operator: bool, revision: nat, at: nat)

  /**
   `era` counts the deletions of the row, `claims` the claims; `commits` remembers the era and token of every
   commit that took effect; `author` wrote the current envelope and `written` is the last completion of the row.
   */
  datatype System = System(
    db: Tables, workers: map<nat, Worker>, era: nat, claims: nat, serial: nat, commits: seq<(nat, nat)>,
    author: Option<Write>, written: Option<Write>)

  /** `DriverStep` is any other management change of the driver. */
  datatype Step =
    | ClaimStep(w: nat, now: nat)
    | LoadStep(w: nat)
    | RenewStep(w: nat, material: nat)
    | RenewFailsStep(w: nat, reauthenticate: bool)
    | CommitStep(w: nat, refreshAfter: nat)
    | CheckStep(w: nat)
    | FailStep(w: nat)
    | BeginReplaceStep(w: nat, material: nat, managed: bool, refreshAfter: nat, now: nat)
    | ReplaceStep(w: nat)
    | DriverStep(w: nat)
    | CrashStep(w: nat)

  function WorkerAt(s: System, w: nat): Worker {
    if w in s.workers then s.workers[w] else Idle
  }

  function Goto(s: System, w: nat, worker: Worker): System {
    s.(workers := s.workers[w := worker])
  }

  function CommitEffect(before: Tables, after: Tables): Effect {
    if after.envelope != before.envelope then Stored else if after.refresh != before.refresh then TookRow else Nothing
  }

  /** The commit of a renewed credential. */
  function ExecuteCommit(s: System, w: nat, refreshAfter: nat): System {
    var p := WorkerAt(s, w);
    if !p.Renewed? then s
    else
      var db := CommitRefresh(s.db, p.task, p.material, refreshAfter, p.from.now);
      var mark := Write(p.serial, false, p.task.observed + 1, p.from.now);
      var effect := CommitEffect(s.db, db);
      Goto(s, w, Checking(p.task, p.from, p.serial, effect)).(
        db := db,
        commits := if effect.Nothing? then s.commits else s.commits + [(s.era, p.task.fence)],
        author := if effect.Stored? then Some(mark) else s.author,
        written := if effect.Nothing? then s.written else Some(mark))
  }

  /** The batch of an operator's replacement. */
  function ExecuteReplace(s: System, w: nat): System {
    var p := WorkerAt(s, w);
    if !p.Replacing? then s
    else
      var x := p.replacement;
      var db := Replace(s.db, x);
      var mark := Write(p.serial, true, RevisionAfter(x), x.now);
      var commits := ReplaceCommits(s.db, x);
      Goto(s, w, Idle).(
        db := db,
        era := if s.db.refresh.Some? && db.refresh.None? then s.era + 1 else s.era,
        author := if commits && ReplacementMatches(s.db, x) then Some(mark) else s.author,
        written := if !commits then s.written else if x.managed then Some(mark) else None)
  }

  /** The claiming update matches. */
  predicate TakesClaim(s: System, step: Step) {
    step.ClaimStep? && WorkerAt(s, step.w).Idle? && s.db.refresh.Some? && IsDue(s.db.refresh.value, step.now)
  }

  function ExecuteWorker(s: System, step: Step): System {
    match step
    case ClaimStep(w, now) =>
      if TakesClaim(s, step)
      then
        Goto(s, w, Taken(now, s.claims + 1)).(
          db := s.db.(refresh := Some(Claim(s.db.refresh.value, now))), claims := s.claims + 1)
      else s
    case LoadStep(w) =>
      var p := WorkerAt(s, w);
      if !p.Taken? then s
      else
        var task := LoadClaimed(s.db, p.now);
        Goto(s, w, if task.Some? then Holding(task.value, Origin(s.era, s.claims, p.claim, p.now)) else Idle)
    case RenewStep(w, material) =>
      var p := WorkerAt(s, w);
      if p.Holding? then Goto(s, w, Renewed(p.task, p.from, material, s.serial)).(serial := s.serial + 1) else s
    case RenewFailsStep(w, reauthenticate) =>
      var p := WorkerAt(s, w);
      if p.Holding? || p.Renewed? then Goto(s, w, Failing(p.task, p.from, reauthenticate)) else s
    case CheckStep(w) =>
      var p := WorkerAt(s, w);
      if p.Checking? then Goto(s, w, Reported(CommitConfirmed(s.db, p.task, p.from.now))) else s
    case FailStep(w) =>
      var p := WorkerAt(s, w);
      if p.Failing? then Goto(s, w, Idle).(db := FailRefresh(s.db, p.task, p.reauthenticate, p.from.now)) else s
    case BeginReplaceStep(w, material, managed, refreshAfter, now) =>
      if !WorkerAt(s, w).Idle? then s
      else
        var loaded := if s.db.envelope.Some? then Some(s.db.envelope.value.revision) else None;
        Goto(s, w, Replacing(Replacement(loaded, s.db.driver, material, managed, refreshAfter, now), s.serial)).(serial := s.serial + 1)
    case DriverStep(w) => s.(db := s.db.(driver := s.db.driver + 1))
    case CrashStep(w) => Goto(s, w, Idle)
    case _ => s
  }

  function Execute(s: System, step: Step): System {
    match step
    case CommitStep(w, refreshAfter) => ExecuteCommit(s, w, refreshAfter)
    case ReplaceStep(w) => ExecuteReplace(s, w)
    case _ => ExecuteWorker(s, step)
  }

  const INITIAL := System(Tables(None, None, 1), map[], 0, 0, 0, [], None, None)

  function Run(steps: seq<Step>): System
    decreases |steps|
  {
    if steps == [] then INITIAL else Execute(Run(steps[..|steps| - 1]), steps[|steps| - 1])
  }

  /** A replacement whose envelope statement missed can pass its receipt check only by a coincidence of time. */
  predicate Coincides(db: Tables, x: Replacement) {
    ReplaceCommits(db, x) && !ReplacementMatches(db, x)
  }

  predicate NoCoincidence(s: System, step: Step) {
    step.ReplaceStep? && WorkerAt(s, step.w).Replacing? ==> !Coincides(s.db, WorkerAt(s, step.w).replacement)
  }

  predicate NeverCoincides(steps: seq<Step>)
    decreases |steps|
  {
    steps == []
    || (NeverCoincides(steps[..|steps| - 1]) && NoCoincidence(Run(steps[..|steps| - 1]), steps[|steps| - 1]))
  }
}
