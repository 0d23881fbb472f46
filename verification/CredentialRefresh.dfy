/**
 One driver's credential and its refresh row: the statements that claim, commit and fail a renewal, and those
 by which an operator replaces the credential or stops its renewal.
 */
module CredentialRefresh {
  import opened Options

  const CLAIM_SECONDS := 300

  /** `material` stands for the sealed secret. */
  datatype Envelope = Envelope(revision: nat, material: nat, rotatedAt: nat)

  datatype RefreshState = Ready | Claimed | Retry | ReauthRequired

  /** A lease or retry time of zero stands for NULL. */
  datatype Refresh = Refresh(
    observed: nat, state: RefreshState, fence: nat, leaseExpiresAt: nat, refreshAfter: nat, retryAt: nat,
    attempts: nat, lastSucceededAt: Option<nat>)

  /** `driver` is the revision of the driver row, which every change of the driver raises. */
  datatype Tables = Tables(envelope: Option<Envelope>, refresh: Option<Refresh>, driver: nat)

  datatype Task = Task(observed: nat, fence: nat, attempts: nat)

  // ---------------------------------------------------------------- statements

  predicate IsDue(r: Refresh, now: nat) {
    || (r.state == Ready && r.refreshAfter <= now)
    || (r.state == Retry && r.retryAt <= now)
    || (r.state == Claimed && r.leaseExpiresAt <= now)
  }

  function Claim(r: Refresh, now: nat): Refresh {
    r.(state := Claimed, fence := r.fence + 1, leaseExpiresAt := now + CLAIM_SECONDS, retryAt := 0,
       attempts := r.attempts + 1)
  }

  /** `load_claimed` asks for any live claim on the observed revision, not for the token just taken. */
  function LoadClaimed(db: Tables, now: nat): Option<Task> {
    if db.refresh.Some? && db.envelope.Some? && db.refresh.value.state == Claimed && db.refresh.value.leaseExpiresAt > now
       && db.envelope.value.revision == db.refresh.value.observed
    then Some(Task(db.refresh.value.observed, db.refresh.value.fence, db.refresh.value.attempts))
    else None
  }

  predicate Fenced(db: Tables, task: Task, now: nat) {
    db.refresh.Some? && db.refresh.value.state == Claimed && db.refresh.value.fence == task.fence
    && db.refresh.value.leaseExpiresAt > now
  }

  /** The first statement of `commit_refresh`. */
  function RotateEnvelope(db: Tables, task: Task, material: nat, now: nat): Tables {
    if db.envelope.Some? && db.envelope.value.revision == task.observed && Fenced(db, task, now)
    then db.(envelope := Some(Envelope(task.observed + 1, material, now)))
    else db
  }

  /** The second statement. */
  function AdvanceRefresh(db: Tables, task: Task, refreshAfter: nat, now: nat): Tables {
    if Fenced(db, task, now) && db.envelope.Some? && db.envelope.value.revision == task.observed + 1
    then db.(refresh := Some(db.refresh.value.(observed := task.observed + 1, state := Ready, leaseExpiresAt := 0,
                                               refreshAfter := refreshAfter, retryAt := 0, attempts := 0,
                                               lastSucceededAt := Some(now))))
    else db
  }

  function CommitRefresh(db: Tables, task: Task, material: nat, refreshAfter: nat, now: nat): Tables {
    AdvanceRefresh(RotateEnvelope(db, task, material, now), task, refreshAfter, now)
  }

  /** What `commit_refresh` reads afterwards to decide whether it succeeded. */
  predicate CommitConfirmed(db: Tables, task: Task, now: nat) {
    db.refresh.Some? && db.refresh.value.observed == task.observed + 1 && db.refresh.value.state == Ready
    && db.refresh.value.lastSucceededAt == Some(now)
  }

  function Doubled(base: nat, exponent: nat): (r: nat)
    ensures base <= r
  {
    if exponent == 0 then base else 2 * Doubled(base, exponent - 1)
  }

  lemma {:induction false} DoubledGrows(base: nat, m: nat, n: nat)
    requires m <= n
    ensures Doubled(base, m) <= Doubled(base, n)
  {
    if m < n { DoubledGrows(base, m, n - 1); }
  }

  /** Nine attempts double from a minute to 256 minutes, so the cap of six hours is never reached. */
  function RetryDelay(attempt: nat, fence: nat): (r: nat)
    ensures 60 <= r <= 256 * 60 + 60
  {
    var exponent := if attempt == 0 then 0 else if attempt - 1 > 8 then 8 else attempt - 1;
    DoubledGrows(60, exponent, 8);
    assert Doubled(60, 8) == 256 * 60 by { assert Doubled(60, 4) == 960 && Doubled(60, 6) == 3840; }
    var doubled := Doubled(60, exponent);
    (if doubled < 6 * 60 * 60 then doubled else 6 * 60 * 60) + fence % 61
  }

  function FailRefresh(db: Tables, task: Task, reauthenticate: bool, now: nat): Tables {
    if db.refresh.Some? && db.refresh.value.state == Claimed && db.refresh.value.fence == task.fence
    then db.(refresh := Some(
           if reauthenticate then db.refresh.value.(state := ReauthRequired, leaseExpiresAt := 0, retryAt := 0)
           else db.refresh.value.(state := Retry, leaseExpiresAt := 0, retryAt := now + RetryDelay(task.attempts, task.fence))))
    else db
  }

  /** What an operator's replacement loaded, and what it wants: `managed` credentials are renewed. */
  datatype Replacement = Replacement(
    loaded: Option<nat>, driver: nat, material: nat, managed: bool, refreshAfter: nat, now: nat)

  function RevisionAfter(x: Replacement): nat {
    (if x.loaded.Some? then x.loaded.value else 0) + 1
  }

  /** The statement on the envelope: it matches the loaded revision, or inserts the first envelope. */
  predicate ReplacementMatches(db: Tables, x: Replacement) {
    if x.loaded.Some? then db.envelope.Some? && db.envelope.value.revision == x.loaded.value else db.envelope.None?
  }

  function ReplaceEnvelope(db: Tables, x: Replacement): Tables {
    if ReplacementMatches(db, x) then db.(envelope := Some(Envelope(RevisionAfter(x), x.material, x.now))) else db
  }

  /** The statement on the driver, guarded by its loaded revision. */
  function ReplaceDriver(db: Tables, x: Replacement): Tables {
    if db.driver == x.driver then db.(driver := db.driver + 1) else db
  }

  /** The upsert of the refresh row, or its deletion. An upsert keeps the token; a new row starts at zero. */
  function ReplaceRefresh(db: Tables, x: Replacement): Tables {
    if !x.managed then db.(refresh := None)
    else
      var fence := if db.refresh.Some? then db.refresh.value.fence else 0;
      db.(refresh := Some(Refresh(RevisionAfter(x), Ready, fence, 0, x.refreshAfter, 0, 0, Some(x.now))))
  }

  /** The receipt's trigger compares the driver's revision and the envelope's revision and time, not its content. */
  predicate ReceiptAllowed(db: Tables, x: Replacement) {
    && db.driver == x.driver + 1
    && db.envelope.Some? && db.envelope.value.revision == RevisionAfter(x) && db.envelope.value.rotatedAt == x.now
  }

  /** The receipt names the driver's credential: a first envelope has a new id, which only this driver statement sets. */
  predicate ReplaceCommits(db: Tables, x: Replacement) {
    ReceiptAllowed(ReplaceDriver(ReplaceEnvelope(db, x), x), x) && (x.loaded.None? ==> db.driver == x.driver)
  }

  function Replace(db: Tables, x: Replacement): Tables {
    if ReplaceCommits(db, x) then ReplaceRefresh(ReplaceDriver(ReplaceEnvelope(db, x), x), x) else db
  }

  // ---------------------------------------------------------------- the rows, rewritten in place

  /** The next token under a lease of five minutes, one attempt more, and nothing else. */
  predicate IsNextClaim(before: Refresh, after: Refresh, now: nat) {
    && after.state == Claimed && after.fence == before.fence + 1 && after.leaseExpiresAt == now + 300
    && after.retryAt == 0 && after.attempts == before.attempts + 1
    && after.observed == before.observed && after.refreshAfter == before.refreshAfter
    && after.lastSucceededAt == before.lastSucceededAt
  }

  class CredentialDatabase {
    var envelope: Option<Envelope>
    var refresh: Option<Refresh>
    var driver: nat

    function View(): Tables
      reads this
    {
      Tables(envelope, refresh, driver)
    }

    constructor ()
      ensures View() == Tables(None, None, 1)
    {
      envelope, refresh, driver := None, None, 1;
    }

    /** The claiming update and the load that follows it. */
    method ClaimTask(now: nat) returns (task: Option<Task>)
      modifies this
      ensures envelope == old(envelope) && driver == old(driver)
      ensures refresh != old(refresh) <==>
                old(refresh).Some? && match old(refresh).value.state
                                      case Ready => old(refresh).value.refreshAfter <= now
                                      case Retry => old(refresh).value.retryAt <= now
                                      case Claimed => old(refresh).value.leaseExpiresAt <= now
                                      case ReauthRequired => false
      ensures refresh != old(refresh) ==> refresh.Some? && IsNextClaim(old(refresh).value, refresh.value, now)
      ensures task.Some? <==>
                refresh != old(refresh) && old(envelope).Some? && old(envelope).value.revision == old(refresh).value.observed
      ensures refresh != old(refresh) ==> View() == old(View()).(refresh := Some(Claim(old(refresh).value, now)))
      ensures task.Some? ==> task.value.fence == old(refresh).value.fence + 1 && task.value.observed == old(refresh).value.observed
    {
      if refresh.None? || !IsDue(refresh.value, now) { return None; }
      refresh := Some(Claim(refresh.value, now));
      task := LoadClaimed(View(), now);
    }

    /** The batch and the check after it, with nobody in between. */
    method Commit(task: Task, material: nat, refreshAfter: nat, now: nat) returns (ok: bool)
      modifies this
      ensures View() == CommitRefresh(old(View()), task, material, refreshAfter, now)
      ensures Fenced(old(View()), task, now) && old(envelope).Some? && old(envelope).value.revision == task.observed ==>
                ok && envelope == Some(Envelope(task.observed + 1, material, now)) && refresh.value.observed == task.observed + 1
    {
      if envelope.Some? && envelope.value.revision == task.observed && Fenced(View(), task, now) {
        envelope := Some(Envelope(task.observed + 1, material, now));
      }
      if Fenced(View(), task, now) && envelope.Some? && envelope.value.revision == task.observed + 1 {
        refresh := Some(refresh.value.(observed := task.observed + 1, state := Ready, leaseExpiresAt := 0,
                                       refreshAfter := refreshAfter, retryAt := 0, attempts := 0,
                                       lastSucceededAt := Some(now)));
      }
      ok := CommitConfirmed(View(), task, now);
    }

    /** Ends the claim under this token, whosever it is, and leaves everything else as it was. */
    method Fail(task: Task, reauthenticate: bool, now: nat)
      modifies this`refresh
      ensures refresh != old(refresh) <==>
                old(refresh).Some? && old(refresh).value.state == Claimed && old(refresh).value.fence == task.fence
      ensures refresh != old(refresh) && reauthenticate ==>
                refresh == Some(old(refresh).value.(state := ReauthRequired, leaseExpiresAt := 0, retryAt := 0))
      ensures refresh != old(refresh) && !reauthenticate ==>
                && refresh.Some?
                && refresh.value == old(refresh).value.(state := Retry, leaseExpiresAt := 0, retryAt := refresh.value.retryAt)
                && refresh.value.retryAt == now + RetryDelay(task.attempts, task.fence)
                && now + 60 <= refresh.value.retryAt <= now + 257 * 60
      ensures View() == FailRefresh(old(View()), task, reauthenticate, now)
    {
      if refresh.Some? && refresh.value.state == Claimed && refresh.value.fence == task.fence {
        if reauthenticate {
          refresh := Some(refresh.value.(state := ReauthRequired, leaseExpiresAt := 0, retryAt := 0));
        } else {
          refresh := Some(refresh.value.(state := Retry, leaseExpiresAt := 0,
                                         retryAt := now + RetryDelay(task.attempts, task.fence)));
        }
      }
    }
  }
}
