/** What a load, a commit and a replacement leave in the columns, and when the row is claimed next. */
module CredentialEffects {
  import opened Options
  import opened CredentialRefresh
  import opened CredentialProtocol
  import opened CredentialSafety
  import opened CredentialBackoff

  // ---------------------------------------------------------------- loads

  /** A load finds a task exactly while some claim is live by the worker's clock and observes the envelope's revision. */
  lemma LoadsExactlyWhileLive(s: System, w: nat)
    requires WorkerAt(s, w).Taken?
    ensures var p, q := WorkerAt(s, w), WorkerAt(Execute(s, LoadStep(w)), w);
            if s.db.refresh.Some? && s.db.envelope.Some? && s.db.refresh.value.state == Claimed
               && p.now < s.db.refresh.value.leaseExpiresAt && s.db.refresh.value.observed == s.db.envelope.value.revision
            then q.Holding? && q.task == Task(s.db.envelope.value.revision, s.db.refresh.value.fence, s.db.refresh.value.attempts)
            else q.Idle?
    ensures Execute(s, LoadStep(w)).db == s.db
  {
  }

  // ---------------------------------------------------------------- commits

  /** A worker whose lease has run out by the clock of its claim, or whose token is another, changes nothing. */
  lemma NoCommitWithoutLease(s: System, w: nat, refreshAfter: nat)
    requires WorkerAt(s, w).Renewed?
    requires s.db.refresh.Some? ==>
               || s.db.refresh.value.state != Claimed || s.db.refresh.value.fence != WorkerAt(s, w).task.fence
               || s.db.refresh.value.leaseExpiresAt <= WorkerAt(s, w).from.now
    ensures var t := Execute(s, CommitStep(w, refreshAfter));
            t.db == s.db && t.commits == s.commits && t.author == s.author && t.written == s.written
  {
  }

  /** A row that was completed has no lease, no retry time and no attempts, and opens at the time it was given. */
  predicate IsCompleted(r: Refresh, refreshAfter: nat) {
    && r.state == Ready && r.refreshAfter == refreshAfter && r.leaseExpiresAt == 0 && r.retryAt == 0 && r.attempts == 0
  }

  lemma CommitCompletes(s: System, w: nat, refreshAfter: nat)
    requires WorkerAt(s, w).Renewed? && Agrees(s.db)
    ensures var p, t := WorkerAt(s, w), Execute(s, CommitStep(w, refreshAfter));
            t.db.refresh != s.db.refresh ==>
              && t.db.refresh.Some? && s.db.refresh.Some? && IsCompleted(t.db.refresh.value, refreshAfter)
              && t.db.refresh.value.fence == s.db.refresh.value.fence
              && t.db.refresh.value.lastSucceededAt == Some(p.from.now)
    ensures Execute(s, CommitStep(w, refreshAfter)).db.driver == s.db.driver
  {
  }

  /** After a commit that stored its credential nobody claims the row before its refresh time; then an idle worker does. */
  lemma RenewedCredentialRests(steps: seq<Step>, w: nat, refreshAfter: nat, more: seq<Step>, v: nat, now: nat)
    requires WorkerAt(Run(steps), w).Renewed?
    requires Run(steps + [CommitStep(w, refreshAfter)]).db.envelope != Run(steps).db.envelope
    requires forall i :: 0 <= i < |more| ==> ComesEarly(more[i], Some(refreshAfter))
    requires WorkerAt(Run(steps + [CommitStep(w, refreshAfter)] + more), v).Idle?
    ensures var done := Run(steps + [CommitStep(w, refreshAfter)]);
            var t := Run(steps + [CommitStep(w, refreshAfter)] + more);
            var claimed := Execute(t, ClaimStep(v, now));
            && done.db.refresh.Some? && IsCompleted(done.db.refresh.value, refreshAfter) && t.db.refresh == done.db.refresh
            && (now < refreshAfter ==> claimed == t)
            && (now >= refreshAfter ==> WorkerAt(claimed, v).Taken? && claimed.db.refresh.Some?
                                        && IsNextClaim(t.db.refresh.value, claimed.db.refresh.value, now))
  {
    hide Execute, OpensAt, Inv;
    assert (steps + [CommitStep(w, refreshAfter)])[..|steps + [CommitStep(w, refreshAfter)]| - 1] == steps;
    RunKeeps(steps);
    assert Agrees(Run(steps).db) by { InvAgrees(Run(steps)); }
    CommitCompletes(Run(steps), w, refreshAfter);
    StoredCompletes(Run(steps), w, refreshAfter);
    var done := Run(steps + [CommitStep(w, refreshAfter)]);
    assert OpensAt(done.db.refresh.value, Some(refreshAfter)) by { CompletedOpens(done.db.refresh.value, refreshAfter); }
    hide Run;
    RowRests(steps + [CommitStep(w, refreshAfter)], more, Some(refreshAfter));
    ClaimsExactlyWhenOpen(Run(steps + [CommitStep(w, refreshAfter)] + more), v, now, Some(refreshAfter));
  }

  lemma InvAgrees(s: System)
    requires Inv(s)
    ensures Agrees(s.db)
  {
  }

  lemma CompletedOpens(r: Refresh, refreshAfter: nat)
    requires IsCompleted(r, refreshAfter)
    ensures OpensAt(r, Some(refreshAfter))
  {
  }

  lemma StoredCompletes(s: System, w: nat, refreshAfter: nat)
    requires WorkerAt(s, w).Renewed? && Agrees(s.db)
    requires Execute(s, CommitStep(w, refreshAfter)).db.envelope != s.db.envelope
    ensures Execute(s, CommitStep(w, refreshAfter)).db.refresh != s.db.refresh
  {
  }

  // ---------------------------------------------------------------- failures

  /** A failure under the row's token ends its claim: to be retried later, or to wait for an operator; else it changes nothing. */
  lemma FailureEndsClaim(s: System, w: nat)
    requires WorkerAt(s, w).Failing?
    ensures var p, t := WorkerAt(s, w), Execute(s, FailStep(w));
            if s.db.refresh.Some? && s.db.refresh.value.state == Claimed && s.db.refresh.value.fence == p.task.fence then
              && t.db == s.db.(refresh := t.db.refresh) && t.db.refresh.Some?
              && t.db.refresh.value.leaseExpiresAt == 0 && t.db.refresh.value.fence == s.db.refresh.value.fence
              && t.db.refresh.value.observed == s.db.refresh.value.observed
              && t.db.refresh.value.attempts == s.db.refresh.value.attempts
              && t.db.refresh.value.refreshAfter == s.db.refresh.value.refreshAfter
              && t.db.refresh.value.lastSucceededAt == s.db.refresh.value.lastSucceededAt
              && (p.reauthenticate ==> OpensAt(t.db.refresh.value, None) && t.db.refresh.value.retryAt == 0)
              && (!p.reauthenticate ==> OpensAt(t.db.refresh.value, Some(p.from.now + RetryDelay(p.task.attempts, p.task.fence)))
                                        && t.db.refresh.value.state == Retry)
            else t.db == s.db
  {
  }

  // ---------------------------------------------------------------- replacements

  /** A replacement that commits under the loaded revisions stores its credential and restarts or ends its renewal. */
  lemma ReplacementStores(s: System, w: nat)
    requires WorkerAt(s, w).Replacing?
    requires var x := WorkerAt(s, w).replacement;
             && s.db.driver == x.driver
             && (if x.loaded.Some? then s.db.envelope.Some? && s.db.envelope.value.revision == x.loaded.value
                 else s.db.envelope.None?)
    ensures var x, t := WorkerAt(s, w).replacement, Execute(s, ReplaceStep(w)).db;
            && t.driver == s.db.driver + 1
            && t.envelope == Some(Envelope(if x.loaded.Some? then x.loaded.value + 1 else 1, x.material, x.now))
            && (if x.managed then
                  && t.refresh.Some? && IsCompleted(t.refresh.value, x.refreshAfter)
                  && t.refresh.value.observed == t.envelope.value.revision && t.refresh.value.lastSucceededAt == Some(x.now)
                  && t.refresh.value.fence == (if s.db.refresh.Some? then s.db.refresh.value.fence else 0)
                else t.refresh.None?)
  {
  }

  /** Under a revision that has moved on it changes nothing, unless its own revision was written in its second. */
  lemma ReplacementRefused(s: System, w: nat)
    requires WorkerAt(s, w).Replacing?
    requires var x := WorkerAt(s, w).replacement;
             || s.db.driver < x.driver || s.db.driver > x.driver + 1
             || (x.loaded.Some? && s.db.envelope.None?)
             || (x.loaded.Some? && s.db.envelope.Some? && s.db.envelope.value.revision != x.loaded.value
                 && (s.db.envelope.value.revision != x.loaded.value + 1 || s.db.envelope.value.rotatedAt != x.now))
    ensures Execute(s, ReplaceStep(w)).db == s.db
  {
  }

  // ---------------------------------------------------------------- the history

  /** The history notes every commit that changed the rows, and who wrote the credential and completed the row last. */
  lemma HistoryNotes(s: System, w: nat, refreshAfter: nat)
    requires WorkerAt(s, w).Renewed?
    ensures var p, t := WorkerAt(s, w), Execute(s, CommitStep(w, refreshAfter));
            && (t.db != s.db ==> t.commits == s.commits + [(s.era, p.task.fence)])
            && (t.db.envelope != s.db.envelope ==> Wrote(t.author, p.serial) && !t.author.value.operator)
            && (t.db.refresh != s.db.refresh ==> Wrote(t.written, p.serial) && !t.written.value.operator)
            && (t.db == s.db ==> t.commits == s.commits && t.author == s.author && t.written == s.written)
  {
  }

  lemma HistoryNotesOperators(s: System, w: nat)
    requires WorkerAt(s, w).Replacing?
    ensures var p, t := WorkerAt(s, w), Execute(s, ReplaceStep(w));
            && (t.db.envelope != s.db.envelope ==> Wrote(t.author, p.serial) && t.author.value.operator)
            && (t.db.refresh != s.db.refresh && t.db.refresh.Some? ==> Wrote(t.written, p.serial) && t.written.value.operator)
            && t.commits == s.commits && t.claims == s.claims
            && t.era == s.era + if s.db.refresh.Some? && t.db.refresh.None? then 1 else 0
  {
  }
}
