/** When a refresh row can be claimed, in its own columns, and how long it rests in every run. */
module CredentialBackoff {
  import opened Options
  import opened CredentialRefresh
  import opened CredentialProtocol

  // ---------------------------------------------------------------- one claim

  /** A row in `state` can be claimed from this time on; one that waits for an operator, never. */
  predicate OpensAt(r: Refresh, from: Option<nat>) {
    && (r.state == Ready ==> from == Some(r.refreshAfter))
    && (r.state == Retry ==> from == Some(r.retryAt))
    && (r.state == Claimed ==> from == Some(r.leaseExpiresAt))
    && (r.state == ReauthRequired ==> from == None)
  }

  /** An idle worker's claim takes the next token exactly from the time that the row's state sets. */
  lemma ClaimsExactlyWhenOpen(s: System, w: nat, now: nat, from: Option<nat>)
    requires s.db.refresh.Some? && OpensAt(s.db.refresh.value, from)
    ensures var t := Execute(s, ClaimStep(w, now));
            if WorkerAt(s, w).Idle? && from.Some? && from.value <= now then
              && WorkerAt(t, w) == Taken(now, s.claims + 1) && t.claims == s.claims + 1
              && t.db.refresh.Some? && IsNextClaim(s.db.refresh.value, t.db.refresh.value, now)
              && t.db.envelope == s.db.envelope && t.db.driver == s.db.driver
            else t == s
  {
  }

  // ---------------------------------------------------------------- how long a row rests

  /** No operator replaces the credential, and no worker looks at a clock that has reached `from`. */
  predicate ComesEarly(step: Step, from: Option<nat>) {
    && !step.ReplaceStep?
    && (step.ClaimStep? && from.Some? ==> step.now < from.value)
  }

  lemma StepLeavesResting(s: System, step: Step, from: Option<nat>)
    requires s.db.refresh.Some? && s.db.refresh.value.state != Claimed
    requires OpensAt(s.db.refresh.value, from) && ComesEarly(step, from)
    ensures Execute(s, step).db.refresh == s.db.refresh
  {
  }

  /** A row that nobody holds stays as it is, whoever still works on an older claim, until its time or an operator comes. */
  lemma {:induction false} RowRests(steps: seq<Step>, more: seq<Step>, from: Option<nat>)
    requires Run(steps).db.refresh.Some? && Run(steps).db.refresh.value.state != Claimed
    requires OpensAt(Run(steps).db.refresh.value, from)
    requires forall i :: 0 <= i < |more| ==> ComesEarly(more[i], from)
    ensures Run(steps + more).db.refresh == Run(steps).db.refresh
    decreases |more|
  {
    hide Execute;
    if more == [] {
      assert steps + more == steps;
    } else {
      var n := |more| - 1;
      assert (steps + more)[..|steps + more| - 1] == steps + more[..n];
      RowRests(steps, more[..n], from);
      StepLeavesResting(Run(steps + more[..n]), more[n], from);
    }
  }

  /**
   After a failure that is to be retried, no claim succeeds before the retry time it wrote, one to 257 minutes
   after its claim, unless an operator replaces the credential. From then on an idle worker's claim succeeds.
   */
  lemma BackoffIsKept(steps: seq<Step>, w: nat, more: seq<Step>, v: nat, now: nat)
    requires var s := Run(steps);
             && WorkerAt(s, w).Failing? && !WorkerAt(s, w).reauthenticate
             && s.db.refresh.Some? && s.db.refresh.value.state == Claimed
             && s.db.refresh.value.fence == WorkerAt(s, w).task.fence
    requires var retryAt := Run(steps + [FailStep(w)]).db.refresh;
             retryAt.Some? && forall i :: 0 <= i < |more| ==> ComesEarly(more[i], Some(retryAt.value.retryAt))
    requires WorkerAt(Run(steps + [FailStep(w)] + more), v).Idle?
    ensures var failed, t := Run(steps + [FailStep(w)]), Run(steps + [FailStep(w)] + more);
            var claimed := Execute(t, ClaimStep(v, now));
            && failed.db.refresh.value.state == Retry && t.db.refresh == failed.db.refresh
            && WorkerAt(Run(steps), w).from.now + 60 <= failed.db.refresh.value.retryAt
            && failed.db.refresh.value.retryAt <= WorkerAt(Run(steps), w).from.now + 257 * 60
            && (now < failed.db.refresh.value.retryAt ==> claimed == t)
            && (now >= failed.db.refresh.value.retryAt ==>
                  WorkerAt(claimed, v).Taken? && claimed.db.refresh.Some?
                  && IsNextClaim(t.db.refresh.value, claimed.db.refresh.value, now))
  {
    hide Execute, OpensAt;
    assert (steps + [FailStep(w)])[..|steps + [FailStep(w)]| - 1] == steps;
    FailureRests(Run(steps), w);
    var from := Some(Run(steps + [FailStep(w)]).db.refresh.value.retryAt);
    hide Run;
    RowRests(steps + [FailStep(w)], more, from);
    ClaimsExactlyWhenOpen(Run(steps + [FailStep(w)] + more), v, now, from);
  }

  lemma FailureRests(s: System, w: nat)
    requires WorkerAt(s, w).Failing? && !WorkerAt(s, w).reauthenticate
    requires s.db.refresh.Some? && s.db.refresh.value.state == Claimed && s.db.refresh.value.fence == WorkerAt(s, w).task.fence
    ensures var t := Execute(s, FailStep(w)).db.refresh;
            && t.Some? && t.value.state == Retry && OpensAt(t.value, Some(t.value.retryAt))
            && WorkerAt(s, w).from.now + 60 <= t.value.retryAt <= WorkerAt(s, w).from.now + 257 * 60
  {
  }

  /** A failure that needs an operator closes the row to every clock. */
  lemma ReauthorizationWaits(steps: seq<Step>, more: seq<Step>)
    requires Run(steps).db.refresh.Some? && Run(steps).db.refresh.value.state == ReauthRequired
    requires forall i :: 0 <= i < |more| ==> !more[i].ReplaceStep?
    ensures Run(steps + more).db.refresh == Run(steps).db.refresh
  {
    hide Run;
    RowRests(steps, more, None);
  }

  /** Every attempt up to the ninth doubles the wait of the one before, from one minute on; the token adds up to another. */
  lemma WaitDoubles(attempt: nat, fence: nat)
    requires attempt >= 1
    ensures RetryDelay(1, fence) == 60 + fence % 61
    ensures attempt <= 8 ==> RetryDelay(attempt + 1, fence) - fence % 61 == 2 * (RetryDelay(attempt, fence) - fence % 61)
    ensures attempt >= 9 ==> RetryDelay(attempt, fence) == RetryDelay(9, fence)
  {
    if attempt <= 8 {
      DoubledGrows(60, attempt, 8);
      assert Doubled(60, 8) == 256 * 60 by { assert Doubled(60, 4) == 960 && Doubled(60, 6) == 3840; }
    }
  }
}
