/** Runs from the empty tables in which a promise of renewal or replacement fails. */
module CredentialRuns {
  import opened Options
  import opened CredentialRefresh
  import opened CredentialProtocol

  /** The run after each of its first steps. */
  lemma {:induction false} PrefixRun(steps: seq<Step>, n: nat)
    requires n < |steps|
    ensures Run(steps[..n + 1]) == Execute(Run(steps[..n]), steps[n])
  {
    hide Execute;
    assert steps[..n + 1][..n] == steps[..n];
  }

  /** The same, and whether the step was a coincidence. */
  lemma {:induction false} PrefixApart(steps: seq<Step>, n: nat)
    requires n < |steps|
    ensures Run(steps[..n + 1]) == Execute(Run(steps[..n]), steps[n])
    ensures NeverCoincides(steps[..n + 1]) <==> NeverCoincides(steps[..n]) && NoCoincidence(Run(steps[..n]), steps[n])
  {
    hide Execute;
    assert steps[..n + 1][..n] == steps[..n];
  }

  lemma NoSteps(steps: seq<Step>)
    ensures Run(steps[..0]) == INITIAL && NeverCoincides(steps[..0])
  {
    assert steps[..0] == [];
  }

  // ---------------------------------------------------------------- renewal and replacement in one second

  /** Worker 1 renews revision 1 in second 20; an operator, worker 0, loads the same revision in the same second. */
  const SAME_SECOND := [
    BeginReplaceStep(0, 100, true, 1, 1), ReplaceStep(0),
    ClaimStep(1, 20), LoadStep(1), RenewStep(1, 200),
    BeginReplaceStep(0, 300, true, 1, 20)]

  lemma ClaimedInSecond20()
    ensures var s := Run(SAME_SECOND[..4]);
            && s.db.envelope == Some(Envelope(1, 100, 1)) && s.db.driver == 2
            && s.db.refresh == Some(Refresh(1, Claimed, 1, 320, 1, 0, 1, Some(1)))
            && WorkerAt(s, 1) == Holding(Task(1, 1, 1), Origin(0, 1, 1, 20)) && WorkerAt(s, 0) == Idle
            && s.serial == 1 && s.commits == [] && NeverCoincides(SAME_SECOND[..4])
  {
    hide Run, NeverCoincides, RetryDelay;
    NoSteps(SAME_SECOND);
    PrefixApart(SAME_SECOND, 0);
    PrefixApart(SAME_SECOND, 1);
    PrefixApart(SAME_SECOND, 2);
    PrefixApart(SAME_SECOND, 3);
  }

  lemma SameSecond()
    ensures var s := Run(SAME_SECOND);
            && s.db.envelope == Some(Envelope(1, 100, 1)) && s.db.driver == 2
            && s.db.refresh == Some(Refresh(1, Claimed, 1, 320, 1, 0, 1, Some(1)))
            && WorkerAt(s, 1) == Renewed(Task(1, 1, 1), Origin(0, 1, 1, 20), 200, 1)
            && WorkerAt(s, 0) == Replacing(Replacement(Some(1), 2, 300, true, 1, 20), 2)
            && NeverCoincides(SAME_SECOND) && s.commits == []
  {
    hide Run, NeverCoincides, RetryDelay;
    ClaimedInSecond20();
    PrefixApart(SAME_SECOND, 4);
    PrefixApart(SAME_SECOND, 5);
    assert SAME_SECOND[..6] == SAME_SECOND;
  }

  /** The renewal commits first: then the replacement reports success too, and the renewed credential stays. */
  lemma CoincidenceLosesReplacement()
    ensures var s := Run(SAME_SECOND + [CommitStep(1, 50)]);
            var t := Run(SAME_SECOND + [CommitStep(1, 50), ReplaceStep(0)]);
            && WorkerAt(s, 0) == Replacing(Replacement(Some(1), 2, 300, true, 1, 20), 2)
            && ReplaceCommits(s.db, WorkerAt(s, 0).replacement)
            && t.db.envelope == Some(Envelope(2, 200, 20))
            && t.db.refresh == Some(Refresh(2, Ready, 1, 0, 1, 0, 0, Some(20)))
  {
    hide Run, NeverCoincides, RetryDelay;
    SameSecond();
    var steps := SAME_SECOND + [CommitStep(1, 50), ReplaceStep(0)];
    PrefixRun(steps, 6);
    PrefixRun(steps, 7);
    assert steps[..6] == SAME_SECOND && steps[..7] == SAME_SECOND + [CommitStep(1, 50)] && steps[..8] == steps;
  }

  /** Two further changes of the driver make the same replacement abort, which is then reported. */
  lemma MovedDriverRefuses()
    ensures var s := Run(SAME_SECOND + [CommitStep(1, 50), DriverStep(9), DriverStep(9)]);
            && WorkerAt(s, 0) == Replacing(Replacement(Some(1), 2, 300, true, 1, 20), 2)
            && s.db.envelope == Some(Envelope(2, 200, 20)) && s.db.driver == 4
            && !ReplaceCommits(s.db, WorkerAt(s, 0).replacement)
  {
    hide Run, NeverCoincides, RetryDelay;
    SameSecond();
    var steps := SAME_SECOND + [CommitStep(1, 50), DriverStep(9), DriverStep(9)];
    PrefixRun(steps, 6);
    PrefixRun(steps, 7);
    PrefixRun(steps, 8);
    assert steps[..6] == SAME_SECOND && steps[..9] == steps;
  }

  /** The replacement commits first: then the renewal reports success too, and the operator's credential stays. */
  lemma ConfirmationMistakesReplacement()
    ensures var t := Run(SAME_SECOND + [ReplaceStep(0), CommitStep(1, 50), CheckStep(1)]);
            && WorkerAt(t, 1) == Reported(true)
            && t.db.envelope == Some(Envelope(2, 300, 20)) && t.commits == []
    ensures NeverCoincides(SAME_SECOND + [ReplaceStep(0), CommitStep(1, 50), CheckStep(1)])
  {
    hide Run, NeverCoincides, RetryDelay;
    SameSecond();
    var steps := SAME_SECOND + [ReplaceStep(0), CommitStep(1, 50), CheckStep(1)];
    assert steps[..6] == SAME_SECOND;
    PrefixApart(steps, 6);
    PrefixApart(steps, 7);
    PrefixApart(steps, 8);
    assert steps[..9] == steps;
  }

  // ---------------------------------------------------------------- two renewals in one second

  /**
   Worker 1 is slow: it loads the claim of worker 2, whose clock is 390 seconds later, and fails it by its own
   clock, which makes the row due again in the second of worker 2. Workers 2 and 3 then hold the same claim.
   */
  const TWO_RENEWALS := [
    BeginReplaceStep(0, 100, true, 1, 1), ReplaceStep(0),
    ClaimStep(1, 10), ClaimStep(2, 400), LoadStep(1), RenewFailsStep(1, false), FailStep(1),
    ClaimStep(3, 400), LoadStep(2), LoadStep(3), RenewStep(2, 200), RenewStep(3, 300),
    CommitStep(2, 900), CommitStep(3, 900), CheckStep(3)]

  lemma SlowLoad()
    ensures var s := Run(TWO_RENEWALS[..5]);
            && s.db.envelope == Some(Envelope(1, 100, 1)) && s.db.driver == 2
            && s.db.refresh == Some(Refresh(1, Claimed, 2, 700, 1, 0, 2, Some(1)))
            && s.era == 0 && s.claims == 2 && s.serial == 1
            && WorkerAt(s, 1) == Holding(Task(1, 2, 2), Origin(0, 2, 1, 10))
            && WorkerAt(s, 2) == Taken(400, 2) && WorkerAt(s, 3) == Idle
            && NeverCoincides(TWO_RENEWALS[..5])
  {
    hide Run, NeverCoincides, RetryDelay;
    NoSteps(TWO_RENEWALS);
    PrefixApart(TWO_RENEWALS, 0);
    PrefixApart(TWO_RENEWALS, 1);
    PrefixApart(TWO_RENEWALS, 2);
    PrefixApart(TWO_RENEWALS, 3);
    PrefixApart(TWO_RENEWALS, 4);
  }

  /**
   Worker 1 is about to fail the claim that worker 2 took, in the one life of the row: its own claim ran out, and
   its load came after the next one.
   */
  lemma SlowLoadEndsOtherClaim()
    ensures NeverCoincides(TWO_RENEWALS[..6])
    ensures var s, t := Run(TWO_RENEWALS[..6]), Run(TWO_RENEWALS[..7]);
            && s.era == 0 && s.claims == 2 && WorkerAt(s, 2) == Taken(400, 2)
            && WorkerAt(s, 1).Failing? && WorkerAt(s, 1).from.taken == 1 && WorkerAt(s, 1).from.claim == 2
            && s.db.refresh.Some? && s.db.refresh.value.state == Claimed && s.db.refresh.value.fence == 2
            && t.db.refresh.Some? && t.db.refresh.value.state == Retry
  {
    hide Run, NeverCoincides, RetryDelay;
    SlowLoad();
    PrefixApart(TWO_RENEWALS, 5);
    PrefixApart(TWO_RENEWALS, 6);
  }

  lemma SlowFailure()
    ensures var s := Run(TWO_RENEWALS[..7]);
            && s.db.envelope == Some(Envelope(1, 100, 1)) && s.db.driver == 2
            && s.db.refresh == Some(Refresh(1, Retry, 2, 0, 1, 132, 2, Some(1)))
            && s.era == 0 && s.claims == 2 && s.serial == 1
            && WorkerAt(s, 1) == Idle && WorkerAt(s, 2) == Taken(400, 2) && WorkerAt(s, 3) == Idle
            && NeverCoincides(TWO_RENEWALS[..7])
  {
    hide Run, NeverCoincides;
    SlowLoad();
    PrefixApart(TWO_RENEWALS, 5);
    PrefixApart(TWO_RENEWALS, 6);
    assert RetryDelay(2, 2) == 122;
  }

  lemma SharedClaim()
    ensures var s := Run(TWO_RENEWALS[..12]);
            && s.db.envelope == Some(Envelope(1, 100, 1)) && s.db.driver == 2
            && s.db.refresh == Some(Refresh(1, Claimed, 3, 700, 1, 0, 3, Some(1)))
            && WorkerAt(s, 2) == Renewed(Task(1, 3, 3), Origin(0, 3, 2, 400), 200, 1)
            && WorkerAt(s, 3) == Renewed(Task(1, 3, 3), Origin(0, 3, 3, 400), 300, 2)
            && NeverCoincides(TWO_RENEWALS[..12])
  {
    hide Run, NeverCoincides, RetryDelay;
    SlowFailure();
    PrefixApart(TWO_RENEWALS, 7);
    PrefixApart(TWO_RENEWALS, 8);
    PrefixApart(TWO_RENEWALS, 9);
    PrefixApart(TWO_RENEWALS, 10);
    PrefixApart(TWO_RENEWALS, 11);
  }

  /** Worker 3 reports the success of worker 2, without any replacement in that second. */
  lemma ConfirmationMistakesRenewal()
    ensures NeverCoincides(TWO_RENEWALS)
    ensures var t := Run(TWO_RENEWALS);
            WorkerAt(t, 3) == Reported(true) && t.db.envelope == Some(Envelope(2, 200, 400))
  {
    hide Run, NeverCoincides, RetryDelay;
    SharedClaim();
    PrefixApart(TWO_RENEWALS, 12);
    PrefixApart(TWO_RENEWALS, 13);
    PrefixApart(TWO_RENEWALS, 14);
    assert TWO_RENEWALS[..15] == TWO_RENEWALS;
  }

  // ---------------------------------------------------------------- a row that was deleted and created again

  /** Worker 1 claims the first life of the row; the row is dropped and created again; worker 2 claims the second. */
  const SECOND_LIFE := [
    BeginReplaceStep(0, 100, true, 1, 1), ReplaceStep(0),
    ClaimStep(1, 10), LoadStep(1), RenewFailsStep(1, false),
    BeginReplaceStep(0, 200, false, 1, 20), ReplaceStep(0),
    BeginReplaceStep(0, 300, true, 1, 30), ReplaceStep(0),
    ClaimStep(2, 40)]

  /** After the fifth step worker 1 holds token one of the first life, and is about to fail. */
  lemma FirstLife()
    ensures var s := Run(SECOND_LIFE[..5]);
            && NeverCoincides(SECOND_LIFE[..5])
            && s.db.envelope == Some(Envelope(1, 100, 1)) && s.db.driver == 2 && s.db.refresh.Some? && s.db.refresh.value.fence == 1
            && s.db.refresh.value.state == Claimed && s.db.refresh.value.observed == 1
            && WorkerAt(s, 1) == Failing(Task(1, 1, 1), Origin(0, 1, 1, 10), false) && s.era == 0 && s.claims == 1
            && WorkerAt(s, 0) == Idle && WorkerAt(s, 2) == Idle
  {
    hide Run, NeverCoincides, RetryDelay;
    NoSteps(SECOND_LIFE);
    PrefixApart(SECOND_LIFE, 0);
    PrefixApart(SECOND_LIFE, 1);
    PrefixApart(SECOND_LIFE, 2);
    PrefixApart(SECOND_LIFE, 3);
    PrefixApart(SECOND_LIFE, 4);
  }

  /** After the ninth step the row is new, and its tokens start over. */
  lemma Recreated()
    ensures var s := Run(SECOND_LIFE[..9]);
            && NeverCoincides(SECOND_LIFE[..9])
            && s.db.refresh == Some(Refresh(3, Ready, 0, 0, 1, 0, 0, Some(30))) && s.era == 1 && s.claims == 1
            && WorkerAt(s, 1) == Failing(Task(1, 1, 1), Origin(0, 1, 1, 10), false) && WorkerAt(s, 2) == Idle
  {
    hide Run, NeverCoincides, RetryDelay;
    FirstLife();
    PrefixApart(SECOND_LIFE, 5);
    PrefixApart(SECOND_LIFE, 6);
    PrefixApart(SECOND_LIFE, 7);
    PrefixApart(SECOND_LIFE, 8);
  }

  /** Then worker 1's failure ends worker 2's claim, since both hold token one. */
  lemma StaleFailureEndsNewClaim()
    ensures NeverCoincides(SECOND_LIFE)
    ensures var s := Run(SECOND_LIFE);
            && WorkerAt(s, 2) == Taken(40, 2) && s.db.refresh.Some? && s.db.refresh.value.state == Claimed
            && WorkerAt(s, 1).Failing? && WorkerAt(s, 1).from.claim < s.claims
            && Execute(s, FailStep(1)).db.refresh.value.state == Retry
  {
    hide Run, NeverCoincides, RetryDelay;
    Recreated();
    PrefixApart(SECOND_LIFE, 9);
    assert SECOND_LIFE[..10] == SECOND_LIFE;
  }

  // ---------------------------------------------------------------- the same with coincident replacements

  /**
   Worker 1 renews under token one of the first life. Two operators load revision 1 in one second: worker 0 ends
   renewal and deletes the row, worker 2 resumes it by coincidence, at the revision worker 0 wrote. Worker 4
   claims the new row, under token one again.
   */
  const MIXED_LIVES := [
    BeginReplaceStep(0, 100, true, 1, 1), ReplaceStep(0),
    ClaimStep(1, 10), LoadStep(1), RenewStep(1, 200),
    BeginReplaceStep(0, 300, false, 1, 20), BeginReplaceStep(2, 400, true, 1, 20),
    ReplaceStep(0), ReplaceStep(2), ClaimStep(4, 40)]

  lemma OneClaim()
    ensures var s := Run(MIXED_LIVES[..4]);
            && s.db.envelope == Some(Envelope(1, 100, 1)) && s.db.driver == 2
            && s.db.refresh == Some(Refresh(1, Claimed, 1, 310, 1, 0, 1, Some(1))) && s.era == 0 && s.serial == 1 && s.claims == 1
            && WorkerAt(s, 1) == Holding(Task(1, 1, 1), Origin(0, 1, 1, 10))
            && WorkerAt(s, 0) == Idle && WorkerAt(s, 2) == Idle && WorkerAt(s, 4) == Idle
  {
    hide Run, NeverCoincides, RetryDelay;
    NoSteps(MIXED_LIVES);
    PrefixRun(MIXED_LIVES, 0);
    PrefixRun(MIXED_LIVES, 1);
    PrefixRun(MIXED_LIVES, 2);
    PrefixRun(MIXED_LIVES, 3);
  }

  lemma TwoOperators()
    ensures var s := Run(MIXED_LIVES[..7]);
            && s.db.envelope == Some(Envelope(1, 100, 1)) && s.db.driver == 2
            && s.db.refresh == Some(Refresh(1, Claimed, 1, 310, 1, 0, 1, Some(1))) && s.era == 0 && s.claims == 1
            && WorkerAt(s, 1) == Renewed(Task(1, 1, 1), Origin(0, 1, 1, 10), 200, 1)
            && WorkerAt(s, 0) == Replacing(Replacement(Some(1), 2, 300, false, 1, 20), 2)
            && WorkerAt(s, 2) == Replacing(Replacement(Some(1), 2, 400, true, 1, 20), 3) && WorkerAt(s, 4) == Idle
  {
    hide Run, NeverCoincides, RetryDelay;
    OneClaim();
    PrefixRun(MIXED_LIVES, 4);
    PrefixRun(MIXED_LIVES, 5);
    PrefixRun(MIXED_LIVES, 6);
  }

  lemma NewRow()
    ensures var s := Run(MIXED_LIVES[..9]);
            && s.db.envelope == Some(Envelope(2, 300, 20))
            && s.db.refresh == Some(Refresh(2, Ready, 0, 0, 1, 0, 0, Some(20))) && s.era == 1 && s.claims == 1
            && WorkerAt(s, 1) == Renewed(Task(1, 1, 1), Origin(0, 1, 1, 10), 200, 1) && WorkerAt(s, 4) == Idle
  {
    hide Run, NeverCoincides, RetryDelay;
    TwoOperators();
    PrefixRun(MIXED_LIVES, 7);
    PrefixRun(MIXED_LIVES, 8);
  }

  lemma NewRowIsClaimed()
    ensures var s := Run(MIXED_LIVES);
            && s.db.envelope == Some(Envelope(2, 300, 20))
            && s.db.refresh == Some(Refresh(2, Claimed, 1, 340, 1, 0, 1, Some(20))) && s.era == 1
            && WorkerAt(s, 1) == Renewed(Task(1, 1, 1), Origin(0, 1, 1, 10), 200, 1) && WorkerAt(s, 4) == Taken(40, 2)
  {
    hide Run, NeverCoincides, RetryDelay;
    NewRow();
    PrefixRun(MIXED_LIVES, 9);
    assert MIXED_LIVES[..10] == MIXED_LIVES;
  }

  /** Then worker 1's commit completes worker 4's claim, and stores nothing. */
  lemma StaleCommitMovesNewRow()
    ensures var s, t := Run(MIXED_LIVES), Execute(Run(MIXED_LIVES), CommitStep(1, 900));
            && WorkerAt(s, 1).Renewed? && WorkerAt(s, 1).from.era < s.era && WorkerAt(s, 4) == Taken(40, 2)
            && s.db.refresh.Some? && s.db.refresh.value.state == Claimed
            && t.db.envelope == s.db.envelope == Some(Envelope(2, 300, 20))
            && t.db.refresh.Some? && t.db.refresh.value.state == Ready && t.db.refresh.value.lastSucceededAt == Some(10)
  {
    hide Run;
    NewRowIsClaimed();
  }
}
