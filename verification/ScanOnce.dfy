/**
 When a generation of a scan counts each page at most once. The fence of a page's batch is the cursor itself, so
 this depends on the cursors that the provider hands back.
 */
module ScanOnce {
  import opened Options
  import opened AliyunTraversal
  import opened ProviderScan

  /** No cursor was committed twice in the current generation. */
  predicate Distinct(cursors: seq<Option<Cursor>>) {
    forall i, j :: 0 <= i < j < |cursors| ==> cursors[i] != cursors[j]
  }

  lemma DistinctAppend(cursors: seq<Option<Cursor>>, c: Option<Cursor>)
    requires Distinct(cursors) && forall e | e in cursors :: e != c
    ensures Distinct(cursors + [c])
  {
    forall i, j | 0 <= i < j < |cursors + [c]| ensures (cursors + [c])[i] != (cursors + [c])[j] {
      if j == |cursors| { assert cursors[i] in cursors; }
    }
  }

  // ---------------------------------------------------------------- the guard and what it guarantees

  /** The step is a page's batch and its fence holds. */
  predicate CommitsPage(s: System, step: Step) {
    && step.CommitStep? && WorkerAt(s, step.w).Listed? && |step.known| == |WorkerAt(s, step.w).page.objects|
    && Fence(s.db.row, WorkerAt(s, step.w).generation, WorkerAt(s, step.w).expected)
  }

  /** The page's next cursor is the one it was listed from, or one that the generation has committed before. */
  predicate Returns(s: System, step: Step) {
    CommitsPage(s, step) &&
    var p := WorkerAt(s, step.w);
    p.page.nextCursor.Some? && p.page.nextCursor in s.cursors + [p.expected]
  }

  predicate AlwaysFresh(s: System, steps: seq<Step>)
    decreases |steps|
  {
    steps == []
    || (AlwaysFresh(s, steps[..|steps| - 1]) && !Returns(Run(s, steps[..|steps| - 1]), steps[|steps| - 1]))
  }

  /** No cursor was committed twice, and the one to be committed next was not committed yet. */
  predicate OnceSoFar(s: System) {
    Distinct(s.cursors) && (s.db.row.state == Scanning ==> s.db.row.cursor !in s.cursors)
  }

  /** One step keeps this exactly when its page does not return to a cursor. */
  lemma OnceExactly(s: System, step: Step)
    requires OnceSoFar(s)
    ensures OnceSoFar(Execute(s, step)) <==> !Returns(s, step)
  {
    assert Distinct([]);
    hide Distinct;
    if CommitsPage(s, step) { DistinctAppend(s.cursors, WorkerAt(s, step.w).expected); }
  }

  /** So it holds all along a run exactly when no page of the run returns. */
  lemma {:induction false} FreshExactly(s: System, steps: seq<Step>)
    requires OnceSoFar(s)
    ensures AlwaysFresh(s, steps) ==> OnceSoFar(Run(s, steps))
    decreases |steps|
  {
    hide Execute, OnceSoFar, Returns;
    if steps != [] {
      var n := |steps| - 1;
      if AlwaysFresh(s, steps[..n]) {
        FreshExactly(s, steps[..n]);
        OnceExactly(Run(s, steps[..n]), steps[n]);
      }
    }
  }

  // ---------------------------------------------------------------- what a returned cursor leads to

  lemma NoStepsYet(s: System, steps: seq<Step>)
    ensures Run(s, steps[..0]) == s
  {
    assert steps[..0] == [];
  }

  lemma {:induction false} PrefixRun(s: System, steps: seq<Step>, n: nat)
    requires n < |steps|
    ensures Run(s, steps[..n + 1]) == Execute(Run(s, steps[..n]), steps[n])
  {
    hide Execute;
    assert steps[..n + 1][..n] == steps[..n];
  }

  lemma RunSplits(s: System, a: seq<Step>, b: Step)
    ensures Run(s, a + [b]) == Execute(Run(s, a), b)
    ensures AlwaysFresh(s, a + [b]) <==> AlwaysFresh(s, a) && !Returns(Run(s, a), b)
  {
    hide Execute, Returns;
    assert (a + [b])[..|a|] == a;
  }

  /** Worker 0 lists from the row's cursor once more, and finds nothing there and no further page. */
  const ONCE_MORE := [CrashStep(0), RefreshStep(0), SelectStep(0, 0), StartStep(0, 0), ListStep(0, ProviderPage([], None))]

  lemma SelectsOnceMore(s: System)
    requires s.db.row.state == Scanning
    ensures var t := Run(s, ONCE_MORE[..3]);
            && AlwaysFresh(s, ONCE_MORE[..3]) && t.cursors == s.cursors
            && WorkerAt(t, 0) == Candidate(t.db.row) && t.db.row == Refresh(s.db.row, 0)
  {
    hide Run, AlwaysFresh;
    FirstIsFresh(s, CrashStep(0));
    RunSplits(s, ONCE_MORE[..1], RefreshStep(0));
    RunSplits(s, ONCE_MORE[..2], SelectStep(0, 0));
    assert ONCE_MORE[..1] == [CrashStep(0)] && ONCE_MORE[..2] == ONCE_MORE[..1] + [RefreshStep(0)];
    assert ONCE_MORE[..3] == ONCE_MORE[..2] + [SelectStep(0, 0)];
  }

  lemma ListsOnceMore(s: System)
    requires s.db.row.state == Scanning
    ensures var t := Run(s, ONCE_MORE);
            && AlwaysFresh(s, ONCE_MORE) && t.cursors == s.cursors
            && WorkerAt(t, 0) == Listed(s.db.row.generation, s.db.row.cursor, ProviderPage([], None))
            && Fence(t.db.row, s.db.row.generation, s.db.row.cursor)
  {
    hide Run, AlwaysFresh;
    SelectsOnceMore(s);
    RunSplits(s, ONCE_MORE[..3], StartStep(0, 0));
    RunSplits(s, ONCE_MORE[..4], ListStep(0, ProviderPage([], None)));
    assert ONCE_MORE[..4] == ONCE_MORE[..3] + [StartStep(0, 0)];
    assert ONCE_MORE == ONCE_MORE[..4] + [ListStep(0, ProviderPage([], None))];
  }

  lemma FirstIsFresh(s: System, step: Step)
    requires !step.CommitStep?
    ensures Run(s, [step]) == Execute(s, step) && AlwaysFresh(s, [step])
  {
    hide Execute;
    assert [step][..0] == [];
  }

  /** From here on, whatever comes as long as its own pages do not return, no cursor is committed twice. */
  ghost predicate StaysOnce(s: System) {
    forall more :: AlwaysFresh(s, more) ==> Distinct(Run(s, more).cursors)
  }

  /** Once the row is back at a cursor, that cursor can be committed again. */
  lemma ReturnIsCommittedAgain(s: System)
    requires s.db.row.state == Scanning && s.db.row.cursor in s.cursors
    ensures !StaysOnce(s)
  {
    hide Run, AlwaysFresh;
    ListsOnceMore(s);
    var t := Run(s, ONCE_MORE);
    RunSplits(s, ONCE_MORE, CommitStep(0, [], 0));
    var u := Run(s, ONCE_MORE + [CommitStep(0, [], 0)]);
    var i :| 0 <= i < |s.cursors| && s.cursors[i] == s.db.row.cursor;
    assert u.cursors[i] == u.cursors[|s.cursors|];
  }

  lemma OnceStays(s: System)
    requires OnceSoFar(s)
    ensures StaysOnce(s)
  {
    hide Run, AlwaysFresh;
    forall more | AlwaysFresh(s, more) ensures Distinct(Run(s, more).cursors) { FreshExactly(s, more); }
  }

  lemma {:induction false} FreshSoFar(s: System, steps: seq<Step>, i: nat)
    requires AlwaysFresh(s, steps) && i <= |steps|
    ensures AlwaysFresh(s, steps[..i])
    decreases |steps| - i
  {
    hide Execute, Returns;
    if i < |steps| {
      FreshSoFar(s, steps, i + 1);
      assert steps[..i + 1][..i] == steps[..i];
    } else {
      assert steps[..i] == steps;
    }
  }

  /**
   A generation counts every page at most once, at every moment of a run and in whatever follows it without a
   return, exactly when no page of the run returns to a cursor that its generation has committed.
   */
  lemma {:induction false} CountedOnceExactly(now: nat, steps: seq<Step>)
    ensures AlwaysFresh(Initial(now), steps) <==> forall i :: 0 <= i <= |steps| ==> StaysOnce(Run(Initial(now), steps[..i]))
    decreases |steps|
  {
    hide Execute, Returns, StaysOnce;
    var s := Initial(now);
    assert OnceSoFar(s);
    if AlwaysFresh(s, steps) {
      forall i | 0 <= i <= |steps| ensures StaysOnce(Run(s, steps[..i])) {
        FreshSoFar(s, steps, i);
        FreshExactly(s, steps[..i]);
        OnceStays(Run(s, steps[..i]));
      }
    } else {
      var n := |steps| - 1;
      CountedOnceExactly(now, steps[..n]);
      if AlwaysFresh(s, steps[..n]) {
        FreshExactly(s, steps[..n]);
        ReturnedRow(Run(s, steps[..n]), steps[n]);
        ReturnIsCommittedAgain(Run(s, steps));
        assert steps[..|steps|] == steps;
      } else {
        var i :| 0 <= i <= n && !StaysOnce(Run(s, steps[..n][..i]));
        assert steps[..n][..i] == steps[..i];
      }
    }
  }

  lemma ReturnedRow(s: System, step: Step)
    requires Returns(s, step)
    ensures var t := Execute(s, step); t.db.row.state == Scanning && t.db.row.cursor in t.cursors
  {
  }

  /** A worker's batch adds its page to the count exactly under the fence, whether or not the cursor was committed before. */
  lemma HeldPageIsCountedExactly(s: System, w: nat, known: seq<bool>, now: nat)
    requires WorkerAt(s, w).Listed? && |known| == |WorkerAt(s, w).page.objects|
    ensures var p, t := WorkerAt(s, w), Execute(s, CommitStep(w, known, now));
            && (t.cursors == s.cursors + [p.expected] && t.db.row.scanned == s.db.row.scanned + |known| <==>
                  Fence(s.db.row, p.generation, p.expected))
            && (Fence(s.db.row, p.generation, p.expected) ==> (Distinct(t.cursors) <==> Distinct(s.cursors) && p.expected !in s.cursors))
  {
    var p, t := WorkerAt(s, w), Execute(s, CommitStep(w, known, now));
    if Fence(s.db.row, p.generation, p.expected) {
      if Distinct(s.cursors) && p.expected !in s.cursors { DistinctAppend(s.cursors, p.expected); }
      if Distinct(t.cursors) {
        forall i, j | 0 <= i < j < |s.cursors| ensures s.cursors[i] != s.cursors[j] {
          assert t.cursors[i] == s.cursors[i] && t.cursors[j] == s.cursors[j];
        }
        forall i | 0 <= i < |s.cursors| ensures s.cursors[i] != p.expected { assert t.cursors[i] != t.cursors[|s.cursors|]; }
      }
    }
  }

  // ---------------------------------------------------------------- a cursor that comes back at once

  /** The fence is the cursor itself: a page that leaves the cursor where it was can be committed again. */
  lemma RepeatedCursorCountsTwice(s: System, v: nat, w: nat, known: seq<bool>, now: nat)
    requires v != w && WorkerAt(s, v).Listed? && WorkerAt(s, w) == WorkerAt(s, v)
    requires var p := WorkerAt(s, v);
             && Fence(s.db.row, p.generation, p.expected) && |known| == |p.page.objects| && p.page.nextCursor.Some?
    ensures var p := WorkerAt(s, v);
            var t := Execute(Execute(s, CommitStep(v, known, now)), CommitStep(w, known, now));
            t.db.row.scanned == s.db.row.scanned + |known| + (if p.page.nextCursor == p.expected then |known| else 0)
  {
  }

  /**
   Worker 1 commits an empty page that moves the cursor to `c`; then workers 1 and 2 both list the page from `c`,
   which holds one object and leaves the cursor there.
   */
  function RepeatRun(c: Cursor, o: ObservedObject): seq<Step> {
    [SelectStep(1, 0), StartStep(1, 0), ListStep(1, ProviderPage([], Some(c))), CommitStep(1, [], 0),
     SelectStep(1, 0), StartStep(1, 0), ListStep(1, ProviderPage([o], Some(c))),
     SelectStep(2, 0), StartStep(2, 0), ListStep(2, ProviderPage([o], Some(c)))]
  }

  lemma FirstPageMoves(c: Cursor, o: ObservedObject)
    ensures var t := Run(Initial(0), RepeatRun(c, o)[..4]);
            && t.db.row == ScanRow(1, Scanning, Some(c), 0, 0, Some(0), 0)
            && WorkerAt(t, 1).Idle? && WorkerAt(t, 2).Idle?
  {
    hide Run;
    var s, steps := Initial(0), RepeatRun(c, o);
    assert Run(s, steps[..0]) == s by { NoStepsYet(s, steps); }
    PrefixRun(s, steps, 0);
    PrefixRun(s, steps, 1);
    PrefixRun(s, steps, 2);
    PrefixRun(s, steps, 3);
  }

  /** Both then hold the same page, and count its object twice. */
  lemma RepeatHappens(c: Cursor, o: ObservedObject)
    ensures var s := Run(Initial(0), RepeatRun(c, o));
            var t := Execute(Execute(s, CommitStep(1, [false], 0)), CommitStep(2, [false], 0));
            && WorkerAt(s, 1) == WorkerAt(s, 2) == Listed(1, Some(c), ProviderPage([o], Some(c)))
            && s.db.row.scanned == 0 && t.db.row.scanned == 2
  {
    hide Run;
    var s, steps := Initial(0), RepeatRun(c, o);
    FirstPageMoves(c, o);
    PrefixRun(s, steps, 4);
    PrefixRun(s, steps, 5);
    PrefixRun(s, steps, 6);
    PrefixRun(s, steps, 7);
    PrefixRun(s, steps, 8);
    PrefixRun(s, steps, 9);
    assert steps[..10] == steps;
    RepeatedCursorCountsTwice(Run(s, steps), 1, 2, [false], 0);
  }

  // ---------------------------------------------------------------- a cursor that comes back later

  /**
   Worker 1 moves the cursor to `c`; workers 1 and 2 list the page from `c`, which leads to `d`; worker 1 commits
   it; worker 3 lists an empty page from `d`, which leads back to `c`, and commits it.
   */
  function CycleRun(c: Cursor, d: Cursor, o: ObservedObject): seq<Step> {
    [SelectStep(1, 0), StartStep(1, 0), ListStep(1, ProviderPage([], Some(c))), CommitStep(1, [], 0),
     SelectStep(1, 0), StartStep(1, 0), ListStep(1, ProviderPage([o], Some(d))),
     SelectStep(2, 0), StartStep(2, 0), ListStep(2, ProviderPage([o], Some(d))), CommitStep(1, [false], 0),
     SelectStep(3, 0), StartStep(3, 0), ListStep(3, ProviderPage([], Some(c))), CommitStep(3, [], 0)]
  }

  lemma CycleIsListed(c: Cursor, d: Cursor, o: ObservedObject)
    requires c != d
    ensures var t := Run(Initial(0), CycleRun(c, d, o)[..10]);
            && t.db.row == ScanRow(1, Scanning, Some(c), 0, 0, Some(0), 0) && t.cursors == [None]
            && WorkerAt(t, 1) == WorkerAt(t, 2) == Listed(1, Some(c), ProviderPage([o], Some(d))) && WorkerAt(t, 3).Idle?
  {
    hide Run;
    var s, steps := Initial(0), CycleRun(c, d, o);
    CycleStarts(c, d, o);
    PrefixRun(s, steps, 4);
    PrefixRun(s, steps, 5);
    PrefixRun(s, steps, 6);
    PrefixRun(s, steps, 7);
    PrefixRun(s, steps, 8);
    PrefixRun(s, steps, 9);
  }

  lemma CycleStarts(c: Cursor, d: Cursor, o: ObservedObject)
    ensures var t := Run(Initial(0), CycleRun(c, d, o)[..4]);
            && t.db.row == ScanRow(1, Scanning, Some(c), 0, 0, Some(0), 0) && t.cursors == [None]
            && WorkerAt(t, 1).Idle? && WorkerAt(t, 2).Idle? && WorkerAt(t, 3).Idle?
  {
    hide Run;
    var s, steps := Initial(0), CycleRun(c, d, o);
    NoStepsYet(s, steps);
    PrefixRun(s, steps, 0);
    PrefixRun(s, steps, 1);
    PrefixRun(s, steps, 2);
    PrefixRun(s, steps, 3);
  }

  lemma CycleGoesOn(c: Cursor, d: Cursor, o: ObservedObject)
    requires c != d
    ensures var t := Run(Initial(0), CycleRun(c, d, o)[..12]);
            && Fence(t.db.row, 1, Some(d)) && t.db.row.scanned == 1 && t.db.row.nextScanAt == Some(0) && t.cursors == [None, Some(c)]
            && WorkerAt(t, 2) == Listed(1, Some(c), ProviderPage([o], Some(d))) && WorkerAt(t, 3) == Candidate(t.db.row)
  {
    hide Run;
    var s, steps := Initial(0), CycleRun(c, d, o);
    CycleIsListed(c, d, o);
    PrefixRun(s, steps, 10);
    PrefixRun(s, steps, 11);
  }

  /** Worker 2 then counts the one object again, though no page leads to the cursor it was listed from. */
  lemma CycleHappens(c: Cursor, d: Cursor, o: ObservedObject)
    requires c != d
    ensures var s := Run(Initial(0), CycleRun(c, d, o));
            && WorkerAt(s, 2) == Listed(1, Some(c), ProviderPage([o], Some(d)))
            && s.cursors == [None, Some(c), Some(d)] && s.db.row.scanned == 1
            && Execute(s, CommitStep(2, [false], 0)).db.row.scanned == 2
  {
    hide Run;
    var s, steps := Initial(0), CycleRun(c, d, o);
    CycleGoesOn(c, d, o);
    PrefixRun(s, steps, 12);
    PrefixRun(s, steps, 13);
    PrefixRun(s, steps, 14);
    assert steps[..15] == steps;
  }
}
