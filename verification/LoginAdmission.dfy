/** Exactly which failed checks are let through, from the times of the earlier ones alone. */
module LoginAdmission {
  import opened LoginThrottle

  /** Failures allowed in a window and seconds of the block after them, by what is counted. */
  predicate HasLimits(key: Key, failures: nat, block: nat) {
    match key.scope
    case LoginIp => failures == 20 && block == 900
    case LoginAccount => failures == 200 && block == 1_800
    case ConfigurationIp => failures == 20 && block == 900
  }

  /** The log ends with the last failure of a window, and its block is not over. */
  predicate IsBlocking(log: seq<Admission>, key: Key, now: nat) {
    && log != []
    && exists failures: nat, block: nat :: failures in {20, 200} && block in {900, 1_800} && HasLimits(key, failures, block)
         && log[|log| - 1].ordinal == failures && now < log[|log| - 1].time + block
  }

  /** The next admission continues a window that is less than 900 seconds old, or opens a new one. */
  predicate IsNext(log: seq<Admission>, next: Admission) {
    if log != [] && next.time < log[|log| - 1].window + 900 then
      next.window == log[|log| - 1].window && next.ordinal == log[|log| - 1].ordinal + 1
    else next.window == next.time && next.ordinal == 1
  }

  /** The row knows the block of its last failure, and a row that was dropped had none left. */
  predicate BlockOk(s: State, key: Key) {
    && KeyOk(s, key)
    && (key in s.rows && LogOf(s, key) != [] && LogOf(s, key)[|LogOf(s, key)| - 1].ordinal < MaximumOf(key) ==>
          s.rows[key].blockedUntil <= s.clock)
    && (key in s.rows ==> LogOf(s, key) != [])
  }

  lemma ExecuteKeepsBlock(s: State, event: Event, key: Key)
    requires BlockOk(s, key) && EventOk(s, event)
    ensures BlockOk(Execute(s, event), key)
  {
    ExecuteKeeps(s, event, key);
    PoliciesFit(key);
    hide PolicyOf, CountAll, LogOk;
    if Admitted(s, event) {
      CountAllAt(s.rows, event.keys, event.now, key);
      if key in event.keys { assert !Blocked(s.rows, key, event.now); }
    }
  }

  lemma {:induction false} RunKeepsBlock(events: seq<Event>, key: Key)
    requires RunOk(events)
    ensures BlockOk(Run(events), key)
    decreases |events|
  {
    hide Execute;
    if events != [] {
      RunKeepsBlock(events[..|events| - 1], key);
      ExecuteKeepsBlock(Run(events[..|events| - 1]), events[|events| - 1], key);
    }
  }

  lemma BlockedExactly(s: State, key: Key, now: nat)
    requires BlockOk(s, key) && now >= s.clock
    ensures Blocked(s.rows, key, now) <==> IsBlocking(LogOf(s, key), key, now)
  {
    var log := LogOf(s, key);
    assert HasLimits(key, MaximumOf(key), BlockOf(key));
    if log != [] { assert AdmissionOk(key, log[|log| - 1]); }
  }

  /**
   In every run an attempt is let through exactly when none of its subjects is blocking by its own log. It is then
   the next failure of each of them, and of nobody else; a refused one is no failure of anybody.
   */
  lemma AdmittedExactly(events: seq<Event>, now: nat, keys: seq<Key>, key: Key)
    requires RunOk(events) && EventOk(Run(events), Attempt(now, keys))
    ensures var s, t := Run(events), Execute(Run(events), Attempt(now, keys));
            if (forall k | k in keys :: !IsBlocking(LogOf(s, k), k, now)) && key in keys then
              && LogOf(t, key) != [] && LogOf(t, key)[..|LogOf(t, key)| - 1] == LogOf(s, key)
              && LogOf(t, key)[|LogOf(t, key)| - 1].time == now && IsNext(LogOf(s, key), LogOf(t, key)[|LogOf(t, key)| - 1])
            else LogOf(t, key) == LogOf(s, key)
    ensures Execute(Run(events), Attempt(now, keys)).clock == now
  {
    hide Run, IsBlocking, KeyOk, LogOk;
    var s := Run(events);
    forall k | k in keys ensures Blocked(s.rows, k, now) <==> IsBlocking(LogOf(s, k), k, now) {
      RunKeepsBlock(events, k);
      BlockedExactly(s, k, now);
    }
    RunKeepsBlock(events, key);
    CountAllAt(s.rows, keys, now, key);
    if Admitted(s, Attempt(now, keys)) && key in keys { CountsNext(s, key, now); }
  }

  lemma CountsNext(s: State, key: Key, now: nat)
    requires BlockOk(s, key) && now >= s.clock && now >= 900
    ensures var row := Counted(s.rows, key, now); IsNext(LogOf(s, key), Admission(now, row.windowStartedAt, row.attempts))
  {
    var log := LogOf(s, key);
    if log != [] { assert AdmissionOk(key, log[|log| - 1]); }
  }

  /** Retention drops the chosen rows that nobody touched for a day, keeps all others, and is no failure of anybody. */
  lemma RetirementDrops(s: State, now: nat, retired: set<Key>, key: Key)
    ensures var t := Execute(s, Retirement(now, retired));
            && (key in t.rows <==> key in s.rows && !(key in retired && s.rows[key].updatedAt + 86_400 <= now))
            && (key in t.rows ==> t.rows[key] == s.rows[key])
            && LogOf(t, key) == LogOf(s, key) && t.clock == now
  {
  }

  /** A failure counted in a block leaves its end where it is. */
  lemma CountingKeepsBlock(rows: map<Key, Row>, key: Key, now: nat)
    requires key in rows && now < rows[key].blockedUntil
    ensures Counted(rows, key, now).blockedUntil == rows[key].blockedUntil && Counted(rows, key, now).updatedAt == now
  {
  }

  /** The bound on failures is about the number of admissions whose time lies in the interval. */
  lemma {:induction false} CountsTheAdmissions(log: seq<Admission>, start: nat, length: nat)
    ensures CountIn(log, start, length) == |set i | 0 <= i < |log| && start <= log[i].time < start + length|
    decreases |log|
  {
    if log != [] {
      var n := |log| - 1;
      CountsTheAdmissions(log[..n], start, length);
      var before := set i | 0 <= i < n && start <= log[..n][i].time < start + length;
      var all := set i | 0 <= i < |log| && start <= log[i].time < start + length;
      assert all == before + if start <= log[n].time < start + length then {n} else {};
    }
  }
}
