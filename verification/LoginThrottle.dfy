/**
 The login rate limiter: one counter row per scope and subject, with a fixed window and a block once a
 window is used up. Attempts run one after another under a clock that does not go back.
 */
module LoginThrottle {
  import opened Options

  const RATE_LIMIT_WINDOW_SECONDS := 900
  const AUTH_RATE_LIMIT_RETENTION_SECONDS := 86_400

  datatype Scope = LoginIp | LoginAccount | ConfigurationIp
  datatype Policy = Policy(maximumFailures: nat, blockSeconds: nat)

  function PolicyOf(scope: Scope): Policy {
    match scope
    case LoginIp => Policy(20, 900)
    case LoginAccount => Policy(200, 1800)
    case ConfigurationIp => Policy(20, 900)
  }

  datatype Key = Key(scope: Scope, subject: nat)
  datatype Row = Row(windowStartedAt: nat, attempts: nat, blockedUntil: nat, updatedAt: nat)

  function MaximumOf(key: Key): nat {
    PolicyOf(key.scope).maximumFailures
  }

  function BlockOf(key: Key): nat {
    PolicyOf(key.scope).blockSeconds
  }

  // ---------------------------------------------------------------- the two queries

  predicate Blocked(rows: map<Key, Row>, key: Key, now: nat) {
    key in rows && rows[key].blockedUntil > now
  }

  function Cutoff(now: nat): nat {
    if now < RATE_LIMIT_WINDOW_SECONDS then 0 else now - RATE_LIMIT_WINDOW_SECONDS
  }

  /** The upsert of one failure. A first failure inserts a row and never blocks. */
  function Counted(rows: map<Key, Row>, key: Key, now: nat): Row {
    if key !in rows then Row(now, 1, 0, now)
    else
      var row := rows[key];
      var expired := row.windowStartedAt <= Cutoff(now);
      var attempts := if expired then 1 else row.attempts + 1;
      Row(if expired then now else row.windowStartedAt, attempts,
          if row.blockedUntil > now then row.blockedUntil
          else if attempts >= MaximumOf(key) then now + BlockOf(key) else 0,
          now)
  }

  function CountAll(rows: map<Key, Row>, keys: seq<Key>, now: nat): map<Key, Row> {
    if keys == [] then rows
    else
      var before := CountAll(rows, keys[..|keys| - 1], now);
      before[keys[|keys| - 1] := Counted(before, keys[|keys| - 1], now)]
  }

  predicate Distinct(keys: seq<Key>) {
    forall i, j :: 0 <= i < j < |keys| ==> keys[i] != keys[j]
  }

  /** Each of the named rows counts the failure once; no other row changes. */
  lemma {:induction false} CountAllAt(rows: map<Key, Row>, keys: seq<Key>, now: nat, key: Key)
    requires Distinct(keys)
    ensures key in keys ==> key in CountAll(rows, keys, now) && CountAll(rows, keys, now)[key] == Counted(rows, key, now)
    ensures key !in keys ==>
              (key in CountAll(rows, keys, now) <==> key in rows)
              && (key in rows ==> CountAll(rows, keys, now)[key] == rows[key])
    decreases |keys|
  {
    if keys != [] {
      var n := |keys| - 1;
      CountAllAt(rows, keys[..n], now, key);
      assert keys == keys[..n] + [keys[n]];
      if key == keys[n] { assert key !in keys[..n]; }
    }
  }

  class RateLimits {
    var rows: map<Key, Row>

    constructor ()
      ensures rows == map[]
    {
      rows := map[];
    }

    /** `retry_after`: the longest block among the policies, at least one second. */
    method RetryAfter(keys: seq<Key>, now: nat) returns (retryAfter: Option<nat>)
      ensures retryAfter.None? <==> forall key | key in keys :: !Blocked(rows, key, now)
      ensures retryAfter.Some? ==>
                && retryAfter.value >= 1
                && (forall key | key in keys && Blocked(rows, key, now) :: rows[key].blockedUntil - now <= retryAfter.value)
                && (exists key :: key in keys && Blocked(rows, key, now) && rows[key].blockedUntil - now == retryAfter.value)
    {
      var maximum: Option<nat> := None;
      for i := 0 to |keys|
        invariant maximum.None? <==> forall j :: 0 <= j < i ==> !Blocked(rows, keys[j], now)
        invariant maximum.Some? ==>
                    && (forall j :: 0 <= j < i && Blocked(rows, keys[j], now) ==> rows[keys[j]].blockedUntil <= maximum.value)
                    && (exists j :: 0 <= j < i && Blocked(rows, keys[j], now) && rows[keys[j]].blockedUntil == maximum.value)
      {
        if Blocked(rows, keys[i], now) {
          var blockedUntil := rows[keys[i]].blockedUntil;
          if maximum.None? || maximum.value < blockedUntil { maximum := Some(blockedUntil); }
        }
      }
      match maximum
      case None => retryAfter := None;
      case Some(until) =>
        retryAfter := Some(until - now);
    }

    /** `record_failures`, without the query it ends with. */
    method CountFailures(keys: seq<Key>, now: nat)
      modifies this
      ensures rows == CountAll(old(rows), keys, now)
    {
      for i := 0 to |keys|
        invariant rows == CountAll(old(rows), keys[..i], now)
      {
        assert keys[..i + 1][..i] == keys[..i];
        rows := rows[keys[i] := Counted(rows, keys[i], now)];
      }
      assert keys[..|keys|] == keys;
    }

    /** One login attempt that would fail its credential check: refused when blocked, else counted. */
    method FailedAttempt(keys: seq<Key>, now: nat) returns (admitted: bool, retryAfter: Option<nat>)
      modifies this
      ensures admitted <==> forall key | key in keys :: !Blocked(old(rows), key, now)
      ensures rows == if admitted then CountAll(old(rows), keys, now) else old(rows)
      ensures retryAfter.Some? <==> exists key :: key in keys && Blocked(rows, key, now)
    {
      retryAfter := RetryAfter(keys, now);
      admitted := retryAfter.None?;
      if admitted {
        CountFailures(keys, now);
        retryAfter := RetryAfter(keys, now);
      }
    }
  }

  // ---------------------------------------------------------------- runs

  /** A failed check that was let through: when, in which window, and as which of that window. */
  datatype Admission = Admission(time: nat, window: nat, ordinal: nat)

  /** `logs` remembers the admissions of each key; no step looks at it. */
  datatype State = State(rows: map<Key, Row>, logs: map<Key, seq<Admission>>, clock: nat)

  datatype Event =
    | Attempt(now: nat, keys: seq<Key>)
    | Retirement(now: nat, retired: set<Key>)

  function LogOf(s: State, key: Key): seq<Admission> {
    if key in s.logs then s.logs[key] else []
  }

  predicate Admitted(s: State, event: Event) {
    event.Attempt? && forall key | key in event.keys :: !Blocked(s.rows, key, event.now)
  }

  /** Retention drops rows untouched for a day. */
  predicate Retirable(rows: map<Key, Row>, key: Key, now: nat) {
    key in rows && rows[key].updatedAt + AUTH_RATE_LIMIT_RETENTION_SECONDS <= now
  }

  function Execute(s: State, event: Event): State {
    match event
    case Attempt(now, keys) =>
      if !Admitted(s, event) then s.(clock := now)
      else
        var rows := CountAll(s.rows, keys, now);
        State(rows,
              map key | key in s.logs.Keys + (set k | k in keys) ::
                if key in keys && key in rows
                then LogOf(s, key) + [Admission(now, rows[key].windowStartedAt, rows[key].attempts)] else LogOf(s, key),
              now)
    case Retirement(now, retired) =>
      s.(rows := map key | key in s.rows && !(key in retired && Retirable(s.rows, key, now)) :: s.rows[key], clock := now)
  }

  /** The clock starts past the first window and never goes back; an attempt names each row once. */
  predicate EventOk(s: State, event: Event) {
    && event.now >= s.clock && event.now >= RATE_LIMIT_WINDOW_SECONDS
    && (event.Attempt? ==> Distinct(event.keys))
  }

  const INITIAL := State(map[], map[], RATE_LIMIT_WINDOW_SECONDS)

  function Run(events: seq<Event>): State
    decreases |events|
  {
    if events == [] then INITIAL else Execute(Run(events[..|events| - 1]), events[|events| - 1])
  }

  predicate RunOk(events: seq<Event>)
    decreases |events|
  {
    events == [] || (RunOk(events[..|events| - 1]) && EventOk(Run(events[..|events| - 1]), events[|events| - 1]))
  }

  // ---------------------------------------------------------------- what a log looks like

  /** The next admission is in the same window, or in a later one that it opens; after a full window it waits out the block. */
  predicate Follows(key: Key, a: Admission, b: Admission) {
    && a.time <= b.time
    && ((b.window == a.window && b.ordinal == a.ordinal + 1)
        || (a.window + RATE_LIMIT_WINDOW_SECONDS <= b.window == b.time && b.ordinal == 1))
    && (a.ordinal == MaximumOf(key) ==> a.time + BlockOf(key) <= b.time)
  }

  predicate AdmissionOk(key: Key, a: Admission) {
    1 <= a.ordinal <= MaximumOf(key) && a.window <= a.time
  }

  predicate LogOk(key: Key, log: seq<Admission>) {
    && (forall i :: 0 <= i < |log| ==> AdmissionOk(key, log[i]))
    && (forall i :: 0 <= i < |log| - 1 ==> Follows(key, log[i], log[i + 1]))
  }

  /** The row continues the log; without a row the log's last window is long over. */
  predicate KeyOk(s: State, key: Key) {
    var log := LogOf(s, key);
    && LogOk(key, log)
    && (log == [] ==> key !in s.rows)
    && (log != [] ==>
          var last := log[|log| - 1];
          && last.time <= s.clock
          && (key !in s.rows ==> last.time + AUTH_RATE_LIMIT_RETENTION_SECONDS <= s.clock)
          && (key in s.rows ==>
                && s.rows[key].windowStartedAt == last.window && s.rows[key].attempts == last.ordinal
                && s.rows[key].updatedAt == last.time
                && (last.ordinal == MaximumOf(key) ==> s.rows[key].blockedUntil == last.time + BlockOf(key))))
  }

  /** Every policy allows at least two failures, and blocks for a window and for less than the retention. */
  lemma PoliciesFit(key: Key)
    ensures MaximumOf(key) >= 2 && RATE_LIMIT_WINDOW_SECONDS <= BlockOf(key) < AUTH_RATE_LIMIT_RETENTION_SECONDS
  {
  }

  lemma ExecuteKeeps(s: State, event: Event, key: Key)
    requires KeyOk(s, key) && EventOk(s, event)
    ensures KeyOk(Execute(s, event), key)
  {
    PoliciesFit(key);
    var t := Execute(s, event);
    if Admitted(s, event) {
      CountAllAt(s.rows, event.keys, event.now, key);
      if key in event.keys {
        assert !Blocked(s.rows, key, event.now);
        CountedContinues(s, event, key);
      }
    }
  }

  lemma CountedContinues(s: State, event: Event, key: Key)
    requires KeyOk(s, key) && EventOk(s, event) && event.Attempt? && Admitted(s, event) && key in event.keys
    requires key in CountAll(s.rows, event.keys, event.now)
    requires CountAll(s.rows, event.keys, event.now)[key] == Counted(s.rows, key, event.now)
    ensures KeyOk(Execute(s, event), key)
  {
    PoliciesFit(key);
    hide PolicyOf, CountAll;
    var t, row := Execute(s, event), Counted(s.rows, key, event.now);
    assert !Blocked(s.rows, key, event.now);
    var log, now := LogOf(s, key), Admission(event.now, row.windowStartedAt, row.attempts);
    assert LogOf(t, key) == log + [now];
    if log != [] {
      assert AdmissionOk(key, log[|log| - 1]);
      assert Follows(key, log[|log| - 1], now);
    }
  }

  lemma {:induction false} RunKeeps(events: seq<Event>, key: Key)
    requires RunOk(events)
    ensures KeyOk(Run(events), key)
    decreases |events|
  {
    if events != [] {
      RunKeeps(events[..|events| - 1], key);
      ExecuteKeeps(Run(events[..|events| - 1]), events[|events| - 1], key);
    }
  }

  // ---------------------------------------------------------------- the promises

  /** How many of the admissions fall into the `length` seconds from `start` on. */
  function CountIn(log: seq<Admission>, start: nat, length: nat): nat {
    if log == [] then 0
    else
      CountIn(log[..|log| - 1], start, length)
      + if start <= log[|log| - 1].time < start + length then 1 else 0
  }

  /** How many windows can have been open from `start` up to the window `w`. */
  function WindowsUpTo(start: nat, w: nat): nat {
    if w < start then 1 else (w - start) / RATE_LIMIT_WINDOW_SECONDS + 2
  }

  lemma {:induction false} NothingBefore(log: seq<Admission>, key: Key, start: nat, length: nat)
    requires LogOk(key, log) && (log != [] ==> log[|log| - 1].time < start)
    ensures CountIn(log, start, length) == 0
    decreases |log|
  {
    if log != [] {
      var n := |log| - 1;
      if n > 0 { assert Follows(key, log[n - 1], log[n]); }
      assert LogOk(key, log[..n]);
      NothingBefore(log[..n], key, start, length);
    }
  }

  /** Full windows before the current one, and what the current one has used. */
  lemma {:induction false} CountBound(log: seq<Admission>, key: Key, start: nat, length: nat)
    requires LogOk(key, log) && log != []
    ensures var last := log[|log| - 1];
            CountIn(log, start, length) <= MaximumOf(key) * (WindowsUpTo(start, last.window) - 1) + last.ordinal
    decreases |log|
  {
    hide PolicyOf;
    var n := |log| - 1;
    var last := log[n];
    if n == 0 {
      assert log[..0] == [];
      assert AdmissionOk(key, last);
      WindowsCount(MaximumOf(key), WindowsUpTo(start, last.window));
    } else {
      var before := log[n - 1];
      assert Follows(key, before, last) && AdmissionOk(key, before) && AdmissionOk(key, last);
      assert LogOk(key, log[..n]);
      CountBound(log[..n], key, start, length);
      if last.window != before.window {
        if last.window < start {
          NothingBefore(log, key, start, length);
          WindowsCount(MaximumOf(key), WindowsUpTo(start, last.window));
        } else {
          NextWindow(start, before.window, last.window);
          FullWindows(MaximumOf(key), WindowsUpTo(start, before.window), WindowsUpTo(start, last.window), before.ordinal);
        }
      }
    }
  }

  lemma WindowsCount(maximum: nat, windows: nat)
    requires windows >= 1
    ensures maximum * (windows - 1) >= 0
  {
  }

  lemma NextWindow(start: nat, w: nat, later: nat)
    requires w + RATE_LIMIT_WINDOW_SECONDS <= later && start <= later
    ensures WindowsUpTo(start, w) + 1 <= WindowsUpTo(start, later)
  {
    if w >= start { assert (w + RATE_LIMIT_WINDOW_SECONDS - start) / RATE_LIMIT_WINDOW_SECONDS == (w - start) / RATE_LIMIT_WINDOW_SECONDS + 1; }
  }

  lemma FullWindows(maximum: nat, windows: nat, later: nat, ordinal: nat)
    requires ordinal <= maximum && 1 <= windows && windows + 1 <= later
    ensures maximum * (windows - 1) + ordinal <= maximum * (later - 1)
  {
    assert maximum * (windows - 1) + maximum == maximum * windows;
    MoreWindows(maximum, windows, later - 1);
  }

  lemma {:induction false} MoreWindows(maximum: nat, few: nat, many: nat)
    requires few <= many
    ensures maximum * few <= maximum * many
    decreases many
  {
    if few < many {
      MoreWindows(maximum, few, many - 1);
      assert maximum * many == maximum * (many - 1) + maximum;
    }
  }

  /**
   In any interval of `length` seconds at most `maximum * (length / 900 + 2)` failed checks are let
   through for one subject, whatever attempts, subjects and retirements come in between.
   */
  lemma {:induction false} AdmissionsAreBounded(log: seq<Admission>, key: Key, start: nat, length: nat)
    requires LogOk(key, log)
    ensures CountIn(log, start, length) <= MaximumOf(key) * (length / RATE_LIMIT_WINDOW_SECONDS + 2)
    decreases |log|
  {
    hide PolicyOf;
    var windows := length / RATE_LIMIT_WINDOW_SECONDS + 2;
    if log == [] {
      WindowsCount(MaximumOf(key), windows + 1);
    } else {
      var n := |log| - 1;
      var last := log[n];
      if start <= last.time < start + length {
        CountBound(log, key, start, length);
        assert AdmissionOk(key, last);
        assert WindowsUpTo(start, last.window) <= windows by {
          if last.window >= start { DivisionGrows(last.window - start, length); }
        }
        FullWindows(MaximumOf(key), WindowsUpTo(start, last.window), windows + 1, last.ordinal);
      } else {
        assert LogOk(key, log[..n]);
        AdmissionsAreBounded(log[..n], key, start, length);
      }
    }
  }

  lemma DivisionGrows(a: nat, b: nat)
    requires a <= b
    ensures a / RATE_LIMIT_WINDOW_SECONDS <= b / RATE_LIMIT_WINDOW_SECONDS
  {
  }

  lemma FailuresAreBounded(events: seq<Event>, key: Key, start: nat, length: nat)
    requires RunOk(events)
    ensures CountIn(LogOf(Run(events), key), start, length) <= MaximumOf(key) * (length / RATE_LIMIT_WINDOW_SECONDS + 2)
  {
    hide Run, PolicyOf;
    RunKeeps(events, key);
    AdmissionsAreBounded(LogOf(Run(events), key), key, start, length);
  }

  /** After the failure that uses up a window, none is let through until the block has passed. */
  lemma BlockIsKept(events: seq<Event>, key: Key, i: nat, j: nat)
    requires RunOk(events)
    ensures var log := LogOf(Run(events), key);
            i < j < |log| && log[i].ordinal == MaximumOf(key) ==> log[i].time + BlockOf(key) <= log[j].time
  {
    hide Run, PolicyOf;
    RunKeeps(events, key);
    var log := LogOf(Run(events), key);
    if i < j < |log| {
      assert Follows(key, log[i], log[i + 1]);
      TimesGrow(log, key, i + 1, j);
    }
  }

  lemma {:induction false} TimesGrow(log: seq<Admission>, key: Key, i: nat, j: nat)
    requires LogOk(key, log) && i <= j < |log|
    ensures log[i].time <= log[j].time
    decreases j
  {
    if i < j {
      TimesGrow(log, key, i, j - 1);
      assert Follows(key, log[j - 1], log[j]);
    }
  }
}
