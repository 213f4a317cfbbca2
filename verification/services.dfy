/** The session engine of pomodoro/services.py.

    The store is a sequence of session rows (row i has id i + 1, as the database assigns them)
    and a map from day number to that day's stat row. The pure functions Start, Stop, Complete,
    StateOf and Window say what each service does to a store value; the class SessionStore holds
    the two tables as fields and its methods update them in place, each proved to do exactly
    what its function says. The clock is the parameter `now`, in whole seconds since the epoch. */
module Services {
  import opened Wrappers
  import opened Validators
  import opened Models

  const FOCUS_DEFAULT_MINUTES: int := 25
  const BREAK_DEFAULT_MINUTES: int := 5
  const SECONDS_PER_MINUTE: int := 60
  const SECONDS_PER_DAY: int := 86400
  const CONFLICT_MESSAGE: string := "Active session already exists"

  /** Why a start is refused: a ValidationError, or the ValueError for an existing active
      session. The HTTP layer answers the first with 400 and the second with 409. */
  datatype StartError = InvalidDuration(reason: DurationError) | SessionConflict

  function ErrorMessage(e: StartError): string
  {
    match e
    case InvalidDuration(reason) => Message(reason)
    case SessionConflict => CONFLICT_MESSAGE
  }

  /** `t` occurs in `s` starting at position `i`. */
  predicate OccursAt(s: string, t: string, i: int)
  {
    0 <= i && i + |t| <= |s| && s[i..i + |t|] == t
  }

  /** `t in s` for Python strings: `t` occurs in `s` as a contiguous substring. */
  predicate Contains(s: string, t: string)
  {
    exists i | 0 <= i <= |s| :: OccursAt(s, t, i)
  }

  /** A string none of whose characters starts `t` does not contain `t`. */
  lemma NotContainsWithoutFirstChar(s: string, t: string)
    requires |t| > 0
    requires forall k | 0 <= k < |s| :: s[k] != t[0]
    ensures !Contains(s, t)
  {
    forall i ensures !OccursAt(s, t, i) {
      if 0 <= i && i + |t| <= |s| {
        assert s[i..i + |t|][0] == s[i];
      }
    }
  }

  /** The HTTP status the start routes answer an error with: 400 when its message mentions
      'Duration' or 'minute', 409 otherwise. */
  function RouteStatus(e: StartError): int
  {
    var msg := ErrorMessage(e);
    if Contains(msg, "Duration") || Contains(msg, "minute") then 400 else 409
  }

  /** The routes' substring test tells the two error kinds apart exactly: every validation
      message mentions 'Duration', the conflict message mentions neither word. */
  lemma RouteStatusSeparatesErrors(e: StartError)
    ensures e.InvalidDuration? ==> RouteStatus(e) == 400
    ensures e.SessionConflict? ==> RouteStatus(e) == 409
  {
    match e
    case InvalidDuration(reason) =>
      var msg := Message(reason);
      assert OccursAt(msg, "Duration", 0);
    case SessionConflict =>
      NotContainsWithoutFirstChar(CONFLICT_MESSAGE, "Duration");
      NotContainsWithoutFirstChar(CONFLICT_MESSAGE, "minute");
  }

  /** The contents of both tables. */
  datatype Db = Db(sessions: seq<Session>, stats: map<int, DailyStat>)

  /** The dictionary get_state returns. */
  datatype Snapshot = Snapshot(mode: Mode, remainingSeconds: nat, completedFocusCount: nat, totalFocusSeconds: nat)

  /** One element of the weekly or monthly roll-up. */
  datatype DayEntry = DayEntry(date: int, focusCount: nat, totalSeconds: nat, completionRate: real)

  /** The UTC calendar day of a timestamp (floor division, as `date()` does). */
  function Today(now: int): int
  {
    now / SECONDS_PER_DAY
  }

  // ---------------------------------------------------------------------------------------
  // Store invariant

  /** What every session row satisfies: a positive planned duration, the planned end derived
      from it, and `end_at` set exactly when the session has left 'active'. */
  predicate WellFormed(s: Session)
  {
    && s.plannedDurationSec > 0
    && s.plannedEndAt == s.startAt + s.plannedDurationSec
    && (s.status == Active <==> s.endAt.None?)
  }

  /** The central invariant: at most one session has status 'active'. */
  predicate AtMostOneActive(ss: seq<Session>)
  {
    forall i, j | 0 <= i < |ss| && 0 <= j < |ss| && ss[i].status == Active && ss[j].status == Active :: i == j
  }

  predicate DbValid(db: Db)
  {
    && (forall i | 0 <= i < |db.sessions| :: db.sessions[i].id == i + 1 && WellFormed(db.sessions[i]))
    && AtMostOneActive(db.sessions)
    && (forall d | d in db.stats :: db.stats[d].date == d)
  }

  // ---------------------------------------------------------------------------------------
  // Queries

  /** `PomodoroSession.query.filter_by(status='active').first()`. */
  function FirstActive(ss: seq<Session>): (r: Option<nat>)
    ensures r.Some? ==> r.value < |ss| && ss[r.value].status == Active
    ensures r.Some? ==> forall k | 0 <= k < r.value :: ss[k].status != Active
    ensures r.None? <==> forall k | 0 <= k < |ss| :: ss[k].status != Active
  {
    if |ss| == 0 then None
    else if ss[0].status == Active then Some(0)
    else match FirstActive(ss[1..])
      case None => None
      case Some(i) => Some(i + 1)
  }

  /** `PomodoroSession.query.get(session_id)`: the position of the row with that id. */
  function FindById(ss: seq<Session>, id: int): (r: Option<nat>)
    ensures r.Some? ==> r.value < |ss| && ss[r.value].id == id
    ensures r.None? <==> forall k | 0 <= k < |ss| :: ss[k].id != id
  {
    if |ss| == 0 then None
    else if ss[0].id == id then Some(0)
    else match FindById(ss[1..], id)
      case None => None
      case Some(i) => Some(i + 1)
  }

  /** `DailyStat.query.filter_by(date=today).first()`, read as the two counters or zeros. */
  function DayCounts(stats: map<int, DailyStat>, day: int): (nat, nat)
  {
    if day in stats then (stats[day].completedFocusCount, stats[day].totalFocusSeconds) else (0, 0)
  }

  // ---------------------------------------------------------------------------------------
  // The operations on a store value

  /** start_focus / start_break: validate, refuse while anything is active, else append. */
  function Start(db: Db, kind: SessionType, minutes: int, now: int): (Db, Result<Session, StartError>)
  {
    match CheckDuration(IntV(minutes))
    case Fail(e) => (db, Failure(InvalidDuration(e)))
    case Pass =>
      if FirstActive(db.sessions).Some? then (db, Failure(SessionConflict))
      else
        var s := NewSession(|db.sessions| + 1, kind, minutes * SECONDS_PER_MINUTE, now);
        (db.(sessions := db.sessions + [s]), Success(s))
  }

  /** The session as stop_active_session leaves it. */
  function Abort(s: Session, now: int): Session
  {
    s.(status := Aborted, endAt := Some(now))
  }

  /** stop_active_session: abort the active session, if there is one. */
  function Stop(db: Db, now: int): Db
  {
    match FirstActive(db.sessions)
    case None => db
    case Some(i) => db.(sessions := db.sessions[i := Abort(db.sessions[i], now)])
  }

  /** Today's row after a focus session of `seconds` completes: created at 0/0 if absent. */
  function Accumulate(stats: map<int, DailyStat>, day: int, seconds: nat): map<int, DailyStat>
  {
    var row := if day in stats then stats[day] else NewDailyStat(day);
    stats[day := row.(completedFocusCount := row.completedFocusCount + 1,
                      totalFocusSeconds := row.totalFocusSeconds + seconds)]
  }

  /** complete_session: nothing for an unknown or non-active id; otherwise mark it completed
      and, for a focus session, accumulate it into today's row. */
  function Complete(db: Db, id: int, now: int): Db
  {
    match FindById(db.sessions, id)
    case None => db
    case Some(i) =>
      var s := db.sessions[i];
      if s.status != Active then db
      else
        var sessions := db.sessions[i := s.(status := Completed, endAt := Some(now))];
        if s.kind == Focus then Db(sessions, Accumulate(db.stats, Today(now), s.plannedDurationSec))
        else Db(sessions, db.stats)
  }

  function SnapshotOf(mode: Mode, remaining: nat, stats: map<int, DailyStat>, now: int): Snapshot
  {
    var counts := DayCounts(stats, Today(now));
    Snapshot(mode, remaining, counts.0, counts.1)
  }

  /** get_state: remaining time of the active session, completing it once it has run out. */
  function StateOf(db: Db, now: int): (Db, Snapshot)
  {
    match FirstActive(db.sessions)
    case None => (db, SnapshotOf(Idle, 0, db.stats, now))
    case Some(i) =>
      var s := db.sessions[i];
      var remaining := s.plannedEndAt - now;
      if remaining <= 0 then
        var db' := Complete(db, s.id, now);
        (db', SnapshotOf(Idle, 0, db'.stats, now))
      else (db, SnapshotOf(Running(s.kind), remaining, db.stats, now))
  }

  /** The roll-up entry of one day: that day's row, or zeros; the rate is 1.0 exactly when at
      least one focus session was completed. */
  function EntryFor(stats: map<int, DailyStat>, day: int): DayEntry
  {
    if day in stats then
      var row := stats[day];
      DayEntry(day, row.completedFocusCount, row.totalFocusSeconds,
               if row.completedFocusCount > 0 then 1.0 else 0.0)
    else DayEntry(day, 0, 0, 0.0)
  }

  // ---------------------------------------------------------------------------------------
  // Properties of the operations

  /** Duration validation comes before the conflict check: an invalid duration is reported as
      such even while a session is active, and nothing changes. */
  lemma ValidationBeforeConflict(db: Db, kind: SessionType, minutes: int, now: int)
    requires minutes < MIN_DURATION_MINUTES || minutes > MAX_DURATION_MINUTES
    ensures Start(db, kind, minutes, now).0 == db
    ensures Start(db, kind, minutes, now).1 ==
              Failure(InvalidDuration(if minutes < MIN_DURATION_MINUTES then TooShort else TooLong))
  {
  }

  /** Starting while a session of either type is active fails with the conflict and leaves the
      store, and so the active session, untouched. */
  lemma StartConflict(db: Db, kind: SessionType, minutes: int, now: int)
    requires MIN_DURATION_MINUTES <= minutes <= MAX_DURATION_MINUTES
    requires exists k | 0 <= k < |db.sessions| :: db.sessions[k].status == Active
    ensures Start(db, kind, minutes, now) == (db, Failure(SessionConflict))
  {
  }

  /** A successful start appends exactly one active session of the requested type, with the
      duration in seconds, starting now and planned to end a duration later. */
  lemma StartAppends(db: Db, kind: SessionType, minutes: int, now: int)
    requires MIN_DURATION_MINUTES <= minutes <= MAX_DURATION_MINUTES
    requires forall k | 0 <= k < |db.sessions| :: db.sessions[k].status != Active
    ensures var (db', r) := Start(db, kind, minutes, now);
      && r.Success?
      && db'.stats == db.stats
      && db'.sessions == db.sessions + [r.value]
      && r.value.kind == kind && r.value.status == Active && r.value.endAt.None?
      && r.value.plannedDurationSec == minutes * 60
      && r.value.startAt == now && r.value.plannedEndAt == now + minutes * 60
  {
  }

  lemma StartKeepsValid(db: Db, kind: SessionType, minutes: int, now: int)
    requires DbValid(db)
    ensures DbValid(Start(db, kind, minutes, now).0)
  {
    var (db', r) := Start(db, kind, minutes, now);
    if r.Success? {
      var n := |db.sessions|;
      assert forall k | 0 <= k < n :: db'.sessions[k] == db.sessions[k];
      assert db'.sessions[n] == r.value;
    }
  }

  /** Stop aborts the active session, stamping its end, and changes nothing else. */
  lemma StopAbortsActive(db: Db, now: int)
    requires DbValid(db)
    ensures var db' := Stop(db, now);
      && db'.stats == db.stats
      && |db'.sessions| == |db.sessions|
      && forall k | 0 <= k < |db.sessions| ::
           db'.sessions[k] == (if db.sessions[k].status == Active then Abort(db.sessions[k], now)
                               else db.sessions[k])
  {
    match FirstActive(db.sessions)
    case None =>
    case Some(i) =>
      forall k | 0 <= k < |db.sessions| && k != i ensures db.sessions[k].status != Active {
      }
  }

  /** After a stop nothing is active. */
  lemma StopLeavesNoneActive(db: Db, now: int)
    requires DbValid(db)
    ensures forall k | 0 <= k < |Stop(db, now).sessions| :: Stop(db, now).sessions[k].status != Active
  {
    StopAbortsActive(db, now);
  }

  /** Stop is idempotent: a second stop, at any time, changes nothing. */
  lemma StopIdempotent(db: Db, now: int, later: int)
    requires DbValid(db)
    ensures Stop(Stop(db, now), later) == Stop(db, now)
  {
    StopLeavesNoneActive(db, now);
  }

  lemma StopKeepsValid(db: Db, now: int)
    requires DbValid(db)
    ensures DbValid(Stop(db, now))
  {
    StopLeavesNoneActive(db, now);
    StopAbortsActive(db, now);
  }

  /** Completing an unknown id, or a session that is not active, changes nothing. */
  lemma CompleteNoOp(db: Db, id: int, now: int)
    requires forall k | 0 <= k < |db.sessions| :: db.sessions[k].id == id ==> db.sessions[k].status != Active
    ensures Complete(db, id, now) == db
  {
  }

  /** Completing the active session with that id marks it completed at `now`; a focus session
      adds one to today's count and its planned duration to today's total, starting from 0/0
      when the day has no row yet; a break leaves the stats alone. No other row changes. */
  lemma CompleteActive(db: Db, i: nat, now: int)
    requires DbValid(db)
    requires i < |db.sessions| && db.sessions[i].status == Active
    ensures var db' := Complete(db, i + 1, now);
      var s := db.sessions[i];
      var before := DayCounts(db.stats, Today(now));
      && db'.sessions == db.sessions[i := s.(status := Completed, endAt := Some(now))]
      && (s.kind == Break ==> db'.stats == db.stats)
      && (s.kind == Focus ==>
            && db'.stats.Keys == db.stats.Keys + {Today(now)}
            && DayCounts(db'.stats, Today(now)) == (before.0 + 1, before.1 + s.plannedDurationSec)
            && forall d | d in db.stats && d != Today(now) :: db'.stats[d] == db.stats[d])
  {
    assert FindById(db.sessions, i + 1) == Some(i);
  }

  /** Completion never lowers a counter, and never removes a day. */
  lemma CompleteCountersNeverDecrease(db: Db, id: int, now: int)
    ensures var db' := Complete(db, id, now);
      forall d | d in db.stats ::
        && d in db'.stats
        && db'.stats[d].completedFocusCount >= db.stats[d].completedFocusCount
        && db'.stats[d].totalFocusSeconds >= db.stats[d].totalFocusSeconds
  {
  }

  lemma CompleteKeepsValid(db: Db, id: int, now: int)
    requires DbValid(db)
    ensures DbValid(Complete(db, id, now))
  {
    var db' := Complete(db, id, now);
    match FindById(db.sessions, id)
    case None =>
    case Some(i) =>
      if db.sessions[i].status == Active {
        assert db'.sessions[i].status == Completed;
        assert forall k | 0 <= k < |db'.sessions| && k != i :: db'.sessions[k] == db.sessions[k];
      }
  }

  /** While the active session has time left, get_state reports its type and the seconds left,
      which are positive and, once the clock has reached the session's start, at most the
      planned duration; nothing changes. */
  lemma StateWhileRunning(db: Db, i: nat, now: int)
    requires DbValid(db)
    requires i < |db.sessions| && db.sessions[i].status == Active
    requires now < db.sessions[i].plannedEndAt
    ensures var (db', snap) := StateOf(db, now);
      && db' == db
      && snap.mode == Running(db.sessions[i].kind)
      && snap.remainingSeconds == db.sessions[i].plannedEndAt - now
      && 0 < snap.remainingSeconds
      && (db.sessions[i].startAt <= now ==> snap.remainingSeconds <= db.sessions[i].plannedDurationSec)
  {
    assert FirstActive(db.sessions) == Some(i);
  }

  /** Once the active session's planned end has been reached, get_state completes it exactly
      as complete_session would and reports idle with 0 seconds. */
  lemma StateCompletesExpired(db: Db, i: nat, now: int)
    requires DbValid(db)
    requires i < |db.sessions| && db.sessions[i].status == Active
    requires db.sessions[i].plannedEndAt <= now
    ensures var (db', snap) := StateOf(db, now);
      && db' == Complete(db, i + 1, now)
      && db'.sessions[i].status == Completed
      && snap.mode == Idle && snap.remainingSeconds == 0
  {
    assert FirstActive(db.sessions) == Some(i);
    CompleteActive(db, i, now);
  }

  /** With nothing active, get_state is idle with 0 seconds and changes nothing. */
  lemma StateWhenIdle(db: Db, now: int)
    requires forall k | 0 <= k < |db.sessions| :: db.sessions[k].status != Active
    ensures StateOf(db, now).0 == db
    ensures StateOf(db, now).1.mode == Idle && StateOf(db, now).1.remainingSeconds == 0
  {
  }

  /** The counts in a snapshot are today's row after the query, or zeros without one. */
  lemma StateCountsAreToday(db: Db, now: int)
    ensures var (db', snap) := StateOf(db, now);
      && (Today(now) in db'.stats ==>
            snap.completedFocusCount == db'.stats[Today(now)].completedFocusCount
            && snap.totalFocusSeconds == db'.stats[Today(now)].totalFocusSeconds)
      && (Today(now) !in db'.stats ==> snap.completedFocusCount == 0 && snap.totalFocusSeconds == 0)
  {
  }

  /** A snapshot is idle exactly when it reports no time left. */
  lemma StateIdleIffNoTime(db: Db, now: int)
    ensures StateOf(db, now).1.mode == Idle <==> StateOf(db, now).1.remainingSeconds == 0
  {
  }

  lemma StateKeepsValid(db: Db, now: int)
    requires DbValid(db)
    ensures DbValid(StateOf(db, now).0)
  {
    match FirstActive(db.sessions)
    case None =>
    case Some(i) => CompleteKeepsValid(db, db.sessions[i].id, now);
  }

  /** A roll-up entry copies the day's row or is all zeros, and its rate is binary. */
  lemma EntryForMeaning(stats: map<int, DailyStat>, day: int)
    ensures var e := EntryFor(stats, day);
      && e.date == day
      && (day in stats ==> e.focusCount == stats[day].completedFocusCount
                           && e.totalSeconds == stats[day].totalFocusSeconds)
      && (day !in stats ==> e.focusCount == 0 && e.totalSeconds == 0)
      && (e.completionRate == 1.0 <==> e.focusCount > 0)
      && (e.completionRate == 0.0 <==> e.focusCount == 0)
  {
  }

  // ---------------------------------------------------------------------------------------
  // Any sequence of service calls keeps the invariant

  datatype Call =
    | StartFocusCall(minutes: int, now: int)
    | StartBreakCall(minutes: int, now: int)
    | StopCall(now: int)
    | CompleteCall(id: int, now: int)
    | GetStateCall(now: int)

  function Apply(db: Db, c: Call): Db
  {
    match c
    case StartFocusCall(m, now) => Start(db, Focus, m, now).0
    case StartBreakCall(m, now) => Start(db, Break, m, now).0
    case StopCall(now) => Stop(db, now)
    case CompleteCall(id, now) => Complete(db, id, now)
    case GetStateCall(now) => StateOf(db, now).0
  }

  function Run(db: Db, calls: seq<Call>): Db
    decreases |calls|
  {
    if |calls| == 0 then db else Run(Apply(db, calls[0]), calls[1..])
  }

  lemma ApplyKeepsValid(db: Db, c: Call)
    requires DbValid(db)
    ensures DbValid(Apply(db, c))
  {
    match c
    case StartFocusCall(m, now) => StartKeepsValid(db, Focus, m, now);
    case StartBreakCall(m, now) => StartKeepsValid(db, Break, m, now);
    case StopCall(now) => StopKeepsValid(db, now);
    case CompleteCall(id, now) => CompleteKeepsValid(db, id, now);
    case GetStateCall(now) => StateKeepsValid(db, now);
  }

  /** Whatever the services are asked, in whatever order, at most one session is ever active,
      session ids stay their row number and every stat row sits under its own date. */
  lemma {:induction false} RunKeepsValid(db: Db, calls: seq<Call>)
    requires DbValid(db)
    ensures DbValid(Run(db, calls))
    ensures AtMostOneActive(Run(db, calls).sessions)
    decreases |calls|
  {
    if |calls| > 0 {
      ApplyKeepsValid(db, calls[0]);
      RunKeepsValid(Apply(db, calls[0]), calls[1..]);
    }
  }

  /** Two focus sessions of 25 and 30 minutes completed on one day give that day 2 and 3300. */
  lemma TwoFocusSessionsAccumulate(now1: int, now2: int, now3: int, now4: int)
    requires Today(now2) == Today(now4)
    ensures var db := Run(Db([], map[]), [StartFocusCall(25, now1), CompleteCall(1, now2),
                                          StartFocusCall(30, now3), CompleteCall(2, now4)]);
      DayCounts(db.stats, Today(now4)) == (2, 3300)
  {
    var day := Today(now4);
    var db0 := Db([], map[]);
    var db1 := Apply(db0, StartFocusCall(25, now1));
    assert db1.sessions == [NewSession(1, Focus, 1500, now1)];
    var db2 := Apply(db1, CompleteCall(1, now2));
    assert FindById(db1.sessions, 1) == Some(0);
    assert db2.sessions[0].status == Completed && |db2.sessions| == 1;
    assert db2.stats == map[day := DailyStat(day, 1500, 1)];
    var db3 := Apply(db2, StartFocusCall(30, now3));
    assert FirstActive(db2.sessions) == None;
    assert db3.sessions == db2.sessions + [NewSession(2, Focus, 1800, now3)];
    assert db3.stats == db2.stats;
    var db4 := Apply(db3, CompleteCall(2, now4));
    assert FindById(db3.sessions, 2) == Some(1);
    assert db4.stats == map[day := DailyStat(day, 3300, 2)];
    var calls := [StartFocusCall(25, now1), CompleteCall(1, now2), StartFocusCall(30, now3), CompleteCall(2, now4)];
    assert calls[1..][1..] == calls[2..] && calls[2..][1..] == calls[3..] && calls[3..][1..] == [];
    assert Run(db3, calls[3..]) == Run(db4, []) == db4;
    assert Run(db2, calls[2..]) == Run(db3, calls[3..]);
    assert Run(db1, calls[1..]) == Run(db2, calls[2..]);
    assert Run(db0, calls) == Run(db1, calls[1..]);
  }

  // ---------------------------------------------------------------------------------------
  // The store whose rows the services change in place

  class SessionStore {
    var sessions: seq<Session>
    var stats: map<int, DailyStat>

    ghost function Model(): Db
      reads this
    {
      Db(sessions, stats)
    }

    ghost predicate Valid()
      reads this
    {
      DbValid(Model())
    }

    /** Freshly created, empty tables. */
    constructor ()
      ensures Valid() && Model() == Db([], map[])
    {
      sessions := [];
      stats := map[];
    }

    method StartFocus(now: int, minutes: int := FOCUS_DEFAULT_MINUTES) returns (r: Result<Session, StartError>)
      requires Valid()
      modifies this
      ensures Valid()
      ensures (Model(), r) == Start(old(Model()), Focus, minutes, now)
    {
      r := StartSession(Focus, minutes, now);
    }

    method StartBreak(now: int, minutes: int := BREAK_DEFAULT_MINUTES) returns (r: Result<Session, StartError>)
      requires Valid()
      modifies this
      ensures Valid()
      ensures (Model(), r) == Start(old(Model()), Break, minutes, now)
    {
      r := StartSession(Break, minutes, now);
    }

    /** The body shared by start_focus and start_break. */
    method StartSession(kind: SessionType, minutes: int, now: int) returns (r: Result<Session, StartError>)
      requires Valid()
      modifies this
      ensures Valid()
      ensures (Model(), r) == Start(old(Model()), kind, minutes, now)
    {
      StartKeepsValid(Model(), kind, minutes, now);
      var check := CheckDuration(IntV(minutes));
      if check.Fail? {
        return Failure(InvalidDuration(check.error));
      }
      var active := FirstActive(sessions);
      if active.Some? {
        return Failure(SessionConflict);
      }
      var durationSec := minutes * SECONDS_PER_MINUTE;
      var session := NewSession(|sessions| + 1, kind, durationSec, now);
      sessions := sessions + [session];
      r := Success(session);
    }

    method StopActiveSession(now: int)
      requires Valid()
      modifies this
      ensures Valid()
      ensures Model() == Stop(old(Model()), now)
    {
      StopKeepsValid(Model(), now);
      var active := FirstActive(sessions);
      if active.Some? {
        var i := active.value;
        sessions := sessions[i := sessions[i].(status := Aborted, endAt := Some(now))];
      }
    }

    method CompleteSession(id: int, now: int)
      requires Valid()
      modifies this
      ensures Valid()
      ensures Model() == Complete(old(Model()), id, now)
    {
      CompleteKeepsValid(Model(), id, now);
      var found := FindById(sessions, id);
      if found.None? || sessions[found.value].status != Active {
        return;
      }
      var i := found.value;
      var session := sessions[i];
      sessions := sessions[i := session.(status := Completed, endAt := Some(now))];
      if session.kind == Focus {
        var today := Today(now);
        var stat := if today in stats then stats[today] else NewDailyStat(today);
        stat := stat.(completedFocusCount := stat.completedFocusCount + 1);
        stat := stat.(totalFocusSeconds := stat.totalFocusSeconds + session.plannedDurationSec);
        stats := stats[today := stat];
      }
    }

    method GetState(now: int) returns (snap: Snapshot)
      requires Valid()
      modifies this
      ensures Valid()
      ensures (Model(), snap) == StateOf(old(Model()), now)
    {
      var active := FirstActive(sessions);
      var remaining: int;
      var mode: Mode;
      if active.Some? {
        var session := sessions[active.value];
        remaining := session.plannedEndAt - now;
        if remaining <= 0 {
          CompleteSession(session.id, now);
          remaining := 0;
          mode := Idle;
        } else {
          mode := Running(session.kind);
        }
      } else {
        remaining := 0;
        mode := Idle;
      }
      var today := Today(now);
      var completed := if today in stats then stats[today].completedFocusCount else 0;
      var total := if today in stats then stats[today].totalFocusSeconds else 0;
      snap := Snapshot(mode, remaining, completed, total);
    }

    /** The trailing window of `days` days ending today, oldest first, one entry per day. */
    method WindowStats(days: nat, now: int) returns (result: seq<DayEntry>)
      ensures |result| == days
      ensures forall i | 0 <= i < days :: result[i] == EntryFor(stats, Today(now) - (days - 1) + i)
    {
      var today := Today(now);
      var startDate := today - (days - 1);
      result := [];
      for i := 0 to days
        invariant |result| == i
        invariant forall k | 0 <= k < i :: result[k] == EntryFor(stats, startDate + k)
      {
        var date := startDate + i;
        if date in stats {
          var stat := stats[date];
          var completionRate := if stat.completedFocusCount > 0 then 1.0 else 0.0;
          result := result + [DayEntry(date, stat.completedFocusCount, stat.totalFocusSeconds, completionRate)];
        } else {
          result := result + [DayEntry(date, 0, 0, 0.0)];
        }
      }
    }

    /** get_weekly_stats: seven days, today - 6 to today, strictly ascending. */
    method GetWeeklyStats(now: int) returns (result: seq<DayEntry>)
      ensures |result| == 7
      ensures result[0].date == Today(now) - 6 && result[6].date == Today(now)
      ensures forall i, j | 0 <= i < j < 7 :: result[i].date < result[j].date
      ensures forall i | 0 <= i < 7 :: result[i] == EntryFor(stats, result[i].date)
    {
      result := WindowStats(7, now);
    }

    /** get_monthly_stats: thirty days, today - 29 to today, strictly ascending. */
    method GetMonthlyStats(now: int) returns (result: seq<DayEntry>)
      ensures |result| == 30
      ensures result[0].date == Today(now) - 29 && result[29].date == Today(now)
      ensures forall i, j | 0 <= i < j < 30 :: result[i].date < result[j].date
      ensures forall i | 0 <= i < 30 :: result[i] == EntryFor(stats, result[i].date)
    {
      result := WindowStats(30, now);
    }
  }
}
