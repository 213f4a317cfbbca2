/** The two tables of pomodoro/models.py, their enumerated string columns and their `to_dict`
    projections. Timestamps are integer seconds since the epoch in UTC; a calendar day is an
    integer day number. */
module Models {
  import opened Wrappers

  /** The `type` column: 'focus' or 'break'. */
  datatype SessionType = Focus | Break

  /** The `status` column: 'active', 'completed' or 'aborted'. */
  datatype Status = Active | Completed | Aborted

  /** The `mode` of a state snapshot: 'idle', or the type of the running session. */
  datatype Mode = Idle | Running(kind: SessionType)

  function TypeName(t: SessionType): string
  {
    match t
    case Focus => "focus"
    case Break => "break"
  }

  function ParseType(s: string): (r: Option<SessionType>)
    ensures r.Some? <==> s == "focus" || s == "break"
    ensures r.Some? ==> TypeName(r.value) == s
  {
    if s == "focus" then Some(Focus) else if s == "break" then Some(Break) else None
  }

  function StatusName(s: Status): string
  {
    match s
    case Active => "active"
    case Completed => "completed"
    case Aborted => "aborted"
  }

  function ParseStatus(s: string): (r: Option<Status>)
    ensures r.Some? <==> s == "active" || s == "completed" || s == "aborted"
    ensures r.Some? ==> StatusName(r.value) == s
  {
    if s == "active" then Some(Active)
    else if s == "completed" then Some(Completed)
    else if s == "aborted" then Some(Aborted)
    else None
  }

  /** A row of `pomodoro_sessions`. `endAt` is the nullable `end_at` column. */
  datatype Session = Session(
    id: int,
    kind: SessionType,
    plannedDurationSec: nat,
    startAt: int,
    plannedEndAt: int,
    endAt: Option<int>,
    status: Status)

  /** A row of `daily_stats`; `date` is unique, so a day has at most one row. */
  datatype DailyStat = DailyStat(date: int, totalFocusSeconds: nat, completedFocusCount: nat)

  /** A new session row: `status` takes its default 'active' and `end_at` stays NULL. */
  function NewSession(id: int, kind: SessionType, durationSec: nat, startAt: int): (s: Session)
    ensures s.id == id && s.kind == kind && s.plannedDurationSec == durationSec
    ensures s.startAt == startAt && s.plannedEndAt == startAt + durationSec
    ensures s.status == Active && s.endAt == None
  {
    Session(id, kind, durationSec, startAt, startAt + durationSec, None, Active)
  }

  /** A new stat row: both counters take their default 0. */
  function NewDailyStat(date: int): (d: DailyStat)
    ensures d.date == date && d.totalFocusSeconds == 0 && d.completedFocusCount == 0
  {
    DailyStat(date, 0, 0)
  }

  /** The JSON values `to_dict` produces. `JTime` and `JDate` stand for the ISO-8601 text that
      `isoformat()` renders for a timestamp and for a day. */
  datatype Json = JInt(n: int) | JStr(s: string) | JTime(t: int) | JDate(d: int) | JNull

  const SESSION_KEYS: set<string> :=
    {"id", "type", "planned_duration_sec", "start_at", "planned_end_at", "end_at", "status"}

  const STAT_KEYS: set<string> := {"date", "total_focus_seconds", "completed_focus_count"}

  /** PomodoroSession.to_dict: exactly the seven keys, `end_at` null exactly when unset. */
  function SessionToDict(s: Session): (d: map<string, Json>)
    ensures d.Keys == SESSION_KEYS
    ensures d["end_at"] == JNull <==> s.endAt.None?
    ensures d["id"] == JInt(s.id) && d["type"] == JStr(TypeName(s.kind))
    ensures d["status"] == JStr(StatusName(s.status))
  {
    map[
      "id" := JInt(s.id),
      "type" := JStr(TypeName(s.kind)),
      "planned_duration_sec" := JInt(s.plannedDurationSec),
      "start_at" := JTime(s.startAt),
      "planned_end_at" := JTime(s.plannedEndAt),
      "end_at" := (if s.endAt.Some? then JTime(s.endAt.value) else JNull),
      "status" := JStr(StatusName(s.status))]
  }

  /** Reads a session back from its dictionary; the inverse of SessionToDict. */
  function SessionFromDict(d: map<string, Json>): Option<Session>
  {
    if d.Keys != SESSION_KEYS then None
    else if !(d["id"].JInt? && d["type"].JStr? && d["planned_duration_sec"].JInt?
              && d["start_at"].JTime? && d["planned_end_at"].JTime?
              && (d["end_at"].JTime? || d["end_at"].JNull?) && d["status"].JStr?)
    then None
    else if d["planned_duration_sec"].n < 0 then None
    else
      match (ParseType(d["type"].s), ParseStatus(d["status"].s))
      case (Some(t), Some(st)) =>
        Some(Session(d["id"].n, t, d["planned_duration_sec"].n, d["start_at"].t,
                     d["planned_end_at"].t,
                     if d["end_at"].JTime? then Some(d["end_at"].t) else None, st))
      case _ => None
  }

  /** `to_dict` loses nothing: every field is recovered from the dictionary. */
  lemma SessionDictRoundTrip(s: Session)
    ensures SessionFromDict(SessionToDict(s)) == Some(s)
  {
    var d := SessionToDict(s);
    assert ParseType(TypeName(s.kind)) == Some(s.kind) by { match s.kind case Focus => case Break => }
    assert ParseStatus(StatusName(s.status)) == Some(s.status) by {
      match s.status case Active => case Completed => case Aborted =>
    }
  }

  /** DailyStat.to_dict: exactly the three keys. */
  function StatToDict(d: DailyStat): (m: map<string, Json>)
    ensures m.Keys == STAT_KEYS
    ensures m["date"] == JDate(d.date)
  {
    map[
      "date" := JDate(d.date),
      "total_focus_seconds" := JInt(d.totalFocusSeconds),
      "completed_focus_count" := JInt(d.completedFocusCount)]
  }

  /** Reads a stat row back from its dictionary; the inverse of StatToDict. */
  function StatFromDict(m: map<string, Json>): Option<DailyStat>
  {
    if m.Keys != STAT_KEYS then None
    else if !(m["date"].JDate? && m["total_focus_seconds"].JInt? && m["completed_focus_count"].JInt?)
    then None
    else if m["total_focus_seconds"].n < 0 || m["completed_focus_count"].n < 0 then None
    else Some(DailyStat(m["date"].d, m["total_focus_seconds"].n, m["completed_focus_count"].n))
  }

  lemma StatDictRoundTrip(d: DailyStat)
    ensures StatFromDict(StatToDict(d)) == Some(d)
  {
  }

  /** The type and status names are distinct and read back to the same value. */
  lemma NamesRoundTrip(t: SessionType, s: Status)
    ensures ParseType(TypeName(t)) == Some(t) && ParseStatus(StatusName(s)) == Some(s)
  {
  }
}
