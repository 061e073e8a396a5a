/** The event log as relations: the tables and queries of crates/tttt-log/src/sqlite.rs, and the session list built
    from them by src/replay_tui.rs. */
module EventLog {
  import opened Wrappers
  import opened Collections
  import opened GapSplit
  import opened SqlOrder
  import Replay

  const MAX_I64: nat := 0x7FFF_FFFF_FFFF_FFFF

  /** A timestamp that SQLite can hold and the reader accepts. */
  type Millis = t: int | 0 <= t <= MAX_I64

  datatype EventRow = EventRow(
    id: nat,
    sessionId: string,
    timestampMs: Millis,
    payload: Replay.Payload,
    pid: Option<nat>)

  datatype SessionInfo = SessionInfo(
    sessionId: string,
    command: string,
    cols: nat,
    rows: nat,
    startedAtMs: Millis,
    endedAtMs: Option<Millis>,
    name: Option<string>,
    pid: Option<nat>,
    workingDir: Option<string>)

  /** A database as opened: its rows, and which parts of the schema it has. */
  datatype Db = Db(
    events: seq<EventRow>,
    sessions: seq<SessionInfo>,
    hasSessionsTable: bool,
    eventsHasPid: bool,
    sessionsHasPid: bool,
    sessionsHasWorkingDir: bool)

  predicate DistinctSessions(sessions: seq<SessionInfo>) {
    forall i, j | 0 <= i < j < |sessions| :: sessions[i].sessionId != sessions[j].sessionId
  }

  /** Row ids and session ids are primary keys; a missing column or table holds nothing. */
  predicate ValidDb(db: Db) {
    && (forall i, j | 0 <= i < j < |db.events| :: db.events[i].id != db.events[j].id)
    && DistinctSessions(db.sessions)
    && (!db.hasSessionsTable ==> db.sessions == [])
    && (!db.sessionsHasPid ==> forall s | s in db.sessions :: s.pid.None?)
    && (!db.sessionsHasWorkingDir ==> forall s | s in db.sessions :: s.workingDir.None?)
    && (!db.eventsHasPid ==> forall e | e in db.events :: e.pid.None?)
  }

  // ----- writing

  function NotSession(sid: string): SessionInfo -> bool {
    (s: SessionInfo) => s.sessionId != sid
  }

  class SqliteLogger {
    var events: seq<EventRow>
    var sessions: seq<SessionInfo>
    const pid: Option<nat>

    function State(): Db
      reads this
    {
      Db(events, sessions, true, true, true, true)
    }

    predicate Valid()
      reads this
    {
      ValidDb(State()) && forall i | 0 <= i < |events| :: events[i].id == i
    }

    constructor (pid: nat)
      ensures Valid() && events == [] && sessions == [] && this.pid == Some(pid)
    {
      this.pid := Some(pid);
      events := [];
      sessions := [];
    }

    /** SQLite's integers are signed: a timestamp beyond them is refused. */
    method LogEvent(sid: string, timestampMs: nat, payload: Replay.Payload) returns (ok: bool)
      requires Valid()
      modifies `events
      ensures Valid()
      ensures ok <==> timestampMs <= MAX_I64
      ensures events == if ok then old(events) + [EventRow(|old(events)|, sid, timestampMs, payload, pid)]
                        else old(events)
    {
      if timestampMs > MAX_I64 {
        return false;
      }
      events := events + [EventRow(|events|, sid, timestampMs, payload, pid)];
      return true;
    }

    /** INSERT OR REPLACE: the row of an earlier run under the same id is gone. */
    method LogSessionStart(sid: string, command: string, cols: nat, rows: nat, name: Option<string>,
                           dir: Option<string>, now: nat)
      returns (ok: bool)
      requires Valid()
      modifies `sessions
      ensures Valid()
      ensures ok <==> now <= MAX_I64
      ensures ok ==> var row := SessionInfo(sid, command, cols, rows, now, None, name, pid, dir);
                     sessions == Filter(old(sessions), NotSession(sid)) + [row]
      ensures !ok ==> sessions == old(sessions)
    {
      if now > MAX_I64 {
        return false;
      }
      FilterKeepsDistinct(sessions, sid);
      var row := SessionInfo(sid, command, cols, rows, now, None, name, pid, dir);
      sessions := Filter(sessions, NotSession(sid)) + [row];
      return true;
    }
  }

  lemma {:induction false} FilterKeepsDistinct(sessions: seq<SessionInfo>, sid: string)
    requires DistinctSessions(sessions)
    ensures DistinctSessions(Filter(sessions, NotSession(sid)))
    ensures forall s | s in Filter(sessions, NotSession(sid)) :: s in sessions && s.sessionId != sid
  {
    if sessions != [] {
      var rest := Filter(sessions[1..], NotSession(sid));
      FilterKeepsDistinct(sessions[1..], sid);
      forall i | 0 <= i < |rest|
        ensures rest[i].sessionId != sessions[0].sessionId
      {
        assert rest[i] in sessions[1..];
      }
    }
  }

  // ----- queries

  function ByTime(): EventRow -> int {
    (e: EventRow) => e.timestampMs
  }

  /** WHERE session_id = ? [AND pid = ?]: no pid, or no pid column, selects the whole session. */
  function PidFilter(db: Db, sid: string, pid: Option<nat>): EventRow -> bool {
    (e: EventRow) => e.sessionId == sid && (pid.Some? && db.eventsHasPid ==> e.pid == pid)
  }

  /** WHERE session_id = ? AND pid IS NULL AND timestamp_ms BETWEEN ? AND ?, the upper bound capped. */
  function RangeFilter(db: Db, sid: string, from: nat, to: nat): EventRow -> bool {
    (e: EventRow) => e.sessionId == sid && (db.eventsHasPid ==> e.pid.None?)
                     && from <= e.timestampMs && e.timestampMs <= (if to <= MAX_I64 then to else MAX_I64)
  }

  function NullPidFilter(db: Db, sid: string): EventRow -> bool {
    (e: EventRow) => e.sessionId == sid && (db.eventsHasPid ==> e.pid.None?)
  }

  function QueryEventsWithPid(db: Db, sid: string, pid: Option<nat>): seq<EventRow> {
    Sort(Filter(db.events, PidFilter(db, sid, pid)), ByTime())
  }

  function QueryEventsInRange(db: Db, sid: string, from: nat, to: nat): seq<EventRow> {
    Sort(Filter(db.events, RangeFilter(db, sid, from, to)), ByTime())
  }

  function Times(rows: seq<EventRow>): (ts: seq<nat>)
    ensures |ts| == |rows|
  {
    seq(|rows|, i requires 0 <= i < |rows| => rows[i].timestampMs)
  }

  /** The timestamps of a session's rows without pid, ORDER BY timestamp_ms. */
  function NullPidRows(db: Db, sid: string): seq<EventRow> {
    Sort(Filter(db.events, NullPidFilter(db, sid)), ByTime())
  }

  // ----- orphans

  function PairOf(db: Db, e: EventRow): Pair {
    (e.sessionId, if db.eventsHasPid then e.pid else None)
  }

  /** GROUP BY session_id[, pid], each group once. */
  function Groups(db: Db, events: seq<EventRow>): seq<Pair> {
    if events == [] then []
    else
      var before := Groups(db, events[..|events| - 1]);
      var p := PairOf(db, events[|events| - 1]);
      if p in before then before else before + [p]
  }

  /** A sessions row that claims the group: same id, and the same pid where events have one. */
  predicate Claimed(db: Db, p: Pair) {
    exists i :: 0 <= i < |db.sessions| && db.sessions[i].sessionId == p.0
                && (db.eventsHasPid ==> db.sessions[i].pid == p.1)
  }

  function Unclaimed(db: Db): Pair -> bool {
    (p: Pair) => !Claimed(db, p)
  }

  /** The anti-join names `s.pid`, so with a sessions table that lacks the column the statement does not compile. */
  predicate OrphanQueryFails(db: Db) {
    db.eventsHasPid && db.hasSessionsTable && !db.sessionsHasPid
  }

  /** The groups no session claims, ORDER BY session_id, pid. */
  function Orphans(db: Db): seq<Pair> {
    Ordered(Filter(Groups(db, db.events), Unclaimed(db)))
  }

  function ListOrphanSessionIds(db: Db): Result<seq<Pair>, string> {
    if OrphanQueryFails(db) then Err("no such column: s.pid") else Ok(Orphans(db))
  }

  function SyntheticInfo(sid: string, pid: Option<nat>, start: Millis, end: Millis): SessionInfo {
    SessionInfo(sid, "unknown", 80, 24, start, Some(end), None, pid, None)
  }

  /** MIN and MAX of the timestamps; no rows, no info. */
  function InferSessionInfo(db: Db, sid: string, pid: Option<nat>): Option<SessionInfo> {
    var rows := QueryEventsWithPid(db, sid, pid);
    if rows == [] then None
    else Some(SyntheticInfo(sid, pid, rows[0].timestampMs, rows[|rows| - 1].timestampMs))
  }

  function Clamped(t: nat): Millis {
    if t <= MAX_I64 then t else MAX_I64
  }

  function ChunkInfos(sid: string, ranges: seq<(nat, nat)>): (r: seq<SessionInfo>)
    ensures |r| == |ranges|
  {
    seq(|ranges|, i requires 0 <= i < |ranges| => SyntheticInfo(sid, None, Clamped(ranges[i].0), Clamped(ranges[i].1)))
  }

  function OrphanInfos(db: Db, p: Pair): seq<SessionInfo> {
    if p.1.Some? then
      var info := InferSessionInfo(db, p.0, p.1);
      if info.Some? then [info.value] else []
    else ChunkInfos(p.0, Ranges(Blocks(Times(NullPidRows(db, p.0)))))
  }

  function AllOrphanInfos(db: Db, pairs: seq<Pair>): seq<SessionInfo> {
    if pairs == [] then [] else AllOrphanInfos(db, pairs[..|pairs| - 1]) + OrphanInfos(db, pairs[|pairs| - 1])
  }

  lemma AllOrphanInfosNext(db: Db, pairs: seq<Pair>, i: nat)
    requires i < |pairs|
    ensures AllOrphanInfos(db, pairs[..i + 1]) == AllOrphanInfos(db, pairs[..i]) + OrphanInfos(db, pairs[i])
  {
    assert pairs[..i + 1][..i] == pairs[..i];
  }

  method ListOrphanSessionChunks(db: Db) returns (r: Result<seq<SessionInfo>, string>)
    ensures r == if OrphanQueryFails(db) then Err("no such column: s.pid")
                 else Ok(AllOrphanInfos(db, Orphans(db)))
  {
    var pairs :- ListOrphanSessionIds(db);
    var result: seq<SessionInfo> := [];
    for i := 0 to |pairs|
      invariant result == AllOrphanInfos(db, pairs[..i])
    {
      var (sid, pid) := pairs[i];
      AllOrphanInfosNext(db, pairs, i);
      if pid.Some? {
        var info := InferSessionInfo(db, sid, pid);
        if info.Some? {
          result := result + [info.value];
        }
      } else {
        var chunks := SplitAtGaps(Times(NullPidRows(db, sid)));
        result := result + ChunkInfos(sid, chunks);
      }
    }
    assert pairs[..|pairs|] == pairs;
    return Ok(result);
  }

  // ----- the session list

  datatype LoadStrategy = ByPid | ByTimeRange

  datatype SessionListEntry = SessionListEntry(info: SessionInfo, eventCount: nat, loadStrategy: LoadStrategy)

  function UpperBound(info: SessionInfo): nat {
    if info.endedAtMs.Some? then info.endedAtMs.value else MAX_I64
  }

  function PidEntry(db: Db, info: SessionInfo): SessionListEntry {
    SessionListEntry(info, |Filter(db.events, PidFilter(db, info.sessionId, info.pid))|, ByPid)
  }

  function RangeEntry(db: Db, info: SessionInfo): SessionListEntry {
    SessionListEntry(info, |Filter(db.events, RangeFilter(db, info.sessionId, info.startedAtMs, UpperBound(info)))|,
                     ByTimeRange)
  }

  function OrphanEntry(db: Db, info: SessionInfo): SessionListEntry {
    if info.pid.Some? then PidEntry(db, info) else RangeEntry(db, info)
  }

  function PidEntries(db: Db, infos: seq<SessionInfo>): (r: seq<SessionListEntry>)
    ensures |r| == |infos|
  {
    seq(|infos|, i requires 0 <= i < |infos| => PidEntry(db, infos[i]))
  }

  function OrphanEntries(db: Db, infos: seq<SessionInfo>): (r: seq<SessionListEntry>)
    ensures |r| == |infos|
  {
    seq(|infos|, i requires 0 <= i < |infos| => OrphanEntry(db, infos[i]))
  }

  function ByStart(): SessionInfo -> int {
    (s: SessionInfo) => s.startedAtMs
  }

  /** `Reverse(started_at_ms)`. */
  function NewestFirst(): SessionListEntry -> int {
    (e: SessionListEntry) => -(e.info.startedAtMs as int)
  }

  function ListSessions(db: Db): seq<SessionInfo> {
    Sort(db.sessions, ByStart())
  }

  /** The list before the final sort: registered sessions, then orphans. */
  function Unsorted(db: Db): seq<SessionListEntry> {
    PidEntries(db, ListSessions(db))
    + OrphanEntries(db, AllOrphanInfos(db, Orphans(db)))
  }

  function SessionList(db: Db): Result<seq<SessionListEntry>, string> {
    if OrphanQueryFails(db) then Err("no such column: s.pid") else Ok(Sort(Unsorted(db), NewestFirst()))
  }

  method RegisteredList(db: Db) returns (sessions: seq<SessionListEntry>)
    ensures sessions == PidEntries(db, ListSessions(db))
  {
    var registered := ListSessions(db);
    sessions := [];
    for i := 0 to |registered|
      invariant sessions == PidEntries(db, registered)[..i]
    {
      var count := |Filter(db.events, PidFilter(db, registered[i].sessionId, registered[i].pid))|;
      sessions := sessions + [SessionListEntry(registered[i], count, ByPid)];
    }
  }

  method OrphanList(db: Db, orphans: seq<SessionInfo>) returns (sessions: seq<SessionListEntry>)
    ensures sessions == OrphanEntries(db, orphans)
  {
    sessions := [];
    for i := 0 to |orphans|
      invariant sessions == OrphanEntries(db, orphans)[..i]
    {
      var info := orphans[i];
      if info.pid.Some? {
        var count := |Filter(db.events, PidFilter(db, info.sessionId, info.pid))|;
        sessions := sessions + [SessionListEntry(info, count, ByPid)];
      } else {
        var toMs := UpperBound(info);
        var count := |Filter(db.events, RangeFilter(db, info.sessionId, info.startedAtMs, toMs))|;
        sessions := sessions + [SessionListEntry(info, count, ByTimeRange)];
      }
    }
  }

  method BuildSessionList(db: Db) returns (r: Result<seq<SessionListEntry>, string>)
    ensures r == SessionList(db)
  {
    var sessions := RegisteredList(db);
    var infos :- ListOrphanSessionChunks(db);
    var orphans := OrphanList(db, infos);
    return Ok(Sort(sessions + orphans, NewestFirst()));
  }

  /** The rows `open_entry` loads. */
  function Opened(db: Db, e: SessionListEntry): seq<EventRow> {
    match e.loadStrategy
    case ByPid => QueryEventsWithPid(db, e.info.sessionId, e.info.pid)
    case ByTimeRange => QueryEventsInRange(db, e.info.sessionId, e.info.startedAtMs, UpperBound(e.info))
  }
}
