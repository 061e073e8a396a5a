/** The session list partitions the event log. */
module LogCoverage {
  import opened Wrappers
  import opened Collections
  import opened GapSplit
  import opened SqlOrder
  import opened EventLog

  /** Opening the entry shows row `r`. */
  function Shows(db: Db, r: EventRow): SessionListEntry -> bool {
    (e: SessionListEntry) => r in Opened(db, e)
  }

  /** How many entries of the list show row `r`. */
  function Openings(db: Db, list: seq<SessionListEntry>, r: EventRow): nat {
    CountIf(list, Shows(db, r))
  }

  lemma PidEntryShows(db: Db, info: SessionInfo, r: EventRow)
    requires r in db.events
    ensures r in Opened(db, PidEntry(db, info))
            <==> info.sessionId == r.sessionId && (info.pid.Some? && db.eventsHasPid ==> r.pid == info.pid)
  {
    SortMembers(Filter(db.events, PidFilter(db, info.sessionId, info.pid)), ByTime(), r);
    FilterMembers(db.events, PidFilter(db, info.sessionId, info.pid), r);
  }

  lemma RangeEntryShows(db: Db, info: SessionInfo, r: EventRow)
    requires r in db.events
    ensures r in Opened(db, RangeEntry(db, info))
            <==> info.sessionId == r.sessionId && (db.eventsHasPid ==> r.pid.None?)
                 && info.startedAtMs <= r.timestampMs <= UpperBound(info)
  {
    var p := RangeFilter(db, info.sessionId, info.startedAtMs, UpperBound(info));
    SortMembers(Filter(db.events, p), ByTime(), r);
    FilterMembers(db.events, p, r);
  }

  // ----- registered sessions

  function Registers(db: Db, r: EventRow): SessionInfo -> bool {
    (s: SessionInfo) => s.sessionId == r.sessionId && (s.pid.Some? && db.eventsHasPid ==> r.pid == s.pid)
  }

  lemma {:induction false} PidEntriesShow(db: Db, infos: seq<SessionInfo>, r: EventRow)
    requires r in db.events
    ensures Openings(db, PidEntries(db, infos), r) == CountIf(infos, Registers(db, r))
  {
    if infos != [] {
      PidEntriesShow(db, infos[1..], r);
      PidEntryShows(db, infos[0], r);
      assert PidEntries(db, infos)[1..] == PidEntries(db, infos[1..]);
    }
  }

  /** A registered session shows the row when its own row has the same id and either the same pid or none. */
  predicate ShownByRegistered(db: Db, r: EventRow) {
    exists i :: 0 <= i < |db.sessions| && Registers(db, r)(db.sessions[i])
  }

  lemma RegisteredShow(db: Db, r: EventRow)
    requires ValidDb(db) && r in db.events
    ensures Openings(db, PidEntries(db, ListSessions(db)), r) == if ShownByRegistered(db, r) then 1 else 0
  {
    PidEntriesShow(db, ListSessions(db), r);
    SortPermutes(db.sessions, ByStart());
    CountPermuted(ListSessions(db), db.sessions, Registers(db, r));
    if i :| 0 <= i < |db.sessions| && Registers(db, r)(db.sessions[i]) {
      CountUnique(db.sessions, i, Registers(db, r));
    } else {
      CountNone(db.sessions, Registers(db, r));
    }
  }

  // ----- orphans

  predicate Matches(db: Db, p: Pair, r: EventRow) {
    p == PairOf(db, r)
  }

  lemma TimesOf(db: Db, sid: string, r: EventRow)
    requires r in db.events
    ensures GapSplit.Sorted(Times(NullPidRows(db, sid)))
    ensures r.sessionId == sid && (db.eventsHasPid ==> r.pid.None?) ==> r.timestampMs in Times(NullPidRows(db, sid))
  {
    var rows := Filter(db.events, NullPidFilter(db, sid));
    SortOrders(rows, ByTime());
    SortMembers(rows, ByTime(), r);
    FilterMembers(db.events, NullPidFilter(db, sid), r);
    var sorted := NullPidRows(db, sid);
    forall i, j | 0 <= i < j < |sorted|
      ensures Times(sorted)[i] <= Times(sorted)[j]
    {
      assert ByTime()(sorted[i]) <= ByTime()(sorted[j]);
    }
    if r in sorted {
      var k :| 0 <= k < |sorted| && sorted[k] == r;
      assert Times(sorted)[k] == r.timestampMs;
    }
  }

  /** Block boundaries are timestamps of rows, so turning them into dates loses nothing. */
  lemma RangeEndsAreTimes(ts: seq<nat>, i: nat)
    requires i < |Blocks(ts)|
    ensures Ranges(Blocks(ts))[i].0 in ts && Ranges(Blocks(ts))[i].1 in ts
  {
    var bs := Blocks(ts);
    BlocksSplit(ts);
    var p := JoinedAt(bs, i, 0);
    var q := JoinedAt(bs, i, |bs[i]| - 1);
    assert ts[p] == bs[i][0] && ts[q] == Last(bs[i]);
  }

  lemma TimesAreMillis(rows: seq<EventRow>, t: nat)
    requires t in Times(rows)
    ensures t <= MAX_I64
  {
    var i :| 0 <= i < |rows| && Times(rows)[i] == t;
    assert t == rows[i].timestampMs;
  }

  lemma RangeBoundsAreMillis(db: Db, sid: string, i: nat)
    requires i < |Blocks(Times(NullPidRows(db, sid)))|
    ensures var r := Ranges(Blocks(Times(NullPidRows(db, sid))))[i]; r.0 <= MAX_I64 && r.1 <= MAX_I64
  {
    var rows := NullPidRows(db, sid);
    var r := Ranges(Blocks(Times(rows)))[i];
    RangeEndsAreTimes(Times(rows), i);
    TimesAreMillis(rows, r.0);
    TimesAreMillis(rows, r.1);
  }

  lemma ChunkEntryShows(db: Db, sid: string, i: nat, r: EventRow)
    requires r in db.events && i < |Blocks(Times(NullPidRows(db, sid)))|
    ensures var ranges := Ranges(Blocks(Times(NullPidRows(db, sid))));
            var entries := OrphanEntries(db, ChunkInfos(sid, ranges));
            r in Opened(db, entries[i])
            <==> r.sessionId == sid && (db.eventsHasPid ==> r.pid.None?) && InRange(ranges[i], r.timestampMs)
  {
    var ranges := Ranges(Blocks(Times(NullPidRows(db, sid))));
    RangeBoundsAreMillis(db, sid, i);
    RangeEntryShows(db, ChunkInfos(sid, ranges)[i], r);
  }

  lemma ChunksShow(db: Db, sid: string, r: EventRow)
    requires r in db.events
    ensures Openings(db, OrphanEntries(db, OrphanInfos(db, (sid, None))), r)
            == if r.sessionId == sid && (db.eventsHasPid ==> r.pid.None?) then 1 else 0
  {
    var ts := Times(NullPidRows(db, sid));
    var entries := OrphanEntries(db, OrphanInfos(db, (sid, None)));
    forall i | 0 <= i < |entries|
      ensures Shows(db, r)(entries[i])
              <==> && r.sessionId == sid && (db.eventsHasPid ==> r.pid.None?)
                   && InRange(Ranges(Blocks(ts))[i], r.timestampMs)
    {
      ChunkEntryShows(db, sid, i, r);
    }
    if r.sessionId == sid && (db.eventsHasPid ==> r.pid.None?) {
      TimesOf(db, sid, r);
      var k := ExactlyOneRange(ts, r.timestampMs);
      CountUnique(entries, k, Shows(db, r));
    } else {
      CountNone(entries, Shows(db, r));
    }
  }

  lemma OpeningsOfOne(db: Db, e: SessionListEntry, r: EventRow)
    ensures Openings(db, [e], r) == if r in Opened(db, e) then 1 else 0
  {
    var one: seq<SessionListEntry> := [e];
    assert Shows(db, r)(one[0]) <==> r in Opened(db, e);
    if r in Opened(db, e) {
      CountUnique(one, 0, Shows(db, r));
    } else {
      CountNone(one, Shows(db, r));
    }
  }

  lemma PidOrphanShows(db: Db, p: Pair, r: EventRow)
    requires r in db.events && p.1.Some? && db.eventsHasPid
    ensures Openings(db, OrphanEntries(db, OrphanInfos(db, p)), r) == if Matches(db, p, r) then 1 else 0
  {
    var rows := Filter(db.events, PidFilter(db, p.0, p.1));
    SortMembers(rows, ByTime(), r);
    FilterMembers(db.events, PidFilter(db, p.0, p.1), r);
    var info := InferSessionInfo(db, p.0, p.1);
    var entries := OrphanEntries(db, OrphanInfos(db, p));
    if info.Some? {
      assert info.value.sessionId == p.0 && info.value.pid == p.1;
      assert OrphanInfos(db, p) == [info.value];
      assert entries == [PidEntry(db, info.value)];
      PidEntryShows(db, info.value, r);
      assert Matches(db, p, r) <==> p.0 == r.sessionId && p.1 == r.pid;
      OpeningsOfOne(db, PidEntry(db, info.value), r);
    } else {
      assert entries == [];
      assert r !in rows;
    }
  }

  /** The entries of one orphan group show exactly the rows of that group, each once. */
  lemma OrphanShows(db: Db, p: Pair, r: EventRow)
    requires r in db.events && (p.1.Some? ==> db.eventsHasPid)
    ensures Openings(db, OrphanEntries(db, OrphanInfos(db, p)), r) == if Matches(db, p, r) then 1 else 0
  {
    if p.1.Some? {
      PidOrphanShows(db, p, r);
    } else {
      assert p == (p.0, None);
      ChunksShow(db, p.0, r);
    }
  }

  function MatchesRow(db: Db, r: EventRow): Pair -> bool {
    (p: Pair) => Matches(db, p, r)
  }

  lemma PidOrphanSpan(db: Db, p: Pair)
    requires p.1.Some?
    ensures forall k | 0 <= k < |OrphanInfos(db, p)| :: SpansItsRows(db, p, OrphanInfos(db, p)[k])
  {
  }

  lemma SortedEnds(rows: seq<EventRow>, first: EventRow, last: EventRow)
    requires SortedBy(rows, ByTime()) && first in rows && last in rows
    requires forall r | r in rows :: first.timestampMs <= r.timestampMs <= last.timestampMs
    ensures rows[0].timestampMs == first.timestampMs && rows[|rows| - 1].timestampMs == last.timestampMs
  {
    var i :| 0 <= i < |rows| && rows[i] == first;
    var j :| 0 <= j < |rows| && rows[j] == last;
    assert ByTime()(rows[0]) <= ByTime()(rows[i]) && ByTime()(rows[j]) <= ByTime()(rows[|rows| - 1]);
    assert rows[0] in rows && rows[|rows| - 1] in rows;
  }

  lemma RowOfTime(rows: seq<EventRow>, t: nat) returns (r: EventRow)
    requires t in Times(rows)
    ensures r in rows && r.timestampMs == t
  {
    var i :| 0 <= i < |rows| && Times(rows)[i] == t;
    r := rows[i];
  }

  lemma RangeRowsSpan(db: Db, sid: string, range: (nat, nat))
    requires range.0 in Times(NullPidRows(db, sid)) && range.1 in Times(NullPidRows(db, sid)) && range.0 <= range.1
    ensures var rows := QueryEventsInRange(db, sid, range.0, range.1);
            rows != [] && rows[0].timestampMs == range.0 && rows[|rows| - 1].timestampMs == range.1
  {
    var nulls, rows := NullPidRows(db, sid), QueryEventsInRange(db, sid, range.0, range.1);
    RangeQueryIsFilter(db, sid, range);
    SortOrders(Filter(db.events, RangeFilter(db, sid, range.0, range.1)), ByTime());
    var first := RowOfTime(nulls, range.0);
    var last := RowOfTime(nulls, range.1);
    FilterMembers(nulls, Within(range), first);
    FilterMembers(nulls, Within(range), last);
    forall r | r in rows
      ensures range.0 <= r.timestampMs <= range.1
    {
      FilterMembers(nulls, Within(range), r);
    }
    SortedEnds(rows, first, last);
  }

  lemma ChunkSpan(db: Db, sid: string, i: nat)
    requires i < |Blocks(Times(NullPidRows(db, sid)))|
    ensures SpansItsRows(db, (sid, None), ChunkInfos(sid, Ranges(Blocks(Times(NullPidRows(db, sid)))))[i])
  {
    var ts := Times(NullPidRows(db, sid));
    var range := Ranges(Blocks(ts))[i];
    RangeBoundsAreMillis(db, sid, i);
    RangeEndsAreTimes(ts, i);
    ChunkBoundsOrdered(db, sid, i);
    RangeRowsSpan(db, sid, range);
  }

  lemma ChunkBoundsOrdered(db: Db, sid: string, i: nat)
    requires i < |Blocks(Times(NullPidRows(db, sid)))|
    ensures var r := Ranges(Blocks(Times(NullPidRows(db, sid))))[i]; r.0 <= r.1
  {
    var rows := NullPidRows(db, sid);
    var ts := Times(rows);
    SortOrders(Filter(db.events, NullPidFilter(db, sid)), ByTime());
    forall k, l | 0 <= k < l < |ts|
      ensures ts[k] <= ts[l]
    {
      assert ByTime()(rows[k]) <= ByTime()(rows[l]);
    }
    BlockIsSorted(ts, i, 0, |Blocks(ts)[i]| - 1);
  }

  /** A synthetic entry: no name, an unknown command on an 80 by 24 screen, from its first event to its last. */
  predicate SpansItsRows(db: Db, p: Pair, info: SessionInfo) {
    var rows := Opened(db, OrphanEntry(db, info));
    && info.sessionId == p.0 && info.pid == p.1 && info.command == "unknown" && info.cols == 80 && info.rows == 24
    && info.name.None? && info.workingDir.None? && rows != []
    && info.startedAtMs == rows[0].timestampMs && info.endedAtMs == Some(rows[|rows| - 1].timestampMs)
  }

  /** Every orphan entry spans exactly the events that opening it loads. */
  lemma OrphanEntriesSpanTheirRows(db: Db, p: Pair, k: nat)
    requires k < |OrphanInfos(db, p)|
    ensures SpansItsRows(db, p, OrphanInfos(db, p)[k])
  {
    if p.1.Some? {
      PidOrphanSpan(db, p);
    } else {
      ChunkSpan(db, p.0, k);
    }
  }

  lemma OpeningsConcat(db: Db, a: seq<SessionInfo>, b: seq<SessionInfo>, r: EventRow)
    ensures Openings(db, OrphanEntries(db, a + b), r)
            == Openings(db, OrphanEntries(db, a), r) + Openings(db, OrphanEntries(db, b), r)
  {
    assert OrphanEntries(db, a + b) == OrphanEntries(db, a) + OrphanEntries(db, b);
    CountConcat(OrphanEntries(db, a), OrphanEntries(db, b), Shows(db, r));
  }

  lemma CountLast(pairs: seq<Pair>, p: Pair -> bool)
    requires pairs != []
    ensures CountIf(pairs, p) == CountIf(pairs[..|pairs| - 1], p) + if p(pairs[|pairs| - 1]) then 1 else 0
  {
    var one: seq<Pair> := [pairs[|pairs| - 1]];
    CountConcat(pairs[..|pairs| - 1], one, p);
    assert pairs == pairs[..|pairs| - 1] + one && one[1..] == [];
  }

  lemma {:induction false} OrphansShow(db: Db, pairs: seq<Pair>, r: EventRow)
    requires r in db.events && forall i | 0 <= i < |pairs| :: pairs[i].1.Some? ==> db.eventsHasPid
    ensures Openings(db, OrphanEntries(db, AllOrphanInfos(db, pairs)), r) == CountIf(pairs, MatchesRow(db, r))
  {
    if pairs != [] {
      var init, last := pairs[..|pairs| - 1], pairs[|pairs| - 1];
      OrphansShow(db, init, r);
      OrphanShows(db, last, r);
      OpeningsConcat(db, AllOrphanInfos(db, init), OrphanInfos(db, last), r);
      CountLast(pairs, MatchesRow(db, r));
    }
  }

  predicate DistinctPairs(ps: seq<Pair>) {
    forall i, j | 0 <= i < j < |ps| :: ps[i] != ps[j]
  }

  lemma {:induction false} GroupsAreExact(db: Db, events: seq<EventRow>)
    ensures DistinctPairs(Groups(db, events))
    ensures forall e | e in events :: PairOf(db, e) in Groups(db, events)
    ensures forall i | 0 <= i < |Groups(db, events)| :: Groups(db, events)[i].1.Some? ==> db.eventsHasPid
  {
    if events != [] {
      GroupsAreExact(db, events[..|events| - 1]);
      assert events == events[..|events| - 1] + [events[|events| - 1]];
    }
  }

  lemma {:induction false} FilterKeepsDistinctPairs(ps: seq<Pair>, keep: Pair -> bool)
    requires DistinctPairs(ps)
    ensures DistinctPairs(Filter(ps, keep))
  {
    if ps != [] {
      FilterKeepsDistinctPairs(ps[1..], keep);
      FilterMembers(ps[1..], keep, ps[0]);
      assert ps[0] !in ps[1..];
    }
  }

  /** The orphan groups: each event's group once, unless a session claims it. */
  lemma UnclaimedOnce(db: Db, r: EventRow)
    requires r in db.events
    ensures CountIf(Orphans(db), MatchesRow(db, r)) == if Claimed(db, PairOf(db, r)) then 0 else 1
    ensures forall i | 0 <= i < |Orphans(db)| :: Orphans(db)[i].1.Some? ==> db.eventsHasPid
  {
    var groups := Groups(db, db.events);
    var pairs := Filter(groups, Unclaimed(db));
    var p := PairOf(db, r);
    GroupsAreExact(db, db.events);
    FilterKeepsDistinctPairs(groups, Unclaimed(db));
    OrderedPermutes(pairs);
    CountPermuted(Orphans(db), pairs, MatchesRow(db, r));
    FilterMembers(groups, Unclaimed(db), p);
    if Claimed(db, p) {
      CountNone(pairs, MatchesRow(db, r));
    } else {
      var k :| 0 <= k < |pairs| && pairs[k] == p;
      CountUnique(pairs, k, MatchesRow(db, r));
    }
    forall i | 0 <= i < |Orphans(db)|
      ensures Orphans(db)[i].1.Some? ==> db.eventsHasPid
    {
      OrderedMembers(pairs, Orphans(db)[i]);
      FilterMembers(groups, Unclaimed(db), Orphans(db)[i]);
      assert Orphans(db)[i] in groups;
    }
  }

  lemma UnclaimedShow(db: Db, r: EventRow)
    requires r in db.events
    ensures Openings(db, OrphanEntries(db, AllOrphanInfos(db, Orphans(db))), r)
            == if Claimed(db, PairOf(db, r)) then 0 else 1
  {
    UnclaimedOnce(db, r);
    OrphansShow(db, Orphans(db), r);
  }

  // ----- main results

  /** The one way a row is shown twice: its session is registered without a pid, and the row has one. */
  predicate Doubled(db: Db, r: EventRow) {
    db.eventsHasPid && r.pid.Some? && exists i :: 0 <= i < |db.sessions| && db.sessions[i].sessionId == r.sessionId
                                                  && db.sessions[i].pid.None?
  }

  lemma ClaimedOrDoubled(db: Db, r: EventRow)
    requires ValidDb(db) && r in db.events
    ensures ShownByRegistered(db, r) <==> Claimed(db, PairOf(db, r)) || Doubled(db, r)
    ensures !(Claimed(db, PairOf(db, r)) && Doubled(db, r))
  {
    if i :| 0 <= i < |db.sessions| && Registers(db, r)(db.sessions[i]) {
      assert db.sessions[i].sessionId == r.sessionId;
    }
    if i :| 0 <= i < |db.sessions| && db.sessions[i].sessionId == r.sessionId
            && (db.eventsHasPid ==> db.sessions[i].pid == PairOf(db, r).1) {
      assert Registers(db, r)(db.sessions[i]);
    }
    if Doubled(db, r) {
      var i :| 0 <= i < |db.sessions| && db.sessions[i].sessionId == r.sessionId && db.sessions[i].pid.None?;
      assert Registers(db, r)(db.sessions[i]);
    }
  }

  /** There is a list unless the orphan query names a missing column. Then, whatever the schema, every event is shown by
      opening exactly one entry of it, or exactly two when its session is registered without a pid and the event
      carries one. */
  lemma ListPartitionsLog(db: Db, r: EventRow)
    requires ValidDb(db) && r in db.events
    ensures SessionList(db).Err? <==> db.eventsHasPid && db.hasSessionsTable && !db.sessionsHasPid
    ensures SessionList(db).Ok? ==> Openings(db, SessionList(db).value, r) == if Doubled(db, r) then 2 else 1
  {
    UnsortedShows(db, r);
    SortPermutes(Unsorted(db), NewestFirst());
    CountPermuted(Sort(Unsorted(db), NewestFirst()), Unsorted(db), Shows(db, r));
  }

  lemma UnsortedShows(db: Db, r: EventRow)
    requires ValidDb(db) && r in db.events
    ensures Openings(db, Unsorted(db), r) == if Doubled(db, r) then 2 else 1
  {
    RegisteredShow(db, r);
    UnclaimedShow(db, r);
    ClaimedOrDoubled(db, r);
    CountConcat(PidEntries(db, ListSessions(db)), OrphanEntries(db, AllOrphanInfos(db, Orphans(db))), Shows(db, r));
  }

  /** Such an event: its session's row was written before rows had pids. */
  lemma SomeEventIsDoubled(e: EventRow, info: SessionInfo)
    requires info.sessionId == e.sessionId && info.pid.None? && e.pid.Some?
    ensures var db := Db([e], [info], true, true, true, true);
            && ValidDb(db) && Doubled(db, e)
            && SessionList(db).Ok? && Openings(db, SessionList(db).value, e) == 2
  {
    var db := Db([e], [info], true, true, true, true);
    assert db.sessions[0] == info;
    ListPartitionsLog(db, e);
  }

  /** A database without a list: events have a pid column and the sessions table has none. */
  lemma SomeDatabaseHasNoList(events: seq<EventRow>)
    requires forall i, j | 0 <= i < j < |events| :: events[i].id != events[j].id
    ensures var db := Db(events, [], true, true, false, false); ValidDb(db) && SessionList(db).Err?
  {
  }

  lemma {:induction false} PositiveCount(list: seq<SessionListEntry>, p: SessionListEntry -> bool)
    requires CountIf(list, p) > 0
    ensures exists i :: 0 <= i < |list| && p(list[i])
  {
    if !p(list[0]) {
      PositiveCount(list[1..], p);
      var i :| 0 <= i < |list[1..]| && p(list[1..][i]);
      assert p(list[i + 1]);
    }
  }

  /** When every registered session carries a pid, as every current writer records one, the list is a partition. */
  lemma RegisteredPidsPartition(db: Db, r: EventRow)
    requires ValidDb(db) && r in db.events
    requires forall s | s in db.sessions :: s.pid.Some?
    ensures match SessionList(db)
            case Ok(list) => Openings(db, list, r) == 1 && exists i :: 0 <= i < |list| && r in Opened(db, list[i])
            case Err(_) => OrphanQueryFails(db) && db.sessions == []
  {
    ListPartitionsLog(db, r);
    assert db.sessions != [] ==> db.sessions[0] in db.sessions;
    match SessionList(db)
    case Ok(list) => PositiveCount(list, Shows(db, r));
    case Err(_) =>
  }

  /** The list is newest first. */
  lemma ListIsNewestFirst(db: Db, i: nat, j: nat)
    requires SessionList(db).Ok? && i < j < |SessionList(db).value|
    ensures SessionList(db).value[i].info.startedAtMs >= SessionList(db).value[j].info.startedAtMs
  {
    SortOrders(Unsorted(db), NewestFirst());
    var list := Sort(Unsorted(db), NewestFirst());
    assert NewestFirst()(list[i]) <= NewestFirst()(list[j]);
  }

  function StartsAt(t: nat): SessionListEntry -> bool {
    (e: SessionListEntry) => e.info.startedAtMs == t
  }

  /** Entries that start at the same millisecond stand in a fixed order: registered sessions, then orphans group by
      group, the groups by id and pid. */
  lemma TiesStandInOrder(db: Db, t: nat)
    requires SessionList(db).Ok?
    ensures Filter(SessionList(db).value, StartsAt(t))
            == Filter(PidEntries(db, ListSessions(db)), StartsAt(t))
               + Filter(OrphanEntries(db, AllOrphanInfos(db, Orphans(db))), StartsAt(t))
    ensures InOrder(Orphans(db))
  {
    var registered, orphans := PidEntries(db, ListSessions(db)), OrphanEntries(db, AllOrphanInfos(db, Orphans(db)));
    var ties := Filter(Unsorted(db), StartsAt(t));
    OrderedInOrder(Filter(Groups(db, db.events), Unclaimed(db)));
    FilterSort(Unsorted(db), NewestFirst(), StartsAt(t));
    FilterConcat(registered, orphans, StartsAt(t));
    forall i | 0 <= i < |ties|
      ensures NewestFirst()(ties[i]) == -(t as int)
    {
      FilterMembers(Unsorted(db), StartsAt(t), ties[i]);
    }
    SortOfTies(ties, NewestFirst(), -(t as int));
  }

  lemma EntryIsOfItsKind(db: Db, registered: seq<SessionInfo>, orphans: seq<SessionInfo>, e: SessionListEntry)
    requires e in PidEntries(db, registered) + OrphanEntries(db, orphans)
    ensures e == PidEntry(db, e.info) || e == RangeEntry(db, e.info)
  {
    if e in PidEntries(db, registered) {
      var k :| 0 <= k < |registered| && PidEntries(db, registered)[k] == e;
    } else {
      var k :| 0 <= k < |orphans| && OrphanEntries(db, orphans)[k] == e;
      assert e == OrphanEntry(db, orphans[k]);
    }
  }

  /** The number shown beside an entry is the number of events opening it loads, and they come in time order. */
  lemma EntryShowsWhatItCounts(db: Db, e: SessionListEntry)
    requires SessionList(db).Ok? && e in SessionList(db).value
    ensures |Opened(db, e)| == e.eventCount
    ensures SortedBy(Opened(db, e), ByTime())
  {
    SortMembers(Unsorted(db), NewestFirst(), e);
    EntryIsOfItsKind(db, ListSessions(db), AllOrphanInfos(db, Orphans(db)), e);
    if e.loadStrategy == ByPid {
      SortOrders(Filter(db.events, PidFilter(db, e.info.sessionId, e.info.pid)), ByTime());
    } else {
      var p := RangeFilter(db, e.info.sessionId, e.info.startedAtMs, UpperBound(e.info));
      SortOrders(Filter(db.events, p), ByTime());
    }
  }

  /** The log handed to the replay. */
  function ReplayEvents(rows: seq<EventRow>): (r: seq<Replay.LogEvent>)
    ensures |r| == |rows|
  {
    seq(|rows|, i requires 0 <= i < |rows| => Replay.LogEvent(rows[i].timestampMs, rows[i].payload))
  }

  /** Every entry opens as a log in time order, so seeking by time lands where it should. */
  lemma OpenedLogsSeekExactly(db: Db, e: SessionListEntry, v: Replay.View, t: nat)
    requires SessionList(db).Ok? && e in SessionList(db).value && v.index <= |Opened(db, e)|
    ensures var rows, events := Opened(db, e), ReplayEvents(Opened(db, e));
            && (forall i | 0 <= i < |rows| ::
                  events[i].timestampMs == rows[i].timestampMs && events[i].payload == rows[i].payload)
            && Replay.SeekTimestamp(events, v, t).index == Replay.CountUpTo(events, t)
  {
    EntryShowsWhatItCounts(db, e);
    var rows, events := Opened(db, e), ReplayEvents(Opened(db, e));
    forall i, j | 0 <= i < j < |events|
      ensures events[i].timestampMs <= events[j].timestampMs
    {
      assert ByTime()(rows[i]) <= ByTime()(rows[j]);
    }
    Replay.SeekTimestampEndsAtCount(events, v, t);
  }

  // ----- the chunks of one session concatenate

  /** The rows of the chunks' range queries, one chunk after another. */
  function ChunkRows(db: Db, sid: string, ranges: seq<(nat, nat)>): seq<EventRow> {
    if ranges == [] then []
    else QueryEventsInRange(db, sid, ranges[0].0, ranges[0].1) + ChunkRows(db, sid, ranges[1..])
  }

  function Within(range: (nat, nat)): EventRow -> bool {
    (e: EventRow) => InRange(range, e.timestampMs)
  }

  function RowsWithin(rows: seq<EventRow>, ranges: seq<(nat, nat)>): seq<EventRow> {
    if ranges == [] then [] else Filter(rows, Within(ranges[0])) + RowsWithin(rows, ranges[1..])
  }

  lemma RangeQueryIsFilter(db: Db, sid: string, range: (nat, nat))
    ensures QueryEventsInRange(db, sid, range.0, range.1) == Filter(NullPidRows(db, sid), Within(range))
  {
    var nulls := Filter(db.events, NullPidFilter(db, sid));
    FilterSort(nulls, ByTime(), Within(range));
    FilterTwice(db.events, NullPidFilter(db, sid), Within(range), RangeFilter(db, sid, range.0, range.1));
  }

  lemma {:induction false} ChunkRowsAreFilters(db: Db, sid: string, ranges: seq<(nat, nat)>)
    ensures ChunkRows(db, sid, ranges) == RowsWithin(NullPidRows(db, sid), ranges)
  {
    if ranges != [] {
      RangeQueryIsFilter(db, sid, ranges[0]);
      ChunkRowsAreFilters(db, sid, ranges[1..]);
    }
  }

  predicate Apart(ranges: seq<(nat, nat)>) {
    forall i, j | 0 <= i < j < |ranges| :: ranges[i].1 < ranges[j].0
  }

  lemma ApartTail(ranges: seq<(nat, nat)>)
    requires Apart(ranges) && ranges != []
    ensures Apart(ranges[1..])
  {
    forall i, j | 0 <= i < j < |ranges[1..]|
      ensures ranges[1..][i].1 < ranges[1..][j].0
    {
      assert ranges[i + 1].1 < ranges[j + 1].0;
    }
  }

  /** Ranges in order, apart from each other, and every row in one of them. */
  ghost predicate Covers(ranges: seq<(nat, nat)>, rows: seq<EventRow>) {
    && Apart(ranges)
    && (forall k | 0 <= k < |rows| :: exists i :: 0 <= i < |ranges| && InRange(ranges[i], rows[k].timestampMs))
  }

  /** How many leading rows are no later than `end`. */
  function Head(rows: seq<EventRow>, end: nat): (n: nat)
    ensures n <= |rows|
    ensures forall i | 0 <= i < n :: rows[i].timestampMs <= end
    ensures n < |rows| ==> rows[n].timestampMs > end
  {
    if rows != [] && rows[0].timestampMs <= end then
      var n := 1 + Head(rows[1..], end);
      assert forall i | 0 < i < n :: rows[i] == rows[1..][i - 1];
      assert n < |rows| ==> rows[n] == rows[1..][n - 1];
      n
    else 0
  }

  lemma FilterSkips(a: seq<EventRow>, rows: seq<EventRow>, range: (nat, nat))
    requires forall k | 0 <= k < |a| :: !InRange(range, a[k].timestampMs)
    ensures Filter(a + rows, Within(range)) == Filter(rows, Within(range))
  {
    FilterConcat(a, rows, Within(range));
    FilterNone(a, Within(range));
    assert [] + Filter(rows, Within(range)) == Filter(rows, Within(range));
  }

  lemma FilterTakes(a: seq<EventRow>, b: seq<EventRow>, range: (nat, nat))
    requires forall k | 0 <= k < |a| :: InRange(range, a[k].timestampMs)
    requires forall k | 0 <= k < |b| :: !InRange(range, b[k].timestampMs)
    ensures Filter(a + b, Within(range)) == a
  {
    FilterConcat(a, b, Within(range));
    FilterAll(a, Within(range));
    FilterNone(b, Within(range));
    assert a + [] == a;
  }

  lemma {:induction false} WithinSkips(a: seq<EventRow>, rows: seq<EventRow>, ranges: seq<(nat, nat)>)
    requires forall i, k | 0 <= i < |ranges| && 0 <= k < |a| :: a[k].timestampMs < ranges[i].0
    ensures RowsWithin(a + rows, ranges) == RowsWithin(rows, ranges)
  {
    if ranges != [] {
      FilterSkips(a, rows, ranges[0]);
      forall i, k | 0 <= i < |ranges[1..]| && 0 <= k < |a|
        ensures a[k].timestampMs < ranges[1..][i].0
      {
        assert ranges[1..][i] == ranges[i + 1];
      }
      WithinSkips(a, rows, ranges[1..]);
    }
  }

  /** The first range holds exactly the leading rows. */
  lemma HeadIsFirstRange(rows: seq<EventRow>, ranges: seq<(nat, nat)>, k: nat)
    requires SortedBy(rows, ByTime()) && Covers(ranges, rows) && ranges != [] && k < |rows|
    ensures InRange(ranges[0], rows[k].timestampMs) <==> k < Head(rows, ranges[0].1)
  {
    var i :| 0 <= i < |ranges| && InRange(ranges[i], rows[k].timestampMs);
    assert i > 0 ==> ranges[0].1 < ranges[i].0;
    HeadIsRange(rows, ranges[0], ranges[i], k);
  }

  lemma HeadIsRange(rows: seq<EventRow>, first: (nat, nat), covering: (nat, nat), k: nat)
    requires SortedBy(rows, ByTime()) && k < |rows| && InRange(covering, rows[k].timestampMs)
    requires covering == first || first.1 < covering.0
    ensures InRange(first, rows[k].timestampMs) <==> k < Head(rows, first.1)
  {
    var n := Head(rows, first.1);
    if k > n {
      assert ByTime()(rows[n]) <= ByTime()(rows[k]);
    }
  }

  lemma NothingIsCovered(ranges: seq<(nat, nat)>, rows: seq<EventRow>)
    requires Covers(ranges, rows) && rows != []
    ensures ranges != []
  {
    var first := rows[0];
    assert exists i :: 0 <= i < |ranges| && InRange(ranges[i], first.timestampMs);
  }

  lemma {:induction false} CoveringRangesConcatenate(rows: seq<EventRow>, ranges: seq<(nat, nat)>)
    requires SortedBy(rows, ByTime()) && Covers(ranges, rows)
    ensures RowsWithin(rows, ranges) == rows
  {
    if ranges == [] {
      if rows != [] {
        NothingIsCovered(ranges, rows);
      }
    } else {
      var n := Head(rows, ranges[0].1);
      FirstRangeTakesHead(rows, ranges);
      CoveringRangesConcatenate(rows[n..], ranges[1..]);
    }
  }

  lemma FirstRangeTakesHead(rows: seq<EventRow>, ranges: seq<(nat, nat)>)
    requires SortedBy(rows, ByTime()) && Covers(ranges, rows) && ranges != []
    ensures var n := Head(rows, ranges[0].1);
            && RowsWithin(rows, ranges) == rows[..n] + RowsWithin(rows[n..], ranges[1..])
            && rows[..n] + rows[n..] == rows
            && SortedBy(rows[n..], ByTime()) && Covers(ranges[1..], rows[n..])
  {
    var n := Head(rows, ranges[0].1);
    assert rows == rows[..n] + rows[n..];
    forall k | 0 <= k < |rows|
      ensures InRange(ranges[0], rows[k].timestampMs) <==> k < n
    {
      HeadIsFirstRange(rows, ranges, k);
    }
    FilterTakes(rows[..n], rows[n..], ranges[0]);
    LaterRangesStartLater(rows[..n], ranges);
    WithinSkips(rows[..n], rows[n..], ranges[1..]);
    LaterRowsAreSorted(rows, n);
    RestIsCovered(rows, ranges, n);
  }

  lemma LaterRangesStartLater(a: seq<EventRow>, ranges: seq<(nat, nat)>)
    requires ranges != [] && Apart(ranges)
    requires forall k | 0 <= k < |a| :: InRange(ranges[0], a[k].timestampMs)
    ensures forall i, k | 0 <= i < |ranges[1..]| && 0 <= k < |a| :: a[k].timestampMs < ranges[1..][i].0
  {
    forall i, k | 0 <= i < |ranges[1..]| && 0 <= k < |a|
      ensures a[k].timestampMs < ranges[1..][i].0
    {
      assert ranges[0].1 < ranges[i + 1].0;
    }
  }

  lemma LaterRowsAreSorted(rows: seq<EventRow>, n: nat)
    requires SortedBy(rows, ByTime()) && n <= |rows|
    ensures SortedBy(rows[n..], ByTime())
  {
    forall i, j | 0 <= i < j < |rows[n..]|
      ensures ByTime()(rows[n..][i]) <= ByTime()(rows[n..][j])
    {
      assert rows[n..][i] == rows[n + i] && rows[n..][j] == rows[n + j];
    }
  }

  lemma RestIsCovered(rows: seq<EventRow>, ranges: seq<(nat, nat)>, n: nat)
    requires Covers(ranges, rows) && ranges != [] && n <= |rows|
    requires forall k | 0 <= k < |rows| :: InRange(ranges[0], rows[k].timestampMs) <==> k < n
    ensures Covers(ranges[1..], rows[n..])
  {
    var ranges', rows' := ranges[1..], rows[n..];
    forall k | 0 <= k < |rows'|
      ensures exists i :: 0 <= i < |ranges'| && InRange(ranges'[i], rows'[k].timestampMs)
    {
      var i :| 0 <= i < |ranges| && InRange(ranges[i], rows[n + k].timestampMs);
      assert rows'[k] == rows[n + k] && i > 0;
      assert ranges'[i - 1] == ranges[i];
    }
    ApartTail(ranges);
  }

  /** Opening the chunks of a session one after another replays its rows without pid, in order, nothing missing. */
  lemma ChunksConcatenateToLog(db: Db, sid: string)
    ensures ChunkRows(db, sid, Ranges(Blocks(Times(NullPidRows(db, sid))))) == NullPidRows(db, sid)
  {
    var rows := NullPidRows(db, sid);
    var ts := Times(rows);
    var ranges := Ranges(Blocks(ts));
    SortOrders(Filter(db.events, NullPidFilter(db, sid)), ByTime());
    assert GapSplit.Sorted(ts) by {
      forall i, j | 0 <= i < j < |ts|
        ensures ts[i] <= ts[j]
      {
        assert ByTime()(rows[i]) <= ByTime()(rows[j]);
      }
    }
    forall i, j | 0 <= i < j < |ranges|
      ensures ranges[i].1 < ranges[j].0
    {
      RangesAreSeparated(ts, i, j);
    }
    forall k | 0 <= k < |rows|
      ensures exists i :: 0 <= i < |ranges| && InRange(ranges[i], rows[k].timestampMs)
    {
      assert ts[k] == rows[k].timestampMs;
      var i := ExactlyOneRange(ts, ts[k]);
      assert InRange(ranges[i], rows[k].timestampMs);
    }
    ChunkRowsAreFilters(db, sid, ranges);
    CoveringRangesConcatenate(rows, ranges);
  }
}
