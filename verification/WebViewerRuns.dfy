/** The web viewers as a distributed cache: refcounts and client mirrors over every interleaving. */
module WebViewerRuns {
  import opened Wrappers
  import opened Utf8
  import opened WebViewer

  // ----- the client

  /** What a browser shows: the fold of every message it has received. */
  datatype Mirror = Mirror(
    list: seq<SessionInfo>,
    activeId: Option<string>,
    dims: (nat, nat),
    cursor: (nat, nat),
    content: seq<Byte>)

  const EMPTY_MIRROR: Mirror := Mirror([], None, (0, 0), (0, 0), [])

  function Shown(m: Mirror, msg: OutMsg): Mirror {
    match msg
    case SessionList(sessions, activeId) => m.(list := sessions, activeId := activeId)
    case WindowSize(cols, rows) => m.(dims := (cols, rows))
    case Screen(cursor, content) => m.(cursor := cursor, content := content)
  }

  function Folded(m: Mirror, msgs: seq<OutMsg>): Mirror
    decreases msgs
  {
    if msgs == [] then m else Folded(Shown(m, msgs[0]), msgs[1..])
  }

  lemma {:induction false} FoldedConcat(m: Mirror, a: seq<OutMsg>, b: seq<OutMsg>)
    ensures Folded(m, a + b) == Folded(Folded(m, a), b)
    decreases a
  {
    if a == [] {
      assert a + b == b;
    } else {
      assert (a + b)[1..] == a[1..] + b;
      FoldedConcat(Shown(m, a[0]), a[1..], b);
    }
  }

  /** What the viewer's cache fields claim about the client is true of the mirror. */
  predicate Tracks(v: Viewer, m: Mirror) {
    && (v.lastListHash == Zero || v.lastListHash == Of(m.list))
    && (v.lastWindowSize == (0, 0) || v.lastWindowSize == m.dims)
    && (v.lastContentHash == Zero || (v.lastContentHash == Of(m.content) && v.lastCursor == m.cursor))
  }

  /** The mirror shows the session as the snapshot has it. */
  predicate Agrees(m: Mirror, s: SessionSnapshot) {
    m.dims == s.dims && m.cursor == s.cursor && m.content == s.content
  }

  lemma FoldedOne(m: Mirror, msg: OutMsg)
    ensures Folded(m, [msg]) == Shown(m, msg)
  {
    assert [msg][1..] == [];
  }

  lemma PartsSync(s: SessionSnapshot, v: Viewer, m: Mirror)
    requires Tracks(v, m) && s.contentHash == Of(s.content) && s.dims != (0, 0)
    ensures var (windows, v1) := WindowPart(s, v);
            var (screens, v2) := ScreenPart(s, v1);
            var m' := Folded(Folded(m, windows), screens);
            Tracks(v2, m') && Agrees(m', s) && m'.list == m.list && m'.activeId == m.activeId
  {
    FoldedOne(m, WindowSize(s.dims.0, s.dims.1));
    var (windows, v1) := WindowPart(s, v);
    FoldedOne(Folded(m, windows), Screen(s.cursor, s.content));
  }

  /** Processing a published snapshot brings the client level with it: the list, and the active session if rendered. */
  lemma UpdatesSyncMirror(snap: Snapshot, v: Viewer, m: Mirror)
    requires Tracks(v, m) && ValidSnapshot(snap)
    ensures var (msgs, v') := Updates(snap, v);
            var m' := Folded(m, msgs);
            && Tracks(v', m')
            && (snap != DEFAULT ==> m'.list == snap.list)
            && (v'.active.Some? && v'.active.value in snap.sessions ==> Agrees(m', snap.sessions[v'.active.value]))
            && (snap != DEFAULT && v'.active != v.active ==> m'.activeId == v'.active)
  {
    var v0 := Repicked(snap, v);
    var (lists, v1) := ListPart(snap, v0);
    FoldedOne(m, SessionList(snap.list, v0.active));
    var m1 := Folded(m, lists);
    if v1.active.Some? && v1.active.value in snap.sessions {
      var s := snap.sessions[v1.active.value];
      PartsSync(s, v1, m1);
      var (windows, v2) := WindowPart(s, v1);
      var (screens, _) := ScreenPart(s, v2);
      FoldedConcat(m, lists, windows);
      FoldedConcat(m, lists + windows, screens);
    }
  }

  /** The snapshot of the unpublished channel is the exception: a viewer that repicks on it forgets the list it had
      sent without replacing it. */
  lemma DefaultSnapshotListExact(v: Viewer, m: Mirror)
    requires Tracks(v, m)
    ensures Folded(m, Updates(DEFAULT, v).0).list == DEFAULT.list
            <==> m.list == [] || (v.active.None? && v.lastListHash != Zero)
  {
    FoldedOne(m, SessionList([], v.active));
  }

  /** The failing side: a viewer on a session that has sent a list flushes a default snapshot borrowed before the first
      publication. It forgets the list and sends none. */
  lemma DefaultSnapshotCanLeaveList(info: SessionInfo)
    ensures var v := NEW_VIEWER.(active := Some(info.id), lastListHash := Of([info]));
            var m := EMPTY_MIRROR.(list := [info]);
            && Tracks(v, m) && Updates(DEFAULT, v).0 == [] && Folded(m, Updates(DEFAULT, v).0).list != DEFAULT.list
            && Updates(DEFAULT, v).1.lastListHash == Zero
  {
  }

  /** A second call on the same snapshot sends nothing and changes nothing. */
  lemma UpdatesAreIdempotent(snap: Snapshot, v: Viewer)
    ensures Updates(snap, Updates(snap, v).1) == ([], Updates(snap, v).1)
  {
    var v' := Updates(snap, v).1;
    assert v'.active == Repicked(snap, v).active;
    var nothing: seq<OutMsg> := [];
    assert nothing + nothing + nothing == nothing;
  }

  // ----- the system

  /** The push task waits for a newer snapshot, or has borrowed number `k` and waits for the viewer's lock. */
  datatype Task = Waiting | Holding(k: nat)

  /** The read loop waits for a message, or is flushing after a switch: about to borrow, or with number `k` borrowed. */
  datatype Reader = Ready | MustFlush | Flushing(k: nat)

  /** `seen` counts the snapshots up to the last one the push task has borrowed; a new task has seen none. */
  datatype Conn = Conn(viewer: Viewer, mirror: Mirror, seen: nat, task: Task, reader: Reader)

  datatype System = System(manager: Manager, watched: Watched, conns: map<nat, Conn>, published: seq<Snapshot>)

  const START: System := System(Manager([], map[], map[]), map[], map[], [DEFAULT])

  datatype Op =
    | ManagerMoves(m: Manager)            // sessions start, exit, are killed, renamed, or paint
    | Publish
    | Connect(c: nat)
    | Borrow(c: nat)                      // the push task, once `changed` reports a newer snapshot
    | Push(c: nat)
    | Switch(c: nat, sid: string)
    | FlushBorrow(c: nat)
    | Flush(c: nat)
    | Created(c: nat, sid: string)
    | KillHandled(c: nat, sid: string)    // whether or not the kill was allowed
    | Disconnect(c: nat)

  /** Move the viewer's watch to `active` and forget what was sent. */
  function Refocused(s: System, c: nat, active: Option<string>, reader: Reader): System
    requires c in s.conns
  {
    var v := s.conns[c].viewer;
    s.(watched := Retargeted(s.watched, v.active, active),
       conns := s.conns[c := s.conns[c].(viewer := Invalidated(v.(active := active)), reader := reader)])
  }

  /** `viewer_updates` under the viewer's lock, and the messages on their way to the client. */
  function Processed(s: System, c: nat, k: nat): System
    requires c in s.conns && k < |s.published|
  {
    var snap, conn := s.published[k], s.conns[c];
    var (msgs, v) := Updates(snap, conn.viewer);
    s.(watched := WatchAfter(snap, conn.viewer, s.watched),
       conns := s.conns[c := conn.(viewer := v, mirror := Folded(conn.mirror, msgs))])
  }

  function FirstOther(list: seq<Meta>, sid: string): Option<string> {
    if list == [] then None else if list[0].id != sid then Some(list[0].id) else FirstOther(list[1..], sid)
  }

  function Latest(s: System): Snapshot {
    if s.published == [] then DEFAULT else s.published[|s.published| - 1]
  }

  function WithTask(s: System, c: nat, task: Task, seen: nat): System
    requires c in s.conns
  {
    s.(conns := s.conns[c := s.conns[c].(task := task, seen := seen)])
  }

  function WithReader(s: System, c: nat, reader: Reader): System
    requires c in s.conns
  {
    s.(conns := s.conns[c := s.conns[c].(reader := reader)])
  }

  function Step(s: System, op: Op): System {
    match op
    case ManagerMoves(m) => if GoodManager(m) then s.(manager := m) else s
    case Publish =>
      var snap := Built(s.manager, s.watched.Keys);
      if SnapshotChanged(Latest(s), snap) then s.(published := s.published + [snap]) else s
    case Connect(c) =>
      if c in s.conns then s
      else
        var active := PickDefault(s.manager.list);
        s.(watched := Retargeted(s.watched, None, active),
           conns := s.conns[c := Conn(NEW_VIEWER.(active := active), EMPTY_MIRROR, 0, Waiting, Ready)])
    case Borrow(c) =>
      if c in s.conns && s.conns[c].task.Waiting? && s.conns[c].seen < |s.published| then
        WithTask(s, c, Holding(|s.published| - 1), |s.published|)
      else s
    case Push(c) =>
      if c in s.conns && s.conns[c].task.Holding? && s.conns[c].task.k < |s.published| then
        WithTask(Processed(s, c, s.conns[c].task.k), c, Waiting, s.conns[c].seen)
      else s
    case Switch(c, sid) =>
      if c in s.conns && s.conns[c].reader.Ready? && Exists(s.manager, sid) then Refocused(s, c, Some(sid), MustFlush)
      else s
    case FlushBorrow(c) =>
      if c in s.conns && s.conns[c].reader.MustFlush? && s.published != [] then
        WithReader(s, c, Flushing(|s.published| - 1))
      else s
    case Flush(c) =>
      if c in s.conns && s.conns[c].reader.Flushing? && s.conns[c].reader.k < |s.published| then
        WithReader(Processed(s, c, s.conns[c].reader.k), c, Ready)
      else s
    case Created(c, sid) =>
      if c in s.conns && s.conns[c].reader.Ready? then Refocused(s, c, Some(sid), Ready) else s
    case KillHandled(c, sid) =>
      if c in s.conns && s.conns[c].reader.Ready? && s.conns[c].viewer.active == Some(sid) then
        Refocused(s, c, FirstOther(s.manager.list, sid), Ready)
      else s
    case Disconnect(c) =>
      if c !in s.conns then s
      else s.(watched := Retargeted(s.watched, s.conns[c].viewer.active, None), conns := s.conns - {c})
  }

  function Run(s: System, ops: seq<Op>): System
    decreases ops
  {
    if ops == [] then s else Run(Step(s, ops[0]), ops[1..])
  }

  /** The connected viewers whose active session is `sid`. */
  function Watchers(conns: map<nat, Conn>, sid: string): set<nat> {
    set c | c in conns && conns[c].viewer.active == Some(sid)
  }

  function CountOf(w: Watched, sid: string): nat {
    if sid in w then w[sid] else 0
  }

  predicate NoZeros(w: Watched) {
    forall sid | sid in w :: w[sid] > 0
  }

  /** The watch map counts the connected viewers of each session, and holds no entry for the others. */
  ghost predicate WatchExact(s: System) {
    NoZeros(s.watched) && forall sid: string :: CountOf(s.watched, sid) == |Watchers(s.conns, sid)|
  }

  /** The snapshots a connection refers to have been published, and the push task holds the last one it has seen. */
  predicate ConnOk(conn: Conn, published: nat) {
    && Tracks(conn.viewer, conn.mirror)
    && conn.seen <= published
    && (conn.task.Holding? ==> conn.task.k + 1 == conn.seen)
    && (conn.reader.Flushing? ==> conn.reader.k < published)
  }

  ghost predicate CachesOk(s: System) {
    && GoodManager(s.manager)
    && s.published != []
    && (forall k | 0 <= k < |s.published| :: ValidSnapshot(s.published[k]))
    && (forall c | c in s.conns :: ConnOk(s.conns[c], |s.published|))
  }

  ghost predicate Inv(s: System) {
    WatchExact(s) && CachesOk(s)
  }

  lemma RetargetCounts(w: Watched, from: Option<string>, to: Option<string>, sid: string)
    requires NoZeros(w) && (from.Some? ==> from.value in w)
    ensures NoZeros(Retargeted(w, from, to))
    ensures CountOf(Retargeted(w, from, to), sid) + (if from == Some(sid) then 1 else 0)
            == CountOf(w, sid) + if to == Some(sid) then 1 else 0
  {
    var w1 := Released(w, from);
    assert NoZeros(w1);
  }

  lemma WatchersMove(conns: map<nat, Conn>, conns': map<nat, Conn>, c: nat, sid: string)
    requires forall x | x != c :: (x in conns' <==> x in conns) && (x in conns ==> conns'[x] == conns[x])
    ensures |Watchers(conns', sid)| + (if c in conns && conns[c].viewer.active == Some(sid) then 1 else 0)
            == |Watchers(conns, sid)| + if c in conns' && conns'[c].viewer.active == Some(sid) then 1 else 0
  {
    var before, after := Watchers(conns, sid), Watchers(conns', sid);
    forall x | x != c
      ensures x in before <==> x in after
    {
    }
    assert before - {c} == after - {c};
    Without(before, c);
    Without(after, c);
  }

  lemma Without(a: set<nat>, c: nat)
    ensures |a| == |a - {c}| + if c in a then 1 else 0
  {
    if c !in a {
      assert a - {c} == a;
    }
  }

  function ActiveOf(conns: map<nat, Conn>, c: nat): Option<string> {
    if c in conns then conns[c].viewer.active else None
  }

  lemma WatchedWhileActive(s: System, c: nat)
    requires WatchExact(s) && c in s.conns && s.conns[c].viewer.active.Some?
    ensures s.conns[c].viewer.active.value in s.watched
  {
    var sid := s.conns[c].viewer.active.value;
    assert c in Watchers(s.conns, sid);
    assert CountOf(s.watched, sid) > 0;
  }

  /** Moving one viewer from one session to another moves one count along with it. */
  lemma MoveKeepsExact(s: System, c: nat, conns': map<nat, Conn>)
    requires WatchExact(s)
    requires forall x | x != c :: (x in conns' <==> x in s.conns) && (x in s.conns ==> conns'[x] == s.conns[x])
    ensures WatchExact(s.(watched := Retargeted(s.watched, ActiveOf(s.conns, c), ActiveOf(conns', c)), conns := conns'))
  {
    var from, to := ActiveOf(s.conns, c), ActiveOf(conns', c);
    if from.Some? {
      WatchedWhileActive(s, c);
    }
    RetargetCounts(s.watched, from, to, "");
    forall sid: string
      ensures CountOf(Retargeted(s.watched, from, to), sid) == |Watchers(conns', sid)|
    {
      RetargetCounts(s.watched, from, to, sid);
      WatchersMove(s.conns, conns', c, sid);
    }
  }

  lemma StepKeepsExact(s: System, op: Op)
    requires WatchExact(s)
    ensures WatchExact(Step(s, op))
  {
    if op.ManagerMoves? || op.Publish? {
      assert Step(s, op).conns == s.conns && Step(s, op).watched == s.watched;
    } else if op.c in s.conns && Step(s, op) != s {
      MovesOneViewer(s, op);
      MoveKeepsExact(s, op.c, Step(s, op).conns);
    } else if op.Connect? {
      MoveKeepsExact(s, op.c, Step(s, op).conns);
    }
  }

  /** The one connection moves, and its count along with it. */
  ghost predicate OneMoves(s: System, s': System, c: nat) {
    && (forall x | x != c :: (x in s'.conns <==> x in s.conns) && (x in s.conns ==> s'.conns[x] == s.conns[x]))
    && s' == s.(watched := Retargeted(s.watched, ActiveOf(s.conns, c), ActiveOf(s'.conns, c)), conns := s'.conns)
  }

  lemma ProcessedMovesOne(s: System, c: nat, k: nat)
    requires c in s.conns && k < |s.published|
    ensures OneMoves(s, Processed(s, c, k), c) && c in Processed(s, c, k).conns
  {
  }

  /** A viewer's step touches its own connection and takes its count along. */
  lemma MovesOneViewer(s: System, op: Op)
    requires !op.ManagerMoves? && !op.Publish? && op.c in s.conns
    ensures OneMoves(s, Step(s, op), op.c)
  {
    if op.Push? && s.conns[op.c].task.Holding? && s.conns[op.c].task.k < |s.published| {
      ProcessedMovesOne(s, op.c, s.conns[op.c].task.k);
    } else if op.Flush? && s.conns[op.c].reader.Flushing? && s.conns[op.c].reader.k < |s.published| {
      ProcessedMovesOne(s, op.c, s.conns[op.c].reader.k);
    }
  }

  lemma ProcessedIsOk(s: System, c: nat, k: nat)
    requires CachesOk(s) && c in s.conns && k < |s.published|
    ensures CachesOk(Processed(s, c, k))
  {
    UpdatesSyncMirror(s.published[k], s.conns[c].viewer, s.conns[c].mirror);
  }

  lemma PublishKeepsCaches(s: System)
    requires CachesOk(s)
    ensures CachesOk(Step(s, Publish))
  {
    BuiltIsValid(s.manager, s.watched.Keys);
  }

  lemma StepKeepsCaches(s: System, op: Op)
    requires CachesOk(s)
    ensures CachesOk(Step(s, op))
  {
    match op
    case Publish => PublishKeepsCaches(s);
    case Push(c) =>
      if c in s.conns && s.conns[c].task.Holding? {
        ProcessedIsOk(s, c, s.conns[c].task.k);
      }
    case Flush(c) =>
      if c in s.conns && s.conns[c].reader.Flushing? {
        ProcessedIsOk(s, c, s.conns[c].reader.k);
      }
    case _ => QuietStepKeepsCaches(s, op);
  }

  lemma QuietStepKeepsCaches(s: System, op: Op)
    requires CachesOk(s) && !op.Publish? && !op.Push? && !op.Flush?
    ensures CachesOk(Step(s, op))
  {
  }

  lemma StepKeepsInv(s: System, op: Op)
    requires Inv(s)
    ensures Inv(Step(s, op))
  {
    StepKeepsExact(s, op);
    StepKeepsCaches(s, op);
  }

  lemma {:induction false} RunKeepsInv(s: System, ops: seq<Op>)
    requires Inv(s)
    ensures Inv(Run(s, ops))
    decreases ops
  {
    if ops != [] {
      StepKeepsInv(s, ops[0]);
      RunKeepsInv(Step(s, ops[0]), ops[1..]);
    }
  }

  lemma StartIsGood()
    ensures Inv(START)
  {
    forall sid: string
      ensures Watchers(START.conns, sid) == {}
    {
    }
  }

  // ----- main results

  /** Over every interleaving the watch map is the count of connected viewers per active session. */
  lemma RefcountsAreExact(ops: seq<Op>)
    ensures WatchExact(Run(START, ops))
  {
    StartIsGood();
    RunKeepsInv(START, ops);
  }

  /** Over every interleaving, whatever snapshots a viewer has or has not seen, processing a published one, by the push
      task or by a flush, makes the client agree with it. */
  lemma PushSyncsClient(ops: seq<Op>, c: nat, k: nat)
    ensures var s := Run(START, ops);
            c in s.conns && k < |s.published| && s.published[k] != DEFAULT ==>
              var snap, conn := s.published[k], Processed(s, c, k).conns[c];
              && conn.mirror.list == snap.list
              && (conn.viewer.active.Some? && conn.viewer.active.value in snap.sessions ==>
                    Agrees(conn.mirror, snap.sessions[conn.viewer.active.value]))
  {
    StartIsGood();
    RunKeepsInv(START, ops);
    var s := Run(START, ops);
    if c in s.conns && k < |s.published| {
      UpdatesSyncMirror(s.published[k], s.conns[c].viewer, s.conns[c].mirror);
    }
  }

  /** Publication loses nothing: after a tick the newest published snapshot is the one just built. */
  lemma PublishIsCurrent(s: System)
    requires Inv(s)
    ensures Latest(Step(s, Publish)) == Built(s.manager, s.watched.Keys)
  {
    BuiltIsValid(s.manager, s.watched.Keys);
    ChangedIffDifferent(Latest(s), Built(s.manager, s.watched.Keys));
  }

  // ----- convergence

  /** The client's list is that of the sessions there are, field by field. */
  predicate ShowsList(mirror: Mirror, m: Manager) {
    && |mirror.list| == |m.list|
    && forall i | 0 <= i < |m.list| ::
         && mirror.list[i].id == m.list[i].id && mirror.list[i].command == m.list[i].command
         && mirror.list[i].status == m.list[i].status
  }

  predicate ShowsScreen(mirror: Mirror, t: Terminal) {
    mirror.dims == t.dims && mirror.cursor == t.cursor && mirror.content == t.content
  }

  /** The client shows the session list and the screen of a session that exists. */
  predicate Live(s: System, c: nat)
    requires c in s.conns
  {
    var conn := s.conns[c];
    && ShowsList(conn.mirror, s.manager)
    && conn.viewer.active.Some? && conn.viewer.active.value in s.manager.screens
    && ShowsScreen(conn.mirror, s.manager.screens[conn.viewer.active.value])
  }

  /** The push task runs until it waits for a newer snapshot again. */
  function Woken(s: System, c: nat): System {
    Step(Step(Step(s, Push(c)), Borrow(c)), Push(c))
  }

  /** A tick of the publisher, and what the push task makes of it. */
  function Round(s: System, c: nat): System {
    Woken(Step(s, Publish), c)
  }

  /** Something is left for the push task, or a tick would publish something. */
  predicate Unseen(s: System, c: nat)
    requires c in s.conns
  {
    s.conns[c].task.Holding? || s.conns[c].seen < |s.published|
  }

  predicate Wakes(s: System, c: nat)
    requires c in s.conns
  {
    Unseen(s, c) || SnapshotChanged(Latest(s), Built(s.manager, s.watched.Keys))
  }

  /** The connection has just processed the snapshot, from some earlier state of its own. */
  ghost predicate UpTo(conn: Conn, snap: Snapshot) {
    exists v: Viewer, m: Mirror ::
      Tracks(v, m) && conn.viewer == Updates(snap, v).1 && conn.mirror == Folded(m, Updates(snap, v).0)
  }

  lemma ProcessedIsUpTo(s: System, c: nat, k: nat)
    requires CachesOk(s) && c in s.conns && k < |s.published|
    ensures var s' := Processed(s, c, k);
            && s'.manager == s.manager && s'.published == s.published && c in s'.conns
            && UpTo(s'.conns[c], s.published[k])
            && s'.conns[c].seen == s.conns[c].seen
  {
    assert Tracks(s.conns[c].viewer, s.conns[c].mirror);
  }

  lemma PushesTo(s: System, c: nat)
    requires CachesOk(s) && c in s.conns && s.conns[c].task.Holding?
    ensures var s' := Step(s, Push(c));
            && s'.manager == s.manager && s'.published == s.published && c in s'.conns
            && UpTo(s'.conns[c], s.published[s.conns[c].task.k])
            && s'.conns[c].seen == s.conns[c].seen && s'.conns[c].task == Waiting
  {
    ProcessedIsUpTo(s, c, s.conns[c].task.k);
  }

  lemma WaitingPush(s: System, c: nat)
    requires c in s.conns && s.conns[c].task.Waiting?
    ensures Step(s, Push(c)) == s
  {
  }

  lemma BorrowTakesLatest(s: System, c: nat)
    requires c in s.conns && s.conns[c].task.Waiting? && s.conns[c].seen < |s.published|
    ensures Step(s, Borrow(c)) == WithTask(s, c, Holding(|s.published| - 1), |s.published|)
  {
  }

  lemma WaitingIsUpToLatest(s: System, c: nat)
    requires Inv(s) && c in s.conns && s.conns[c].task.Waiting? && s.conns[c].seen < |s.published|
    ensures var s' := Woken(s, c);
            && Inv(s') && s'.manager == s.manager && s'.published == s.published && c in s'.conns
            && UpTo(s'.conns[c], Latest(s)) && !Unseen(s', c)
  {
    WaitingPush(s, c);
    var s1 := Step(s, Borrow(c));
    BorrowTakesLatest(s, c);
    StepKeepsInv(s, Borrow(c));
    StepKeepsInv(s1, Push(c));
    PushesTo(s1, c);
  }

  /** Once nothing newer is there the push task goes back to waiting. */
  lemma LastPushIsAll(s: System, c: nat)
    requires CachesOk(s) && c in s.conns && s.conns[c].task.Holding? && s.conns[c].seen == |s.published|
    ensures Woken(s, c) == Step(s, Push(c))
  {
    var s1 := Step(s, Push(c));
    PushesTo(s, c);
    assert Step(s1, Borrow(c)) == s1;
    WaitingPush(s1, c);
  }

  lemma OlderPushGoesOn(s: System, c: nat)
    requires CachesOk(s) && c in s.conns && s.conns[c].task.Holding?
    ensures Woken(s, c) == Woken(Step(s, Push(c)), c)
  {
    PushesTo(s, c);
    WaitingPush(Step(s, Push(c)), c);
  }

  lemma HeldLatestIsUpToLatest(s: System, c: nat)
    requires Inv(s) && c in s.conns && s.conns[c].task.Holding? && s.conns[c].seen == |s.published|
    ensures var s' := Woken(s, c);
            && Inv(s') && s'.manager == s.manager && s'.published == s.published && c in s'.conns
            && UpTo(s'.conns[c], Latest(s)) && !Unseen(s', c)
  {
    StepKeepsInv(s, Push(c));
    PushesTo(s, c);
    LastPushIsAll(s, c);
  }

  lemma HeldOlderIsUpToLatest(s: System, c: nat)
    requires Inv(s) && c in s.conns && s.conns[c].task.Holding? && s.conns[c].seen < |s.published|
    ensures var s' := Woken(s, c);
            && Inv(s') && s'.manager == s.manager && s'.published == s.published && c in s'.conns
            && UpTo(s'.conns[c], Latest(s)) && !Unseen(s', c)
  {
    StepKeepsInv(s, Push(c));
    PushesTo(s, c);
    OlderPushGoesOn(s, c);
    WaitingIsUpToLatest(Step(s, Push(c)), c);
    SameLatest(s, Step(s, Push(c)));
  }

  /** A push task with anything left to do ends up with the newest snapshot. */
  lemma WokenIsUpToLatest(s: System, c: nat)
    requires Inv(s) && c in s.conns && Unseen(s, c)
    ensures var s' := Woken(s, c);
            && Inv(s') && s'.manager == s.manager && s'.published == s.published && c in s'.conns
            && UpTo(s'.conns[c], Latest(s)) && !Unseen(s', c)
  {
    if s.conns[c].task.Waiting? {
      WaitingIsUpToLatest(s, c);
    } else if s.conns[c].seen == |s.published| {
      HeldLatestIsUpToLatest(s, c);
    } else {
      HeldOlderIsUpToLatest(s, c);
    }
  }

  /** What being level with a built snapshot of a non-empty manager means to the client. */
  lemma UpToBuilt(conn: Conn, m: Manager, keys: set<string>)
    requires GoodManager(m) && m.list != [] && UpTo(conn, Built(m, keys))
    ensures conn.mirror.list == Infos(m)
    ensures conn.viewer.active.Some? && conn.viewer.active.value in m.screens
    ensures InList(Infos(m), conn.viewer.active.value)
    ensures conn.viewer.active.value in keys ==> ShowsScreen(conn.mirror, m.screens[conn.viewer.active.value])
    ensures Updates(Built(m, keys), conn.viewer) == ([], conn.viewer)
  {
    var snap := Built(m, keys);
    var v, mirror :| Tracks(v, mirror) && conn.viewer == Updates(snap, v).1
                     && conn.mirror == Folded(mirror, Updates(snap, v).0);
    BuiltIsValid(m, keys);
    UpdatesSyncMirror(snap, v, mirror);
    ActiveIsListed(m, keys, v);
    UpdatesAreIdempotent(snap, v);
  }

  lemma PublishShows(s: System, c: nat)
    requires CachesOk(s) && c in s.conns && Wakes(s, c)
    ensures var p := Step(s, Publish); p.manager == s.manager && p.conns == s.conns && Unseen(p, c)
  {
  }

  lemma RoundIsUpToDate(s: System, c: nat)
    requires Inv(s) && c in s.conns && Wakes(s, c)
    ensures var s' := Round(s, c);
            && Inv(s') && s'.manager == s.manager && c in s'.conns
            && UpTo(s'.conns[c], Built(s.manager, s.watched.Keys))
            && Latest(s') == Built(s.manager, s.watched.Keys) && !Unseen(s', c)
  {
    StepKeepsInv(s, Publish);
    PublishIsCurrent(s);
    PublishShows(s, c);
    PublishedKeepsLatest(Step(s, Publish), c);
  }

  lemma PublishedKeepsLatest(p: System, c: nat)
    requires Inv(p) && c in p.conns && Unseen(p, c)
    ensures var s' := Woken(p, c);
            && Inv(s') && s'.manager == p.manager && c in s'.conns
            && UpTo(s'.conns[c], Latest(p)) && Latest(s') == Latest(p) && !Unseen(s', c)
  {
    WokenIsUpToLatest(p, c);
    SameLatest(p, Woken(p, c));
  }

  lemma SameLatest(s: System, s': System)
    requires s.published == s'.published
    ensures Latest(s) == Latest(s')
  {
  }

  /** With nothing to see and nothing published a round changes nothing. */
  lemma IdleRound(s: System, c: nat)
    requires c in s.conns && !Wakes(s, c)
    ensures Round(s, c) == s
  {
  }

  /** A waiting push task processes the newest snapshot from where the viewer stands. */
  lemma WaitingTaskProcesses(s: System, c: nat)
    requires CachesOk(s) && c in s.conns && s.conns[c].task.Waiting? && s.conns[c].seen < |s.published|
    ensures c in Woken(s, c).conns && Woken(s, c).conns[c].viewer == Updates(Latest(s), s.conns[c].viewer).1
  {
    assert Step(s, Push(c)) == s;
  }

  /** A viewer on a listed session stays there. */
  lemma StillActive(s: System, c: nat)
    requires Inv(s) && c in s.conns && !Unseen(s, c) && Wakes(s, c)
    requires s.conns[c].viewer.active.Some? && InList(Infos(s.manager), s.conns[c].viewer.active.value)
    ensures c in Round(s, c).conns && Round(s, c).conns[c].viewer.active == s.conns[c].viewer.active
  {
    StepKeepsInv(s, Publish);
    PublishIsCurrent(s);
    WaitingTaskProcesses(Step(s, Publish), c);
    ActiveStays(s.manager, s.watched.Keys, s.conns[c].viewer);
  }

  lemma SecondRoundOfNews(s: System, c: nat, keys: set<string>)
    requires Inv(s) && c in s.conns && s.manager.list != [] && !Unseen(s, c) && Wakes(s, c)
    requires UpTo(s.conns[c], Built(s.manager, keys))
    ensures c in Round(s, c).conns && Live(Round(s, c), c)
  {
    UpToBuilt(s.conns[c], s.manager, keys);
    WatchedWhileActive(s, c);
    RoundIsUpToDate(s, c);
    StillActive(s, c);
    BuiltIsLive(Round(s, c), c, s.watched.Keys);
  }

  lemma BuiltIsLive(s: System, c: nat, keys: set<string>)
    requires c in s.conns && GoodManager(s.manager) && s.manager.list != []
    requires UpTo(s.conns[c], Built(s.manager, keys))
    requires s.conns[c].viewer.active.Some? ==> s.conns[c].viewer.active.value in keys
    ensures Live(s, c)
  {
    UpToBuilt(s.conns[c], s.manager, keys);
  }

  lemma SecondRoundWithoutNews(s: System, c: nat, keys: set<string>)
    requires Inv(s) && c in s.conns && s.manager.list != [] && !Unseen(s, c) && !Wakes(s, c)
    requires Latest(s) == Built(s.manager, keys) && UpTo(s.conns[c], Latest(s))
    ensures Round(s, c) == s && Live(s, c)
  {
    IdleRound(s, c);
    WakesIffNews(s, c);
    UpToBuilt(s.conns[c], s.manager, keys);
    WatchedWhileActive(s, c);
    BuiltIsLive(s, c, s.watched.Keys);
  }

  lemma SecondRoundIsLive(s: System, c: nat, keys: set<string>)
    requires Inv(s) && c in s.conns && s.manager.list != [] && !Unseen(s, c)
    requires Latest(s) == Built(s.manager, keys) && UpTo(s.conns[c], Latest(s))
    ensures c in Round(s, c).conns && Live(Round(s, c), c)
  {
    if Wakes(s, c) {
      SecondRoundOfNews(s, c, keys);
    } else {
      SecondRoundWithoutNews(s, c, keys);
    }
  }

  /** From any reachable state two ticks of the publisher, with the push task running after each, leave the client on a
      live session, showing the list and that session's screen, if and only if there was something unseen, the first
      tick published something, or the client showed all that already. */
  lemma TwoRoundsConverge(ops: seq<Op>, c: nat)
    ensures var s := Run(START, ops);
            c in s.conns && s.manager.list != [] ==>
              && c in Round(Round(s, c), c).conns
              && (Live(Round(Round(s, c), c), c) <==> Wakes(s, c) || Live(s, c))
  {
    StartIsGood();
    RunKeepsInv(START, ops);
    if c in Run(START, ops).conns && Run(START, ops).manager.list != [] {
      TwoRoundsOf(Run(START, ops), c);
    }
  }

  /** A viewer not moved since it processed the newest snapshot is owed nothing. */
  lemma UpToLatestIsOwedNothing(conn: Conn, snap: Snapshot)
    requires UpTo(conn, snap)
    ensures Updates(snap, conn.viewer) == ([], conn.viewer)
  {
    var v, m :| Tracks(v, m) && conn.viewer == Updates(snap, v).1 && conn.mirror == Folded(m, Updates(snap, v).0);
    UpdatesAreIdempotent(snap, v);
  }

  /** The viewer's own step: a move, or a flush of the snapshot borrowed for it. */
  predicate OwnStep(op: Op, c: nat) {
    (op.Created? || op.KillHandled? || op.Switch? || op.FlushBorrow? || op.Flush?) && op.c == c
  }

  /** Two snapshots of one manager are the same exactly when they render the same sessions. */
  lemma SameManagerSameScreens(m: Manager, keys: set<string>, keys': set<string>)
    ensures Built(m, keys) == Built(m, keys') <==> Built(m, keys).sessions.Keys == Built(m, keys').sessions.Keys
  {
    var a, b := Built(m, keys).sessions, Built(m, keys').sessions;
    if a.Keys == b.Keys {
      assert forall sid | sid in a :: a[sid] == b[sid];
      assert a == b;
    }
  }

  lemma OwnStepIsOwn(s: System, c: nat, op: Op)
    requires c in s.conns && OwnStep(op, c)
    ensures var s' := Step(s, op);
            && s'.manager == s.manager && s'.published == s.published && c in s'.conns
            && s'.conns[c].seen == s.conns[c].seen && s'.conns[c].task == s.conns[c].task
  {
  }

  /** With nothing left to see, a tick wakes the push task exactly when it has news. */
  lemma WakesIffNews(s: System, c: nat)
    requires CachesOk(s) && c in s.conns && !Unseen(s, c)
    ensures Wakes(s, c) <==> Built(s.manager, s.watched.Keys) != Latest(s)
  {
    BuiltIsValid(s.manager, s.watched.Keys);
    ChangedIffDifferent(Latest(s), Built(s.manager, s.watched.Keys));
  }

  /** Whatever a viewer does, its push task is woken by it exactly when the sessions rendered change with the watch set:
      a viewer moved to a session that others watch, from one that others watch, waits until something else changes. */
  lemma OwnStepWakesIff(s: System, c: nat, op: Op)
    requires Inv(s) && c in s.conns && OwnStep(op, c) && !Wakes(s, c)
    ensures var s' := Step(s, op);
            && c in s'.conns
            && (Wakes(s', c)
                <==> Built(s.manager, s'.watched.Keys).sessions.Keys != Built(s.manager, s.watched.Keys).sessions.Keys)
            && (!Wakes(s', c) ==> Round(s', c) == s')
  {
    var s' := Step(s, op);
    OwnStepIsOwn(s, c, op);
    WakesIffNews(s, c);
    StepKeepsCaches(s, op);
    NewsIffScreens(s', c, s.watched.Keys);
    if !Wakes(s', c) {
      IdleRound(s', c);
    }
  }

  lemma NewsIffScreens(s: System, c: nat, keys: set<string>)
    requires CachesOk(s) && c in s.conns && !Unseen(s, c) && Latest(s) == Built(s.manager, keys)
    ensures Wakes(s, c) <==> Built(s.manager, s.watched.Keys).sessions.Keys != Built(s.manager, keys).sessions.Keys
  {
    WakesIffNews(s, c);
    SameManagerSameScreens(s.manager, keys, s.watched.Keys);
  }

  /** Moved to a session that nobody has rendered yet, the viewer is woken by the next tick. */
  lemma NewlyWatchedWakes(s: System, c: nat)
    requires Inv(s) && c in s.conns && s.conns[c].viewer.active.Some?
    requires var sid := s.conns[c].viewer.active.value; sid in s.manager.screens && sid !in Latest(s).sessions
    ensures Wakes(s, c)
  {
    WatchedWhileActive(s, c);
    BuiltIsValid(s.manager, s.watched.Keys);
    var sid := s.conns[c].viewer.active.value;
    assert sid in Built(s.manager, s.watched.Keys).sessions;
  }

  /** A viewer whose kill request is handled, the kill refused or not, moves to another session without a flush. Two
      ticks later it shows that session if and only if the rendered sessions changed with the watch set, or it
      already showed the same. */
  lemma KillHandledConvergesIff(s: System, c: nat, sid: string)
    requires Inv(s) && c in s.conns && s.conns[c].reader.Ready? && s.conns[c].viewer.active == Some(sid)
    requires !Wakes(s, c) && ShowsList(s.conns[c].mirror, s.manager)
    requires var to := FirstOther(s.manager.list, sid); to.Some? && to.value in s.manager.screens
    ensures var s', to := Step(s, KillHandled(c, sid)), FirstOther(s.manager.list, sid).value;
            && c in s'.conns && c in Round(Round(s', c), c).conns
            && (Live(Round(Round(s', c), c), c)
                <==> || Built(s.manager, s'.watched.Keys).sessions.Keys
                        != Built(s.manager, s.watched.Keys).sessions.Keys
                     || ShowsScreen(s.conns[c].mirror, s.manager.screens[to]))
  {
    var s' := Step(s, KillHandled(c, sid));
    OwnStepWakesIff(s, c, KillHandled(c, sid));
    StepKeepsInv(s, KillHandled(c, sid));
    assert s.manager.list != [];
    TwoRoundsOf(s', c);
  }

  lemma TwoRoundsOf(s: System, c: nat)
    requires Inv(s) && c in s.conns && s.manager.list != []
    ensures c in Round(Round(s, c), c).conns
    ensures Live(Round(Round(s, c), c), c) <==> Wakes(s, c) || Live(s, c)
  {
    if Wakes(s, c) {
      RoundIsUpToDate(s, c);
      SecondRoundIsLive(Round(s, c), c, s.watched.Keys);
    } else {
      IdleRound(s, c);
    }
  }

  /** The session a killer is moved to is the first listed one with another id, and there is none only if every listed
      session is the one asked for. */
  lemma {:induction false} FirstOtherIsFirst(list: seq<Meta>, sid: string)
    ensures match FirstOther(list, sid)
            case None => forall i | 0 <= i < |list| :: list[i].id == sid
            case Some(to) =>
              to != sid && exists i :: 0 <= i < |list| && list[i].id == to && forall j | 0 <= j < i :: list[j].id == sid
  {
    if list != [] && list[0].id == sid {
      FirstOtherIsFirst(list[1..], sid);
      assert forall j | 0 < j < |list| :: list[j] == list[1..][j - 1];
      if FirstOther(list, sid).Some? {
        var to := FirstOther(list, sid).value;
        var i :| 0 <= i < |list[1..]| && list[1..][i].id == to && forall j | 0 <= j < i :: list[1..][j].id == sid;
        assert list[i + 1].id == to;
      }
    } else if list != [] {
      assert list[0].id == FirstOther(list, sid).value;
    }
  }

  /** The viewer stays on a session that is listed and otherwise follows the default. */
  predicate Follows(v: Viewer, v': Viewer, snap: Snapshot) {
    if v.active.Some? && exists i :: 0 <= i < |snap.list| && snap.list[i].id == v.active.value then
      v'.active == v.active
    else
      v'.active == snap.pickDefault
  }

  /** What moves a viewer: its own switch to a session that exists, by id or by name; a session created for it; a kill
      request for the session it is on; and a snapshot that no longer lists that session. Of these the switch alone is
      followed by a flush. Whatever else happens, and whatever other viewers do, it stays where it is. */
  lemma FocusMovesAsAsked(s: System, op: Op, c: nat)
    requires c in s.conns && c in Step(s, op).conns
    ensures var conn, conn' := s.conns[c], Step(s, op).conns[c];
            match op
            case Switch(x, sid) =>
              if x == c && conn.reader == Ready && (sid in s.manager.screens || sid in s.manager.names) then
                conn'.viewer.active == Some(sid) && conn'.reader == MustFlush
              else conn' == conn
            case Created(x, sid) =>
              if x == c && conn.reader == Ready then conn'.viewer.active == Some(sid) && conn'.reader == Ready
              else conn' == conn
            case KillHandled(x, sid) =>
              if x == c && conn.reader == Ready && conn.viewer.active == Some(sid) then
                conn'.viewer.active == FirstOther(s.manager.list, sid) && conn'.reader == Ready
              else conn' == conn
            case Push(x) =>
              if x == c && conn.task.Holding? && conn.task.k < |s.published| then
                Follows(conn.viewer, conn'.viewer, s.published[conn.task.k]) && conn'.reader == conn.reader
              else conn' == conn
            case Flush(x) =>
              if x == c && conn.reader.Flushing? && conn.reader.k < |s.published| then
                Follows(conn.viewer, conn'.viewer, s.published[conn.reader.k]) && conn'.reader == Ready
              else conn' == conn
            case _ => conn'.viewer == conn.viewer && conn'.mirror == conn.mirror
  {
    var conn := s.conns[c];
    match op
    case Push(x) =>
      if x == c && conn.task.Holding? && conn.task.k < |s.published| {
        UpdatesFollow(s.published[conn.task.k], conn.viewer);
      }
    case Flush(x) =>
      if x == c && conn.reader.Flushing? && conn.reader.k < |s.published| {
        UpdatesFollow(s.published[conn.reader.k], conn.viewer);
      }
    case _ =>
  }

  lemma UpdatesFollow(snap: Snapshot, v: Viewer)
    ensures Follows(v, Updates(snap, v).1, snap)
  {
    CaughtUp(snap, v);
  }

  /** A switch shows the new session at once if the newest snapshot has it. */
  lemma SwitchShowsAtOnce(s: System, c: nat, sid: string)
    requires Inv(s) && c in s.conns && s.conns[c].reader == Ready && Exists(s.manager, sid)
    requires InList(Latest(s).list, sid) && sid in Latest(s).sessions
    ensures var s' := Step(Step(Step(s, Switch(c, sid)), FlushBorrow(c)), Flush(c));
            && c in s'.conns && s'.conns[c].viewer.active == Some(sid) && s'.conns[c].reader == Ready
            && Agrees(s'.conns[c].mirror, Latest(s).sessions[sid])
  {
    var s1 := Step(s, Switch(c, sid));
    var s2 := Step(s1, FlushBorrow(c));
    StepKeepsCaches(s, Switch(c, sid));
    FocusMovesAsAsked(s, Switch(c, sid), c);
    FocusMovesAsAsked(s2, Flush(c), c);
    UpdatesSyncMirror(Latest(s), s2.conns[c].viewer, s2.conns[c].mirror);
  }

  /** A viewer just moved is sent the whole screen of its new session, dimensions and contents, by the first snapshot
      that renders it, even if they are what it saw before. */
  lemma MovedViewerIsSentEverything(s: System, c: nat, op: Op, snap: Snapshot)
    requires c in s.conns && s.conns[c].reader == Ready && ValidSnapshot(snap)
    requires op.Switch? || op.Created? || (op.KillHandled? && s.conns[c].viewer.active == Some(op.sid))
    requires op.c == c && (op.Switch? ==> Exists(s.manager, op.sid))
    ensures var v := Step(s, op).conns[c].viewer;
            && v.active == (if op.KillHandled? then FirstOther(s.manager.list, op.sid) else Some(op.sid))
            && (v.active.Some? && InList(snap.list, v.active.value) && v.active.value in snap.sessions ==>
                  var t, msgs := snap.sessions[v.active.value], Updates(snap, v).0;
                  WindowSize(t.dims.0, t.dims.1) in msgs && Screen(t.cursor, t.content) in msgs)
  {
    var v := Step(s, op).conns[c].viewer;
    if v.active.Some? && InList(snap.list, v.active.value) && v.active.value in snap.sessions {
      InvalidatedIsSentEverything(snap, v);
    }
  }

  lemma InvalidatedIsSentEverything(snap: Snapshot, v: Viewer)
    requires ValidSnapshot(snap) && v.active.Some? && InList(snap.list, v.active.value)
    requires v.active.value in snap.sessions
    requires v.lastContentHash == Zero && v.lastWindowSize == (0, 0)
    ensures var t, msgs := snap.sessions[v.active.value], Updates(snap, v).0;
            WindowSize(t.dims.0, t.dims.1) in msgs && Screen(t.cursor, t.content) in msgs
  {
    var t := snap.sessions[v.active.value];
    var (lists, v1) := ListPart(snap, v);
    var (windows, v2) := WindowPart(t, v1);
    var (screens, _) := ScreenPart(t, v2);
    assert Updates(snap, v).0 == lists + windows + screens;
    assert windows == [WindowSize(t.dims.0, t.dims.1)] && screens == [Screen(t.cursor, t.content)];
  }

  // ----- the least run that leaves a viewer stale

  const TWO: Manager := Manager(
    [Meta("R", "sh", "running", true), Meta("A", "sh", "running", false)], map[],
    map["R" := Terminal((80, 24), (0, 0), [0x72]), "A" := Terminal((80, 24), (0, 0), [0x61])])

  const TWO_KEYS: set<string> := {"R", "A"}

  ghost predicate Reached(ops: seq<Op>, s: System) {
    s == Run(START, ops)
  }

  lemma {:induction false} RunSnoc(s: System, ops: seq<Op>, op: Op)
    ensures Run(s, ops + [op]) == Step(Run(s, ops), op)
    decreases ops
  {
    if ops == [] {
      assert ([] + [op])[0] == op && ([] + [op])[1..] == [];
      assert Run(Step(s, op), []) == Step(s, op);
    } else {
      assert (ops + [op])[1..] == ops[1..] + [op];
      RunSnoc(Step(s, ops[0]), ops[1..], op);
    }
  }

  lemma ReachNext(ops: seq<Op>, s: System, op: Op) returns (ops': seq<Op>, s': System)
    requires Reached(ops, s)
    ensures Reached(ops', s') && s' == Step(s, op)
  {
    RunSnoc(START, ops, op);
    ops', s' := ops + [op], Step(s, op);
  }

  lemma ReachedIsGood(ops: seq<Op>, s: System)
    requires Reached(ops, s)
    ensures Inv(s)
  {
    StartIsGood();
    RunKeepsInv(START, ops);
  }

  lemma TwoIsGood()
    ensures GoodManager(TWO) && PickDefault(TWO.list) == Some("R") && FirstOther(TWO.list, "R") == Some("A")
    ensures Exists(TWO, "A")
    ensures Built(TWO, TWO_KEYS).sessions == map["R" := Rendered(TWO.screens["R"]), "A" := Rendered(TWO.screens["A"])]
  {
    assert TWO.list[1..][0].id == "A";
  }

  lemma ConnectsToRoot(s: System, c: nat, n: nat)
    requires s.manager == TWO && c !in s.conns && s.watched == if n == 0 then map[] else map["R" := n]
    ensures var s' := Step(s, Connect(c));
            && s'.watched == map["R" := n + 1] && s'.manager == TWO && s'.published == s.published
            && s'.conns == s.conns[c := Conn(NEW_VIEWER.(active := Some("R")), EMPTY_MIRROR, 0, Waiting, Ready)]
  {
    TwoIsGood();
  }

  lemma SwitchesToOther(s: System, c: nat)
    requires s.manager == TWO && c in s.conns && s.watched == map["R" := 3]
    requires s.conns[c].reader == Ready && s.conns[c].viewer.active == Some("R")
    ensures var s' := Step(s, Switch(c, "A"));
            && s'.watched == map["R" := 2, "A" := 1] && s'.manager == TWO && s'.published == s.published
            && (forall x | x != c && x in s.conns :: x in s'.conns && s'.conns[x] == s.conns[x])
  {
    TwoIsGood();
  }

  /** Three viewers connect to the root session and the second one switches. */
  lemma ThreeViewers() returns (ops: seq<Op>, s: System)
    ensures Reached(ops, s) && s.manager == TWO && s.published == [DEFAULT] && s.watched == map["R" := 2, "A" := 1]
    ensures 3 in s.conns && s.conns[3] == Conn(NEW_VIEWER.(active := Some("R")), EMPTY_MIRROR, 0, Waiting, Ready)
  {
    TwoIsGood();
    assert Reached([], START);
    ops, s := ReachNext([], START, ManagerMoves(TWO));
    ConnectsToRoot(s, 1, 0);
    ops, s := ReachNext(ops, s, Connect(1));
    ConnectsToRoot(s, 2, 1);
    ops, s := ReachNext(ops, s, Connect(2));
    ConnectsToRoot(s, 3, 2);
    ops, s := ReachNext(ops, s, Connect(3));
    SwitchesToOther(s, 2);
    ops, s := ReachNext(ops, s, Switch(2, "A"));
  }

  /** The third one is then level with the newest snapshot. */
  lemma LevelViewer() returns (ops: seq<Op>, s: System)
    ensures Reached(ops, s) && Inv(s) && s.manager == TWO && 3 in s.conns && !Wakes(s, 3)
    ensures s.watched == map["R" := 2, "A" := 1]
    ensures s.conns[3].viewer.active == Some("R") && s.conns[3].reader == Ready
    ensures s.conns[3].mirror.list == Infos(TWO) && s.conns[3].mirror.content == [0x72]
  {
    var s0, s1, s2;
    ops, s0 := ThreeViewers();
    ReachedIsGood(ops, s0);
    PublishIsCurrent(s0);
    assert s0.watched.Keys == TWO_KEYS;
    ops, s1 := ReachNext(ops, s0, Publish);
    assert s1.published == [DEFAULT, Built(TWO, TWO_KEYS)];
    ops, s2 := ReachNext(ops, s1, Borrow(3));
    ReachedIsGood(ops, s2);
    ops, s := ReachNext(ops, s2, Push(3));
    ReachedIsGood(ops, s);
    FirstPush(s2);
    assert s.watched.Keys == TWO_KEYS;
    WakesIffNews(s, 3);
  }

  lemma FirstPush(s: System)
    requires Inv(s) && s.manager == TWO && 3 in s.conns && s.published == [DEFAULT, Built(TWO, TWO_KEYS)]
    requires s.watched == map["R" := 2, "A" := 1]
    requires s.conns[3] == Conn(NEW_VIEWER.(active := Some("R")), EMPTY_MIRROR, 2, Holding(1), Ready)
    ensures var s' := Step(s, Push(3));
            && s'.manager == TWO && s'.published == s.published && s'.watched == s.watched && 3 in s'.conns
            && var conn := s'.conns[3];
               && conn.viewer.active == Some("R") && conn.seen == 2 && conn.task == Waiting && conn.reader == Ready
               && conn.mirror.list == Infos(TWO) && conn.mirror.content == [0x72]
  {
    TwoIsGood();
    BuiltIsValid(TWO, TWO_KEYS);
    assert Infos(TWO)[0].id == "R";
    UpdatesSyncMirror(Built(TWO, TWO_KEYS), s.conns[3].viewer, EMPTY_MIRROR);
  }

  lemma KillMovesIt(s: System)
    requires s.manager == TWO && 3 in s.conns && s.conns[3].reader == Ready && s.conns[3].viewer.active == Some("R")
    requires s.watched == map["R" := 2, "A" := 1]
    ensures var s' := Step(s, KillHandled(3, "R"));
            && s'.watched == map["R" := 1, "A" := 2] && s'.manager == TWO && 3 in s'.conns
            && s'.conns[3].viewer.active == Some("A") && s'.conns[3].mirror == s.conns[3].mirror
  {
    TwoIsGood();
  }

  /** It asks to kill the root session, which is refused, and is moved to the other one: it keeps the root's screen, and
      no number of ticks changes that. */
  lemma RefusedKillLeavesViewerStale()
    ensures exists ops: seq<Op>, s: System :: Reached(ops, s) && StaysStale(s, 3)
  {
    var ops, s := LevelViewer();
    var ops', s' := ReachNext(ops, s, KillHandled(3, "R"));
    KillMovesIt(s);
    assert s'.watched.Keys == s.watched.Keys;
    OwnStepWakesIff(s, 3, KillHandled(3, "R"));
    KeepsRootScreen(s');
  }

  lemma KeepsRootScreen(s: System)
    requires s.manager == TWO && 3 in s.conns && Round(s, 3) == s
    requires s.conns[3].viewer.active == Some("A") && s.conns[3].mirror.content == [0x72]
    ensures StaysStale(s, 3)
  {
    assert TWO.screens["A"].content[0] != s.conns[3].mirror.content[0];
  }

  predicate StaysStale(s: System, c: nat) {
    c in s.conns && s.manager.list != [] && !Live(s, c) && Round(s, c) == s
  }

  /** After processing a fresh snapshot of a non-empty manager the viewer watches a listed session. */
  lemma ActiveIsListed(m: Manager, keys: set<string>, v: Viewer)
    requires GoodManager(m) && m.list != []
    ensures var v' := Updates(Built(m, keys), v).1;
            v'.active.Some? && InList(Infos(m), v'.active.value) && v'.active.value in m.screens
  {
    var picked := PickDefault(m.list);
    assert m.list[0].id in m.screens;
    var i :| 0 <= i < |m.list| && m.list[i].id == picked.value;
    assert Infos(m)[i].id == picked.value;
    var v' := Updates(Built(m, keys), v).1;
    assert v'.active == Repicked(Built(m, keys), v).active;
    var j :| 0 <= j < |m.list| && Infos(m)[j].id == v'.active.value;
    assert m.list[j].id == v'.active.value;
  }

  lemma ActiveStays(m: Manager, keys: set<string>, v: Viewer)
    requires v.active.Some? && InList(Infos(m), v.active.value)
    ensures Updates(Built(m, keys), v).1.active == v.active
  {
  }

  // ----- batches out of order

  /** What a batch of messages leaves on the client: of each kind the last one. */
  datatype Carried = Carried(
    list: Option<(seq<SessionInfo>, Option<string>)>,
    window: Option<(nat, nat)>,
    screen: Option<((nat, nat), seq<Byte>)>)

  function Over<T>(first: Option<T>, then': Option<T>): Option<T> {
    if then'.Some? then then' else first
  }

  function CarriedBy(msgs: seq<OutMsg>): Carried
    decreases msgs
  {
    if msgs == [] then Carried(None, None, None)
    else
      var rest := CarriedBy(msgs[1..]);
      match msgs[0]
      case SessionList(sessions, activeId) => rest.(list := Over(Some((sessions, activeId)), rest.list))
      case WindowSize(cols, rows) => rest.(window := Over(Some((cols, rows)), rest.window))
      case Screen(cursor, content) => rest.(screen := Over(Some((cursor, content)), rest.screen))
  }

  function Left(m: Mirror, c: Carried): Mirror {
    var m1 := if c.list.Some? then m.(list := c.list.value.0, activeId := c.list.value.1) else m;
    var m2 := if c.window.Some? then m1.(dims := c.window.value) else m1;
    if c.screen.Some? then m2.(cursor := c.screen.value.0, content := c.screen.value.1) else m2
  }

  lemma {:induction false} FoldedIsLeft(m: Mirror, msgs: seq<OutMsg>)
    ensures Folded(m, msgs) == Left(m, CarriedBy(msgs))
    decreases msgs
  {
    if msgs != [] {
      FoldedIsLeft(Shown(m, msgs[0]), msgs[1..]);
    }
  }

  /** Both carry the kind, and not the same contents. */
  predicate Clash<T(==)>(a: Option<T>, b: Option<T>) {
    a.Some? && b.Some? && a != b
  }

  predicate Clashes(a: Carried, b: Carried) {
    Clash(a.list, b.list) || Clash(a.window, b.window) || Clash(a.screen, b.screen)
  }

  /** The guarantees above are about messages in the order they were made. The push task and the read loop build their
      batches under the viewer's lock but send them after releasing it. Whatever the batches and whatever the client
      shows, a swap on the way is harmless exactly when no kind of message is in both with different contents. */
  lemma SwapIsHarmlessIff(m: Mirror, a: seq<OutMsg>, b: seq<OutMsg>)
    ensures Folded(Folded(m, b), a) == Folded(Folded(m, a), b) <==> !Clashes(CarriedBy(a), CarriedBy(b))
  {
    FoldedIsLeft(m, a);
    FoldedIsLeft(m, b);
    FoldedIsLeft(Folded(m, a), b);
    FoldedIsLeft(Folded(m, b), a);
  }

  lemma CarriedConcat(a: seq<OutMsg>, b: seq<OutMsg>)
    ensures var x, y, z := CarriedBy(a + b), CarriedBy(a), CarriedBy(b);
            x == Carried(Over(y.list, z.list), Over(y.window, z.window), Over(y.screen, z.screen))
    decreases a
  {
    if a == [] {
      assert a + b == b;
    } else {
      assert (a + b)[1..] == a[1..] + b;
      CarriedConcat(a[1..], b);
    }
  }

  function ScreenOf(snap: Snapshot, v: Viewer): Option<SessionSnapshot> {
    if v.active.Some? && v.active.value in snap.sessions then Some(snap.sessions[v.active.value]) else None
  }

  /** What a batch carries, told from the viewer's fields before the call. */
  lemma UpdatesCarry(snap: Snapshot, v: Viewer)
    ensures var c, v0 := CarriedBy(Updates(snap, v).0), Repicked(snap, v);
            var s := ScreenOf(snap, v0);
            && c.list == (if snap.listHash != v0.lastListHash then Some((snap.list, v0.active)) else None)
            && c.window == (if s.Some? && s.value.dims != v0.lastWindowSize then Some(s.value.dims) else None)
            && c.screen == (if s.Some? && (s.value.contentHash != v0.lastContentHash || s.value.cursor != v0.lastCursor)
                            then Some((s.value.cursor, s.value.content)) else None)
  {
    var (lists, v1) := ListPart(snap, Repicked(snap, v));
    CarriedOne(SessionList(snap.list, v1.active));
    if ScreenOf(snap, v1).Some? {
      var s := snap.sessions[v1.active.value];
      var (windows, v2) := WindowPart(s, v1);
      var (screens, _) := ScreenPart(s, v2);
      CarriedOne(WindowSize(s.dims.0, s.dims.1));
      CarriedOne(Screen(s.cursor, s.content));
      CarriedConcat(lists, windows);
      CarriedConcat(lists + windows, screens);
    }
  }

  lemma CarriedOne(msg: OutMsg)
    ensures CarriedBy([msg]) == match msg
                                case SessionList(sessions, activeId) => Carried(Some((sessions, activeId)), None, None)
                                case WindowSize(cols, rows) => Carried(None, Some((cols, rows)), None)
                                case Screen(cursor, content) => Carried(None, None, Some((cursor, content)))
  {
    assert [msg][1..] == [];
  }

  predicate BothCarry(a: Carried, b: Carried) {
    (a.list.Some? && b.list.Some?) || (a.window.Some? && b.window.Some?) || (a.screen.Some? && b.screen.Some?)
  }

  /** Of two batches made one after the other, the second not moving the viewer to another session, a swap is harmless
      exactly when they have no kind of message in common: a kind is only sent again when its contents have changed. */
  lemma ConsecutiveBatchesSwapIff(s1: Snapshot, s2: Snapshot, v: Viewer, m: Mirror)
    requires ValidSnapshot(s1) && ValidSnapshot(s2) && s1 != DEFAULT && s2 != DEFAULT
    requires !Repicks(s2, Updates(s1, v).1)
    ensures var (a, v1) := Updates(s1, v);
            var b := Updates(s2, v1).0;
            Folded(Folded(m, b), a) == Folded(Folded(m, a), b) <==> !BothCarry(CarriedBy(a), CarriedBy(b))
  {
    var (a, v1) := Updates(s1, v);
    SwapIsHarmlessIff(m, a, Updates(s2, v1).0);
    UpdatesCarry(s1, v);
    UpdatesCarry(s2, v1);
    CaughtUp(s1, v);
  }

  /** After a call the viewer's fields are those of the snapshot. */
  lemma CaughtUp(snap: Snapshot, v: Viewer)
    ensures var v', s := Updates(snap, v).1, ScreenOf(snap, Repicked(snap, v));
            && v'.active == Repicked(snap, v).active && v'.lastListHash == snap.listHash
            && (s.Some? ==> v'.lastWindowSize == s.value.dims && v'.lastContentHash == s.value.contentHash
                            && v'.lastCursor == s.value.cursor)
  {
  }

  /** The least case: two screens of one session. The client keeps the older one, the viewer believes it has the newer
      one, and nothing more is sent. */
  lemma SwappedBatchesDiverge()
    ensures var older := SessionSnapshot((80, 24), (0, 0), Of([0x61]), [0x61]);
            var newer := older.(contentHash := Of([0x62]), content := [0x62]);
            var info := SessionInfo("pty-1", "sh", "running");
            var s1 := Snapshot([info], Of([info]), Some("pty-1"), map["pty-1" := older]);
            var s2 := s1.(sessions := map["pty-1" := newer]);
            var v := NEW_VIEWER.(active := Some("pty-1"));
            var (first, v1) := Updates(s1, v);
            var (second, v2) := Updates(s2, v1);
            && Folded(Folded(EMPTY_MIRROR, second), first) != Folded(Folded(EMPTY_MIRROR, first), second)
            && Agrees(Folded(Folded(EMPTY_MIRROR, first), second), newer)
            && Updates(s2, v2).0 == []
  {
    var older := SessionSnapshot((80, 24), (0, 0), Of([0x61]), [0x61]);
    var newer := older.(contentHash := Of([0x62]), content := [0x62]);
    var info := SessionInfo("pty-1", "sh", "running");
    var s1 := Snapshot([info], Of([info]), Some("pty-1"), map["pty-1" := older]);
    var s2 := s1.(sessions := map["pty-1" := newer]);
    var v := NEW_VIEWER.(active := Some("pty-1"));
    assert [info][0].id == "pty-1" && InList([info], "pty-1");
    assert older.content[0] != newer.content[0];
    var (first, v1) := Updates(s1, v);
    UpdatesSyncMirror(s1, v, EMPTY_MIRROR);
    UpdatesSyncMirror(s2, v1, Folded(EMPTY_MIRROR, first));
    UpdatesAreIdempotent(s2, v1);
    UpdatesCarry(s1, v);
    UpdatesCarry(s2, v1);
    ConsecutiveBatchesSwapIff(s1, s2, v, EMPTY_MIRROR);
  }
}
