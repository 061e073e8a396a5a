/** The web viewer's watch set, snapshots and per-viewer updates: src/web/mod.rs. */
module WebViewer {
  import opened Wrappers
  import opened Utf8

  /** An ideal content hash: injective, and never the zero that stands for "nothing sent". */
  datatype Hash<T> = Zero | Of(value: T)

  datatype SessionInfo = SessionInfo(id: string, command: string, status: string)

  /** The rendered state of one session. */
  datatype SessionSnapshot = SessionSnapshot(
    dims: (nat, nat),
    cursor: (nat, nat),
    contentHash: Hash<seq<Byte>>,
    content: seq<Byte>)

  datatype Snapshot = Snapshot(
    list: seq<SessionInfo>,
    listHash: Hash<seq<SessionInfo>>,
    pickDefault: Option<string>,
    sessions: map<string, SessionSnapshot>)

  /** `Snapshot::default()`, what the channel holds before the first publication. */
  const DEFAULT: Snapshot := Snapshot([], Zero, None, map[])

  /** The fields of `WebViewer`. */
  datatype Viewer = Viewer(
    active: Option<string>,
    lastContentHash: Hash<seq<Byte>>,
    lastCursor: (nat, nat),
    lastListHash: Hash<seq<SessionInfo>>,
    lastWindowSize: (nat, nat))

  const NEW_VIEWER: Viewer := Viewer(None, Zero, (0, 0), Zero, (0, 0))

  datatype OutMsg =
    | SessionList(sessions: seq<SessionInfo>, activeId: Option<string>)
    | WindowSize(cols: nat, rows: nat)
    | Screen(cursor: (nat, nat), content: seq<Byte>)

  type Watched = map<string, nat>

  // ----- the watch set

  function Released(w: Watched, old': Option<string>): Watched {
    if old'.Some? && old'.value in w then
      if w[old'.value] <= 1 then w - {old'.value} else w[old'.value := w[old'.value] - 1]
    else w
  }

  function Taken(w: Watched, new': Option<string>): Watched {
    if new'.Some? then w[new'.value := (if new'.value in w then w[new'.value] else 0) + 1] else w
  }

  function Retargeted(w: Watched, old': Option<string>, new': Option<string>): Watched {
    if old' == new' then w else Taken(Released(w, old'), new')
  }

  class WatchedSessions {
    var counts: map<string, nat>

    method RetargetWatch(old': Option<string>, new': Option<string>)
      requires forall sid | sid in counts :: counts[sid] > 0
      modifies this
      ensures counts == Retargeted(old(counts), old', new')
    {
      if old' == new' {
        return;
      }
      if old'.Some? && old'.value in counts {
        counts := counts[old'.value := counts[old'.value] - 1];
        if counts[old'.value] == 0 {
          counts := counts - {old'.value};
        }
      }
      if new'.Some? {
        if new'.value !in counts {
          counts := counts[new'.value := 0];
        }
        counts := counts[new'.value := counts[new'.value] + 1];
      }
    }
  }

  // ----- updates

  predicate InList(list: seq<SessionInfo>, sid: string) {
    exists i :: 0 <= i < |list| && list[i].id == sid
  }

  function Invalidated(v: Viewer): Viewer {
    v.(lastContentHash := Zero, lastCursor := (0, 0), lastWindowSize := (0, 0))
  }

  /** The active session is gone or was never set, and there is something else to show. */
  predicate Repicks(snap: Snapshot, v: Viewer) {
    !(v.active.Some? && InList(snap.list, v.active.value)) && v.active != snap.pickDefault
  }

  function Repicked(snap: Snapshot, v: Viewer): Viewer {
    if Repicks(snap, v) then Invalidated(v.(active := snap.pickDefault)).(lastListHash := Zero) else v
  }

  function ListPart(snap: Snapshot, v: Viewer): (seq<OutMsg>, Viewer) {
    if snap.listHash != v.lastListHash then ([SessionList(snap.list, v.active)], v.(lastListHash := snap.listHash))
    else ([], v)
  }

  function WindowPart(s: SessionSnapshot, v: Viewer): (seq<OutMsg>, Viewer) {
    if s.dims != v.lastWindowSize then ([WindowSize(s.dims.0, s.dims.1)], v.(lastWindowSize := s.dims)) else ([], v)
  }

  function ScreenPart(s: SessionSnapshot, v: Viewer): (seq<OutMsg>, Viewer) {
    if s.contentHash == v.lastContentHash && s.cursor == v.lastCursor then ([], v)
    else ([Screen(s.cursor, s.content)], v.(lastContentHash := s.contentHash, lastCursor := s.cursor))
  }

  function Updates(snap: Snapshot, v: Viewer): (seq<OutMsg>, Viewer) {
    var (lists, v1) := ListPart(snap, Repicked(snap, v));
    if v1.active.None? || v1.active.value !in snap.sessions then (lists, v1)
    else
      var s := snap.sessions[v1.active.value];
      var (windows, v2) := WindowPart(s, v1);
      var (screens, v3) := ScreenPart(s, v2);
      (lists + windows + screens, v3)
  }

  /** The watch set after the updates: the repick moves the viewer's count along. */
  function WatchAfter(snap: Snapshot, v: Viewer, w: Watched): Watched {
    Retargeted(w, v.active, Repicked(snap, v).active)
  }

  class WebViewer {
    var activeSession: Option<string>
    var lastContentHash: Hash<seq<Byte>>
    var lastCursor: (nat, nat)
    var lastListHash: Hash<seq<SessionInfo>>
    var lastWindowSize: (nat, nat)

    function State(): Viewer
      reads this
    {
      Viewer(activeSession, lastContentHash, lastCursor, lastListHash, lastWindowSize)
    }

    constructor ()
      ensures State() == NEW_VIEWER
    {
      activeSession := None;
      lastContentHash := Zero;
      lastCursor := (0, 0);
      lastListHash := Zero;
      lastWindowSize := (0, 0);
    }

    method Invalidate()
      modifies this
      ensures State() == Invalidated(old(State()))
    {
      lastContentHash := Zero;
      lastCursor := (0, 0);
      lastWindowSize := (0, 0);
    }

    method ViewerUpdates(snap: Snapshot, watched: WatchedSessions) returns (out: seq<OutMsg>)
      requires forall sid | sid in watched.counts :: watched.counts[sid] > 0
      modifies this, watched
      ensures (out, State()) == Updates(snap, old(State()))
      ensures watched.counts == WatchAfter(snap, old(State()), old(watched.counts))
    {
      out := [];
      var currentOk := activeSession.Some? && InList(snap.list, activeSession.value);
      if !currentOk && activeSession != snap.pickDefault {
        watched.RetargetWatch(activeSession, snap.pickDefault);
        activeSession := snap.pickDefault;
        Invalidate();
        lastListHash := Zero;
      }
      if snap.listHash != lastListHash {
        lastListHash := snap.listHash;
        out := out + [SessionList(snap.list, activeSession)];
      }
      ghost var (lists, v1) := ListPart(snap, Repicked(snap, old(State())));
      assert out == lists;
      if activeSession.None? || activeSession.value !in snap.sessions {
        return;
      }
      var session := snap.sessions[activeSession.value];
      if session.dims != lastWindowSize {
        lastWindowSize := session.dims;
        out := out + [WindowSize(session.dims.0, session.dims.1)];
      }
      if session.contentHash == lastContentHash && session.cursor == lastCursor {
        assert out == lists + WindowPart(session, v1).0 + [];
        return;
      }
      lastContentHash := session.contentHash;
      lastCursor := session.cursor;
      out := out + [Screen(session.cursor, session.content)];
      assert out == lists + WindowPart(session, v1).0 + [Screen(session.cursor, session.content)];
    }
  }

  // ----- the session manager and its snapshots

  datatype Meta = Meta(id: string, command: string, status: string, root: bool)

  datatype Terminal = Terminal(dims: (nat, nat), cursor: (nat, nat), content: seq<Byte>)

  /** The sessions in listing order, with display names and screens. */
  datatype Manager = Manager(list: seq<Meta>, names: map<string, string>, screens: map<string, Terminal>)

  predicate GoodManager(m: Manager) {
    && (forall i | 0 <= i < |m.list| :: m.list[i].id in m.screens)
    && (forall sid | sid in m.screens :: m.screens[sid].dims != (0, 0))
  }

  /** `SessionManager::get`: by id, else by display name. */
  function Get(m: Manager, id: string): Option<Terminal> {
    if id in m.screens then Some(m.screens[id])
    else if id in m.names && m.names[id] in m.screens then Some(m.screens[m.names[id]])
    else None
  }

  predicate Exists(m: Manager, id: string) {
    id in m.screens || id in m.names
  }

  function Infos(m: Manager): seq<SessionInfo> {
    seq(|m.list|, i requires 0 <= i < |m.list| => SessionInfo(m.list[i].id, m.list[i].command, m.list[i].status))
  }

  /** The root session, else the first. */
  function PickDefault(list: seq<Meta>): Option<string> {
    var root := FirstRoot(list);
    if root.Some? then root else if list != [] then Some(list[0].id) else None
  }

  function FirstRoot(list: seq<Meta>): (r: Option<string>)
    ensures r.Some? ==> exists i :: 0 <= i < |list| && list[i].id == r.value
  {
    if list == [] then None
    else if list[0].root then Some(list[0].id)
    else
      var r := FirstRoot(list[1..]);
      assert forall i | 0 <= i < |list[1..]| :: list[1..][i] == list[i + 1];
      r
  }

  /** The first root session there is, else the first session, else none. */
  predicate IsDefault(list: seq<Meta>, pick: Option<string>) {
    match pick
    case None => |list| == 0
    case Some(id) =>
      exists i :: 0 <= i < |list| && list[i].id == id
                  && (if list[i].root then forall j | 0 <= j < i :: !list[j].root
                      else i == 0 && forall j | 0 <= j < |list| :: !list[j].root)
  }

  lemma DefaultPrefersRoot(list: seq<Meta>)
    ensures IsDefault(list, PickDefault(list))
  {
    RootIsFirst(list);
    if list != [] && FirstRoot(list).None? {
      assert list[0].id == PickDefault(list).value;
    }
  }

  lemma {:induction false} RootIsFirst(list: seq<Meta>)
    ensures match FirstRoot(list)
            case None => forall j | 0 <= j < |list| :: !list[j].root
            case Some(id) =>
              exists i :: 0 <= i < |list| && list[i].id == id && list[i].root && forall j | 0 <= j < i :: !list[j].root
  {
    if list != [] && !list[0].root {
      RootIsFirst(list[1..]);
      assert forall j | 0 < j < |list| :: list[j] == list[1..][j - 1];
      if FirstRoot(list).Some? {
        var i :| 0 <= i < |list[1..]| && list[1..][i].id == FirstRoot(list).value && list[1..][i].root
                 && forall j | 0 <= j < i :: !list[1..][j].root;
        assert list[i + 1].id == FirstRoot(list).value && list[i + 1].root;
      }
    }
  }

  function Rendered(t: Terminal): SessionSnapshot {
    SessionSnapshot(t.dims, t.cursor, Of(t.content), t.content)
  }

  function Built(m: Manager, watched: set<string>): Snapshot {
    Snapshot(Infos(m), Of(Infos(m)), PickDefault(m.list),
             map sid | sid in watched && Get(m, sid).Some? :: Rendered(Get(m, sid).value))
  }

  /** The screen a watched id stands for: the session of that id, else the one it names. */
  predicate StandsFor(m: Manager, id: string, t: Terminal) {
    if id in m.screens then t == m.screens[id]
    else id in m.names && m.names[id] in m.screens && t == m.screens[m.names[id]]
  }

  /** What a snapshot shows: every session listed in order, the default pick, and of the watched ids the screens of
      those that stand for one, whole. */
  lemma SnapshotShowsManager(m: Manager, watched: set<string>, id: string)
    ensures var snap := Built(m, watched);
            && |snap.list| == |m.list|
            && (forall i | 0 <= i < |m.list| ::
                  && snap.list[i].id == m.list[i].id && snap.list[i].command == m.list[i].command
                  && snap.list[i].status == m.list[i].status)
            && IsDefault(m.list, snap.pickDefault)
            && (id in snap.sessions <==> id in watched && exists t :: StandsFor(m, id, t))
            && (id in snap.sessions ==>
                  var s := snap.sessions[id];
                  StandsFor(m, id, Terminal(s.dims, s.cursor, s.content)))
  {
    DefaultPrefersRoot(m.list);
    var t := Get(m, id);
    assert t.Some? ==> StandsFor(m, id, t.value);
  }

  method BuildSnapshot(m: Manager, watched: set<string>) returns (snap: Snapshot)
    ensures snap == Built(m, watched)
  {
    var sessions: map<string, SessionSnapshot> := map[];
    var ids := watched;
    while ids != {}
      invariant ids <= watched
      invariant sessions == map sid | sid in watched - ids && Get(m, sid).Some? :: Rendered(Get(m, sid).value)
      decreases ids
    {
      var sid :| sid in ids;
      ids := ids - {sid};
      var session := Get(m, sid);
      if session.None? {
        continue;
      }
      sessions := sessions[sid := Rendered(session.value)];
    }
    assert watched - ids == watched;
    snap := Snapshot(Infos(m), Of(Infos(m)), PickDefault(m.list), sessions);
  }

  /** True if anything a viewer could care about differs. */
  predicate SnapshotChanged(a: Snapshot, b: Snapshot) {
    || a.listHash != b.listHash || a.pickDefault != b.pickDefault
    || |a.sessions| != |b.sessions|
    || exists sid :: sid in b.sessions
                     && (sid in a.sessions ==>
                           || a.sessions[sid].contentHash != b.sessions[sid].contentHash
                           || a.sessions[sid].cursor != b.sessions[sid].cursor
                           || a.sessions[sid].dims != b.sessions[sid].dims)
  }

  /** The hashes of a snapshot are those of its contents; only the default carries none. */
  predicate ValidSnapshot(s: Snapshot) {
    && (s == DEFAULT || s.listHash == Of(s.list))
    && forall sid | sid in s.sessions ::
         s.sessions[sid].contentHash == Of(s.sessions[sid].content) && s.sessions[sid].dims != (0, 0)
  }

  lemma BuiltIsValid(m: Manager, watched: set<string>)
    requires GoodManager(m)
    ensures ValidSnapshot(Built(m, watched)) && Built(m, watched) != DEFAULT
  {
  }

  /** Equal sizes and agreement on one map's keys leave no room for other keys. */
  lemma SubmapOfEqualSize<K, V>(a: map<K, V>, b: map<K, V>)
    requires |a| == |b| && forall k | k in b :: k in a && a[k] == b[k]
    ensures a == b
  {
    assert b.Keys <= a.Keys;
    if a.Keys != b.Keys {
      SmallerSubset(b.Keys, a.Keys);
    }
  }

  lemma SmallerSubset<T>(x: set<T>, y: set<T>)
    requires x < y
    ensures |x| < |y|
  {
    var e :| e in y && e !in x;
    assert x <= y - {e};
    SubsetSize(x, y - {e});
  }

  lemma {:induction false} SubsetSize<T>(x: set<T>, y: set<T>)
    requires x <= y
    ensures |x| <= |y|
  {
    if x != {} {
      var e :| e in x;
      SubsetSize(x - {e}, y - {e});
    }
  }

  /** Change suppression is exact: a snapshot is withheld only when it equals the last one published. */
  lemma ChangedIffDifferent(a: Snapshot, b: Snapshot)
    requires ValidSnapshot(a) && ValidSnapshot(b)
    ensures SnapshotChanged(a, b) <==> a != b
  {
    if !SnapshotChanged(a, b) {
      forall sid | sid in b.sessions
        ensures sid in a.sessions && a.sessions[sid] == b.sessions[sid]
      {
      }
      SubmapOfEqualSize(a.sessions, b.sessions);
    }
  }

  class Publisher {
    var prev: Snapshot
    var sent: nat

    constructor ()
      ensures prev == DEFAULT && sent == 0
    {
      prev := DEFAULT;
      sent := 0;
    }

    /** One tick: whatever is suppressed, viewers always hold the snapshot just built. */
    method Tick(m: Manager, watched: set<string>)
      requires GoodManager(m) && ValidSnapshot(prev)
      modifies this
      ensures prev == Built(m, watched) && ValidSnapshot(prev)
      ensures sent == old(sent) + if old(prev) == prev then 0 else 1
    {
      var snap := BuildSnapshot(m, watched);
      BuiltIsValid(m, watched);
      ChangedIffDifferent(prev, snap);
      if SnapshotChanged(prev, snap) {
        prev := snap;
        sent := sent + 1;
      }
    }
  }
}
