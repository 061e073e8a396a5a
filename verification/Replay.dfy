/** Replaying a recorded session: `SessionReplay` in crates/tttt-log/src/replay.rs. */
module Replay {
  import opened Naturals
  import opened Wrappers
  import opened Utf8

  /** A parsed JSON document, as far as replay looks into one. */
  datatype Json =
    | Object(fields: map<string, Json>)
    | Text(text: string)
    | Number(n: nat)
    | OtherJson

  /** What an event carries, by its direction; the bytes of a `Meta` event may not parse. */
  datatype Payload =
    | Output(data: seq<Byte>)
    | Meta(json: Option<Json>)
    | Input

  datatype LogEvent = LogEvent(timestampMs: nat, payload: Payload)

  /** The terminal parser seen from outside: the calls it has received since it was created. Replays that make the
      same calls show the same screen whatever the emulator does with them. */
  datatype Screen =
    | Blank(rows: nat, cols: nat)
    | Processed(before: Screen, data: seq<Byte>)
    | Resized(before: Screen, rows: nat, cols: nat)

  /** The mutable fields of `SessionReplay`. */
  datatype View = View(screen: Screen, index: nat, cols: nat, rows: nat)

  /** `as u16`. */
  function Truncated(n: nat): nat {
    n % 0x1_0000
  }

  /** `json.get(key)`. */
  function Field(json: Json, key: string): Option<Json> {
    if json.Object? && key in json.fields then Some(json.fields[key]) else None
  }

  /** `json.get(key)` and then `as_u64`. */
  function Unsigned(json: Json, key: string): Option<nat> {
    var f := Field(json, key);
    if f.Some? && f.value.Number? && f.value.n < 0x1_0000_0000_0000_0000 then Some(f.value.n) else None
  }

  /** A resize: a document of that type. */
  predicate IsResize(p: Payload) {
    p.Meta? && p.json.Some? && Field(p.json.value, "type") == Some(Text("resize"))
  }

  /** A dimension of a resize; one that is missing or no unsigned number stays as it is. */
  function NewDim(p: Payload, key: string, current: nat): nat
    requires IsResize(p)
  {
    var n := Unsigned(p.json.value, key);
    Truncated(if n.Some? then n.value else current)
  }

  function Apply(v: View, e: LogEvent): View {
    var next := v.(index := v.index + 1);
    if e.payload.Output? then next.(screen := Processed(v.screen, e.payload.data))
    else if IsResize(e.payload) then
      var cols, rows := NewDim(e.payload, "cols", v.cols), NewDim(e.payload, "rows", v.rows);
      next.(screen := Resized(v.screen, rows, cols), cols := cols, rows := rows)
    else next
  }

  /** A new parser at the current dimensions, before the first event. */
  function Rewound(v: View): View {
    View(Blank(v.rows, v.cols), 0, v.cols, v.rows)
  }

  /** Play events one by one up to `target`. */
  function PlayTo(events: seq<LogEvent>, v: View, target: nat): (r: View)
    requires v.index <= target <= |events|
    ensures r.index == target
    decreases target - v.index
  {
    if v.index == target then v else PlayTo(events, Apply(v, events[v.index]), target)
  }

  function SeekIndex(events: seq<LogEvent>, v: View, i: nat): (r: View)
    requires v.index <= |events|
    ensures r.index == Min(i, |events|)
  {
    var target := Min(i, |events|);
    PlayTo(events, if target < v.index then Rewound(v) else v, target)
  }

  /** The first position at or after `from` whose event is later than `t`. */
  function FirstAfter(events: seq<LogEvent>, from: nat, t: nat): (k: nat)
    requires from <= |events|
    ensures from <= k <= |events|
    ensures forall i | from <= i < k :: events[i].timestampMs <= t
    ensures k < |events| ==> events[k].timestampMs > t
    decreases |events| - from
  {
    if from < |events| && events[from].timestampMs <= t then FirstAfter(events, from + 1, t) else from
  }

  predicate MustRewind(events: seq<LogEvent>, v: View, t: nat)
    requires v.index <= |events|
  {
    v.index > 0 && events[v.index - 1].timestampMs > t
  }

  function SeekTimestamp(events: seq<LogEvent>, v: View, t: nat): (r: View)
    requires v.index <= |events|
    ensures r.index <= |events|
  {
    var start := if MustRewind(events, v, t) then Rewound(v) else v;
    PlayTo(events, start, FirstAfter(events, start.index, t))
  }

  class SessionReplay {
    const events: seq<LogEvent>
    var screen: Screen
    var currentIndex: nat
    var cols: nat
    var rows: nat

    function State(): View
      reads this
    {
      View(screen, currentIndex, cols, rows)
    }

    constructor (events: seq<LogEvent>, cols: nat, rows: nat)
      ensures this.events == events
      ensures State() == View(Blank(rows, cols), 0, cols, rows)
    {
      this.events := events;
      screen := Blank(rows, cols);
      currentIndex := 0;
      this.cols := cols;
      this.rows := rows;
    }

    method StepForward() returns (stepped: bool)
      modifies this
      ensures stepped <==> old(currentIndex) < |events|
      ensures State() == if stepped then Apply(old(State()), events[old(currentIndex)]) else old(State())
    {
      if currentIndex >= |events| {
        return false;
      }
      var event := events[currentIndex];
      match event.payload {
        case Output(data) =>
          screen := Processed(screen, data);
        case Meta(json) =>
          if json.Some? && Field(json.value, "type") == Some(Text("resize")) {
            var c, r := Unsigned(json.value, "cols"), Unsigned(json.value, "rows");
            cols := Truncated(if c.Some? then c.value else cols);
            rows := Truncated(if r.Some? then r.value else rows);
            screen := Resized(screen, rows, cols);
          }
        case Input =>
      }
      currentIndex := currentIndex + 1;
      return true;
    }

    method SeekToIndex(idx: nat)
      requires currentIndex <= |events|
      modifies this
      ensures State() == SeekIndex(events, old(State()), idx)
    {
      var target := Min(idx, |events|);
      if target < currentIndex {
        screen := Blank(rows, cols);
        currentIndex := 0;
      }
      while currentIndex < target
        invariant currentIndex <= target
        invariant PlayTo(events, State(), target) == SeekIndex(events, old(State()), idx)
      {
        var _ := StepForward();
      }
    }

    method SeekToTimestamp(ts: nat)
      requires currentIndex <= |events|
      modifies this
      ensures State() == SeekTimestamp(events, old(State()), ts)
    {
      if currentIndex > 0 && events[currentIndex - 1].timestampMs > ts {
        screen := Blank(rows, cols);
        currentIndex := 0;
      }
      ghost var target := FirstAfter(events, currentIndex, ts);
      while currentIndex < |events| && events[currentIndex].timestampMs <= ts
        invariant currentIndex <= target && target == FirstAfter(events, currentIndex, ts)
        invariant PlayTo(events, State(), target) == SeekTimestamp(events, old(State()), ts)
        decreases |events| - currentIndex
      {
        var _ := StepForward();
      }
    }
  }

  // ----- where seeks end

  predicate Sorted(events: seq<LogEvent>) {
    forall i, j | 0 <= i < j < |events| :: events[i].timestampMs <= events[j].timestampMs
  }

  function CountUpTo(events: seq<LogEvent>, t: nat): nat {
    if events == [] then 0
    else CountUpTo(events[..|events| - 1], t) + if events[|events| - 1].timestampMs <= t then 1 else 0
  }

  lemma {:induction false} CountSplit(events: seq<LogEvent>, k: nat, t: nat)
    requires k <= |events|
    requires forall i | 0 <= i < k :: events[i].timestampMs <= t
    requires forall i | k <= i < |events| :: events[i].timestampMs > t
    ensures CountUpTo(events, t) == k
  {
    if events != [] {
      CountSplit(events[..|events| - 1], if k == |events| then k - 1 else k, t);
    }
  }

  /** On a log in time order, from any position, seeking to `t` ends after exactly the events no later than `t`. */
  lemma SeekTimestampEndsAtCount(events: seq<LogEvent>, v: View, t: nat)
    requires Sorted(events) && v.index <= |events|
    ensures SeekTimestamp(events, v, t).index == CountUpTo(events, t)
  {
    CountSplit(events, SeekTimestamp(events, v, t).index, t);
  }

  // ----- what the screen shows

  datatype Seek = ToIndex(i: nat) | ToTimestamp(t: nat) | Forward

  function Sought(events: seq<LogEvent>, v: View, s: Seek): (r: View)
    requires v.index <= |events|
    ensures r.index <= |events|
  {
    match s
    case ToIndex(i) => SeekIndex(events, v, i)
    case ToTimestamp(t) => SeekTimestamp(events, v, t)
    case Forward => if v.index < |events| then Apply(v, events[v.index]) else v
  }

  function RunSeeks(events: seq<LogEvent>, v: View, seeks: seq<Seek>): (r: View)
    requires v.index <= |events|
    ensures r.index <= |events|
  {
    if seeks == [] then v else Sought(events, RunSeeks(events, v, seeks[..|seeks| - 1]), seeks[|seeks| - 1])
  }

  /** A fresh forward replay of the first `k` events. */
  function Replayed(events: seq<LogEvent>, cols: nat, rows: nat, k: nat): View
    requires k <= |events|
  {
    PlayTo(events, View(Blank(rows, cols), 0, cols, rows), k)
  }

  function Start(cols: nat, rows: nat): View {
    View(Blank(rows, cols), 0, cols, rows)
  }

  lemma {:induction false} PlayToSplits(events: seq<LogEvent>, v: View, mid: nat, target: nat)
    requires v.index <= mid <= target <= |events|
    ensures PlayTo(events, v, target) == PlayTo(events, PlayTo(events, v, mid), target)
    decreases mid - v.index
  {
    if v.index < mid {
      PlayToSplits(events, Apply(v, events[v.index]), mid, target);
    }
  }

  /** The dimensions a replay was last started or rewound with. */
  function BaseDims(s: Screen): (nat, nat) {
    match s
    case Blank(rows, cols) => (cols, rows)
    case Processed(before, _) => BaseDims(before)
    case Resized(before, _, _) => BaseDims(before)
  }

  /** The view is the forward replay of its prefix from a blank screen at the dimensions of the last reset. */
  ghost predicate Faithful(events: seq<LogEvent>, v: View) {
    && v.index <= |events|
    && var (cols, rows) := BaseDims(v.screen);
       v == Replayed(events, cols, rows, v.index)
  }

  lemma {:induction false} PlayToKeepsBase(events: seq<LogEvent>, v: View, target: nat)
    requires v.index <= target <= |events|
    ensures BaseDims(PlayTo(events, v, target).screen) == BaseDims(v.screen)
    decreases target - v.index
  {
    if v.index < target {
      PlayToKeepsBase(events, Apply(v, events[v.index]), target);
    }
  }

  /** A seek starts over exactly when it goes back: to an earlier position, or to a time before the last event played.
      It then starts at the dimensions of the moment, and otherwise goes on from where the screen is. */
  lemma SeekRewindsIff(events: seq<LogEvent>, v: View, i: nat, t: nat)
    requires v.index <= |events|
    ensures BaseDims(SeekIndex(events, v, i).screen) == if i < v.index then (v.cols, v.rows) else BaseDims(v.screen)
    ensures BaseDims(SeekTimestamp(events, v, t).screen)
            == if 0 < v.index && t < events[v.index - 1].timestampMs then (v.cols, v.rows) else BaseDims(v.screen)
  {
    var target := Min(i, |events|);
    PlayToKeepsBase(events, if target < v.index then Rewound(v) else v, target);
    var start := if MustRewind(events, v, t) then Rewound(v) else v;
    PlayToKeepsBase(events, start, FirstAfter(events, start.index, t));
  }

  lemma PlayToKeepsFaithful(events: seq<LogEvent>, v: View, target: nat)
    requires Faithful(events, v) && v.index <= target <= |events|
    ensures Faithful(events, PlayTo(events, v, target))
  {
    var (cols, rows) := BaseDims(v.screen);
    PlayToSplits(events, Start(cols, rows), v.index, target);
    PlayToKeepsBase(events, v, target);
  }

  lemma SoughtKeepsFaithful(events: seq<LogEvent>, v: View, s: Seek)
    requires Faithful(events, v)
    ensures Faithful(events, Sought(events, v, s))
  {
    match s
    case ToIndex(i) =>
      var target := Min(i, |events|);
      PlayToKeepsFaithful(events, if target < v.index then Rewound(v) else v, target);
    case ToTimestamp(t) =>
      var start := if MustRewind(events, v, t) then Rewound(v) else v;
      PlayToKeepsFaithful(events, start, FirstAfter(events, start.index, t));
    case Forward =>
      if v.index < |events| {
        assert PlayTo(events, v, v.index + 1) == Apply(v, events[v.index]);
        PlayToKeepsFaithful(events, v, v.index + 1);
      }
  }

  /** Any history of steps and seeks leaves the fold of the current prefix over a blank screen. */
  lemma {:induction false} EveryRunIsFaithful(events: seq<LogEvent>, cols: nat, rows: nat, seeks: seq<Seek>)
    ensures Faithful(events, RunSeeks(events, Start(cols, rows), seeks))
  {
    if seeks != [] {
      EveryRunIsFaithful(events, cols, rows, seeks[..|seeks| - 1]);
      SoughtKeepsFaithful(events, RunSeeks(events, Start(cols, rows), seeks[..|seeks| - 1]), seeks[|seeks| - 1]);
    }
  }

  // ----- what an emulator makes of the calls

  /** A terminal emulator: any state with the three operations replay uses. */
  datatype Emulator<!S> = Emulator(blank: (nat, nat) -> S, process: (S, seq<Byte>) -> S, resize: (S, nat, nat) -> S)

  /** The emulator's state after the calls. */
  function Shown<S>(em: Emulator<S>, s: Screen): S {
    match s
    case Blank(rows, cols) => em.blank(rows, cols)
    case Processed(before, data) => em.process(Shown(em, before), data)
    case Resized(before, rows, cols) => em.resize(Shown(em, before), rows, cols)
  }

  /** A replay run straight on an emulator: its state and the dimensions in force. */
  datatype Terminal<!S> = Terminal(state: S, cols: nat, rows: nat)

  /** The first `k` events on an emulator, started blank: output is processed, a resize resizes to the dimensions it
      gives, keeping one it does not give, and nothing else does anything. */
  function OnEmulator<S>(em: Emulator<S>, events: seq<LogEvent>, cols: nat, rows: nat, k: nat): Terminal<S>
    requires k <= |events|
  {
    if k == 0 then Terminal(em.blank(rows, cols), cols, rows)
    else
      var t := OnEmulator(em, events, cols, rows, k - 1);
      match events[k - 1].payload
      case Output(data) => t.(state := em.process(t.state, data))
      case Meta(json) =>
        if json.Some? && Asked(json.value, "type") == Some(Text("resize")) then
          var c, r := Dim(Asked(json.value, "cols"), t.cols), Dim(Asked(json.value, "rows"), t.rows);
          Terminal(em.resize(t.state, r, c), c, r)
        else t
      case Input => t
  }

  function Asked(json: Json, key: string): Option<Json> {
    match json
    case Object(fields) => if key in fields then Some(fields[key]) else None
    case _ => None
  }

  /** A dimension asked for, 64 bits cut to 16; anything that is no such number leaves the current one. */
  function Dim(asked: Option<Json>, current: nat): nat {
    match asked
    case Some(Number(n)) => if n < 18446744073709551616 then n % 65536 else current % 65536
    case _ => current % 65536
  }

  lemma {:induction false} ForwardReplayOnEmulator<S>(em: Emulator<S>, events: seq<LogEvent>, cols: nat, rows: nat,
                                                      k: nat)
    requires k <= |events|
    ensures var v, t := Replayed(events, cols, rows, k), OnEmulator(em, events, cols, rows, k);
            Shown(em, v.screen) == t.state && v.cols == t.cols && v.rows == t.rows
  {
    if k > 0 {
      ForwardReplayOnEmulator(em, events, cols, rows, k - 1);
      PlayToSplits(events, Start(cols, rows), k - 1, k);
      var v := Replayed(events, cols, rows, k - 1);
      assert PlayTo(events, v, k) == Apply(v, events[k - 1]);
    }
  }

  /** Any history of steps and seeks shows, on every emulator, the events up to its position run straight on it from a
      blank screen of the size of the last reset. */
  lemma EveryRunOnEmulator<S>(em: Emulator<S>, events: seq<LogEvent>, cols: nat, rows: nat, seeks: seq<Seek>)
    ensures var v := RunSeeks(events, Start(cols, rows), seeks);
            var (c, r) := BaseDims(v.screen);
            var t := OnEmulator(em, events, c, r, v.index);
            Shown(em, v.screen) == t.state && v.cols == t.cols && v.rows == t.rows
  {
    var v := RunSeeks(events, Start(cols, rows), seeks);
    EveryRunIsFaithful(events, cols, rows, seeks);
    var (c, r) := BaseDims(v.screen);
    ForwardReplayOnEmulator(em, events, c, r, v.index);
  }

  /** The emulator that remembers every call. */
  function Recorder(): Emulator<Screen> {
    Emulator((rows, cols) => Blank(rows, cols),
             (s, data) => Processed(s, data),
             (s, rows, cols) => Resized(s, rows, cols))
  }

  lemma {:induction false} RecorderShowsCalls(s: Screen)
    ensures Shown(Recorder(), s) == s
  {
    match s
    case Blank(_, _) =>
    case Processed(before, _) => RecorderShowsCalls(before);
    case Resized(before, _, _) => RecorderShowsCalls(before);
  }

  /** No emulator tells the two screens apart. */
  ghost predicate Alike(a: Screen, b: Screen) {
    forall em: Emulator<Screen> :: Shown(em, a) == Shown(em, b)
  }

  lemma AlikeIffSameCalls(a: Screen, b: Screen)
    ensures Alike(a, b) <==> a == b
  {
    if Alike(a, b) {
      RecorderShowsCalls(a);
      RecorderShowsCalls(b);
      assert Shown(Recorder(), a) == Shown(Recorder(), b);
    }
  }

  /** Whatever the emulator, the screen is the one a fresh forward replay shows exactly when the last reset used the
      original dimensions; at others some emulator tells the difference. */
  lemma PathIndependentIffBaseUnchanged(events: seq<LogEvent>, cols: nat, rows: nat, seeks: seq<Seek>)
    ensures var v := RunSeeks(events, Start(cols, rows), seeks);
            Alike(v.screen, Replayed(events, cols, rows, v.index).screen) <==> BaseDims(v.screen) == (cols, rows)
  {
    var v := RunSeeks(events, Start(cols, rows), seeks);
    EveryRunIsFaithful(events, cols, rows, seeks);
    PlayToKeepsBase(events, Start(cols, rows), v.index);
    AlikeIffSameCalls(v.screen, Replayed(events, cols, rows, v.index).screen);
  }

  /** On an emulator that forgets the size of a blank screen when it is resized. */
  ghost predicate ForgetsBlankSize<S>(em: Emulator<S>) {
    forall rows, cols, rows', cols' :: em.resize(em.blank(rows, cols), rows', cols') == em.blank(rows', cols')
  }

  lemma {:induction false} SameShownPlaysOn<S>(em: Emulator<S>, events: seq<LogEvent>, a: View, b: View, target: nat)
    requires a.index == b.index <= target <= |events| && a.cols == b.cols && a.rows == b.rows
    requires Shown(em, a.screen) == Shown(em, b.screen)
    ensures Shown(em, PlayTo(events, a, target).screen) == Shown(em, PlayTo(events, b, target).screen)
    decreases target - a.index
  {
    if a.index < target {
      SameShownPlaysOn(em, events, Apply(a, events[a.index]), Apply(b, events[b.index]), target);
    }
  }

  /** There a log that opens with a full resize hides at what dimensions a rewind began: past the resize every screen is
      the one of a fresh forward replay. */
  lemma OpeningResizeHidesBase<S>(em: Emulator<S>, events: seq<LogEvent>, v: View, cols: nat, rows: nat, i: nat)
    requires ForgetsBlankSize(em) && v.index <= |events| && 0 < i < v.index
    requires events != [] && IsResize(events[0].payload)
    requires Unsigned(events[0].payload.json.value, "cols").Some?
             && Unsigned(events[0].payload.json.value, "rows").Some?
    ensures Shown(em, SeekIndex(events, v, i).screen) == Shown(em, Replayed(events, cols, rows, i).screen)
  {
    var a, b := Apply(Rewound(v), events[0]), Apply(Start(cols, rows), events[0]);
    assert Shown(em, a.screen) == em.blank(a.rows, a.cols) == Shown(em, b.screen);
    SameShownPlaysOn(em, events, a, b, i);
  }

  predicate NoResize(events: seq<LogEvent>) {
    forall e | e in events :: !IsResize(e.payload)
  }

  lemma {:induction false} NoResizeKeepsDims(events: seq<LogEvent>, v: View, target: nat)
    requires NoResize(events) && v.index <= target <= |events|
    ensures PlayTo(events, v, target).cols == v.cols && PlayTo(events, v, target).rows == v.rows
    decreases target - v.index
  {
    if v.index < target {
      NoResizeKeepsDims(events, Apply(v, events[v.index]), target);
    }
  }

  lemma {:induction false} NoResizeKeepsBase(events: seq<LogEvent>, cols: nat, rows: nat, seeks: seq<Seek>)
    requires NoResize(events)
    ensures var v := RunSeeks(events, Start(cols, rows), seeks);
            BaseDims(v.screen) == (cols, rows) && v.cols == cols && v.rows == rows
  {
    if seeks != [] {
      NoResizeKeepsBase(events, cols, rows, seeks[..|seeks| - 1]);
      var v := RunSeeks(events, Start(cols, rows), seeks[..|seeks| - 1]);
      match seeks[|seeks| - 1]
      case ToIndex(i) =>
        var target := Min(i, |events|);
        var from := if target < v.index then Rewound(v) else v;
        NoResizeKeepsDims(events, from, target);
        PlayToKeepsBase(events, from, target);
      case ToTimestamp(t) =>
        var from := if MustRewind(events, v, t) then Rewound(v) else v;
        NoResizeKeepsDims(events, from, FirstAfter(events, from.index, t));
        PlayToKeepsBase(events, from, FirstAfter(events, from.index, t));
      case Forward =>
        assert v.index < |events| ==> events[v.index] in events;
    }
  }

  /** Without resize events every seek history shows what a fresh forward replay shows. */
  lemma SeeksArePathIndependent(events: seq<LogEvent>, cols: nat, rows: nat, seeks: seq<Seek>)
    requires NoResize(events)
    ensures var v := RunSeeks(events, Start(cols, rows), seeks);
            v == Replayed(events, cols, rows, v.index)
  {
    NoResizeKeepsBase(events, cols, rows, seeks);
    EveryRunIsFaithful(events, cols, rows, seeks);
  }

  /** A rewinding seek restores the original screen on every emulator exactly when the view still has the original
      dimensions. */
  lemma RewindShowsOriginalIffDimsUnchanged(events: seq<LogEvent>, v: View, cols: nat, rows: nat, i: nat)
    requires v.index <= |events| && i < v.index
    ensures Alike(SeekIndex(events, v, i).screen, Replayed(events, cols, rows, i).screen)
            <==> v.cols == cols && v.rows == rows
  {
    PlayToKeepsBase(events, Rewound(v), i);
    PlayToKeepsBase(events, Start(cols, rows), i);
    AlikeIffSameCalls(SeekIndex(events, v, i).screen, Replayed(events, cols, rows, i).screen);
  }

  /** A resize to 100 columns, the rows kept. */
  lemma SomeResizeChangesDims()
    ensures var e := LogEvent(0, Meta(Some(Object(map["type" := Text("resize"), "cols" := Number(100)]))));
            IsResize(e.payload) && NewDim(e.payload, "cols", 80) == 100 && NewDim(e.payload, "rows", 24) == 24
  {
  }

  /** The least such log: stepping over one resize and seeking back leaves a blank screen of the wrong size. */
  lemma ResizeMakesRewindPathDependent(e: LogEvent)
    requires IsResize(e.payload) && (NewDim(e.payload, "cols", 80) != 80 || NewDim(e.payload, "rows", 24) != 24)
    ensures RunSeeks([e], Start(80, 24), [Forward, ToIndex(0)]).screen != Replayed([e], 80, 24, 0).screen
  {
    var seeks := [Forward, ToIndex(0)];
    assert seeks[..1] == [Forward] && seeks[..1][..0] == [];
    assert RunSeeks([e], Start(80, 24), seeks[..1][..0]) == Start(80, 24);
    assert RunSeeks([e], Start(80, 24), seeks[..1]) == Apply(Start(80, 24), e);
  }
}
