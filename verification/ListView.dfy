/** The session list on screen: separators, row indices and selection in src/replay_tui.rs. */
module ListView {
  import opened Naturals
  import opened Wrappers
  import opened EventLog

  const VISUAL_GAP_THRESHOLD_MS: nat := 60 * 60 * 1000

  /** The gap between entry `i` and the newer one above it is long enough for a separator. */
  predicate GapBefore(sessions: seq<SessionListEntry>, i: nat)
    requires 0 < i < |sessions|
  {
    var newerStart := sessions[i - 1].info.startedAtMs;
    var older := sessions[i].info;
    var olderEnd := if older.endedAtMs.Some? then older.endedAtMs.value else older.startedAtMs;
    SaturatingSub(newerStart, olderEnd) > VISUAL_GAP_THRESHOLD_MS
  }

  /** The entries among the first `k` that a separator precedes. */
  function Positions(sessions: seq<SessionListEntry>, k: nat): (ps: seq<nat>)
    requires k <= |sessions|
    ensures forall c | 0 <= c < |ps| :: 0 < ps[c] < k
  {
    if k <= 1 then []
    else Positions(sessions, k - 1) + if GapBefore(sessions, k - 1) then [k - 1] else []
  }

  method ComputeSeparatorPositions(sessions: seq<SessionListEntry>) returns (positions: seq<nat>)
    ensures positions == Positions(sessions, |sessions|)
  {
    positions := [];
    if |sessions| == 0 {
      return;
    }
    for i := 1 to |sessions|
      invariant positions == Positions(sessions, i)
    {
      var newerStart := sessions[i - 1].info.startedAtMs;
      var olderEnd := if sessions[i].info.endedAtMs.Some? then sessions[i].info.endedAtMs.value
                      else sessions[i].info.startedAtMs;
      if SaturatingSub(newerStart, olderEnd) > VISUAL_GAP_THRESHOLD_MS {
        positions := positions + [i];
      }
    }
  }

  function SeparatorVisualIndices(sepBefore: seq<nat>): (r: seq<nat>)
    ensures |r| == |sepBefore|
  {
    seq(|sepBefore|, c requires 0 <= c < |sepBefore| => sepBefore[c] + c)
  }

  function CountBelow(seps: seq<nat>, v: nat): (n: nat)
    ensures n <= |seps|
  {
    if seps == [] then 0 else CountBelow(seps[..|seps| - 1], v) + if seps[|seps| - 1] < v then 1 else 0
  }

  function VisualToSessionIdx(visual: nat, sepVisual: seq<nat>): Option<int> {
    if visual in sepVisual then None else Some(visual - CountBelow(sepVisual, visual))
  }

  // ----- the rows as drawn

  datatype Row = Separator | Session(i: nat)

  function Rows(sessions: seq<SessionListEntry>, k: nat): seq<Row>
    requires k <= |sessions|
  {
    if k == 0 then []
    else Rows(sessions, k - 1)
         + (if k > 1 && GapBefore(sessions, k - 1) then [Separator] else [])
         + [Session(k - 1)]
  }

  /** The row-building loop: a peeked iterator over the separator positions. */
  method RenderRows(sessions: seq<SessionListEntry>) returns (rows: seq<Row>)
    ensures rows == Rows(sessions, |sessions|)
  {
    var sepBefore := ComputeSeparatorPositions(sessions);
    var peeked := 0;
    rows := [];
    for i := 0 to |sessions|
      invariant peeked == |Positions(sessions, i)|
      invariant rows == Rows(sessions, i)
    {
      PositionsGrow(sessions, i, |sessions|);
      PositionsGrow(sessions, i + 1, |sessions|);
      if peeked < |sepBefore| && sepBefore[peeked] == i {
        PeekFindsGap(sessions, i);
        peeked := peeked + 1;
        rows := rows + [Separator];
      } else {
        PeekFindsGap(sessions, i);
      }
      rows := rows + [Session(i)];
    }
  }

  lemma {:induction false} PositionsGrow(sessions: seq<SessionListEntry>, k: nat, l: nat)
    requires k <= l <= |sessions|
    ensures Positions(sessions, k) <= Positions(sessions, l)
    ensures forall c | |Positions(sessions, k)| <= c < |Positions(sessions, l)| :: Positions(sessions, l)[c] >= k
    decreases l
  {
    if k < l {
      PositionsGrow(sessions, k, l - 1);
    }
  }

  /** The next position not yet consumed is `i` exactly when a gap precedes entry `i`. */
  lemma PeekFindsGap(sessions: seq<SessionListEntry>, i: nat)
    requires i < |sessions|
    ensures var ps, done := Positions(sessions, |sessions|), |Positions(sessions, i)|;
            (done < |ps| && ps[done] == i) <==> (i > 0 && GapBefore(sessions, i))
    ensures |Positions(sessions, i + 1)| == |Positions(sessions, i)| + if i > 0 && GapBefore(sessions, i) then 1 else 0
  {
    PositionsGrow(sessions, i, |sessions|);
    PositionsGrow(sessions, i + 1, |sessions|);
    var ps := Positions(sessions, |sessions|);
    var done := |Positions(sessions, i)|;
    if i > 0 && GapBefore(sessions, i) {
      assert Positions(sessions, i + 1)[done] == i;
    }
  }

  // ----- rows against index arithmetic

  function Seps(sessions: seq<SessionListEntry>, k: nat): seq<nat>
    requires k <= |sessions|
  {
    SeparatorVisualIndices(Positions(sessions, k))
  }

  lemma {:induction false} RowCount(sessions: seq<SessionListEntry>, k: nat)
    requires k <= |sessions|
    ensures |Rows(sessions, k)| == k + |Positions(sessions, k)|
  {
    if k > 0 {
      RowCount(sessions, k - 1);
    }
  }

  lemma {:induction false} SepsAreRows(sessions: seq<SessionListEntry>, k: nat)
    requires k <= |sessions|
    ensures forall c | 0 <= c < |Seps(sessions, k)| :: Seps(sessions, k)[c] < |Rows(sessions, k)|
  {
    RowCount(sessions, k);
  }

  lemma {:induction false} CountBelowAll(seps: seq<nat>, v: nat)
    requires forall c | 0 <= c < |seps| :: seps[c] < v
    ensures CountBelow(seps, v) == |seps|
  {
    if seps != [] {
      CountBelowAll(seps[..|seps| - 1], v);
    }
  }

  /** One more entry adds at most one separator, at the end of the rows so far. */
  lemma SepsNext(sessions: seq<SessionListEntry>, k: nat)
    requires k < |sessions|
    ensures Seps(sessions, k + 1)
            == if k > 0 && GapBefore(sessions, k) then Seps(sessions, k) + [|Rows(sessions, k)|] else Seps(sessions, k)
  {
    RowCount(sessions, k);
    var ps := Positions(sessions, k);
    if k > 0 && GapBefore(sessions, k) {
      assert Positions(sessions, k + 1) == ps + [k];
    } else if k > 0 {
      assert Positions(sessions, k + 1) == ps;
    }
  }

  lemma CountBelowNext(seps: seq<nat>, s: nat, v: nat)
    ensures CountBelow(seps + [s], v) == CountBelow(seps, v) + if s < v then 1 else 0
  {
    assert (seps + [s])[..|seps|] == seps;
  }

  ghost predicate RowMatches(rows: seq<Row>, seps: seq<nat>, v: nat)
    requires v < |rows|
  {
    if v in seps then rows[v] == Separator
    else rows[v].Session? && VisualToSessionIdx(v, seps) == Some(rows[v].i)
  }

  lemma SeparatorRowMatches(rows: seq<Row>, seps: seq<nat>, i: nat)
    requires |rows| == i + |seps| && forall c | 0 <= c < |seps| :: seps[c] < |rows|
    ensures var rows', seps' := rows + [Separator] + [Session(i)], seps + [|rows|];
            RowMatches(rows', seps', |rows|) && RowMatches(rows', seps', |rows| + 1)
  {
    var n := |rows|;
    assert (seps + [n])[|seps|] == n;
    CountBelowNext(seps, n, n + 1);
    CountBelowAll(seps, n + 1);
  }

  lemma SessionRowMatches(rows: seq<Row>, seps: seq<nat>, i: nat)
    requires |rows| == i + |seps| && forall c | 0 <= c < |seps| :: seps[c] < |rows|
    ensures RowMatches(rows + [] + [Session(i)], seps, |rows|)
  {
    CountBelowAll(seps, |rows|);
  }

  lemma RowsNext(sessions: seq<SessionListEntry>, k: nat)
    requires k < |sessions|
    ensures Rows(sessions, k + 1)
            == if k > 0 && GapBefore(sessions, k) then Rows(sessions, k) + [Separator] + [Session(k)]
               else Rows(sessions, k) + [] + [Session(k)]
  {
  }

  lemma NextRowsMatch(rows: seq<Row>, seps: seq<nat>, rows': seq<Row>, seps': seq<nat>, i: nat, gap: bool, v: nat)
    requires |rows| == i + |seps| && forall c | 0 <= c < |seps| :: seps[c] < |rows|
    requires rows' == if gap then rows + [Separator] + [Session(i)] else rows + [] + [Session(i)]
    requires seps' == if gap then seps + [|rows|] else seps
    requires |rows| <= v < |rows'|
    ensures RowMatches(rows', seps', v)
  {
    if gap {
      SeparatorRowMatches(rows, seps, i);
    } else {
      SessionRowMatches(rows, seps, i);
    }
  }

  lemma NewRowsMatch(sessions: seq<SessionListEntry>, k: nat, v: nat)
    requires k < |sessions| && |Rows(sessions, k)| <= v < |Rows(sessions, k + 1)|
    ensures RowMatches(Rows(sessions, k + 1), Seps(sessions, k + 1), v)
  {
    RowCount(sessions, k);
    SepsAreRows(sessions, k);
    SepsNext(sessions, k);
    RowsNext(sessions, k);
    NextRowsMatch(Rows(sessions, k), Seps(sessions, k), Rows(sessions, k + 1), Seps(sessions, k + 1), k,
                  k > 0 && GapBefore(sessions, k), v);
  }

  lemma OldRowsMatch(sessions: seq<SessionListEntry>, k: nat, v: nat)
    requires k < |sessions| && v < |Rows(sessions, k)|
    requires RowMatches(Rows(sessions, k), Seps(sessions, k), v)
    ensures v < |Rows(sessions, k + 1)| && RowMatches(Rows(sessions, k + 1), Seps(sessions, k + 1), v)
  {
    SepsNext(sessions, k);
    RowsNext(sessions, k);
    LongerRowsMatch(Rows(sessions, k), Seps(sessions, k), Rows(sessions, k + 1), Seps(sessions, k + 1), v);
  }

  lemma LongerRowsMatch(rows: seq<Row>, seps: seq<nat>, rows': seq<Row>, seps': seq<nat>, v: nat)
    requires v < |rows| && RowMatches(rows, seps, v)
    requires rows <= rows' && (seps' == seps || seps' == seps + [|rows|])
    ensures RowMatches(rows', seps', v)
  {
    CountBelowNext(seps, |rows|, v);
  }

  lemma {:induction false} AllRowsMatch(sessions: seq<SessionListEntry>, k: nat, v: nat)
    requires k <= |sessions| && v < |Rows(sessions, k)|
    ensures RowMatches(Rows(sessions, k), Seps(sessions, k), v)
  {
    if v < |Rows(sessions, k - 1)| {
      AllRowsMatch(sessions, k - 1, v);
      OldRowsMatch(sessions, k - 1, v);
    } else {
      NewRowsMatch(sessions, k - 1, v);
    }
  }

  /** The row drawn at each visual index is a separator exactly at the separator indices, and otherwise the session
      the arithmetic names: what the list shows is what Enter opens. */
  lemma RowsMatchIndices(sessions: seq<SessionListEntry>, v: nat)
    requires v < |Rows(sessions, |sessions|)|
    ensures var rows, seps := Rows(sessions, |sessions|), Seps(sessions, |sessions|);
            && |rows| == |sessions| + |seps|
            && (rows[v].Separator? <==> v in seps)
            && (v !in seps ==> VisualToSessionIdx(v, seps) == Some(rows[v].i))
  {
    RowCount(sessions, |sessions|);
    AllRowsMatch(sessions, |sessions|, v);
  }

  // ----- the rows of the sessions

  /** The visual index of session `i`. */
  function VisualOf(sessions: seq<SessionListEntry>, i: nat): nat
    requires i < |sessions|
  {
    i + |Positions(sessions, i + 1)|
  }

  lemma {:induction false} RowAtVisual(sessions: seq<SessionListEntry>, k: nat, i: nat)
    requires i < k <= |sessions|
    ensures VisualOf(sessions, i) < |Rows(sessions, k)| && Rows(sessions, k)[VisualOf(sessions, i)] == Session(i)
  {
    RowCount(sessions, k - 1);
    RowCount(sessions, k);
    if i < k - 1 {
      RowAtVisual(sessions, k - 1, i);
    }
  }

  lemma {:induction false} RowsNameSessions(sessions: seq<SessionListEntry>, k: nat, v: nat)
    requires k <= |sessions| && v < |Rows(sessions, k)| && Rows(sessions, k)[v].Session?
    ensures Rows(sessions, k)[v].i < k && v == VisualOf(sessions, Rows(sessions, k)[v].i)
  {
    RowCount(sessions, k - 1);
    RowCount(sessions, k);
    if v < |Rows(sessions, k - 1)| {
      RowsNameSessions(sessions, k - 1, v);
    }
  }

  lemma VisualStep(sessions: seq<SessionListEntry>, i: nat)
    requires i + 1 < |sessions|
    ensures VisualOf(sessions, i + 1) == VisualOf(sessions, i) + if GapBefore(sessions, i + 1) then 2 else 1
    ensures GapBefore(sessions, i + 1) <==> VisualOf(sessions, i) + 1 in Seps(sessions, |sessions|)
  {
    var n := |sessions|;
    RowCount(sessions, i + 1);
    RowCount(sessions, i + 2);
    RowAtVisual(sessions, n, i + 1);
    RowCount(sessions, n);
    RowsMatchIndices(sessions, VisualOf(sessions, i) + 1);
    if Rows(sessions, n)[VisualOf(sessions, i) + 1].Session? {
      RowsNameSessions(sessions, n, VisualOf(sessions, i) + 1);
      var j := Rows(sessions, n)[VisualOf(sessions, i) + 1].i;
      VisualMonotone(sessions, i + 1, j);
      VisualMonotone(sessions, j, i + 1);
      VisualMonotone(sessions, j, i);
    }
  }

  lemma {:induction false} VisualMonotone(sessions: seq<SessionListEntry>, i: nat, j: nat)
    requires i < |sessions| && j < |sessions|
    ensures i < j ==> VisualOf(sessions, i) < VisualOf(sessions, j)
    ensures i <= j ==> VisualOf(sessions, i) <= VisualOf(sessions, j)
  {
    if i <= j {
      PositionsGrow(sessions, i + 1, j + 1);
    }
  }

  /** The session rows are a strictly increasing bijection with the sessions: row `v` is session `i` exactly when
      `v` is the visual index of `i`. */
  lemma SessionRowsAreBijective(sessions: seq<SessionListEntry>, v: nat, i: nat)
    requires v < |sessions| + |Seps(sessions, |sessions|)| && i < |sessions|
    ensures VisualToSessionIdx(v, Seps(sessions, |sessions|)) == Some(i as int) <==> v == VisualOf(sessions, i)
    ensures i + 1 < |sessions| ==> VisualOf(sessions, i) < VisualOf(sessions, i + 1)
    ensures VisualToSessionIdx(v, Seps(sessions, |sessions|)).Some? ==>
              0 <= VisualToSessionIdx(v, Seps(sessions, |sessions|)).value < |sessions|
  {
    var n := |sessions|;
    RowCount(sessions, n);
    RowsMatchIndices(sessions, v);
    RowAtVisual(sessions, n, i);
    if Rows(sessions, n)[v].Session? {
      RowsNameSessions(sessions, n, v);
    }
    if i + 1 < n {
      VisualMonotone(sessions, i, i + 1);
    }
  }

  /** In milliseconds: a separator is drawn between two neighbours exactly when the newer one started more than an hour
      after the older one ended, or started if it has not ended. */
  lemma SeparatorsMarkLongPauses(sessions: seq<SessionListEntry>, i: nat)
    requires 0 < i < |sessions|
    ensures var older := sessions[i].info;
            var end := if older.endedAtMs.Some? then older.endedAtMs.value else older.startedAtMs;
            var above, here, rows := VisualOf(sessions, i - 1), VisualOf(sessions, i), Rows(sessions, |sessions|);
            if sessions[i - 1].info.startedAtMs > end + 3_600_000 then
              here == above + 2 && above + 1 < |rows| && rows[above + 1] == Separator
            else here == above + 1
  {
    VisualStep(sessions, i - 1);
    RowAtVisual(sessions, |sessions|, i);
    if GapBefore(sessions, i) {
      RowsMatchIndices(sessions, VisualOf(sessions, i - 1) + 1);
    }
  }

  // ----- moving the selection

  function SkipDown(next: nat, seps: seq<nat>, total: nat): (r: nat)
    decreases total - next
  {
    if next < total && next in seps then SkipDown(next + 1, seps, total) else next
  }

  function SkipUp(prev: nat, seps: seq<nat>): nat {
    if prev > 0 && prev in seps then SkipUp(prev - 1, seps) else prev
  }

  function Down(selected: Option<nat>, seps: seq<nat>, total: nat): Option<nat> {
    var next := SkipDown((if selected.Some? then selected.value else 0) + 1, seps, total);
    if next < total then Some(next) else selected
  }

  function Up(selected: Option<nat>, seps: seq<nat>): Option<nat> {
    if selected.None? || selected.value == 0 then selected
    else
      var prev := SkipUp(selected.value - 1, seps);
      if prev !in seps then Some(prev) else selected
  }

  /** `r` is the session of the row, if it has one. */
  predicate Names(row: Row, r: Option<int>) {
    match row
    case Session(i) => r == Some(i as int)
    case Separator => r == None
  }

  class SessionListState {
    var selected: Option<nat>
    var separatorIndices: seq<nat>

    constructor (sessions: seq<SessionListEntry>)
      ensures separatorIndices == Seps(sessions, |sessions|)
      ensures selected == if sessions == [] then None else Some(VisualOf(sessions, 0))
    {
      var sepBefore := ComputeSeparatorPositions(sessions);
      separatorIndices := SeparatorVisualIndices(sepBefore);
      selected := if sessions == [] then None else Some(0);
    }

    method MoveDown(numSessions: nat)
      modifies `selected
      ensures selected == Down(old(selected), separatorIndices, numSessions + |separatorIndices|)
    {
      var total := numSessions + |separatorIndices|;
      var current := if selected.Some? then selected.value else 0;
      var next := current + 1;
      while next < total && next in separatorIndices
        invariant SkipDown(next, separatorIndices, total) == SkipDown(current + 1, separatorIndices, total)
        decreases total - next
      {
        next := next + 1;
      }
      if next < total {
        selected := Some(next);
      }
    }

    method MoveUp()
      modifies `selected
      ensures selected == Up(old(selected), separatorIndices)
    {
      if selected.None? || selected.value == 0 {
        return;
      }
      var prev: nat := selected.value - 1;
      while prev > 0 && prev in separatorIndices
        invariant SkipUp(prev, separatorIndices) == SkipUp(selected.value - 1, separatorIndices)
      {
        prev := prev - 1;
      }
      if prev !in separatorIndices {
        selected := Some(prev);
      }
    }

    /** Whatever sessions the separators belong to, the one Enter opens is the one drawn on the selected row. */
    method SelectedSessionIdx() returns (r: Option<int>)
      ensures selected.None? ==> r.None?
      ensures forall sessions: seq<SessionListEntry>
                | separatorIndices == Seps(sessions, |sessions|) && selected.Some?
                  && selected.value < |Rows(sessions, |sessions|)| ::
                Names(Rows(sessions, |sessions|)[selected.value], r)
    {
      if selected.None? {
        return None;
      }
      forall sessions: seq<SessionListEntry>
        | separatorIndices == Seps(sessions, |sessions|) && selected.value < |Rows(sessions, |sessions|)|
        ensures var r := VisualToSessionIdx(selected.value, separatorIndices);
                Names(Rows(sessions, |sessions|)[selected.value], r)
      {
        RowsMatchIndices(sessions, selected.value);
      }
      return VisualToSessionIdx(selected.value, separatorIndices);
    }
  }

  lemma VisualIsNotSeparator(sessions: seq<SessionListEntry>, i: nat)
    requires i < |sessions|
    ensures VisualOf(sessions, i) !in Seps(sessions, |sessions|)
    ensures VisualOf(sessions, i) < |sessions| + |Seps(sessions, |sessions|)|
  {
    RowAtVisual(sessions, |sessions|, i);
    RowCount(sessions, |sessions|);
    RowsMatchIndices(sessions, VisualOf(sessions, i));
  }

  /** Moving down from a session reaches exactly the next one, and stays put on the last. */
  lemma DownReachesNext(sessions: seq<SessionListEntry>, i: nat)
    requires i < |sessions|
    ensures var seps, total := Seps(sessions, |sessions|), |sessions| + |Seps(sessions, |sessions|)|;
            Down(Some(VisualOf(sessions, i)), seps, total)
            == Some(VisualOf(sessions, if i + 1 < |sessions| then i + 1 else i))
  {
    var seps, total := Seps(sessions, |sessions|), |sessions| + |Seps(sessions, |sessions|)|;
    if i + 1 < |sessions| {
      VisualStep(sessions, i);
      VisualIsNotSeparator(sessions, i + 1);
      var next := VisualOf(sessions, i + 1);
      assert SkipDown(next, seps, total) == next;
      assert SkipDown(VisualOf(sessions, i) + 1, seps, total) == next;
    } else {
      RowCount(sessions, |sessions|);
      assert VisualOf(sessions, i) + 1 == total;
    }
  }

  /** Moving up from a session reaches exactly the previous one, and stays put on the first. */
  lemma UpReachesPrevious(sessions: seq<SessionListEntry>, i: nat)
    requires i < |sessions|
    ensures Up(Some(VisualOf(sessions, i)), Seps(sessions, |sessions|))
            == Some(VisualOf(sessions, if i > 0 then i - 1 else 0))
  {
    if i > 0 {
      VisualStep(sessions, i - 1);
      VisualIsNotSeparator(sessions, i - 1);
      VisualMonotone(sessions, 0, i);
      var seps, prev := Seps(sessions, |sessions|), VisualOf(sessions, i - 1);
      assert SkipUp(prev, seps) == prev;
      assert SkipUp(VisualOf(sessions, i) - 1, seps) == prev;
    }
  }

  lemma DownThenUp(sessions: seq<SessionListEntry>, i: nat)
    requires i < |sessions| && |sessions| > 1
    ensures var seps, total := Seps(sessions, |sessions|), |sessions| + |Seps(sessions, |sessions|)|;
            var at := Some(VisualOf(sessions, i));
            Up(Down(at, seps, total), seps) == at <==> i + 1 < |sessions|
  {
    DownReachesNext(sessions, i);
    if i + 1 < |sessions| {
      UpReachesPrevious(sessions, i + 1);
    } else {
      UpReachesPrevious(sessions, i);
      VisualMonotone(sessions, i - 1, i);
    }
  }

  lemma UpThenDown(sessions: seq<SessionListEntry>, i: nat)
    requires i < |sessions| && |sessions| > 1
    ensures var seps, total := Seps(sessions, |sessions|), |sessions| + |Seps(sessions, |sessions|)|;
            var at := Some(VisualOf(sessions, i));
            Down(Up(at, seps), seps, total) == at <==> i > 0
  {
    UpReachesPrevious(sessions, i);
    if i > 0 {
      DownReachesNext(sessions, i - 1);
    } else {
      DownReachesNext(sessions, 0);
      VisualMonotone(sessions, 0, 1);
    }
  }

  /** Each move undoes the other exactly when it moved: down then up returns unless it started on the last session,
      up then down unless it started on the first. */
  lemma MovesUndoEachOther(sessions: seq<SessionListEntry>, i: nat)
    requires i < |sessions| && |sessions| > 1
    ensures var seps, total := Seps(sessions, |sessions|), |sessions| + |Seps(sessions, |sessions|)|;
            var at := Some(VisualOf(sessions, i));
            && (Up(Down(at, seps, total), seps) == at <==> i + 1 < |sessions|)
            && (Down(Up(at, seps), seps, total) == at <==> i > 0)
  {
    DownThenUp(sessions, i);
    UpThenDown(sessions, i);
  }

  datatype Key = DownKey | UpKey

  /** The selection after the keys, on the list as it starts. */
  function Pressed(sessions: seq<SessionListEntry>, keys: seq<Key>): Option<nat> {
    if keys == [] then if sessions == [] then None else Some(VisualOf(sessions, 0))
    else
      var seps, before := Seps(sessions, |sessions|), Pressed(sessions, keys[..|keys| - 1]);
      match keys[|keys| - 1]
      case DownKey => Down(before, seps, |sessions| + |seps|)
      case UpKey => Up(before, seps)
  }

  /** The keys on a list of `n` sessions without separators, stopping at either end. */
  function Place(n: nat, keys: seq<Key>): nat {
    if keys == [] then 0
    else
      var i := Place(n, keys[..|keys| - 1]);
      match keys[|keys| - 1]
      case DownKey => if i + 1 < n then i + 1 else i
      case UpKey => if i > 0 then i - 1 else 0
  }

  /** Whatever keys are pressed, the selection is the row of the session that they lead to counting sessions alone; no
      key ever selects a separator, and an empty list selects nothing. */
  lemma {:induction false} SelectionFollowsKeys(sessions: seq<SessionListEntry>, keys: seq<Key>)
    ensures var place := Place(|sessions|, keys);
            if sessions == [] then Pressed(sessions, keys) == None
            else place < |sessions| && Pressed(sessions, keys) == Some(VisualOf(sessions, place))
  {
    if keys != [] {
      var init := keys[..|keys| - 1];
      SelectionFollowsKeys(sessions, init);
      if sessions != [] {
        DownReachesNext(sessions, Place(|sessions|, init));
        UpReachesPrevious(sessions, Place(|sessions|, init));
      }
    }
  }
}
