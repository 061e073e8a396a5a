/** Screen watchers: crates/tttt-mcp/src/notification.rs. */
module ScreenDiff {
  import opened Utf8

  /** The largest character boundary not above `n`. */
  function FloorBoundary(bytes: seq<Byte>, n: nat): (cut: nat)
    requires n <= |bytes|
    ensures cut <= n && IsBoundary(bytes, cut)
    ensures forall i | cut < i <= n :: !IsBoundary(bytes, i)
  {
    if IsBoundary(bytes, n) then n else FloorBoundary(bytes, n - 1)
  }

  /** What the watcher sees of `screen`: everything from the first changed character on. */
  function NewContent(prev: seq<Byte>, screen: seq<Byte>): seq<Byte> {
    screen[FloorBoundary(screen, CommonPrefix(prev, screen))..]
  }

  lemma {:induction false} CommonPrefixShared(e: seq<Byte>, a: seq<Byte>, b: seq<Byte>)
    ensures CommonPrefix(e + a, e + b) == |e| + CommonPrefix(a, b)
  {
    if e == [] {
      assert e + a == a && e + b == b;
    } else {
      assert (e + a)[1..] == e[1..] + a && (e + b)[1..] == e[1..] + b;
      CommonPrefixShared(e[1..], a, b);
    }
  }

  lemma SharedHead(head: seq<Byte>, head': seq<Byte>, a: seq<Byte>, b: seq<Byte>)
    requires head' <= a && head <= b && head != [] && head' != []
    requires head[0] == head'[0] ==> |head| == |head'|
    requires |head| <= CommonPrefix(a, b)
    ensures head == head'
  {
    var n := CommonPrefix(a, b);
    assert head == b[..n][..|head|] == a[..n][..|head|] == a[..|head|];
    assert head[0] == head'[0];
  }

  /** Texts that differ in their first character differ in its first bytes. */
  lemma SplitInsideFirstScalar(p: seq<Scalar>, c: seq<Scalar>)
    requires CommonPrefix(p, c) == 0 && c != []
    ensures CommonPrefix(Encode(p), Encode(c)) < |EncodeScalar(c[0])|
  {
    if p != [] && |EncodeScalar(c[0])| <= CommonPrefix(Encode(p), Encode(c)) {
      if EncodeScalar(c[0])[0] == EncodeScalar(p[0])[0] {
        LeadByteFixesLength(c[0], p[0]);
      }
      SharedHead(EncodeScalar(c[0]), EncodeScalar(p[0]), Encode(p), Encode(c));
      EncodeScalarPrefixFree(c[0], p[0]);
    }
  }

  /** The cut is the largest boundary up to `n`: any boundary with none above it will do. */
  lemma FloorIsLargest(bytes: seq<Byte>, n: nat, cut: nat)
    requires cut <= n <= |bytes| && IsBoundary(bytes, cut)
    requires forall i | cut < i <= n :: !IsBoundary(bytes, i)
    ensures FloorBoundary(bytes, n) == cut
  {
  }

  /** Strictly inside the encoding of a character there is no boundary. */
  lemma NoBoundaryInside(c: seq<Scalar>, k: nat, i: nat)
    requires k < |c| && |Encode(c[..k])| < i < |Encode(c[..k])| + |EncodeScalar(c[k])|
    ensures i < |Encode(c)| && !IsBoundary(Encode(c), i)
  {
    var e, head := Encode(c[..k]), EncodeScalar(c[k]);
    assert c == c[..k] + c[k..];
    EncodeConcat(c[..k], c[k..]);
    assert Encode(c[k..]) == head + Encode(c[k + 1..]) by {
      assert c[k..][1..] == c[k + 1..];
    }
    assert Encode(c) == e + head + Encode(c[k + 1..]);
    assert Encode(c)[i] == head[i - |e|];
  }

  /** Where the bytes part company, relative to where the characters do. */
  lemma BytesPartInsideCharacter(p: seq<Scalar>, c: seq<Scalar>)
    ensures var k, n := CommonPrefix(p, c), CommonPrefix(Encode(p), Encode(c));
            var e := |Encode(c[..k])|;
            e <= n && (if k < |c| then n < e + |EncodeScalar(c[k])| else n == e == |Encode(c)|)
  {
    var k := CommonPrefix(p, c);
    var e := Encode(c[..k]);
    var p', c' := p[k..], c[k..];
    assert p == c[..k] + p' && c == c[..k] + c';
    EncodeConcat(c[..k], p');
    EncodeConcat(c[..k], c');
    CommonPrefixShared(e, Encode(p'), Encode(c'));
    if c' != [] {
      SplitInsideFirstScalar(p', c');
    } else {
      assert c[..k] == c;
    }
  }

  lemma CutIsAtCharacter(p: seq<Scalar>, c: seq<Scalar>)
    ensures CommonPrefix(Encode(p), Encode(c)) <= |Encode(c)|
    ensures FloorBoundary(Encode(c), CommonPrefix(Encode(p), Encode(c))) == |Encode(c[..CommonPrefix(p, c)])|
  {
    var k, n := CommonPrefix(p, c), CommonPrefix(Encode(p), Encode(c));
    var e := |Encode(c[..k])|;
    BytesPartInsideCharacter(p, c);
    BoundaryIsScalarEdge(c, e);
    forall i | e < i <= n
      ensures !IsBoundary(Encode(c), i)
    {
      NoBoundaryInside(c, k, i);
    }
    FloorIsLargest(Encode(c), n, e);
  }

  /** The byte-level diff is the encoding of the code-point-level one: no character is ever cut. */
  lemma NewContentIsScalarSuffix(p: seq<Scalar>, c: seq<Scalar>)
    ensures NewContent(Encode(p), Encode(c)) == Encode(c[CommonPrefix(p, c)..])
  {
    var k := CommonPrefix(p, c);
    CutIsAtCharacter(p, c);
    EncodeSplit(c, k);
    NewContentAt(Encode(p), Encode(c), Encode(c[..k]), Encode(c[k..]));
  }

  lemma NewContentAt(prev: seq<Byte>, screen: seq<Byte>, kept: seq<Byte>, rest: seq<Byte>)
    requires screen == kept + rest
    requires FloorBoundary(screen, CommonPrefix(prev, screen)) == |kept|
    ensures NewContent(prev, screen) == rest
  {
  }
}

module Notification {
  import opened Wrappers
  import opened Utf8
  import opened ScreenDiff

  datatype Watcher = Watcher(
    id: string,
    watchSessionId: string,
    pattern: string,
    injectText: string,
    injectSessionId: string,
    oneShot: bool,
    fired: bool,
    lastScreen: Option<seq<Byte>>,
    matchWholeScreen: bool)

  datatype Injection = Injection(targetSessionId: string, text: string, watcherId: string)

  /** The fields of `NotificationRegistry` as one value. */
  datatype Registry = Registry(watchers: seq<Watcher>, nextId: nat)

  /** Regular expressions are a library: which patterns compile, and what they match. */
  datatype Regex = Regex(compiles: string -> bool, isMatch: (string, seq<Byte>) -> bool)

  function Decimal(n: nat): string {
    var digit := ['0' + (n % 10) as char];
    if n < 10 then digit else Decimal(n / 10) + digit
  }

  /** The number that decimal digits stand for. */
  function Value(digits: string): int {
    if digits == "" then 0
    else 10 * Value(digits[..|digits| - 1]) + (digits[|digits| - 1] as int - '0' as int)
  }

  lemma {:induction false} DecimalStandsForNumber(n: nat)
    ensures Value(Decimal(n)) == n && forall c | c in Decimal(n) :: '0' <= c <= '9'
  {
    var s := Decimal(n);
    if n >= 10 {
      DecimalStandsForNumber(n / 10);
      assert s[..|s| - 1] == Decimal(n / 10);
    }
  }

  function NotifyId(n: nat): string {
    "notify-" + Decimal(n)
  }

  lemma NotifyIdInjective(m: nat, n: nat)
    requires NotifyId(m) == NotifyId(n)
    ensures m == n
  {
    assert NotifyId(m)[7..] == Decimal(m) && NotifyId(n)[7..] == Decimal(n);
    DecimalStandsForNumber(m);
    DecimalStandsForNumber(n);
  }

  // ----- one watcher, one check

  /** Whether `w` injects when `screen` is checked for session `sid`. */
  predicate Fires(re: Regex, w: Watcher, sid: string, screen: seq<Byte>) {
    && w.watchSessionId == sid
    && !(w.fired && w.oneShot)
    && if w.matchWholeScreen then re.isMatch(w.pattern, screen)
       else w.lastScreen.Some?
            && var diff := NewContent(w.lastScreen.value, screen);
            diff != [] && re.isMatch(w.pattern, diff)
  }

  /** `w` after the check. */
  function Checked(re: Regex, w: Watcher, sid: string, screen: seq<Byte>): Watcher {
    if w.watchSessionId != sid || (w.fired && w.oneShot) then w
    else if w.matchWholeScreen then w.(fired := w.fired || Fires(re, w, sid, screen))
    else w.(lastScreen := Some(screen), fired := w.fired || Fires(re, w, sid, screen))
  }

  function InjectionOf(w: Watcher): Injection {
    Injection(w.injectSessionId, w.injectText, w.id)
  }

  // ----- the whole registry

  function Injections(re: Regex, ws: seq<Watcher>, sid: string, screen: seq<Byte>): seq<Injection> {
    if ws == [] then []
    else Injections(re, ws[..|ws| - 1], sid, screen)
         + (if Fires(re, ws[|ws| - 1], sid, screen) then [InjectionOf(ws[|ws| - 1])] else [])
  }

  function CheckedAll(re: Regex, ws: seq<Watcher>, sid: string, screen: seq<Byte>): seq<Watcher> {
    seq(|ws|, i requires 0 <= i < |ws| => Checked(re, ws[i], sid, screen))
  }

  /** `Vec::retain`. */
  function Retain(ws: seq<Watcher>, keep: Watcher -> bool): (r: seq<Watcher>)
    ensures forall w :: w in r <==> w in ws && keep(w)
    ensures |r| <= |ws|
    ensures |r| == |ws| <==> forall w | w in ws :: keep(w)
  {
    if ws == [] then []
    else
      assert forall w :: w in ws <==> w == ws[0] || w in ws[1..];
      (if keep(ws[0]) then [ws[0]] else []) + Retain(ws[1..], keep)
  }

  function Spent(): Watcher -> bool {
    (w: Watcher) => !(w.oneShot && w.fired)
  }

  function NotId(id: string): Watcher -> bool {
    (w: Watcher) => w.id != id
  }

  function AfterCheck(re: Regex, r: Registry, sid: string, screen: seq<Byte>): Registry {
    r.(watchers := Retain(CheckedAll(re, r.watchers, sid, screen), Spent()))
  }

  datatype Request = Request(
    watchSessionId: string,
    pattern: string,
    injectText: string,
    injectSessionId: string,
    oneShot: bool,
    matchWholeScreen: bool)

  function NewWatcher(q: Request, id: string): Watcher {
    Watcher(id, q.watchSessionId, q.pattern, q.injectText, q.injectSessionId, q.oneShot, false, None,
            q.matchWholeScreen)
  }

  function AfterAdd(re: Regex, r: Registry, q: Request): Registry {
    if re.compiles(q.pattern) then
      Registry(r.watchers + [NewWatcher(q, NotifyId(r.nextId))], r.nextId + 1)
    else r
  }

  class NotificationRegistry {
    var watchers: seq<Watcher>
    var nextId: nat
    const re: Regex

    function State(): Registry
      reads this
    {
      Registry(watchers, nextId)
    }

    constructor (re: Regex)
      ensures this.re == re
      ensures State() == Registry([], 1)
    {
      this.re := re;
      watchers := [];
      nextId := 1;
    }

    method AddWatcherInner(q: Request) returns (r: Result<string, string>)
      modifies this
      ensures State() == AfterAdd(re, old(State()), q)
      ensures r == if re.compiles(q.pattern) then Ok(NotifyId(old(nextId))) else Err("invalid regex")
    {
      if !re.compiles(q.pattern) {
        return Err("invalid regex");
      }
      var id := NotifyId(nextId);
      nextId := nextId + 1;
      watchers := watchers + [NewWatcher(q, id)];
      r := Ok(id);
    }

    method RemoveWatcher(id: string) returns (removed: bool)
      modifies this
      ensures State() == old(State()).(watchers := Retain(old(watchers), NotId(id)))
      ensures removed <==> exists w :: w in old(watchers) && w.id == id
    {
      var lenBefore := |watchers|;
      watchers := Retain(watchers, NotId(id));
      removed := |watchers| < lenBefore;
    }

    /** One turn of the loop over the watchers, on watcher `i`. */
    method CheckWatcher(i: nat, sid: string, screen: seq<Byte>) returns (fires: bool)
      requires i < |watchers|
      modifies `watchers
      ensures watchers == old(watchers)[i := Checked(re, old(watchers)[i], sid, screen)]
      ensures fires == Fires(re, old(watchers)[i], sid, screen)
    {
      var w := watchers[i];
      if w.watchSessionId != sid {
        return false;
      }
      if w.fired && w.oneShot {
        return false;
      }
      if w.matchWholeScreen {
        if re.isMatch(w.pattern, screen) {
          watchers := watchers[i := w.(fired := true)];
          return true;
        }
        return false;
      }
      if w.lastScreen.None? {
        watchers := watchers[i := w.(lastScreen := Some(screen))];
        return false;
      }
      var diff := NewContent(w.lastScreen.value, screen);
      w := w.(lastScreen := Some(screen));
      watchers := watchers[i := w];
      if diff == [] {
        return false;
      }
      if re.isMatch(w.pattern, diff) {
        watchers := watchers[i := w.(fired := true)];
        return true;
      }
      return false;
    }

    method CheckSession(sid: string, screen: seq<Byte>) returns (injections: seq<Injection>)
      modifies this
      ensures State() == AfterCheck(re, old(State()), sid, screen)
      ensures injections == Injections(re, old(watchers), sid, screen)
    {
      injections := [];
      var n := |watchers|;
      for i := 0 to n
        invariant |watchers| == n == |old(watchers)| && nextId == old(nextId)
        invariant forall j | 0 <= j < i :: watchers[j] == Checked(re, old(watchers)[j], sid, screen)
        invariant forall j | i <= j < n :: watchers[j] == old(watchers)[j]
        invariant injections == Injections(re, old(watchers)[..i], sid, screen)
      {
        var injection := InjectionOf(watchers[i]);
        assert old(watchers)[..i + 1][..i] == old(watchers)[..i];
        var fires := CheckWatcher(i, sid, screen);
        if fires {
          injections := injections + [injection];
        }
      }
      assert old(watchers)[..n] == old(watchers);
      assert watchers == CheckedAll(re, old(watchers), sid, screen);
      watchers := Retain(watchers, Spent());
    }
  }

  // ----- runs

  datatype Op =
    | Add(request: Request)
    | Remove(id: string)
    | Check(sid: string, screen: seq<Byte>)

  function StepState(re: Regex, r: Registry, op: Op): Registry {
    match op
    case Add(q) => AfterAdd(re, r, q)
    case Remove(id) => r.(watchers := Retain(r.watchers, NotId(id)))
    case Check(sid, screen) => AfterCheck(re, r, sid, screen)
  }

  function StepInjections(re: Regex, r: Registry, op: Op): seq<Injection> {
    if op.Check? then Injections(re, r.watchers, op.sid, op.screen) else []
  }

  function Run(re: Regex, r: Registry, ops: seq<Op>): Registry
    decreases ops
  {
    if ops == [] then r else Run(re, StepState(re, r, ops[0]), ops[1..])
  }

  function RunInjections(re: Regex, r: Registry, ops: seq<Op>): seq<Injection>
    decreases ops
  {
    if ops == [] then []
    else StepInjections(re, r, ops[0]) + RunInjections(re, StepState(re, r, ops[0]), ops[1..])
  }

  predicate IdUsed(r: Registry, id: string) {
    exists n :: 0 <= n < r.nextId && id == NotifyId(n)
  }

  predicate DistinctIds(ws: seq<Watcher>) {
    forall i, j | 0 <= i < j < |ws| :: ws[i].id != ws[j].id
  }

  ghost predicate Inv(r: Registry) {
    && DistinctIds(r.watchers)
    && (forall w | w in r.watchers :: IdUsed(r, w.id))
    && (forall w | w in r.watchers :: !(w.oneShot && w.fired))
  }

  lemma {:induction false} RetainKeepsDistinct(ws: seq<Watcher>, keep: Watcher -> bool)
    requires DistinctIds(ws)
    ensures DistinctIds(Retain(ws, keep))
  {
    if ws != [] {
      RetainKeepsDistinct(ws[1..], keep);
      var rest := Retain(ws[1..], keep);
      forall i | 0 <= i < |rest|
        ensures rest[i].id != ws[0].id
      {
        assert rest[i] in ws[1..];
      }
    }
  }

  /** Ids stay distinct and are never handed out twice, whatever is added, removed or checked. */
  lemma StepKeepsInv(re: Regex, r: Registry, op: Op)
    requires Inv(r)
    ensures Inv(StepState(re, r, op))
    ensures r.nextId <= StepState(re, r, op).nextId
    ensures forall id | IdUsed(r, id) :: IdUsed(StepState(re, r, op), id)
  {
    var r' := StepState(re, r, op);
    match op
    case Add(q) =>
      if re.compiles(q.pattern) {
        assert IdUsed(r', NotifyId(r.nextId));
        forall w | w in r.watchers
          ensures w.id != NotifyId(r.nextId)
        {
          var n :| 0 <= n < r.nextId && w.id == NotifyId(n);
          if w.id == NotifyId(r.nextId) {
            NotifyIdInjective(n, r.nextId);
          }
        }
      }
    case Remove(id) =>
      RetainKeepsDistinct(r.watchers, NotId(id));
    case Check(sid, screen) =>
      var ws := CheckedAll(re, r.watchers, sid, screen);
      assert forall i | 0 <= i < |ws| :: ws[i].id == r.watchers[i].id;
      RetainKeepsDistinct(ws, Spent());
      forall w | w in r'.watchers
        ensures IdUsed(r', w.id)
      {
        assert w in ws;
      }
  }

  /** How many of the injections came from watcher `id`. */
  function FiredBy(injections: seq<Injection>, id: string): nat {
    if injections == [] then 0
    else FiredBy(injections[..|injections| - 1], id)
         + if injections[|injections| - 1].watcherId == id then 1 else 0
  }

  lemma {:induction false} FiredByConcat(a: seq<Injection>, b: seq<Injection>, id: string)
    ensures FiredBy(a + b, id) == FiredBy(a, id) + FiredBy(b, id)
  {
    if b == [] {
      assert a + b == a;
    } else {
      assert (a + b)[..|a + b| - 1] == a + b[..|b| - 1];
      FiredByConcat(a, b[..|b| - 1], id);
    }
  }

  /** In one check every watcher is asked once. */
  lemma {:induction false} OneCheckFiresOnce(re: Regex, ws: seq<Watcher>, sid: string, screen: seq<Byte>, id: string)
    requires DistinctIds(ws)
    ensures FiredBy(Injections(re, ws, sid, screen), id)
            == if exists w :: w in ws && w.id == id && Fires(re, w, sid, screen) then 1 else 0
  {
    if ws != [] {
      var init, last := ws[..|ws| - 1], ws[|ws| - 1];
      assert ws == init + [last];
      assert forall w :: w in ws <==> w in init || w == last;
      OneCheckFiresOnce(re, init, sid, screen, id);
      var now := if Fires(re, last, sid, screen) then [InjectionOf(last)] else [];
      FiredByConcat(Injections(re, init, sid, screen), now, id);
      assert FiredBy(now, id) == if Fires(re, last, sid, screen) && last.id == id then 1 else 0;
      if last.id == id {
        assert forall w | w in init :: w.id != id;
      }
    }
  }

  ghost predicate Absent(r: Registry, id: string) {
    forall w | w in r.watchers :: w.id != id
  }

  /** A used id is never reintroduced. */
  lemma StepKeepsAbsent(re: Regex, r: Registry, op: Op, id: string)
    requires Inv(r) && IdUsed(r, id) && Absent(r, id)
    ensures Absent(StepState(re, r, op), id)
  {
    forall w | w in StepState(re, r, op).watchers
      ensures w.id != id
    {
      match op
      case Add(q) =>
        var n :| 0 <= n < r.nextId && id == NotifyId(n);
        if w.id == id && w !in r.watchers {
          NotifyIdInjective(n, r.nextId);
        }
      case Remove(_) =>
      case Check(sid, screen) =>
        assert w in CheckedAll(re, r.watchers, sid, screen);
    }
  }

  /** After a check a watcher is either where it was, updated, or gone for good. */
  lemma CheckedOrAbsent(re: Regex, r: Registry, sid: string, screen: seq<Byte>, w: Watcher)
    requires Inv(r) && w in r.watchers
    ensures var w1 := Checked(re, w, sid, screen);
            if Spent()(w1) then w1 in AfterCheck(re, r, sid, screen).watchers
            else Absent(AfterCheck(re, r, sid, screen), w.id)
  {
    var ws := CheckedAll(re, r.watchers, sid, screen);
    var w1 := Checked(re, w, sid, screen);
    var j :| 0 <= j < |r.watchers| && r.watchers[j] == w;
    assert ws[j] == w1;
    if !Spent()(w1) {
      forall v | v in Retain(ws, Spent())
        ensures v.id != w.id
      {
        SameIdSameWatcher(re, r, sid, screen, j, v);
      }
    }
  }

  lemma SameIdSameWatcher(re: Regex, r: Registry, sid: string, screen: seq<Byte>, j: nat, v: Watcher)
    requires DistinctIds(r.watchers) && j < |r.watchers| && v in CheckedAll(re, r.watchers, sid, screen)
    ensures v.id == r.watchers[j].id ==> v == Checked(re, r.watchers[j], sid, screen)
  {
    var ws := CheckedAll(re, r.watchers, sid, screen);
    var i :| 0 <= i < |ws| && ws[i] == v;
    assert v.id == r.watchers[i].id;
  }

  lemma {:induction false} AbsentStaysSilent(re: Regex, r: Registry, ops: seq<Op>, id: string)
    requires Inv(r) && IdUsed(r, id) && Absent(r, id)
    ensures FiredBy(RunInjections(re, r, ops), id) == 0
    ensures Absent(Run(re, r, ops), id)
    decreases ops
  {
    if ops != [] {
      var r' := StepState(re, r, ops[0]);
      StepKeepsInv(re, r, ops[0]);
      StepKeepsAbsent(re, r, ops[0], id);
      if ops[0].Check? {
        OneCheckFiresOnce(re, r.watchers, ops[0].sid, ops[0].screen, id);
      }
      AbsentStaysSilent(re, r', ops[1..], id);
      FiredByConcat(StepInjections(re, r, ops[0]), RunInjections(re, r', ops[1..]), id);
    }
  }

  ghost predicate OneShotOnly(r: Registry, id: string) {
    forall w | w in r.watchers && w.id == id :: w.oneShot
  }

  lemma StepKeepsOneShot(re: Regex, r: Registry, op: Op, id: string)
    requires Inv(r) && IdUsed(r, id) && OneShotOnly(r, id)
    ensures OneShotOnly(StepState(re, r, op), id)
  {
    forall w | w in StepState(re, r, op).watchers && w.id == id
      ensures w.oneShot
    {
      match op
      case Add(q) =>
        var n :| 0 <= n < r.nextId && id == NotifyId(n);
        if w !in r.watchers {
          NotifyIdInjective(n, r.nextId);
        }
      case Remove(_) =>
      case Check(sid, screen) =>
        assert w in CheckedAll(re, r.watchers, sid, screen);
    }
  }

  /** A one-shot watcher fires at most once in any run: firing removes it, and its id is not reused. */
  lemma {:induction false} OneShotFiresAtMostOnce(re: Regex, r: Registry, ops: seq<Op>, id: string)
    requires Inv(r) && IdUsed(r, id) && OneShotOnly(r, id)
    ensures FiredBy(RunInjections(re, r, ops), id) <= 1
    decreases ops
  {
    if ops != [] {
      var op := ops[0];
      var r' := StepState(re, r, op);
      StepKeepsInv(re, r, op);
      FiredByConcat(StepInjections(re, r, op), RunInjections(re, r', ops[1..]), id);
      if op.Check? {
        OneCheckFiresOnce(re, r.watchers, op.sid, op.screen, id);
      }
      if op.Check? && exists w :: w in r.watchers && w.id == id && Fires(re, w, op.sid, op.screen) {
        var w :| w in r.watchers && w.id == id && Fires(re, w, op.sid, op.screen);
        CheckedOrAbsent(re, r, op.sid, op.screen, w);
        AbsentStaysSilent(re, r', ops[1..], id);
      } else {
        StepKeepsOneShot(re, r, op, id);
        OneShotFiresAtMostOnce(re, r', ops[1..], id);
      }
    }
  }

  /** The screen most recently checked for `sid`, or `seen` if none was. */
  function LastChecked(ops: seq<Op>, sid: string, seen: Option<seq<Byte>>): Option<seq<Byte>> {
    if ops == [] then seen
    else
      var op := ops[0];
      LastChecked(ops[1..], sid, if op.Check? && op.sid == sid then Some(op.screen) else seen)
  }

  /** A diff-mode watcher compares each screen with the one checked just before it, from its registration on. */
  lemma {:induction false} DiffWatcherRemembersLastCheck(re: Regex, r: Registry, ops: seq<Op>, w: Watcher, w': Watcher)
    requires Inv(r) && w in r.watchers && !w.matchWholeScreen
    requires w' in Run(re, r, ops).watchers && w'.id == w.id
    ensures w' == w.(lastScreen := LastChecked(ops, w.watchSessionId, w.lastScreen), fired := w'.fired)
    decreases ops
  {
    if ops == [] {
      assert w' == w;
    } else {
      var op := ops[0];
      var r1 := StepState(re, r, op);
      StepKeepsInv(re, r, op);
      var w1 := if op.Check? then Checked(re, w, op.sid, op.screen) else w;
      if op.Check? {
        CheckedOrAbsent(re, r, op.sid, op.screen, w);
      }
      if w1 in r1.watchers {
        DiffWatcherRemembersLastCheck(re, r1, ops[1..], w1, w');
      } else {
        AbsentStaysSilent(re, r1, ops[1..], w.id);
        assert false;
      }
    }
  }

  /** A diff-mode watcher stays silent on its first check and on a screen equal to the previous one. */
  lemma DiffWatcherSilence(re: Regex, w: Watcher, sid: string, screen: seq<Byte>)
    requires !w.matchWholeScreen
    ensures w.lastScreen in {None, Some(screen)} ==> !Fires(re, w, sid, screen)
  {
    if w.lastScreen == Some(screen) {
      assert CommonPrefix(screen, screen) == |screen|;
    }
  }

  const EMPTY := Registry([], 1)

  lemma {:induction false} RunKeepsInv(re: Regex, r: Registry, ops: seq<Op>)
    requires Inv(r)
    ensures Inv(Run(re, r, ops))
    ensures r.nextId <= Run(re, r, ops).nextId
    decreases ops
  {
    if ops != [] {
      StepKeepsInv(re, r, ops[0]);
      RunKeepsInv(re, StepState(re, r, ops[0]), ops[1..]);
    }
  }

  /** From an empty registry: register a one-shot watcher after any history, and whatever follows fires it at most
      once. */
  lemma RegisteredOneShotFiresAtMostOnce(re: Regex, before: seq<Op>, q: Request, after: seq<Op>)
    requires q.oneShot && re.compiles(q.pattern)
    ensures var r := Run(re, EMPTY, before);
            FiredBy(RunInjections(re, AfterAdd(re, r, q), after), NotifyId(r.nextId)) <= 1
  {
    RunKeepsInv(re, EMPTY, before);
    var r := Run(re, EMPTY, before);
    var id := NotifyId(r.nextId);
    StepKeepsInv(re, r, Add(q));
    forall w | w in r.watchers
      ensures w.id != id
    {
      var n :| 0 <= n < r.nextId && w.id == NotifyId(n);
      if w.id == id {
        NotifyIdInjective(n, r.nextId);
      }
    }
    OneShotFiresAtMostOnce(re, AfterAdd(re, r, q), after, id);
  }

  /** After any run since its registration, a diff-mode watcher fires exactly when its pattern matches the
      characters after the longest common prefix of this screen and the last one checked. */
  lemma DiffWatcherFiresOnNewText(re: Regex, r: Registry, q: Request, ops: seq<Op>, w: Watcher, p: seq<Scalar>,
                                  c: seq<Scalar>)
    requires Inv(r) && re.compiles(q.pattern) && !q.matchWholeScreen
    requires w in Run(re, AfterAdd(re, r, q), ops).watchers && w.id == NotifyId(r.nextId)
    requires LastChecked(ops, q.watchSessionId, None) == Some(Encode(p))
    ensures var suffix := c[CommonPrefix(p, c)..];
            Fires(re, w, q.watchSessionId, Encode(c)) <==> suffix != [] && re.isMatch(q.pattern, Encode(suffix))
  {
    var added := NewWatcher(q, NotifyId(r.nextId));
    var r1 := AfterAdd(re, r, q);
    StepKeepsInv(re, r, Add(q));
    assert added == r1.watchers[|r.watchers|];
    DiffWatcherRemembersLastCheck(re, r1, ops, added, w);
    RunKeepsInv(re, r1, ops);
    NewContentIsScalarSuffix(p, c);
    EncodeIsEmpty(c[CommonPrefix(p, c)..]);
  }

  // ----- from the request to the injection

  lemma {:induction false} InjectionsComeFromWatchers(re: Regex, ws: seq<Watcher>, sid: string, screen: seq<Byte>)
    ensures forall inj | inj in Injections(re, ws, sid, screen) ::
              exists w :: w in ws && Fires(re, w, sid, screen)
                          && inj == Injection(w.injectSessionId, w.injectText, w.id)
  {
    if ws != [] {
      var init, last := ws[..|ws| - 1], ws[|ws| - 1];
      InjectionsComeFromWatchers(re, init, sid, screen);
      forall inj | inj in Injections(re, ws, sid, screen)
        ensures exists w :: w in ws && Fires(re, w, sid, screen)
                            && inj == Injection(w.injectSessionId, w.injectText, w.id)
      {
        if inj in Injections(re, init, sid, screen) {
          var w :| w in init && Fires(re, w, sid, screen) && inj == Injection(w.injectSessionId, w.injectText, w.id);
          assert w in ws;
        } else {
          assert last in ws;
        }
      }
    }
  }

  /** Injections come in the order of the watchers. */
  lemma InjectionsKeepOrder(re: Regex, before: seq<Watcher>, after: seq<Watcher>, sid: string, screen: seq<Byte>)
    ensures Injections(re, before + after, sid, screen)
            == Injections(re, before, sid, screen) + Injections(re, after, sid, screen)
    decreases after
  {
    if after == [] {
      assert before + after == before;
    } else {
      var init, last := after[..|after| - 1], after[|after| - 1];
      assert before + after == (before + init) + [last];
      InjectionsKeepOrder(re, before, init, sid, screen);
    }
  }

  /** Removed by name, or used up. */
  predicate Gone(re: Regex, r: Registry, ops: seq<Op>, id: string, oneShot: bool) {
    Remove(id) in ops || (oneShot && FiredBy(RunInjections(re, r, ops), id) > 0)
  }

  /** `w'` is `w` with its memory brought up to date, whether or not it has fired. */
  predicate Remembers(w: Watcher, w': Watcher, ops: seq<Op>) {
    var seen := if w.matchWholeScreen then w.lastScreen else LastChecked(ops, w.watchSessionId, w.lastScreen);
    w' == w.(lastScreen := seen, fired := w'.fired)
  }

  /** What a watcher has become: as it was, but for its memory and its having fired. */
  predicate Became(re: Regex, r: Registry, ops: seq<Op>, w: Watcher, w': Watcher) {
    Remembers(w, w', ops) && (w'.fired <==> w.fired || FiredBy(RunInjections(re, r, ops), w.id) > 0)
  }

  lemma GoneStep(re: Regex, r: Registry, ops: seq<Op>, id: string, oneShot: bool)
    requires ops != []
    ensures Gone(re, r, ops, id, oneShot)
            <==> || ops[0] == Remove(id) || (oneShot && FiredBy(StepInjections(re, r, ops[0]), id) > 0)
                 || Gone(re, StepState(re, r, ops[0]), ops[1..], id, oneShot)
  {
    FiredByConcat(StepInjections(re, r, ops[0]), RunInjections(re, StepState(re, r, ops[0]), ops[1..]), id);
    assert ops == [ops[0]] + ops[1..];
  }

  /** One step on a watcher that is there: it is gone, or it is there, changed as the step says. */
  lemma StepOfWatcher(re: Regex, r: Registry, op: Op, w: Watcher)
    requires Inv(r) && w in r.watchers
    ensures var r', w' := StepState(re, r, op), if op.Check? then Checked(re, w, op.sid, op.screen) else w;
            && IdUsed(r', w.id) && (w'.fired <==> w.fired || FiredBy(StepInjections(re, r, op), w.id) > 0)
            && var over := op == Remove(w.id) || (w.oneShot && FiredBy(StepInjections(re, r, op), w.id) > 0);
               if over then Absent(r', w.id)
               else w' in r'.watchers
  {
    StepKeepsInv(re, r, op);
    if op.Check? {
      OneCheckFiresOnce(re, r.watchers, op.sid, op.screen, w.id);
      CheckedOrAbsent(re, r, op.sid, op.screen, w);
      SameWatcherFires(r, w, re, op.sid, op.screen);
    }
  }

  lemma SameWatcherFires(r: Registry, w: Watcher, re: Regex, sid: string, screen: seq<Byte>)
    requires DistinctIds(r.watchers) && w in r.watchers
    ensures (exists x :: x in r.watchers && x.id == w.id && Fires(re, x, sid, screen)) <==> Fires(re, w, sid, screen)
  {
    OnlyOneOfId(r, w);
  }

  lemma BecomesStepwise(re: Regex, r: Registry, ops: seq<Op>, w: Watcher, w1: Watcher, w': Watcher)
    requires ops != [] && w1 == if ops[0].Check? then Checked(re, w, ops[0].sid, ops[0].screen) else w
    requires !(w.oneShot && w.fired) && (w1.fired <==> w.fired || FiredBy(StepInjections(re, r, ops[0]), w.id) > 0)
    requires Became(re, StepState(re, r, ops[0]), ops[1..], w1, w')
    ensures Became(re, r, ops, w, w')
  {
    FiredByConcat(StepInjections(re, r, ops[0]), RunInjections(re, StepState(re, r, ops[0]), ops[1..]), w.id);
  }

  lemma {:induction false} WatcherLivesUntilGone(re: Regex, r: Registry, ops: seq<Op>, w: Watcher)
    requires Inv(r) && w in r.watchers
    ensures if Gone(re, r, ops, w.id, w.oneShot) then Absent(Run(re, r, ops), w.id)
            else exists w' :: w' in Run(re, r, ops).watchers && Became(re, r, ops, w, w')
    decreases ops
  {
    if ops == [] {
      assert Became(re, r, ops, w, w);
    } else {
      var op := ops[0];
      var r1, w1 := StepState(re, r, op), if op.Check? then Checked(re, w, op.sid, op.screen) else w;
      StepKeepsInv(re, r, op);
      StepOfWatcher(re, r, op, w);
      GoneStep(re, r, ops, w.id, w.oneShot);
      if w1 in r1.watchers && !Absent(r1, w.id) {
        WatcherLivesUntilGone(re, r1, ops[1..], w1);
        if !Gone(re, r, ops, w.id, w.oneShot) {
          var w' :| w' in Run(re, r1, ops[1..]).watchers && Became(re, r1, ops[1..], w1, w');
          BecomesStepwise(re, r, ops, w, w1, w');
        }
      } else {
        AbsentStaysSilent(re, r1, ops[1..], w.id);
      }
    }
  }

  /** What a watcher for `q` looks for when `screen` is checked after `ops`. */
  predicate Seen(re: Regex, q: Request, ops: seq<Op>, screen: seq<Byte>) {
    if q.matchWholeScreen then re.isMatch(q.pattern, screen)
    else
      match LastChecked(ops, q.watchSessionId, None)
      case None => false
      case Some(before) => NewContent(before, screen) != [] && re.isMatch(q.pattern, NewContent(before, screen))
  }

  /** Register `q` after any history. From then on every check injects under its id once or not at all: exactly when it
      is a check of the session it watches, shows what it looks for, and the watcher has not been removed nor, if
      one-shot, used up. What is injected is the requested text, into the requested session. */
  lemma CheckInjectsAsRequested(re: Regex, before: seq<Op>, q: Request, ops: seq<Op>, sid: string, screen: seq<Byte>)
    requires re.compiles(q.pattern)
    ensures var r := Run(re, EMPTY, before);
            var r1, id := AfterAdd(re, r, q), NotifyId(r.nextId);
            var injections := Injections(re, Run(re, r1, ops).watchers, sid, screen);
            && FiredBy(injections, id)
               == (if !Gone(re, r1, ops, id, q.oneShot) && sid == q.watchSessionId && Seen(re, q, ops, screen) then 1
                   else 0)
            && forall inj | inj in injections && inj.watcherId == id ::
                 inj.targetSessionId == q.injectSessionId && inj.text == q.injectText
  {
    RunKeepsInv(re, EMPTY, before);
    var r := Run(re, EMPTY, before);
    var r1, id := AfterAdd(re, r, q), NotifyId(r.nextId);
    StepKeepsInv(re, r, Add(q));
    var w := Watcher(id, q.watchSessionId, q.pattern, q.injectText, q.injectSessionId, q.oneShot, false, None,
                     q.matchWholeScreen);
    assert r1.watchers[|r.watchers|] == w;
    RunKeepsInv(re, r1, ops);
    WatcherLivesUntilGone(re, r1, ops, w);
    CheckOfWatcher(re, Run(re, r1, ops), q, ops, w, sid, screen, Gone(re, r1, ops, id, q.oneShot));
  }

  lemma CheckOfWatcher(re: Regex, r: Registry, q: Request, ops: seq<Op>, w: Watcher, sid: string, screen: seq<Byte>,
                       gone: bool)
    requires Inv(r)
    requires w == Watcher(w.id, q.watchSessionId, q.pattern, q.injectText, q.injectSessionId, q.oneShot, false, None,
                          q.matchWholeScreen)
    requires if gone then Absent(r, w.id) else exists w' :: w' in r.watchers && Remembers(w, w', ops)
    ensures var injections := Injections(re, r.watchers, sid, screen);
            && FiredBy(injections, w.id)
               == (if !gone && sid == q.watchSessionId && Seen(re, q, ops, screen) then 1 else 0)
            && forall inj | inj in injections && inj.watcherId == w.id ::
                 inj.targetSessionId == q.injectSessionId && inj.text == q.injectText
  {
    OneCheckFiresOnce(re, r.watchers, sid, screen, w.id);
    InjectionsComeFromWatchers(re, r.watchers, sid, screen);
    if !gone {
      var w' :| w' in r.watchers && Remembers(w, w', ops);
      SameWatcherFires(r, w', re, sid, screen);
      OnlyOneOfId(r, w');
    }
  }

  lemma OnlyOneOfId(r: Registry, w: Watcher)
    requires DistinctIds(r.watchers) && w in r.watchers
    ensures forall x | x in r.watchers && x.id == w.id :: x == w
  {
    var i :| 0 <= i < |r.watchers| && r.watchers[i] == w;
    forall x | x in r.watchers && x.id == w.id
      ensures x == w
    {
      var j :| 0 <= j < |r.watchers| && r.watchers[j] == x;
      assert i == j;
    }
  }
}
