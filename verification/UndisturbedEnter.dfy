/** An injection left to itself: what the delayed-Enter protocol then does, to the tick. */
module UndisturbedEnter {
  import opened InjectedEnter
  import opened InjectedEnterRuns

  /** When the next tick counts, the ticks that pressed Enter, and whether the injection has been given up. */
  datatype Course = Course(due: nat, enters: seq<nat>, ended: bool)

  /** Enter after 100 ms, again one, two and four seconds later, and a last look one second after that. */
  function OnTick(c: Course, now: nat): Course {
    if c.ended || now < c.due then c
    else if |c.enters| >= 4 then c.(ended := true)
    else
      var pause := if |c.enters| == 1 then 2_000_000_000 else if |c.enters| == 2 then 4_000_000_000 else 1_000_000_000;
      Course(now + pause, c.enters + [now], false)
  }

  function CourseOf(at: nat, ticks: seq<nat>): Course {
    if ticks == [] then Course(at + 100_000_000, [], false)
    else OnTick(CourseOf(at, ticks[..|ticks| - 1]), ticks[|ticks| - 1])
  }

  /** The instants of the ticks in a run. */
  function TickTimes(ops: seq<Op>): seq<nat> {
    if ops == [] then []
    else
      var last := ops[|ops| - 1];
      TickTimes(ops[..|ops| - 1]) + if last.Tick? then [last.now] else []
  }

  /** No input reaches the session from elsewhere, it prints nothing, stays open and running, and a tick finds no input
      queued for it, its text on the screen and its write taken. */
  predicate Spares(w: World, sid: string, op: Op) {
    match op
    case Tick(waiting, envs, _) =>
      && sid !in waiting
      && forall j | 0 <= j < |w.pending| && w.pending[j].sessionId == sid ::
           j < |envs| && envs[j].matches && envs[j].writeOk
    case OtherInput(s, _) => s != sid
    case Inject(s, _, _, _) => s != sid
    case OutputArrives(s, _) => s != sid
    case Exit(s) => s != sid
    case Remove(s) => s != sid
    case Open(s, _) => s != sid
  }

  predicate Undisturbed(w: World, sid: string, ops: seq<Op>)
    decreases ops
  {
    ops != [] ==> Spares(w, sid, ops[0]) && Undisturbed(Step(w, ops[0]), sid, ops[1..])
  }

  // ----- the state along the course

  predicate QuietSession(s: Session) {
    s.running && s.lastOutput <= s.lastInput
  }

  predicate HistOn(h: History, c: Course) {
    && h.enters == c.enters && |c.enters| <= 4
    && h.retriesSent == h.retryLogs == (if c.enters == [] then 0 else |c.enters| - 1)
    && h.ends == if c.ended then 1 else 0
  }

  predicate EntryOn(e: PendingEnter, s: Session, c: Course) {
    && !c.ended && e.fireAt == c.due && e.inputAt == s.lastInput && e.checks == e.retries && s.lastOutput <= c.due
    && if c.enters == [] then e.quietSince.None? && e.checks == 0
       else e.quietSince.Some? && s.lastOutput <= e.quietSince.value && e.checks + 1 == |c.enters| <= 4
  }

  /** The injection is entry `j`, the only one of its session. */
  predicate At(w: World, sid: string, serial: nat, c: Course, j: nat) {
    && sid in w.sessions && QuietSession(w.sessions[sid]) && w.sessions[sid].lastInput <= w.clock
    && HistOn(Hist(w.trace, serial), c) && serial < w.nextSerial
    && j < |w.pending| && w.pending[j].serial == serial && w.pending[j].sessionId == sid
    && EntryOn(w.pending[j], w.sessions[sid], c)
    && forall k | 0 <= k < |w.pending| && k != j :: w.pending[k].sessionId != sid && w.pending[k].serial != serial
  }

  /** It has been given up at its final check. */
  predicate Over(w: World, sid: string, serial: nat, c: Course) {
    && sid in w.sessions && serial < w.nextSerial
    && c.ended && HistOn(Hist(w.trace, serial), c) && |c.enters| == 4 && Ended(serial, FinalCheck) in w.trace
    && forall k | 0 <= k < |w.pending| :: w.pending[k].sessionId != sid && w.pending[k].serial != serial
  }

  ghost predicate OnCourse(w: World, sid: string, serial: nat, c: Course) {
    Over(w, sid, serial, c) || exists j :: At(w, sid, serial, c, j)
  }

  // ----- one visit

  lemma FirstVisitOnCourse(w: World, i: nat, waiting: set<string>, env: Env, now: nat, sid: string, serial: nat,
                           c: Course)
    requires At(w, sid, serial, c, i) && c.enters == [] && c.due <= now
    requires sid !in waiting && env.writeOk
    ensures At(Visit(w, i, waiting, env, now), sid, serial, OnTick(c, now), i)
  {
    var e := w.pending[i];
    var events := FirstEvents(w, e, waiting, env, now);
    FirstVisitIsLocal(w, i, waiting, env, now);
    HistExtends(w.trace, events, serial);
    assert events == [Due(serial, now), Enter(serial, now, false, true)];
    MoreOfFew(Hist(w.trace, serial), events[0], events[1], events[1], serial);
  }

  lemma RetryVisitOnCourse(w: World, i: nat, waiting: set<string>, env: Env, now: nat, sid: string, serial: nat,
                           c: Course)
    requires At(w, sid, serial, c, i) && 1 <= |c.enters| <= 3 && c.due <= now
    requires sid !in waiting && env.matches && env.writeOk
    ensures At(Visit(w, i, waiting, env, now), sid, serial, OnTick(c, now), i)
  {
    var e := w.pending[i];
    var events := RetryEvents(w, e, waiting, env, now);
    RetryVisitIsLocal(w, i, waiting, env, now);
    HistExtends(w.trace, events, serial);
    assert events == [Due(serial, now), Enter(serial, now, true, true), RetryLogged(serial, e.retries + 1)];
    MoreOfFew(Hist(w.trace, serial), events[0], events[1], events[2], serial);
  }

  lemma FinalVisitOnCourse(w: World, i: nat, waiting: set<string>, env: Env, now: nat, sid: string, serial: nat,
                           c: Course)
    requires At(w, sid, serial, c, i) && |c.enters| == 4 && c.due <= now
    requires sid !in waiting && env.matches
    ensures Over(Visit(w, i, waiting, env, now), sid, serial, OnTick(c, now))
    ensures |Visit(w, i, waiting, env, now).pending| == |w.pending| - 1
  {
    var e, w' := w.pending[i], Visit(w, i, waiting, env, now);
    var events := RetryEvents(w, e, waiting, env, now);
    RetryVisitIsLocal(w, i, waiting, env, now);
    HistExtends(w.trace, events, serial);
    assert events == [Due(serial, now), Ended(serial, FinalCheck)];
    MoreOfFew(Hist(w.trace, serial), events[0], events[1], events[1], serial);
    assert w'.trace[|w.trace| + 1] == Ended(serial, FinalCheck);
    forall k | 0 <= k < |w'.pending|
      ensures w'.pending[k] == w.pending[if k < i then k else k + 1]
    {
    }
  }

  lemma OtherVisitHistory(w: World, i: nat, waiting: set<string>, env: Env, now: nat, serial: nat)
    requires i < |w.pending| && w.pending[i].serial != serial
    ensures var w' := Visit(w, i, waiting, env, now);
            && Hist(w'.trace, serial) == Hist(w.trace, serial) && w.trace <= w'.trace && w'.nextSerial == w.nextSerial
            && w.clock <= w'.clock
  {
    var events := VisitIsLocal(w, i, waiting, env, now);
    HistExtends(w.trace, events, serial);
    OthersEventsAddNothing(Hist(w.trace, serial), events, serial);
  }

  lemma OtherVisitSession(w: World, i: nat, waiting: set<string>, env: Env, now: nat, sid: string)
    requires i < |w.pending| && w.pending[i].sessionId != sid && sid in w.sessions
    ensures var w' := Visit(w, i, waiting, env, now); sid in w'.sessions && w'.sessions[sid] == w.sessions[sid]
  {
  }

  lemma OtherVisitEntries(w: World, i: nat, waiting: set<string>, env: Env, now: nat)
    requires i < |w.pending|
    ensures var w' := Visit(w, i, waiting, env, now);
            && (forall k | 0 <= k < |w'.pending| && (k != i || |w'.pending| < |w.pending|) ::
                  w'.pending[k] == w.pending[if |w'.pending| == |w.pending| || k < i then k else k + 1])
            && (|w'.pending| == |w.pending| ==>
                  w'.pending[i].sessionId == w.pending[i].sessionId && w'.pending[i].serial == w.pending[i].serial)
  {
    var w' := Visit(w, i, waiting, env, now);
    var events := VisitIsLocal(w, i, waiting, env, now);
    if |w'.pending| != |w.pending| {
      forall k | 0 <= k < |w'.pending|
        ensures w'.pending[k] == w.pending[if k < i then k else k + 1]
      {
      }
    }
  }

  /** Another session's entry leaves this session, its entry and its history alone. */
  lemma OtherVisit(w: World, i: nat, waiting: set<string>, env: Env, now: nat, sid: string, serial: nat)
    requires i < |w.pending| && w.pending[i].sessionId != sid && w.pending[i].serial != serial && sid in w.sessions
    ensures var w' := Visit(w, i, waiting, env, now);
            && sid in w'.sessions && w'.sessions[sid] == w.sessions[sid] && w.clock <= w'.clock
            && Hist(w'.trace, serial) == Hist(w.trace, serial) && w.trace <= w'.trace && w'.nextSerial == w.nextSerial
            && (forall k | 0 <= k < |w'.pending| && (k != i || |w'.pending| < |w.pending|) ::
                  w'.pending[k] == w.pending[if |w'.pending| == |w.pending| || k < i then k else k + 1])
            && (|w'.pending| == |w.pending| ==>
                  w'.pending[i].sessionId == w.pending[i].sessionId && w'.pending[i].serial == w.pending[i].serial)
  {
    OtherVisitHistory(w, i, waiting, env, now, serial);
    OtherVisitSession(w, i, waiting, env, now, sid);
    OtherVisitEntries(w, i, waiting, env, now);
  }

  /** Where entry `j` stands once entry `i` has been visited. */
  function Moved(w: World, w': World, i: nat, j: nat): nat
    requires i < |w.pending|
  {
    if |w'.pending| < |w.pending| && j > i then j - 1 else j
  }

  lemma OtherVisitKeepsAt(w: World, i: nat, waiting: set<string>, env: Env, now: nat, sid: string, serial: nat,
                          c: Course, j: nat)
    requires At(w, sid, serial, c, j) && i < |w.pending| && i != j
    ensures var w' := Visit(w, i, waiting, env, now); At(w', sid, serial, c, Moved(w, w', i, j))
  {
    OtherVisit(w, i, waiting, env, now, sid, serial);
  }

  lemma OtherVisitKeepsOver(w: World, i: nat, waiting: set<string>, env: Env, now: nat, sid: string, serial: nat,
                            c: Course)
    requires Over(w, sid, serial, c) && i < |w.pending|
    ensures Over(Visit(w, i, waiting, env, now), sid, serial, c)
  {
    OtherVisit(w, i, waiting, env, now, sid, serial);
  }

  // ----- one tick

  lemma {:induction false} DrainKeepsOver(w: World, i: nat, waiting: set<string>, envs: seq<Env>, visit: nat, now: nat,
                                          sid: string, serial: nat, c: Course)
    requires Over(w, sid, serial, c) && i <= |w.pending|
    ensures Over(DrainFrom(w, i, waiting, envs, visit, now), sid, serial, c)
    decreases |w.pending| - i
  {
    if i < |w.pending| {
      var w1 := Visit(w, i, waiting, EnvAt(envs, visit), now);
      OtherVisitKeepsOver(w, i, waiting, EnvAt(envs, visit), now, sid, serial, c);
      var next := if |w1.pending| == |w.pending| then i + 1 else i;
      DrainKeepsOver(w1, next, waiting, envs, visit + 1, now, sid, serial, c);
    }
  }

  /** Once visited, the entry is not visited again in the pass. */
  lemma {:induction false} DrainPassesBy(w: World, i: nat, waiting: set<string>, envs: seq<Env>, visit: nat, now: nat,
                                         sid: string, serial: nat, c: Course, j: nat)
    requires At(w, sid, serial, c, j) && j < i <= |w.pending|
    ensures OnCourse(DrainFrom(w, i, waiting, envs, visit, now), sid, serial, c)
    decreases |w.pending| - i
  {
    if i < |w.pending| {
      var w1 := Visit(w, i, waiting, EnvAt(envs, visit), now);
      OtherVisitKeepsAt(w, i, waiting, EnvAt(envs, visit), now, sid, serial, c, j);
      var next := if |w1.pending| == |w.pending| then i + 1 else i;
      DrainPassesBy(w1, next, waiting, envs, visit + 1, now, sid, serial, c, j);
    }
  }

  lemma OwnVisit(w: World, i: nat, waiting: set<string>, env: Env, now: nat, sid: string, serial: nat, c: Course)
    requires At(w, sid, serial, c, i) && sid !in waiting && env.matches && env.writeOk
    ensures var w', c' := Visit(w, i, waiting, env, now), OnTick(c, now);
            if c'.ended then Over(w', sid, serial, c') && |w'.pending| == |w.pending| - 1
            else At(w', sid, serial, c', i) && |w'.pending| == |w.pending|
  {
    if now < c.due {
    } else if c.enters == [] {
      FirstVisitOnCourse(w, i, waiting, env, now, sid, serial, c);
      FirstVisitIsLocal(w, i, waiting, env, now);
      FirstVisitStays(w, i, waiting, env, now);
    } else if |c.enters| == 4 {
      FinalVisitOnCourse(w, i, waiting, env, now, sid, serial, c);
    } else {
      RetryVisitOnCourse(w, i, waiting, env, now, sid, serial, c);
    }
  }

  lemma FirstVisitStays(w: World, i: nat, waiting: set<string>, env: Env, now: nat)
    requires i < |w.pending| && w.pending[i].sessionId in w.sessions && w.pending[i].quietSince.None?
    requires Owned(w, w.pending[i], waiting) && w.sessions[w.pending[i].sessionId].running && env.writeOk
    ensures |FirstVisit(w, i, waiting, env, now).pending| == |w.pending|
  {
  }

  lemma {:induction false} DrainFollowsCourse(w: World, i: nat, waiting: set<string>, envs: seq<Env>, visit: nat,
                                              now: nat, sid: string, serial: nat, c: Course, j: nat)
    requires At(w, sid, serial, c, j) && i <= j && sid !in waiting
    requires visit + (j - i) < |envs| && envs[visit + (j - i)].matches && envs[visit + (j - i)].writeOk
    ensures OnCourse(DrainFrom(w, i, waiting, envs, visit, now), sid, serial, OnTick(c, now))
    decreases |w.pending| - i
  {
    var env := EnvAt(envs, visit);
    var w1 := Visit(w, i, waiting, env, now);
    var next := if |w1.pending| == |w.pending| then i + 1 else i;
    if i < j {
      OtherVisitKeepsAt(w, i, waiting, env, now, sid, serial, c, j);
      DrainFollowsCourse(w1, next, waiting, envs, visit + 1, now, sid, serial, c, Moved(w, w1, i, j));
    } else {
      OwnVisit(w, i, waiting, env, now, sid, serial, c);
      if OnTick(c, now).ended {
        DrainKeepsOver(w1, next, waiting, envs, visit + 1, now, sid, serial, OnTick(c, now));
      } else {
        DrainPassesBy(w1, next, waiting, envs, visit + 1, now, sid, serial, OnTick(c, now), i);
      }
    }
  }

  // ----- runs

  lemma OtherStepKeepsCourse(w: World, sid: string, serial: nat, c: Course, op: Op)
    requires OnCourse(w, sid, serial, c) && Spares(w, sid, op) && !op.Tick?
    ensures OnCourse(Step(w, op), sid, serial, c)
  {
    var w' := Step(w, op);
    assert Hist(w'.trace, serial) == Hist(w.trace, serial) by {
      if op.Inject? && |w'.pending| > |w.pending| {
        QueueingMovesOneHistory(w, w', op.now);
      }
    }
    if j :| At(w, sid, serial, c, j) {
      assert At(w', sid, serial, c, j);
    }
  }

  lemma StepFollowsCourse(w: World, sid: string, serial: nat, c: Course, op: Op)
    requires OnCourse(w, sid, serial, c) && Spares(w, sid, op)
    ensures OnCourse(Step(w, op), sid, serial, if op.Tick? then OnTick(c, op.now) else c)
  {
    if !op.Tick? {
      OtherStepKeepsCourse(w, sid, serial, c, op);
    } else if Over(w, sid, serial, c) {
      DrainKeepsOver(w, 0, op.waiting, op.envs, 0, op.now, sid, serial, c);
    } else {
      var j :| At(w, sid, serial, c, j);
      DrainFollowsCourse(w, 0, op.waiting, op.envs, 0, op.now, sid, serial, c, j);
    }
  }

  /** The course from `c` on. */
  function Follow(c: Course, ops: seq<Op>): Course
    decreases ops
  {
    if ops == [] then c else Follow(if ops[0].Tick? then OnTick(c, ops[0].now) else c, ops[1..])
  }

  lemma {:induction false} RunFollowsCourse(w: World, sid: string, serial: nat, c: Course, ops: seq<Op>)
    requires OnCourse(w, sid, serial, c) && Undisturbed(w, sid, ops)
    ensures OnCourse(Run(w, ops), sid, serial, Follow(c, ops))
    decreases ops
  {
    if ops != [] {
      StepFollowsCourse(w, sid, serial, c, ops[0]);
      RunFollowsCourse(Step(w, ops[0]), sid, serial, if ops[0].Tick? then OnTick(c, ops[0].now) else c, ops[1..]);
    }
  }

  lemma {:induction false} FollowSnoc(c: Course, ops: seq<Op>, op: Op)
    ensures Follow(c, ops + [op]) == if op.Tick? then OnTick(Follow(c, ops), op.now) else Follow(c, ops)
    decreases ops
  {
    if ops == [] {
      assert ([] + [op])[1..] == [] && ([] + [op])[0] == op;
    } else {
      assert (ops + [op])[1..] == ops[1..] + [op];
      FollowSnoc(if ops[0].Tick? then OnTick(c, ops[0].now) else c, ops[1..], op);
    }
  }

  lemma {:induction false} FollowIsCourse(at: nat, ops: seq<Op>)
    ensures Follow(Course(at + 100_000_000, [], false), ops) == CourseOf(at, TickTimes(ops))
  {
    if ops != [] {
      var init, last := ops[..|ops| - 1], ops[|ops| - 1];
      assert ops == init + [last];
      FollowIsCourse(at, init);
      FollowSnoc(Course(at + 100_000_000, [], false), init, last);
      if last.Tick? {
        var ticks := TickTimes(init);
        assert (ticks + [last.now])[..|ticks|] == ticks;
      } else {
        assert TickTimes(init) + [] == TickTimes(init);
      }
    }
  }

  /** The injection opens its own course. */
  lemma InjectionStartsCourse(w: World, sid: string, text: string, env: Env, now: nat)
    requires Inv(w) && Accepts(w, sid) && env.writeOk
    requires forall e | e in w.pending :: e.sessionId != sid
    requires w.sessions[sid].lastOutput <= w.clock && w.sessions[sid].lastOutput <= now
    ensures OnCourse(Step(w, Inject(sid, text, env, now)), sid, w.nextSerial, Course(now + 100_000_000, [], false))
  {
    var w' := Step(w, Inject(sid, text, env, now));
    QueueingMovesOneHistory(w, w', now);
    assert forall k | 0 <= k < |w.pending| :: w.pending[k] in w.pending;
    assert At(w', sid, w.nextSerial, Course(now + 100_000_000, [], false), |w.pending|);
  }

  // ----- main results

  /** After any history, an injection into a running session with no other Enter pending, left to itself, presses
      Enter at exactly the ticks of its course, logs every retry, and is given up at its final check. */
  lemma UndisturbedInjectionRunsItsCourse(before: seq<Op>, sid: string, text: string, env: Env, now: nat,
                                          after: seq<Op>)
    requires var w := Run(INITIAL, before);
             && Accepts(w, sid) && env.writeOk && (forall e | e in w.pending :: e.sessionId != sid)
             && w.sessions[sid].lastOutput <= w.clock && w.sessions[sid].lastOutput <= now
             && Undisturbed(Step(w, Inject(sid, text, env, now)), sid, after)
    ensures var w := Run(INITIAL, before);
            var w' := Run(Step(w, Inject(sid, text, env, now)), after);
            var h, c := Hist(w'.trace, w.nextSerial), CourseOf(now, TickTimes(after));
            && h.enters == c.enters
            && h.retriesSent == h.retryLogs == (if c.enters == [] then 0 else |c.enters| - 1)
            && h.ends == (if c.ended then 1 else 0)
            && (c.ended ==> |h.enters| == 4 && Ended(w.nextSerial, FinalCheck) in w'.trace)
  {
    var w := Run(INITIAL, before);
    assert Inv(INITIAL);
    RunKeepsInv(INITIAL, before);
    InjectionStartsCourse(w, sid, text, env, now);
    var c := Course(now + 100_000_000, [], false);
    RunFollowsCourse(Step(w, Inject(sid, text, env, now)), sid, w.nextSerial, c, after);
    FollowIsCourse(now, after);
  }

  /** Five ticks, far enough apart, see it through: four Enters, and the end. */
  lemma FiveTicksSuffice(at: nat, a: nat, b: nat, c: nat, d: nat, e: nat)
    requires a >= at + 100_000_000 && b >= a + 1_000_000_000 && c >= b + 2_000_000_000 && d >= c + 4_000_000_000
    requires e >= d + 1_000_000_000
    ensures CourseOf(at, [a, b, c, d, e]).enters == [a, b, c, d] && CourseOf(at, [a, b, c, d, e]).ended
  {
    assert [a, b, c, d, e][..4] == [a, b, c, d] && [a, b, c, d][..3] == [a, b, c];
    assert [a, b, c][..2] == [a, b] && [a, b][..1] == [a] && [a][..0] == [];
    assert CourseOf(at, [a]).enters == [a];
    assert CourseOf(at, [a, b]).enters == [a, b];
    assert CourseOf(at, [a, b, c]).enters == [a, b, c];
    assert CourseOf(at, [a, b, c, d]).enters == [a, b, c, d];
  }
}
