/** Whole runs of the delayed-Enter protocol: any interleaving of injections, other input, output, exits and ticks. */
module InjectedEnterRuns {
  import opened Wrappers
  import opened InjectedEnter

  datatype Op =
    | OtherInput(sid: string, env: Env)                         // the user, or text sent without a delayed Enter
    | Inject(sid: string, text: string, env: Env, now: nat)      // injected text followed by its PendingEnter
    | OutputArrives(sid: string, at: nat)
    | Exit(sid: string)
    | Remove(sid: string)
    | Open(sid: string, env: Env)
    | Tick(waiting: set<string>, envs: seq<Env>, now: nat)

  /** Whether input offered to `sid` reaches it. */
  predicate Accepts(w: World, sid: string) {
    sid in w.sessions && w.sessions[sid].running
  }

  function Step(w: World, op: Op): World {
    match op
    case OtherInput(sid, env) => if Accepts(w, sid) then Touched(w, sid, env) else w
    case Inject(sid, text, env, now) =>
      if !Accepts(w, sid) then w
      else
        var w1 := Touched(w, sid, env);
        if !env.writeOk then w1
        else w1.(pending := w.pending + [NewEnter(w.nextSerial, sid, w1.sessions[sid], text, now)],
                 nextSerial := w.nextSerial + 1,
                 trace := w.trace + [Queued(w.nextSerial, now)])
    case OutputArrives(sid, at) =>
      if sid in w.sessions then w.(sessions := w.sessions[sid := w.sessions[sid].(lastOutput := at)]) else w
    case Exit(sid) =>
      if sid in w.sessions then w.(sessions := w.sessions[sid := w.sessions[sid].(running := false)]) else w
    case Remove(sid) => w.(sessions := w.sessions - {sid})
    case Open(sid, env) =>
      w.(clock := Stamp(w, env), sessions := w.sessions[sid := Session(true, Stamp(w, env), Stamp(w, env))])
    case Tick(waiting, envs, now) => Drained(w, waiting, envs, now)
  }

  function Run(w: World, ops: seq<Op>): World
    decreases ops
  {
    if ops == [] then w else Run(Step(w, ops[0]), ops[1..])
  }

  // ----- what the trace says about one injection

  /** `enters` are the ticks of its Enter attempts, first and retries alike. */
  datatype History = History(
    queuedAt: nat,
    dues: nat,
    lastDue: nat,
    enters: seq<nat>,
    retryAttempts: nat,
    retriesSent: nat,
    retryLogs: nat,
    ends: nat)

  const NOTHING := History(0, 0, 0, [], 0, 0, 0, 0)

  function Add(h: History, ev: Event, serial: nat): History {
    if ev.serial != serial then h
    else
      match ev
      case Queued(_, at) => h.(queuedAt := at)
      case Due(_, tick) => h.(dues := h.dues + 1, lastDue := tick)
      case Enter(_, tick, retry, ok) =>
        h.(enters := h.enters + [tick],
           retryAttempts := h.retryAttempts + (if retry then 1 else 0),
           retriesSent := h.retriesSent + (if retry && ok then 1 else 0))
      case RetryLogged(_, _) => h.(retryLogs := h.retryLogs + 1)
      case Ended(_, _) => h.(ends := h.ends + 1)
  }

  function Hist(trace: seq<Event>, serial: nat): History {
    if trace == [] then NOTHING else Add(Hist(trace[..|trace| - 1], serial), trace[|trace| - 1], serial)
  }

  function More(h: History, events: seq<Event>, serial: nat): History
    decreases events
  {
    if events == [] then h else More(Add(h, events[0], serial), events[1..], serial)
  }

  lemma {:induction false} HistExtends(trace: seq<Event>, events: seq<Event>, serial: nat)
    ensures Hist(trace + events, serial) == More(Hist(trace, serial), events, serial)
    decreases events
  {
    if events == [] {
      assert trace + events == trace;
    } else {
      var first := trace + [events[0]];
      assert trace + events == first + events[1..];
      assert first[..|first| - 1] == trace;
      HistExtends(first, events[1..], serial);
    }
  }

  lemma {:induction false} OthersEventsAddNothing(h: History, events: seq<Event>, serial: nat)
    requires forall ev | ev in events :: ev.serial != serial
    ensures More(h, events, serial) == h
    decreases events
  {
    if events != [] {
      OthersEventsAddNothing(h, events[1..], serial);
    }
  }

  lemma MoreOfFew(h: History, a: Event, b: Event, c: Event, s: nat)
    ensures More(h, [a], s) == Add(h, a, s)
    ensures More(h, [a, b], s) == Add(Add(h, a, s), b, s)
    ensures More(h, [a, b, c], s) == Add(Add(Add(h, a, s), b, s), c, s)
  {
    var h1, h2 := Add(h, a, s), Add(Add(h, a, s), b, s);
    assert [a][1..] == [] && [b][1..] == [] && [c][1..] == [];
    assert [a, b][1..] == [b] && [b, c][1..] == [c] && [a, b, c][1..] == [b, c];
    assert More(h1, [b], s) == More(h2, [], s);
    assert More(h2, [c], s) == Add(h2, c, s);
    assert More(h1, [b, c], s) == More(h2, [c], s);
    assert More(h, [a, b], s) == More(h1, [b], s);
    assert More(h, [a, b, c], s) == More(h1, [b, c], s);
  }

  // ----- the invariant

  /** Successive Enters of one injection are at least one, two and four seconds of tick time apart. */
  predicate Spaced(enters: seq<nat>) {
    && (|enters| > 1 ==> enters[1] >= enters[0] + 1_000_000_000)
    && (|enters| > 2 ==> enters[2] >= enters[1] + 2_000_000_000)
    && (|enters| > 3 ==> enters[3] >= enters[2] + 4_000_000_000)
  }

  /** The first Enter comes at least 100 ms after the injection. */
  predicate FirstIsDelayed(h: History) {
    h.enters != [] ==> h.enters[0] >= h.queuedAt + 100_000_000
  }

  /** From which instant a tick finds the entry due, told from its history: 100 ms after the injection, then one, two,
      four and again one second after the tick that found it due last. */
  function DueFrom(h: History): nat {
    if h.dues == 0 then h.queuedAt + 100_000_000
    else h.lastDue + (if h.dues == 2 then 2_000_000_000 else if h.dues == 3 then 4_000_000_000 else 1_000_000_000)
  }

  /** What holds of an entry still in the queue. */
  predicate Waiting(e: PendingEnter, h: History) {
    && h.ends == 0
    && e.retries <= e.checks <= RETRIES
    && h.retryAttempts == h.retriesSent == h.retryLogs == e.retries
    && Spaced(h.enters) && FirstIsDelayed(h)
    && e.fireAt == DueFrom(h)
    && if e.quietSince.None? then e.checks == 0 && h.enters == [] && h.dues == 0
       else && |h.enters| == 1 + e.retries && h.dues == 1 + e.checks && h.enters[|h.enters| - 1] <= h.lastDue
            && e.quietSince.value == if h.dues == 1 then e.inputAt else h.lastDue
  }

  /** What holds of an injection that has left the queue. */
  predicate Finished(h: History) {
    && h.ends == 1
    && 1 <= h.dues <= 5
    && |h.enters| <= 4
    && Spaced(h.enters) && FirstIsDelayed(h)
    && h.retryLogs == h.retriesSent <= h.retryAttempts <= 3
  }

  predicate Pending(w: World, serial: nat) {
    exists e :: e in w.pending && e.serial == serial
  }

  predicate Ordered(w: World) {
    && (forall sid | sid in w.sessions :: w.sessions[sid].lastInput <= w.clock)
    && (forall e | e in w.pending :: e.inputAt <= w.clock && e.serial < w.nextSerial)
    && (forall i, j | 0 <= i < j < |w.pending| ::
          w.pending[i].serial != w.pending[j].serial && w.pending[i].inputAt != w.pending[j].inputAt)
  }

  ghost predicate Recorded(w: World) {
    && (forall e | e in w.pending :: Waiting(e, Hist(w.trace, e.serial)))
    && (forall s: nat | s < w.nextSerial && !Pending(w, s) :: Finished(Hist(w.trace, s)))
    && (forall s: nat | s >= w.nextSerial :: Hist(w.trace, s) == NOTHING)
  }

  ghost predicate Inv(w: World) {
    Ordered(w) && Recorded(w)
  }

  // ----- one visit

  /** A visit only touches entry `i`, only stamps with a fresh clock value, and only appends events of that entry. */
  ghost predicate Local(w: World, w': World, i: nat, events: seq<Event>)
    requires i < |w.pending|
  {
    var e := w.pending[i];
    && w'.trace == w.trace + events && (forall ev | ev in events :: ev.serial == e.serial)
    && w'.nextSerial == w.nextSerial
    && w.clock <= w'.clock
    && w'.sessions.Keys == w.sessions.Keys
    && (forall sid | sid in w.sessions ::
          w'.sessions[sid].lastInput == w.sessions[sid].lastInput
          || (sid == e.sessionId && w.clock < w'.sessions[sid].lastInput == w'.clock))
    && (|w'.pending| == |w.pending| ==>
          var e' := w'.pending[i];
          && w'.pending == w.pending[i := e']
          && e'.serial == e.serial && e'.sessionId == e.sessionId
          && (e'.inputAt == e.inputAt
              || (w.clock < e'.inputAt == w'.clock && e.sessionId in w'.sessions
                  && w'.sessions[e.sessionId].lastInput == w'.clock)))
    && (|w'.pending| != |w.pending| ==> w'.pending == w.pending[..i] + w.pending[i + 1..])
  }

  function FirstEvents(w: World, e: PendingEnter, waiting: set<string>, env: Env, now: nat): seq<Event>
    requires e.sessionId in w.sessions
  {
    var due, enter := Due(e.serial, now), Enter(e.serial, now, false, env.writeOk);
    if !w.sessions[e.sessionId].running then [due, Ended(e.serial, SendFailed)]
    else if !env.writeOk then [due, enter, Ended(e.serial, SendFailed)]
    else if !Owned(w, e, waiting) then [due, enter, Ended(e.serial, InputBeforeFirst)]
    else [due, enter]
  }

  lemma FirstVisitIsLocal(w: World, i: nat, waiting: set<string>, env: Env, now: nat)
    requires i < |w.pending| && w.pending[i].sessionId in w.sessions && w.pending[i].quietSince.None?
    ensures Local(w, FirstVisit(w, i, waiting, env, now), i, FirstEvents(w, w.pending[i], waiting, env, now))
  {
    var e := w.pending[i];
    var due, enter := Due(e.serial, now), Enter(e.serial, now, false, env.writeOk);
    assert [due, enter] + [Ended(e.serial, SendFailed)] == [due, enter, Ended(e.serial, SendFailed)];
    assert [due, enter] + [Ended(e.serial, InputBeforeFirst)] == [due, enter, Ended(e.serial, InputBeforeFirst)];
  }

  /** How far a visit's effect on its entry is reflected in what the trace says about it. */
  ghost predicate Consistent(w: World, w': World, i: nat, h: History)
    requires i < |w.pending|
  {
    if |w'.pending| == |w.pending| then Waiting(w'.pending[i], h) else Finished(h)
  }

  lemma FirstVisitIsRecorded(w: World, i: nat, waiting: set<string>, env: Env, now: nat, h: History)
    requires i < |w.pending| && w.pending[i].sessionId in w.sessions && w.pending[i].quietSince.None?
    requires w.pending[i].fireAt <= now && Waiting(w.pending[i], h)
    ensures var e := w.pending[i];
            var h' := More(h, FirstEvents(w, e, waiting, env, now), e.serial);
            Consistent(w, FirstVisit(w, i, waiting, env, now), i, h') && h'.retryAttempts == h.retryAttempts
  {
    var e := w.pending[i];
    var due, enter := Due(e.serial, now), Enter(e.serial, now, false, env.writeOk);
    MoreOfFew(h, due, enter, Ended(e.serial, SendFailed), e.serial);
    MoreOfFew(h, due, enter, Ended(e.serial, InputBeforeFirst), e.serial);
    MoreOfFew(h, due, Ended(e.serial, SendFailed), due, e.serial);
  }

  function RetryEvents(w: World, e: PendingEnter, waiting: set<string>, env: Env, now: nat): seq<Event>
    requires e.sessionId in w.sessions && e.quietSince.Some?
  {
    var due, enter := Due(e.serial, now), Enter(e.serial, now, true, env.writeOk);
    var s := w.sessions[e.sessionId];
    if !s.running then [due, Ended(e.serial, SessionExited)]
    else if !Owned(w, e, waiting) then [due, Ended(e.serial, InterveningInput)]
    else if !env.matches then [due, Ended(e.serial, NoMatchingInput)]
    else if e.checks == RETRIES then [due, Ended(e.serial, FinalCheck)]
    else if !Silent(s, e.quietSince.value, now) then [due]
    else if !env.writeOk then [due, enter, Ended(e.serial, RetryFailed)]
    else [due, enter, RetryLogged(e.serial, e.retries + 1)]
  }

  lemma RetryVisitIsLocal(w: World, i: nat, waiting: set<string>, env: Env, now: nat)
    requires i < |w.pending| && w.pending[i].sessionId in w.sessions && w.pending[i].quietSince.Some?
    ensures Local(w, RetryVisit(w, i, waiting, env, now), i, RetryEvents(w, w.pending[i], waiting, env, now))
  {
    var e := w.pending[i];
    var due, enter := Due(e.serial, now), Enter(e.serial, now, true, env.writeOk);
    var logged, failed := RetryLogged(e.serial, e.retries + 1), Ended(e.serial, RetryFailed);
    assert [due, enter] + [failed] == [due, enter, failed];
    assert [due, enter] + [logged] == [due, enter, logged];
  }

  lemma SpacedExtends(enters: seq<nat>, tick: nat)
    requires Spaced(enters) && 1 <= |enters| <= 3
    requires tick >= enters[|enters| - 1]
                     + if |enters| == 1 then 1_000_000_000 else if |enters| == 2 then 2_000_000_000 else 4_000_000_000
    ensures Spaced(enters + [tick])
  {
  }

  /** A successful or failed retry, seen from the trace. */
  lemma RetryHistory(h: History, e: PendingEnter, now: nat, ok: bool, stamp: nat)
    requires Waiting(e, h) && e.quietSince.Some? && e.fireAt <= now && e.checks < RETRIES
    ensures var h' := Add(Add(h, Due(e.serial, now), e.serial), Enter(e.serial, now, true, ok), e.serial);
            && Spaced(h'.enters) && FirstIsDelayed(h')
            && (ok ==> Waiting(e.(checks := e.checks + 1, quietSince := Some(now),
                                  fireAt := now + RetryDelay(e.checks + 1),
                                  retries := e.retries + 1, inputAt := stamp),
                               Add(h', RetryLogged(e.serial, e.retries + 1), e.serial)))
            && (!ok ==> Finished(Add(h', Ended(e.serial, RetryFailed), e.serial)))
  {
    SpacedExtends(h.enters, now);
  }

  /** The retry itself: the delay before check `c` is at least the delay owed after retry number `retries <= c`. */
  lemma RetryIsRecorded(w: World, i: nat, env: Env, now: nat, h: History, waiting: set<string>)
    requires i < |w.pending| && w.pending[i].sessionId in w.sessions && w.pending[i].quietSince.Some?
    requires w.pending[i].fireAt <= now && Waiting(w.pending[i], h)
    requires |RetryEvents(w, w.pending[i], waiting, env, now)| == 3
    ensures var e := w.pending[i];
            var h' := More(h, RetryEvents(w, e, waiting, env, now), e.serial);
            Consistent(w, RetryVisit(w, i, waiting, env, now), i, h')
  {
    var e := w.pending[i];
    var events := RetryEvents(w, e, waiting, env, now);
    assert events == [events[0], events[1], events[2]];
    MoreOfFew(h, events[0], events[1], events[2], e.serial);
    RetryHistory(h, e, now, env.writeOk, Stamp(w, env));
    if !env.writeOk {
      assert |RetryVisit(w, i, waiting, env, now).pending| == |w.pending| - 1;
    }
  }

  /** A due visit that ends the entry, or lets it wait for the next check. */
  lemma QuietVisitHistory(h: History, e: PendingEnter, now: nat, reason: Reason)
    requires Waiting(e, h) && e.quietSince.Some? && e.fireAt <= now
    ensures Finished(Add(Add(h, Due(e.serial, now), e.serial), Ended(e.serial, reason), e.serial))
    ensures e.checks < RETRIES ==>
              Waiting(e.(checks := e.checks + 1, quietSince := Some(now), fireAt := now + RetryDelay(e.checks + 1)),
                      Add(h, Due(e.serial, now), e.serial))
  {
  }

  lemma EndingVisitIsRecorded(w: World, i: nat, waiting: set<string>, env: Env, now: nat, h: History)
    requires i < |w.pending| && w.pending[i].sessionId in w.sessions && w.pending[i].quietSince.Some?
    requires w.pending[i].fireAt <= now && Waiting(w.pending[i], h)
    requires |RetryEvents(w, w.pending[i], waiting, env, now)| == 2
    ensures var e := w.pending[i];
            var h' := More(h, RetryEvents(w, e, waiting, env, now), e.serial);
            Consistent(w, RetryVisit(w, i, waiting, env, now), i, h') && h'.retryAttempts == h.retryAttempts
  {
    var e := w.pending[i];
    var end := RetryEvents(w, e, waiting, env, now)[1];
    assert RetryEvents(w, e, waiting, env, now) == [Due(e.serial, now), end];
    MoreOfFew(h, Due(e.serial, now), end, end, e.serial);
    QuietVisitHistory(h, e, now, end.reason);
    assert |RetryVisit(w, i, waiting, env, now).pending| == |w.pending| - 1;
  }

  lemma WaitingVisitIsRecorded(w: World, i: nat, waiting: set<string>, env: Env, now: nat, h: History)
    requires i < |w.pending| && w.pending[i].sessionId in w.sessions && w.pending[i].quietSince.Some?
    requires w.pending[i].fireAt <= now && Waiting(w.pending[i], h)
    requires |RetryEvents(w, w.pending[i], waiting, env, now)| == 1
    ensures var e := w.pending[i];
            var h' := More(h, RetryEvents(w, e, waiting, env, now), e.serial);
            Consistent(w, RetryVisit(w, i, waiting, env, now), i, h')
  {
    var e := w.pending[i];
    var due := Due(e.serial, now);
    assert RetryEvents(w, e, waiting, env, now) == [due];
    MoreOfFew(h, due, due, due, e.serial);
    QuietVisitHistory(h, e, now, FinalCheck);
  }

  lemma RetryVisitIsRecorded(w: World, i: nat, waiting: set<string>, env: Env, now: nat, h: History)
    requires i < |w.pending| && w.pending[i].sessionId in w.sessions && w.pending[i].quietSince.Some?
    requires w.pending[i].fireAt <= now && Waiting(w.pending[i], h)
    ensures var e := w.pending[i];
            var h' := More(h, RetryEvents(w, e, waiting, env, now), e.serial);
            && Consistent(w, RetryVisit(w, i, waiting, env, now), i, h')
            && (!Owned(w, e, waiting) ==> h'.retryAttempts == h.retryAttempts)
  {
    var events := RetryEvents(w, w.pending[i], waiting, env, now);
    if |events| == 3 {
      RetryIsRecorded(w, i, env, now, h, waiting);
    } else if |events| == 2 {
      EndingVisitIsRecorded(w, i, waiting, env, now, h);
    } else {
      WaitingVisitIsRecorded(w, i, waiting, env, now, h);
    }
  }

  lemma VisitIsLocal(w: World, i: nat, waiting: set<string>, env: Env, now: nat) returns (events: seq<Event>)
    requires i < |w.pending|
    ensures Local(w, Visit(w, i, waiting, env, now), i, events)
    ensures var e := w.pending[i];
            forall h | Waiting(e, h) ::
              var h' := More(h, events, e.serial);
              && Consistent(w, Visit(w, i, waiting, env, now), i, h')
              && (!Owned(w, e, waiting) ==> h'.retryAttempts == h.retryAttempts)
  {
    var e := w.pending[i];
    if now < e.fireAt {
      events := [];
      assert w.trace + [] == w.trace;
    } else if e.sessionId !in w.sessions {
      var due, end := Due(e.serial, now), Ended(e.serial, SessionGone);
      events := [due, end];
      forall h | Waiting(e, h)
        ensures More(h, events, e.serial) == Add(Add(h, due, e.serial), end, e.serial)
      {
        MoreOfFew(h, due, end, end, e.serial);
      }
    } else if e.quietSince.None? {
      events := FirstEvents(w, e, waiting, env, now);
      FirstVisitIsLocal(w, i, waiting, env, now);
      forall h | Waiting(e, h)
        ensures var h' := More(h, events, e.serial);
                Consistent(w, FirstVisit(w, i, waiting, env, now), i, h') && h'.retryAttempts == h.retryAttempts
      {
        FirstVisitIsRecorded(w, i, waiting, env, now, h);
      }
    } else {
      events := RetryEvents(w, e, waiting, env, now);
      RetryVisitIsLocal(w, i, waiting, env, now);
      forall h | Waiting(e, h)
        ensures var h' := More(h, events, e.serial);
                && Consistent(w, RetryVisit(w, i, waiting, env, now), i, h')
                && (!Owned(w, e, waiting) ==> h'.retryAttempts == h.retryAttempts)
      {
        RetryVisitIsRecorded(w, i, waiting, env, now, h);
      }
    }
  }

  lemma LocalKeepsOrdered(w: World, w': World, i: nat, events: seq<Event>)
    requires Ordered(w) && i < |w.pending| && Local(w, w', i, events)
    requires |w'.pending| in {|w.pending|, |w.pending| - 1}
    ensures Ordered(w')
  {
    if |w'.pending| == |w.pending| {
      forall j | 0 <= j < |w.pending| && j != i
        ensures w'.pending[j] == w.pending[j]
        ensures w'.pending[j].inputAt != w'.pending[i].inputAt && w'.pending[j].serial != w'.pending[i].serial
      {
        assert w.pending[j] in w.pending;
      }
      assert w.pending[i] in w.pending;
    } else {
      forall j | 0 <= j < |w'.pending|
        ensures w'.pending[j] == w.pending[if j < i then j else j + 1]
      {
      }
    }
  }

  /** Only entry `i`'s history moves. */
  ghost predicate OneHistoryMoves(w: World, w': World, serial: nat, h: History) {
    forall s: nat :: Hist(w'.trace, s) == if s == serial then h else Hist(w.trace, s)
  }

  lemma LocalMovesOneHistory(w: World, w': World, i: nat, events: seq<Event>)
    requires i < |w.pending| && Local(w, w', i, events)
    ensures var e := w.pending[i];
            OneHistoryMoves(w, w', e.serial, More(Hist(w.trace, e.serial), events, e.serial))
  {
    var e := w.pending[i];
    forall s: nat
      ensures Hist(w'.trace, s) == if s == e.serial then More(Hist(w.trace, s), events, s) else Hist(w.trace, s)
    {
      HistExtends(w.trace, events, s);
      if s != e.serial {
        OthersEventsAddNothing(Hist(w.trace, s), events, s);
      }
    }
  }

  lemma UpdateKeepsPending(w: World, w': World, i: nat, s: nat)
    requires i < |w.pending| && |w'.pending| == |w.pending|
    requires w'.pending == w.pending[i := w'.pending[i]] && w'.pending[i].serial == w.pending[i].serial
    ensures Pending(w', s) <==> Pending(w, s)
  {
    if x :| x in w.pending && x.serial == s {
      var j :| 0 <= j < |w.pending| && w.pending[j] == x;
      assert w'.pending[j] in w'.pending;
    }
    if x :| x in w'.pending && x.serial == s {
      var j :| 0 <= j < |w'.pending| && w'.pending[j] == x;
      assert w.pending[j] in w.pending;
    }
  }

  lemma UpdateKeepsRecorded(w: World, w': World, i: nat, h: History)
    requires Inv(w) && i < |w.pending| && w'.nextSerial == w.nextSerial && |w'.pending| == |w.pending|
    requires w'.pending == w.pending[i := w'.pending[i]] && w'.pending[i].serial == w.pending[i].serial
    requires OneHistoryMoves(w, w', w.pending[i].serial, h) && Waiting(w'.pending[i], h)
    ensures Recorded(w')
  {
    assert w.pending[i] in w.pending;
    forall x | x in w'.pending
      ensures Waiting(x, Hist(w'.trace, x.serial))
    {
      var j :| 0 <= j < |w'.pending| && w'.pending[j] == x;
      if j != i {
        assert w.pending[j] == x && x in w.pending;
      }
    }
    forall s: nat | s < w'.nextSerial && !Pending(w', s)
      ensures Finished(Hist(w'.trace, s))
    {
      UpdateKeepsPending(w, w', i, s);
      assert Pending(w, w.pending[i].serial);
    }
  }

  lemma RemovalIsLocal(w: World, w': World, i: nat)
    requires Ordered(w) && i < |w.pending| && w'.pending == w.pending[..i] + w.pending[i + 1..]
    ensures forall x | x in w'.pending :: x in w.pending && x.serial != w.pending[i].serial
    ensures forall x | x in w.pending && x.serial != w.pending[i].serial :: x in w'.pending
  {
    forall x | x in w'.pending
      ensures x in w.pending && x.serial != w.pending[i].serial
    {
      var j :| 0 <= j < |w'.pending| && w'.pending[j] == x;
      assert x == w.pending[if j < i then j else j + 1];
    }
    forall x | x in w.pending && x.serial != w.pending[i].serial
      ensures x in w'.pending
    {
      var j :| 0 <= j < |w.pending| && w.pending[j] == x;
      assert w'.pending[if j < i then j else j - 1] == x;
    }
  }

  lemma RemovalKeepsRecorded(w: World, w': World, i: nat, h: History)
    requires Inv(w) && i < |w.pending| && w'.nextSerial == w.nextSerial
    requires w'.pending == w.pending[..i] + w.pending[i + 1..]
    requires OneHistoryMoves(w, w', w.pending[i].serial, h) && Finished(h)
    ensures Recorded(w')
  {
    var serial := w.pending[i].serial;
    assert w.pending[i] in w.pending;
    RemovalIsLocal(w, w', i);
    forall s: nat | s < w'.nextSerial && !Pending(w', s) && s != serial
      ensures Finished(Hist(w'.trace, s))
    {
      assert !Pending(w, s);
    }
  }

  lemma VisitKeepsInv(w: World, i: nat, waiting: set<string>, env: Env, now: nat)
    requires Inv(w) && i < |w.pending|
    ensures Inv(Visit(w, i, waiting, env, now))
  {
    var events := VisitIsLocal(w, i, waiting, env, now);
    var e, w' := w.pending[i], Visit(w, i, waiting, env, now);
    assert e in w.pending;
    LocalKeepsOrdered(w, w', i, events);
    LocalMovesOneHistory(w, w', i, events);
    var h := More(Hist(w.trace, e.serial), events, e.serial);
    if |w'.pending| == |w.pending| {
      UpdateKeepsRecorded(w, w', i, h);
    } else {
      RemovalKeepsRecorded(w, w', i, h);
    }
  }

  lemma {:induction false} DrainKeepsInv(w: World, i: nat, waiting: set<string>, envs: seq<Env>, visit: nat, now: nat)
    requires Inv(w) && i <= |w.pending|
    ensures Inv(DrainFrom(w, i, waiting, envs, visit, now))
    decreases |w.pending| - i
  {
    if i < |w.pending| {
      var env := EnvAt(envs, visit);
      var w1 := Visit(w, i, waiting, env, now);
      VisitKeepsInv(w, i, waiting, env, now);
      DrainKeepsInv(w1, if |w1.pending| == |w.pending| then i + 1 else i, waiting, envs, visit + 1, now);
    }
  }

  lemma QueueingKeepsOrdered(w: World, w': World, e: PendingEnter)
    requires Ordered(w) && w'.pending == w.pending + [e]
    requires e.serial == w.nextSerial == w'.nextSerial - 1
    requires w.clock < e.inputAt == w'.clock
    requires forall sid | sid in w'.sessions :: w'.sessions[sid].lastInput <= w'.clock
    ensures Ordered(w')
  {
    forall j | 0 <= j < |w.pending|
      ensures w'.pending[j] == w.pending[j] && w.pending[j] in w.pending
    {
    }
  }

  lemma QueueingKeepsPending(w: World, w': World, e: PendingEnter, s: nat)
    requires w'.pending == w.pending + [e]
    ensures Pending(w', s) <==> Pending(w, s) || s == e.serial
  {
    if x :| x in w.pending && x.serial == s {
      assert x in w'.pending;
    }
    assert e in w'.pending;
  }

  lemma QueueingKeepsRecorded(w: World, w': World, e: PendingEnter, h: History)
    requires Inv(w) && w'.pending == w.pending + [e] && e.serial == w.nextSerial == w'.nextSerial - 1
    requires OneHistoryMoves(w, w', e.serial, h) && Waiting(e, h)
    ensures Recorded(w')
  {
    forall s: nat | s < w'.nextSerial && !Pending(w', s)
      ensures Finished(Hist(w'.trace, s))
    {
      QueueingKeepsPending(w, w', e, s);
    }
  }

  lemma QueueingMovesOneHistory(w: World, w': World, now: nat)
    requires w'.trace == w.trace + [Queued(w.nextSerial, now)]
    ensures OneHistoryMoves(w, w', w.nextSerial, Hist(w.trace, w.nextSerial).(queuedAt := now))
  {
    assert w'.trace[..|w.trace|] == w.trace;
  }

  /** Steps that leave the queue and the trace alone. */
  lemma QuietStepKeepsInv(w: World, w': World)
    requires Inv(w)
    requires w'.pending == w.pending && w'.trace == w.trace && w'.nextSerial == w.nextSerial && w.clock <= w'.clock
    requires forall sid | sid in w'.sessions :: w'.sessions[sid].lastInput <= w'.clock
    ensures Inv(w')
  {
    forall s: nat
      ensures Pending(w', s) <==> Pending(w, s)
    {
    }
  }

  lemma InjectKeepsInv(w: World, op: Op)
    requires Inv(w) && op.Inject?
    ensures Inv(Step(w, op))
  {
    var w' := Step(w, op);
    if |w'.pending| > |w.pending| {
      QueueingKeepsOrdered(w, w', w'.pending[|w.pending|]);
      QueueingMovesOneHistory(w, w', op.now);
      QueueingKeepsRecorded(w, w', w'.pending[|w.pending|], Hist(w.trace, w.nextSerial).(queuedAt := op.now));
    } else {
      QuietStepKeepsInv(w, w');
    }
  }

  lemma SessionStepIsQuiet(w: World, op: Op)
    requires Ordered(w) && !op.Inject? && !op.Tick?
    ensures var w' := Step(w, op);
            && w'.pending == w.pending && w'.trace == w.trace && w'.nextSerial == w.nextSerial && w.clock <= w'.clock
            && forall sid | sid in w'.sessions :: w'.sessions[sid].lastInput <= w'.clock
  {
  }

  lemma StepKeepsInv(w: World, op: Op)
    requires Inv(w)
    ensures Inv(Step(w, op))
  {
    if op.Tick? {
      DrainKeepsInv(w, 0, op.waiting, op.envs, 0, op.now);
    } else if op.Inject? {
      InjectKeepsInv(w, op);
    } else {
      SessionStepIsQuiet(w, op);
      QuietStepKeepsInv(w, Step(w, op));
    }
  }

  lemma {:induction false} RunKeepsInv(w: World, ops: seq<Op>)
    requires Inv(w)
    ensures Inv(Run(w, ops))
    decreases ops
  {
    if ops != [] {
      StepKeepsInv(w, ops[0]);
      RunKeepsInv(Step(w, ops[0]), ops[1..]);
    }
  }

  const INITIAL := World(0, map[], [], 0, [])

  // ----- main results

  /** In every run each injection sends at most four Enters, the first at least 100 ms after it and the rest at least
      1 s, 2 s and 4 s of tick time apart, is visited when due at most five times, and is logged with one terminal
      record once it has left the queue and with as many retry records as retries sent. */
  lemma EveryInjectionIsBounded(ops: seq<Op>, serial: nat)
    ensures var w := Run(INITIAL, ops);
            var h := Hist(w.trace, serial);
            && |h.enters| <= 4 && Spaced(h.enters) && FirstIsDelayed(h)
            && h.dues <= 5
            && h.retryLogs == h.retriesSent <= h.retryAttempts <= 3
            && h.ends == (if serial < w.nextSerial && !Pending(w, serial) then 1 else 0)
            && (Pending(w, serial) ==> h.dues <= 4)
  {
    assert Inv(INITIAL);
    RunKeepsInv(INITIAL, ops);
  }

  predicate Live(w: World, e: PendingEnter) {
    e.sessionId in w.sessions && w.sessions[e.sessionId].lastInput == e.inputAt
  }

  /** In every run at most one pending Enter per session still owns the session's input. */
  lemma AtMostOneLivePerSession(ops: seq<Op>, i: nat, j: nat)
    ensures var w := Run(INITIAL, ops);
            i < j < |w.pending| && w.pending[i].sessionId == w.pending[j].sessionId
            ==> !(Live(w, w.pending[i]) && Live(w, w.pending[j]))
  {
    assert Inv(INITIAL);
    RunKeepsInv(INITIAL, ops);
  }

  /** Some later input has reached the session of injection `serial`, or it is no longer pending. */
  predicate Stale(w: World, serial: nat) {
    forall e | e in w.pending && e.serial == serial && e.sessionId in w.sessions ::
      e.inputAt < w.sessions[e.sessionId].lastInput
  }

  function RetryAttempts(w: World, serial: nat): nat {
    Hist(w.trace, serial).retryAttempts
  }

  /** Every entry after a visit is entry `i` updated or some other entry unchanged. */
  lemma Survivor(w: World, w': World, i: nat, events: seq<Event>, x: PendingEnter) returns (j: nat)
    requires i < |w.pending| && Local(w, w', i, events) && x in w'.pending
    requires |w'.pending| in {|w.pending|, |w.pending| - 1}
    ensures j < |w.pending| && x.serial == w.pending[j].serial && x.sessionId == w.pending[j].sessionId
    ensures if j == i then |w'.pending| == |w.pending| && x == w'.pending[i] else x == w.pending[j]
  {
    var k :| 0 <= k < |w'.pending| && w'.pending[k] == x;
    j := if |w'.pending| == |w.pending| || k < i then k else k + 1;
  }

  lemma StaleVisitAttemptsNothing(w: World, i: nat, waiting: set<string>, env: Env, now: nat, serial: nat)
    requires Inv(w) && i < |w.pending| && Stale(w, serial)
    ensures RetryAttempts(Visit(w, i, waiting, env, now), serial) == RetryAttempts(w, serial)
  {
    var e := w.pending[i];
    var events := VisitIsLocal(w, i, waiting, env, now);
    assert e in w.pending;
    HistExtends(w.trace, events, serial);
    if e.serial != serial {
      OthersEventsAddNothing(Hist(w.trace, serial), events, serial);
    }
  }

  lemma VisitKeepsStale(w: World, i: nat, waiting: set<string>, env: Env, now: nat, serial: nat)
    requires Inv(w) && i < |w.pending| && Stale(w, serial)
    ensures Stale(Visit(w, i, waiting, env, now), serial)
  {
    var w' := Visit(w, i, waiting, env, now);
    var events := VisitIsLocal(w, i, waiting, env, now);
    forall x | x in w'.pending && x.serial == serial && x.sessionId in w'.sessions
      ensures x.inputAt < w'.sessions[x.sessionId].lastInput
    {
      var j := Survivor(w, w', i, events, x);
      assert w.pending[j] in w.pending;
      if j == i {
        StaleEntryIsNotRestamped(w, i, waiting, env, now);
      }
    }
  }

  lemma StaleEntryIsNotRestamped(w: World, i: nat, waiting: set<string>, env: Env, now: nat)
    requires i < |w.pending| && !Live(w, w.pending[i])
    ensures var w' := Visit(w, i, waiting, env, now);
            |w'.pending| == |w.pending| ==> w' == w
  {
  }

  lemma {:induction false} DrainKeepsStale(w: World, i: nat, waiting: set<string>, envs: seq<Env>, visit: nat,
                                           now: nat, serial: nat)
    requires Inv(w) && i <= |w.pending| && Stale(w, serial)
    ensures Stale(DrainFrom(w, i, waiting, envs, visit, now), serial)
    ensures RetryAttempts(DrainFrom(w, i, waiting, envs, visit, now), serial) == RetryAttempts(w, serial)
    decreases |w.pending| - i
  {
    if i < |w.pending| {
      var env := EnvAt(envs, visit);
      var w1 := Visit(w, i, waiting, env, now);
      VisitKeepsStale(w, i, waiting, env, now, serial);
      StaleVisitAttemptsNothing(w, i, waiting, env, now, serial);
      VisitKeepsInv(w, i, waiting, env, now);
      DrainKeepsStale(w1, if |w1.pending| == |w.pending| then i + 1 else i, waiting, envs, visit + 1, now, serial);
    }
  }

  /** While input waits for its session in the queues, an entry presses no retry, whatever happens earlier in the
      pass. */
  lemma {:induction false} DrainSparesWaiting(w: World, i: nat, waiting: set<string>, envs: seq<Env>, visit: nat,
                                              now: nat, serial: nat)
    requires Inv(w) && i <= |w.pending|
    requires forall e | e in w.pending && e.serial == serial :: e.sessionId in waiting
    ensures RetryAttempts(DrainFrom(w, i, waiting, envs, visit, now), serial) == RetryAttempts(w, serial)
    decreases |w.pending| - i
  {
    if i < |w.pending| {
      var env := EnvAt(envs, visit);
      var w1 := Visit(w, i, waiting, env, now);
      VisitSparesWaiting(w, i, waiting, env, now, serial);
      VisitKeepsInv(w, i, waiting, env, now);
      DrainSparesWaiting(w1, if |w1.pending| == |w.pending| then i + 1 else i, waiting, envs, visit + 1, now, serial);
    }
  }

  lemma PassSparesWaiting(w: World, waiting: set<string>, envs: seq<Env>, now: nat, e: PendingEnter)
    requires Inv(w) && e in w.pending && e.sessionId in waiting
    ensures RetryAttempts(Drained(w, waiting, envs, now), e.serial) == RetryAttempts(w, e.serial)
  {
    OneSerialOneEntry(w, e);
    DrainSparesWaiting(w, 0, waiting, envs, 0, now, e.serial);
  }

  lemma OneSerialOneEntry(w: World, e: PendingEnter)
    requires Ordered(w) && e in w.pending
    ensures forall x | x in w.pending && x.serial == e.serial :: x == e
  {
    var i :| 0 <= i < |w.pending| && w.pending[i] == e;
    forall x | x in w.pending && x.serial == e.serial
      ensures x == e
    {
      var j :| 0 <= j < |w.pending| && w.pending[j] == x;
      assert i == j;
    }
  }

  lemma VisitSparesWaiting(w: World, i: nat, waiting: set<string>, env: Env, now: nat, serial: nat)
    requires Inv(w) && i < |w.pending|
    requires forall e | e in w.pending && e.serial == serial :: e.sessionId in waiting
    ensures var w' := Visit(w, i, waiting, env, now);
            && RetryAttempts(w', serial) == RetryAttempts(w, serial)
            && forall e | e in w'.pending && e.serial == serial :: e.sessionId in waiting
  {
    var e, w' := w.pending[i], Visit(w, i, waiting, env, now);
    var events := VisitIsLocal(w, i, waiting, env, now);
    assert e in w.pending;
    HistExtends(w.trace, events, serial);
    if e.serial != serial {
      OthersEventsAddNothing(Hist(w.trace, serial), events, serial);
    }
    forall x | x in w'.pending && x.serial == serial
      ensures x.sessionId in waiting
    {
      var j := Survivor(w, w', i, events, x);
      assert w.pending[j] in w.pending;
    }
  }

  lemma SessionStepOnlyStamps(w: World, op: Op)
    requires Ordered(w) && !op.Tick?
    ensures var w' := Step(w, op);
            forall sid | sid in w.sessions && sid in w'.sessions ::
              w'.sessions[sid].lastInput >= w.sessions[sid].lastInput
    ensures var w' := Step(w, op);
            forall sid | sid in w'.sessions && sid !in w.sessions :: w'.sessions[sid].lastInput > w.clock
  {
  }

  lemma QueueingKeepsStale(w: World, w': World, more: seq<PendingEnter>, serial: nat)
    requires Stale(w, serial) && w'.pending == w.pending + more && w'.sessions.Keys <= w.sessions.Keys
    requires forall sid | sid in w'.sessions :: w'.sessions[sid].lastInput >= w.sessions[sid].lastInput
    requires forall e | e in more :: e.serial != serial
    ensures Stale(w', serial)
  {
    forall e | e in w'.pending && e.serial == serial && e.sessionId in w'.sessions
      ensures e.inputAt < w'.sessions[e.sessionId].lastInput
    {
      assert e in w.pending;
    }
  }

  lemma InjectIsQuiet(w: World, op: Op, serial: nat)
    requires serial < w.nextSerial && op.Inject?
    ensures RetryAttempts(Step(w, op), serial) == RetryAttempts(w, serial)
  {
    var w' := Step(w, op);
    if |w'.pending| > |w.pending| {
      QueueingMovesOneHistory(w, w', op.now);
    }
  }

  lemma InjectKeepsStale(w: World, op: Op, serial: nat)
    requires Ordered(w) && Stale(w, serial) && serial < w.nextSerial && op.Inject?
    ensures Stale(Step(w, op), serial) && serial < Step(w, op).nextSerial
    ensures RetryAttempts(Step(w, op), serial) == RetryAttempts(w, serial)
  {
    var w' := Step(w, op);
    InjectIsQuiet(w, op, serial);
    SessionStepOnlyStamps(w, op);
    assert w'.pending[..|w.pending|] == w.pending;
    QueueingKeepsStale(w, w', w'.pending[|w.pending|..], serial);
  }

  lemma SessionStepKeepsStale(w: World, op: Op, serial: nat)
    requires Inv(w) && Stale(w, serial) && !op.Inject? && !op.Tick?
    ensures Stale(Step(w, op), serial) && Step(w, op).nextSerial == w.nextSerial
    ensures RetryAttempts(Step(w, op), serial) == RetryAttempts(w, serial)
  {
    SessionStepIsQuiet(w, op);
    SessionStepOnlyStamps(w, op);
    var w' := Step(w, op);
    forall e | e in w'.pending && e.serial == serial && e.sessionId in w'.sessions
      ensures e.inputAt < w'.sessions[e.sessionId].lastInput
    {
      assert e in w.pending;
    }
  }

  lemma StepKeepsStale(w: World, op: Op, serial: nat)
    requires Inv(w) && Stale(w, serial) && serial < w.nextSerial
    ensures Stale(Step(w, op), serial) && serial < Step(w, op).nextSerial
    ensures RetryAttempts(Step(w, op), serial) == RetryAttempts(w, serial)
  {
    if op.Tick? {
      DrainKeepsStale(w, 0, op.waiting, op.envs, 0, op.now, serial);
      DrainKeepsSerials(w, 0, op.waiting, op.envs, 0, op.now);
    } else if op.Inject? {
      InjectKeepsStale(w, op, serial);
    } else {
      SessionStepKeepsStale(w, op, serial);
    }
  }

  lemma {:induction false} DrainKeepsSerials(w: World, i: nat, waiting: set<string>, envs: seq<Env>, visit: nat,
                                             now: nat)
    requires i <= |w.pending|
    ensures DrainFrom(w, i, waiting, envs, visit, now).nextSerial == w.nextSerial
    decreases |w.pending| - i
  {
    if i < |w.pending| {
      var w1 := Visit(w, i, waiting, EnvAt(envs, visit), now);
      DrainKeepsSerials(w1, if |w1.pending| == |w.pending| then i + 1 else i, waiting, envs, visit + 1, now);
    }
  }

  /** Once it has lost its input, an injection never presses Enter again as a retry, whatever happens. */
  lemma {:induction false} StaleNeverRetries(w: World, ops: seq<Op>, serial: nat)
    requires Inv(w) && Stale(w, serial) && serial < w.nextSerial
    ensures RetryAttempts(Run(w, ops), serial) == RetryAttempts(w, serial)
    decreases ops
  {
    if ops != [] {
      StepKeepsInv(w, ops[0]);
      StepKeepsStale(w, ops[0], serial);
      StaleNeverRetries(Step(w, ops[0]), ops[1..], serial);
    }
  }

  /** User input or another injection reaching the session silences every entry already queued for it. */
  lemma OtherInputStopsRetries(before: seq<Op>, op: Op, after: seq<Op>, e: PendingEnter)
    requires var w := Run(INITIAL, before);
             e in w.pending && Accepts(w, e.sessionId)
             && ((op.OtherInput? || op.Inject?) && op.sid == e.sessionId)
    ensures var w := Run(INITIAL, before);
            RetryAttempts(Run(Step(w, op), after), e.serial) == RetryAttempts(w, e.serial)
  {
    var w := Run(INITIAL, before);
    assert Inv(INITIAL);
    RunKeepsInv(INITIAL, before);
    StepKeepsInv(w, op);
    var w' := Step(w, op);
    if op.Inject? && |w'.pending| > |w.pending| {
      QueueingMovesOneHistory(w, w', op.now);
    }
    forall x | x in w'.pending && x.serial == e.serial
      ensures x in w.pending && x == e
    {
      var i :| 0 <= i < |w.pending| && w.pending[i] == e;
      if x in w.pending {
        var j :| 0 <= j < |w.pending| && w.pending[j] == x;
        assert i == j;
      }
    }
    StaleNeverRetries(w', after, e.serial);
  }

  lemma AnothersEnterMakesStale(w: World, i: nat, j: nat, waiting: set<string>, env: Env, now: nat)
    requires Inv(w) && i < |w.pending| && j < |w.pending| && i != j
    requires w.pending[i].sessionId == w.pending[j].sessionId
    requires Visit(w, i, waiting, env, now).clock > w.clock
    ensures var w1, serial := Visit(w, i, waiting, env, now), w.pending[j].serial;
            Stale(w1, serial) && RetryAttempts(w1, serial) == RetryAttempts(w, serial)
  {
    var serial := w.pending[j].serial;
    var w1 := Visit(w, i, waiting, env, now);
    var events := VisitIsLocal(w, i, waiting, env, now);
    HistExtends(w.trace, events, serial);
    assert w.pending[i].serial != serial;
    OthersEventsAddNothing(Hist(w.trace, serial), events, serial);
    SendingVisitStamps(w, i, waiting, env, now);
    forall x | x in w1.pending && x.serial == serial && x.sessionId in w1.sessions
      ensures x.inputAt < w1.sessions[x.sessionId].lastInput
    {
      var k := Survivor(w, w1, i, events, x);
      assert k == j;
      assert w.pending[j] in w.pending;
    }
  }

  /** So does another entry's Enter, for the rest of the same pass and ever after, on whichever side of the queue
      the silenced entry stands. */
  lemma AnothersEnterStopsRetries(w: World, i: nat, j: nat, waiting: set<string>, envs: seq<Env>, visit: nat, now: nat,
                                  after: seq<Op>)
    requires Inv(w) && i < |w.pending| && j < |w.pending| && i != j
    requires w.pending[i].sessionId == w.pending[j].sessionId
    requires Visit(w, i, waiting, EnvAt(envs, visit), now).clock > w.clock
    ensures var w1 := Visit(w, i, waiting, EnvAt(envs, visit), now);
            var rest := DrainFrom(w1, if |w1.pending| == |w.pending| then i + 1 else i, waiting, envs, visit + 1, now);
            RetryAttempts(Run(rest, after), w.pending[j].serial) == RetryAttempts(w, w.pending[j].serial)
  {
    var serial := w.pending[j].serial;
    var w1 := Visit(w, i, waiting, EnvAt(envs, visit), now);
    assert w.pending[j] in w.pending;
    VisitKeepsInv(w, i, waiting, EnvAt(envs, visit), now);
    AnothersEnterMakesStale(w, i, j, waiting, EnvAt(envs, visit), now);
    var next := if |w1.pending| == |w.pending| then i + 1 else i;
    DrainKeepsStale(w1, next, waiting, envs, visit + 1, now, serial);
    DrainKeepsInv(w1, next, waiting, envs, visit + 1, now);
    DrainKeepsSerials(w1, next, waiting, envs, visit + 1, now);
    VisitKeepsSerials(w, i, waiting, EnvAt(envs, visit), now);
    StaleNeverRetries(DrainFrom(w1, next, waiting, envs, visit + 1, now), after, serial);
  }

  lemma VisitKeepsSerials(w: World, i: nat, waiting: set<string>, env: Env, now: nat)
    requires i < |w.pending|
    ensures Visit(w, i, waiting, env, now).nextSerial == w.nextSerial
  {
  }

  lemma SendingVisitStamps(w: World, i: nat, waiting: set<string>, env: Env, now: nat)
    requires i < |w.pending| && Visit(w, i, waiting, env, now).clock > w.clock
    ensures var w' := Visit(w, i, waiting, env, now);
            var sid := w.pending[i].sessionId;
            sid in w'.sessions && w'.sessions[sid].lastInput == w'.clock
  {
  }

  lemma RetryEventsAttempt(w: World, e: PendingEnter, waiting: set<string>, env: Env, now: nat, h: History)
    requires e.sessionId in w.sessions && e.quietSince.Some?
    ensures var events := RetryEvents(w, e, waiting, env, now);
            More(h, events, e.serial).retryAttempts == h.retryAttempts + if |events| == 3 then 1 else 0
  {
    var events := RetryEvents(w, e, waiting, env, now);
    var last := events[|events| - 1];
    if |events| == 3 {
      assert events == [events[0], events[1], last];
      MoreOfFew(h, events[0], events[1], last, e.serial);
    } else {
      assert events == if |events| == 1 then [events[0]] else [events[0], last];
      MoreOfFew(h, events[0], last, last, e.serial);
    }
  }

  lemma RetryVisitAttempts(w: World, i: nat, waiting: set<string>, env: Env, now: nat)
    requires i < |w.pending| && w.pending[i].sessionId in w.sessions && w.pending[i].quietSince.Some?
    ensures var e := w.pending[i];
            RetryAttempts(RetryVisit(w, i, waiting, env, now), e.serial)
            == RetryAttempts(w, e.serial) + if |RetryEvents(w, e, waiting, env, now)| == 3 then 1 else 0
  {
    var e := w.pending[i];
    RetryVisitIsLocal(w, i, waiting, env, now);
    HistExtends(w.trace, RetryEvents(w, e, waiting, env, now), e.serial);
    RetryEventsAttempt(w, e, waiting, env, now, Hist(w.trace, e.serial));
  }

  /** A retry is attempted exactly by a visit that finds the entry due, in a running session whose input the entry still
      owns, with the text still on screen, fewer than four earlier due visits, and no output since the first Enter or
      the previous due visit. */
  lemma RetriesExactlyWhenUntouched(w: World, i: nat, waiting: set<string>, env: Env, now: nat)
    requires Inv(w) && i < |w.pending|
    ensures var e, w' := w.pending[i], Visit(w, i, waiting, env, now);
            var h := Hist(w.trace, e.serial);
            var since := if h.dues == 1 then e.inputAt else h.lastDue;
            RetryAttempts(w', e.serial) == RetryAttempts(w, e.serial) + 1
            <==> && DueFrom(h) <= now && Accepts(w, e.sessionId) && 1 <= h.dues <= 3
                 && Live(w, e) && e.sessionId !in waiting && env.matches
                 && (w.sessions[e.sessionId].lastOutput <= since || now <= since)
  {
    var e := w.pending[i];
    assert e in w.pending;
    if e.fireAt <= now && e.sessionId in w.sessions && e.quietSince.Some? {
      RetryVisitAttempts(w, i, waiting, env, now);
    } else {
      NonRetryVisitAttemptsNothing(w, i, waiting, env, now);
    }
  }

  /** Why a visit gives an entry up, told from its history, the session and the visit's environment, the first reason
      that applies; None if it stays. */
  function GivesUp(w: World, e: PendingEnter, h: History, waiting: set<string>, env: Env, now: nat): Option<Reason> {
    if now < DueFrom(h) then None
    else if e.sessionId !in w.sessions then Some(SessionGone)
    else
      var s := w.sessions[e.sessionId];
      var owned := s.lastInput == e.inputAt && e.sessionId !in waiting;
      var since := if h.dues == 1 then e.inputAt else h.lastDue;
      if h.dues == 0 then
        if !s.running || !env.writeOk then Some(SendFailed) else if !owned then Some(InputBeforeFirst) else None
      else if !s.running then Some(SessionExited)
      else if !owned then Some(InterveningInput)
      else if !env.matches then Some(NoMatchingInput)
      else if h.dues == 4 then Some(FinalCheck)
      else if (s.lastOutput <= since || now <= since) && !env.writeOk then Some(RetryFailed)
      else None
  }

  /** A visit gives an entry up, with one log record of the reason, exactly when its history and the session say so. */
  lemma VisitGivesUpIff(w: World, i: nat, waiting: set<string>, env: Env, now: nat)
    requires Inv(w) && i < |w.pending|
    ensures var e, w' := w.pending[i], Visit(w, i, waiting, env, now);
            match GivesUp(w, e, Hist(w.trace, e.serial), waiting, env, now)
            case None => |w'.pending| == |w.pending| && w'.pending[i].serial == e.serial
            case Some(reason) =>
              && |w'.pending| == |w.pending| - 1 && w'.trace != []
              && w'.trace[|w'.trace| - 1] == Ended(e.serial, reason)
  {
    var e := w.pending[i];
    assert e in w.pending;
  }

  lemma NonRetryVisitAttemptsNothing(w: World, i: nat, waiting: set<string>, env: Env, now: nat)
    requires Inv(w) && i < |w.pending|
    requires var e := w.pending[i]; now < e.fireAt || e.sessionId !in w.sessions || e.quietSince.None?
    ensures RetryAttempts(Visit(w, i, waiting, env, now), w.pending[i].serial) == RetryAttempts(w, w.pending[i].serial)
  {
    var e := w.pending[i];
    assert e in w.pending;
    var h := Hist(w.trace, e.serial);
    if now < e.fireAt {
    } else if e.sessionId !in w.sessions {
      var events := [Due(e.serial, now), Ended(e.serial, SessionGone)];
      HistExtends(w.trace, events, e.serial);
      MoreOfFew(h, events[0], events[1], events[1], e.serial);
    } else {
      FirstVisitIsLocal(w, i, waiting, env, now);
      FirstVisitIsRecorded(w, i, waiting, env, now, h);
      HistExtends(w.trace, FirstEvents(w, e, waiting, env, now), e.serial);
    }
  }
}
