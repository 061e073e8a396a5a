/** Accounting for scheduler events over whole runs. */
module SchedulerRuns {
  import opened Naturals
  import opened Wrappers
  import opened SessionInput
  import opened Scheduler

  datatype Op =
    | Fire(e: SchedulerEvent, clock: Clock, k: Kernel)
    | DrainDeferred(clocks: seq<Clock>, ks: seq<Kernel>)
    | Environment(order: seq<string>, lines: Lines)    // sessions come, go, and are typed into

  ghost function Step(d: Desk, config: Config, op: Op): (r: Desk)
    requires GoodLines(d.lines)
    ensures GoodLines(r.lines)
  {
    match op
    case Fire(e, clock, k) =>
      HandleIsGood(d.lines, d.order, e, config, clock, k);
      HandledDesk(d, e, config, clock, k)
    case DrainDeferred(clocks, ks) => DrainedDesk(d, config, clocks, ks)
    case Environment(order, lines) => if GoodLines(lines) then d.(order := order, lines := lines) else d
  }

  lemma HandleIsGood(lines: Lines, order: seq<string>, e: SchedulerEvent, config: Config, clock: Clock, k: Kernel)
    requires GoodLines(lines)
    ensures GoodLines(Handle(lines, order, e, config, clock, k).0)
  {
    var target := Target(e, order);
    if target.Some? && target.value in lines {
      DeliveredIsGood(lines, target.value, e, config, clock.send, k);
    }
  }

  ghost function Run(d: Desk, config: Config, ops: seq<Op>): (r: Desk)
    requires GoodLines(d.lines)
    ensures GoodLines(r.lines)
    decreases ops
  {
    if ops == [] then d else Run(Step(d, config, ops[0]), config, ops[1..])
  }

  function One(x: SchedulerEvent, e: SchedulerEvent): nat {
    if x == e then 1 else 0
  }

  /** How often `e` fired in the run. */
  function Fired(ops: seq<Op>, e: SchedulerEvent): nat
    decreases ops
  {
    if ops == [] then 0 else (if ops[0].Fire? then One(ops[0].e, e) else 0) + Fired(ops[1..], e)
  }

  function Times(events: seq<SchedulerEvent>, e: SchedulerEvent): nat {
    if events == [] then 0 else Times(events[..|events| - 1], e) + One(events[|events| - 1], e)
  }

  lemma TimesNext(events: seq<SchedulerEvent>, x: SchedulerEvent, e: SchedulerEvent)
    ensures Times(events + [x], e) == Times(events, e) + One(x, e)
  {
    assert (events + [x])[..|events|] == events;
  }

  lemma {:induction false} TimesIsCount(events: seq<SchedulerEvent>, e: SchedulerEvent)
    ensures Times(events, e) == multiset(events)[e]
  {
    if events != [] {
      TimesIsCount(events[..|events| - 1], e);
      assert events == events[..|events| - 1] + [events[|events| - 1]];
    }
  }

  /** How many times the desk has taken in `e`, wherever it is now. */
  function Accounted(d: Desk, e: SchedulerEvent): nat {
    Times(d.delivered, e) + Times(d.refused, e) + Times(d.dropped, e) + Times(d.discarded, e) + Times(d.deferred, e)
  }

  /** One deferred event only touches the line of its own target, delivers exactly when that is idle, and moves it only
      by delivering: then the input clock moves past the write's reading or stays where it was. */
  lemma RetryIsLocal(lines: Lines, order: seq<string>, e: SchedulerEvent, config: Config, clock: Clock, k: Kernel)
    requires GoodLines(lines)
    ensures var (lines', fate) := Retry(lines, order, e, config, clock, k);
            && lines'.Keys == lines.Keys
            && (fate.Discard? ==> Target(e, order).Some? && Target(e, order).value !in lines)
            && (forall sid | sid in lines && Some(sid) != Target(e, order) :: lines'[sid] == lines[sid])
            && (forall sid | sid in lines && Some(sid) == Target(e, order) ::
                  && (fate.Deliver? <==> InputIdle(lines[sid].session, clock.idle))
                  && (!fate.Deliver? ==> fate == Keep && lines'[sid] == lines[sid])
                  && (fate.Deliver? ==>
                        if fate.moved then lines'[sid].session.lastInput > Max(clock.send, lines[sid].session.lastInput)
                        else lines'[sid].session.lastInput == lines[sid].session.lastInput))
  {
    var target := Target(e, order);
    if target.Some? && target.value in lines {
      SendMovesClockIff(lines[target.value], e.message, config, clock.send, k);
    }
  }

  /** What a delivery does to its session: the message is queued or sent, once, exactly when it is accepted, and the
      input clock moves exactly when bytes go out or, with chunking off, when `send_keys` reaches a running session. */
  lemma DeliveryIsExact(lines: Lines, order: seq<string>, e: SchedulerEvent, config: Config, clock: Clock, k: Kernel)
    requires GoodLines(lines) && Retry(lines, order, e, config, clock, k).1.Deliver?
    ensures var (lines', fate) := Retry(lines, order, e, config, clock, k);
            && Target(e, order).Some? && Target(e, order).value in lines && lines'.Keys == lines.Keys
            && var l, l' := lines[Target(e, order).value], lines'[Target(e, order).value];
               && (fate.accepted <==> |l'.scheduler| + |l'.armed| == |l.scheduler| + |l.armed| + 1)
               && (fate.accepted <==> config.bytes > 0 || !Rejects(l.session, k))
               && (fate.moved
                   <==> if config.bytes > 0 then |l'.sentScheduler| > |l.sentScheduler| else l.session.running)
  {
    var l := lines[Target(e, order).value];
    SendAcceptsIffNotRefused(l, e.message, config, clock.send, k);
    SendMovesClockIff(l, e.message, config, clock.send, k);
  }

  /** The session an event goes to: its own, else the first in order. */
  function GoesTo(e: SchedulerEvent, order: seq<string>): Option<string> {
    match e.sessionId
    case Some(sid) => Some(sid)
    case None => if |order| > 0 then Some(order[0]) else None
  }

  /** An event has been handed to its session, which accepts it unless chunking is off and the write fails; no other
      session's line has moved. */
  predicate HandedTo(d: Desk, d': Desk, sid: string, e: SchedulerEvent, config: Config, k: Kernel)
    requires sid in d.lines
  {
    var accepted := config.bytes > 0 || (d.lines[sid].session.running && k.Takes?);
    && d'.lines.Keys == d.lines.Keys && Took(d.lines[sid], d'.lines[sid], e.message, config)
    && (forall x | x in d.lines && x != sid :: d'.lines[x] == d.lines[x])
    && d' == if accepted then d.(lines := d'.lines, delivered := d.delivered + [e])
             else d.(lines := d'.lines, refused := d.refused + [e])
  }

  /** A fired event whose target lives is typed into it exactly when the user's last input there is two seconds old.
      Otherwise nothing moves, and a reminder or a Wait-policy cron waits while a Drop-policy cron is dropped. One
      without a live target is discarded. */
  lemma FiredEventGoesByIdleness(d: Desk, e: SchedulerEvent, config: Config, clock: Clock, k: Kernel)
    requires GoodLines(d.lines)
    ensures var d', sid := HandledDesk(d, e, config, clock, k), GoesTo(e, d.order);
            if sid.None? || sid.value !in d.lines then d' == d.(discarded := d.discarded + [e])
            else if clock.idle >= d.lines[sid.value].session.lastInput + 2_000_000_000 then
              HandedTo(d, d', sid.value, e, config, k)
            else
              match e
              case ReminderFired(_, _) => d' == d.(deferred := d.deferred + [e])
              case CronFired(_, _, Wait) => d' == d.(deferred := d.deferred + [e])
              case CronFired(_, _, Drop) => d' == d.(dropped := d.dropped + [e])
  {
    var sid := GoesTo(e, d.order);
    if sid.Some? && sid.value in d.lines {
      SendHandsOver(d.lines[sid.value], e.message, config, clock.send, k);
    }
  }

  /** The law for a deferred event: it stays deferred while its target is busy or there is none to aim at, and is
      discarded when its target is gone. */
  ghost predicate RetriedByIdleness(d: Desk, d': Desk, e: SchedulerEvent, config: Config, clock: Clock, k: Kernel) {
    var sid := GoesTo(e, d.order);
    if sid.None? then d' == d.(deferred := d.deferred + [e])
    else if sid.value !in d.lines then d' == d.(discarded := d.discarded + [e])
    else if clock.idle >= d.lines[sid.value].session.lastInput + 2_000_000_000 then
      HandedTo(d, d', sid.value, e, config, k)
    else d' == d.(deferred := d.deferred + [e])
  }

  lemma RetryGoesByIdleness(d: Desk, e: SchedulerEvent, config: Config, clock: Clock, k: Kernel)
    requires GoodLines(d.lines)
    ensures var (lines, fate) := Retry(d.lines, d.order, e, config, clock, k);
            RetriedByIdleness(d, Put(d, e, lines, fate), e, config, clock, k)
  {
    var sid := GoesTo(e, d.order);
    if sid.Some? && sid.value in d.lines {
      SendHandsOver(d.lines[sid.value], e.message, config, clock.send, k);
    }
  }

  /** Every event of a pass over the deferred ones goes by it, each finding the desk as the one before left it. */
  lemma DeferredEventGoesByIdleness(was: Desk, config: Config, clocks: seq<Clock>, ks: seq<Kernel>, i: nat)
    requires GoodLines(was.lines) && i < |was.deferred|
    ensures RetriedByIdleness(Passed(was, config, clocks, ks, i), Passed(was, config, clocks, ks, i + 1),
                              was.deferred[i], config, ClockAt(clocks, i), KernelAt(ks, i))
  {
    var d := Passed(was, config, clocks, ks, i);
    PassedNext(was, config, clocks, ks, i, d);
    RetryGoesByIdleness(d, was.deferred[i], config, ClockAt(clocks, i), KernelAt(ks, i));
  }

  /** A pass begins with nothing deferred again and ends as the drained desk. */
  lemma PassBeginsAndEnds(was: Desk, config: Config, clocks: seq<Clock>, ks: seq<Kernel>)
    requires GoodLines(was.lines)
    ensures Passed(was, config, clocks, ks, 0) == was.(deferred := [])
    ensures DrainedDesk(was, config, clocks, ks) == Passed(was, config, clocks, ks, |was.deferred|)
  {
  }

  lemma PutAccounts(d: Desk, x: SchedulerEvent, lines: Lines, fate: Fate, e: SchedulerEvent)
    requires !fate.DropBusy?
    ensures Accounted(Put(d, x, lines, fate), e) == Accounted(d, e) + One(x, e)
  {
    match fate
    case Deliver(accepted, _) => TimesNext(if accepted then d.delivered else d.refused, x, e);
    case Discard => TimesNext(d.discarded, x, e);
    case Keep => TimesNext(d.deferred, x, e);
  }

  lemma {:induction false} StaysTheSame(f: nat -> int, n: nat)
    requires forall i: nat | i < n :: f(i + 1) == f(i)
    ensures f(n) == f(0)
  {
    if n > 0 {
      StaysTheSame(f, n - 1);
      assert f((n - 1) + 1) == f(n - 1);
    }
  }

  /** Accounted for after `i` events of a pass, and still to come. */
  ghost function Balance(was: Desk, config: Config, clocks: seq<Clock>, ks: seq<Kernel>, e: SchedulerEvent): nat -> int
    requires GoodLines(was.lines)
  {
    (i: nat) => if i > |was.deferred| then 0
                else Accounted(Passed(was, config, clocks, ks, i), e) - Times(was.deferred[..i], e)
  }

  lemma BalanceAt(was: Desk, config: Config, clocks: seq<Clock>, ks: seq<Kernel>, e: SchedulerEvent, i: nat)
    requires GoodLines(was.lines) && i <= |was.deferred|
    ensures Balance(was, config, clocks, ks, e)(i)
            == Accounted(Passed(was, config, clocks, ks, i), e) - Times(was.deferred[..i], e)
  {
  }

  lemma BalanceHolds(was: Desk, config: Config, clocks: seq<Clock>, ks: seq<Kernel>, e: SchedulerEvent, i: nat)
    requires GoodLines(was.lines) && i < |was.deferred|
    ensures Balance(was, config, clocks, ks, e)(i + 1) == Balance(was, config, clocks, ks, e)(i)
  {
    BalanceAt(was, config, clocks, ks, e, i);
    BalanceAt(was, config, clocks, ks, e, i + 1);
    OneMoreAccounts(was, config, clocks, ks, i, e);
  }

  lemma BalanceIsConstant(was: Desk, config: Config, clocks: seq<Clock>, ks: seq<Kernel>, e: SchedulerEvent)
    requires GoodLines(was.lines)
    ensures Balance(was, config, clocks, ks, e)(|was.deferred|) == Balance(was, config, clocks, ks, e)(0)
  {
    forall i: nat | i < |was.deferred|
      ensures Balance(was, config, clocks, ks, e)(i + 1) == Balance(was, config, clocks, ks, e)(i)
    {
      BalanceHolds(was, config, clocks, ks, e, i);
    }
    StaysTheSame(Balance(was, config, clocks, ks, e), |was.deferred|);
  }

  /** Once a pass is through every event that was waiting is accounted for. */
  lemma PassedAccounts(was: Desk, config: Config, clocks: seq<Clock>, ks: seq<Kernel>, e: SchedulerEvent)
    requires GoodLines(was.lines)
    ensures Accounted(Passed(was, config, clocks, ks, |was.deferred|), e) + Times(was.deferred, e)
            == Accounted(was, e) + Times(was.deferred[..|was.deferred|], e)
  {
    BalanceIsConstant(was, config, clocks, ks, e);
    BalanceAt(was, config, clocks, ks, e, |was.deferred|);
    BalanceAt(was, config, clocks, ks, e, 0);
    NothingPassedYet(was, config, clocks, ks, e);
  }

  lemma NothingPassedYet(was: Desk, config: Config, clocks: seq<Clock>, ks: seq<Kernel>, e: SchedulerEvent)
    requires GoodLines(was.lines)
    ensures Accounted(Passed(was, config, clocks, ks, 0), e) + Times(was.deferred, e)
            == Accounted(was, e) + Times(was.deferred[..0], e)
  {
    assert Passed(was, config, clocks, ks, 0) == was.(deferred := []);
  }

  lemma PrefixTimes(events: seq<SchedulerEvent>, i: nat, e: SchedulerEvent)
    requires i < |events|
    ensures Times(events[..i + 1], e) == Times(events[..i], e) + One(events[i], e)
  {
    assert events[..i + 1] == events[..i] + [events[i]];
    TimesNext(events[..i], events[i], e);
  }

  lemma OneMoreAccounts(was: Desk, config: Config, clocks: seq<Clock>, ks: seq<Kernel>, i: nat, e: SchedulerEvent)
    requires GoodLines(was.lines) && i < |was.deferred|
    ensures Accounted(Passed(was, config, clocks, ks, i + 1), e) + Times(was.deferred[..i], e)
            == Accounted(Passed(was, config, clocks, ks, i), e) + Times(was.deferred[..i + 1], e)
  {
    var d := Passed(was, config, clocks, ks, i);
    PassedNext(was, config, clocks, ks, i, d);
    var (lines, fate) := Retry(d.lines, d.order, was.deferred[i], config, ClockAt(clocks, i), KernelAt(ks, i));
    PutAccounts(d, was.deferred[i], lines, fate, e);
    PrefixTimes(was.deferred, i, e);
  }

  /** A pass drops nothing, and discards only events whose target is missing. */
  lemma {:induction false} PassedDiscards(was: Desk, config: Config, clocks: seq<Clock>, ks: seq<Kernel>, i: nat)
    requires GoodLines(was.lines) && i <= |was.deferred|
    ensures var d := Passed(was, config, clocks, ks, i);
            && d.lines.Keys == was.lines.Keys && d.dropped == was.dropped
            && forall e | e in d.discarded && e !in was.discarded ::
                 Target(e, was.order).Some? && Target(e, was.order).value !in was.lines
  {
    if i > 0 {
      PassedDiscards(was, config, clocks, ks, i - 1);
      var d := Passed(was, config, clocks, ks, i - 1);
      RetryIsLocal(d.lines, d.order, was.deferred[i - 1], config, ClockAt(clocks, i - 1), KernelAt(ks, i - 1));
    }
  }

  lemma StepAccounts(d: Desk, config: Config, op: Op, e: SchedulerEvent)
    requires GoodLines(d.lines)
    ensures Accounted(Step(d, config, op), e) == Accounted(d, e) + if op.Fire? then One(op.e, e) else 0
  {
    match op
    case Fire(x, clock, k) => FireAccounts(d, config, x, clock, k, e);
    case DrainDeferred(clocks, ks) =>
      PassedAccounts(d, config, clocks, ks, e);
      assert d.deferred[..|d.deferred|] == d.deferred;
    case Environment(_, _) =>
  }

  lemma FireAccounts(d: Desk, config: Config, x: SchedulerEvent, clock: Clock, k: Kernel, e: SchedulerEvent)
    requires GoodLines(d.lines)
    ensures Accounted(HandledDesk(d, x, config, clock, k), e) == Accounted(d, e) + One(x, e)
  {
    var (lines, fate) := Handle(d.lines, d.order, x, config, clock, k);
    if fate.DropBusy? {
      TimesNext(d.dropped, x, e);
    } else {
      PutAccounts(d, x, lines, fate, e);
    }
  }

  /** Across any run each fired event is delivered, dropped, discarded or still deferred, and in one of these only:
      the five counts add up to the times it fired. */
  lemma {:induction false} EventsAreAccountedFor(d: Desk, config: Config, ops: seq<Op>, e: SchedulerEvent)
    requires GoodLines(d.lines)
    ensures Accounted(Run(d, config, ops), e) == Accounted(d, e) + Fired(ops, e)
    decreases ops
  {
    if ops != [] {
      StepAccounts(d, config, ops[0], e);
      EventsAreAccountedFor(Step(d, config, ops[0]), config, ops[1..], e);
    }
  }

  predicate TargetLives(e: SchedulerEvent, order: seq<string>, lines: Lines) {
    Target(e, order).Some? && Target(e, order).value in lines
  }

  /** Only Drop-policy cron events are ever dropped; `e` is discarded only while its target is missing. */
  lemma StepLosesNothingWaiting(d: Desk, config: Config, op: Op, e: SchedulerEvent)
    requires GoodLines(d.lines)
    requires Waits(e) && TargetLives(e, d.order, d.lines)
    requires e !in d.dropped && e !in d.discarded
    ensures e !in Step(d, config, op).dropped && e !in Step(d, config, op).discarded
  {
    if op.DrainDeferred? {
      PassedDiscards(d, config, op.clocks, op.ks, |d.deferred|);
    }
  }

  lemma StepKeepsSessions(d: Desk, config: Config, op: Op)
    requires GoodLines(d.lines)
    ensures !op.Environment? ==> Step(d, config, op).lines.Keys == d.lines.Keys && Step(d, config, op).order == d.order
  {
    if op.DrainDeferred? {
      PassedDiscards(d, config, op.clocks, op.ks, |d.deferred|);
    }
  }

  /** How often `e` has been accepted for delivery or is waiting. */
  function Held(d: Desk, e: SchedulerEvent): nat {
    Times(d.delivered, e) + Times(d.deferred, e)
  }

  /** While the session it targets lives, be it named or the first one in order, a reminder or a Wait-policy cron is
      accepted for delivery or still deferred each time it fired, but for the times `send_keys` refused it. */
  lemma {:induction false} WaitingEventsAreNeverLost(d: Desk, config: Config, ops: seq<Op>, e: SchedulerEvent)
    requires GoodLines(d.lines)
    requires Waits(e) && TargetLives(e, d.order, d.lines)
    requires forall op | op in ops && op.Environment? :: TargetLives(e, op.order, op.lines)
    requires e !in d.dropped && e !in d.discarded
    ensures var d' := Run(d, config, ops);
            Held(d', e) + Times(d'.refused, e) == Held(d, e) + Times(d.refused, e) + Fired(ops, e)
    decreases ops
  {
    if ops != [] {
      var d1 := Step(d, config, ops[0]);
      StepLosesNothingWaiting(d, config, ops[0], e);
      StepKeepsSessions(d, config, ops[0]);
      StepAccounts(d, config, ops[0], e);
      TimesIsCount(d.dropped, e);
      TimesIsCount(d.discarded, e);
      TimesIsCount(d1.dropped, e);
      TimesIsCount(d1.discarded, e);
      WaitingEventsAreNeverLost(d1, config, ops[1..], e);
    }
  }

  lemma {:induction false} PassedRefuses(was: Desk, config: Config, clocks: seq<Clock>, ks: seq<Kernel>, i: nat)
    requires GoodLines(was.lines) && i <= |was.deferred| && config.bytes > 0
    ensures Passed(was, config, clocks, ks, i).refused == was.refused
  {
    if i > 0 {
      PassedRefuses(was, config, clocks, ks, i - 1);
    }
  }

  /** With chunking on nothing is ever refused. */
  lemma {:induction false} ChunkingRefusesNothing(d: Desk, config: Config, ops: seq<Op>)
    requires GoodLines(d.lines) && config.bytes > 0
    ensures Run(d, config, ops).refused == d.refused
    decreases ops
  {
    if ops != [] {
      if ops[0].DrainDeferred? {
        PassedRefuses(d, config, ops[0].clocks, ops[0].ks, |d.deferred|);
      }
      ChunkingRefusesNothing(Step(d, config, ops[0]), config, ops[1..]);
    }
  }

  /** With chunking off, an event whose idle target runs but fails the write is lost: nothing is queued, armed or put
      off. The bytes before the failure are out, and the session counts as busy whether or not there were any. */
  lemma RefusedEventIsLost(d: Desk, config: Config, e: SchedulerEvent, clock: Clock, k: Kernel)
    requires GoodLines(d.lines) && config.bytes == 0 && k.Fails? && TargetLives(e, d.order, d.lines)
    requires var s := d.lines[Target(e, d.order).value].session; s.running && InputIdle(s, clock.idle)
    ensures var sid := Target(e, d.order).value;
            var l, n := d.lines[sid], Min(k.partial, |e.message.data|);
            HandledDesk(d, e, config, clock, k)
            == d.(lines := d.lines[sid := l.(session := l.session.(lastInput := StampAfter(l.session, k, clock.send)),
                                             sentScheduler := l.sentScheduler + e.message.data[..n],
                                             closed := l.closed + [Closed(e.message, n, false)])],
                  refused := d.refused + [e])
  {
    SendAcceptsIffNotRefused(d.lines[Target(e, d.order).value], e.message, config, clock.send, k);
  }

  // ----- one pass over the deferred events

  /** What becomes of the `i`-th event of a pass. */
  ghost function FateAt(was: Desk, config: Config, clocks: seq<Clock>, ks: seq<Kernel>, i: nat): Fate
    requires GoodLines(was.lines) && i < |was.deferred|
  {
    var lines := Passed(was, config, clocks, ks, i).lines;
    Retry(lines, was.order, was.deferred[i], config, ClockAt(clocks, i), KernelAt(ks, i)).1
  }

  /** A live session's last input once the pass has dealt with `i` events. */
  ghost function InputAt(was: Desk, config: Config, clocks: seq<Clock>, ks: seq<Kernel>, i: nat, sid: string): nat
    requires GoodLines(was.lines) && i <= |was.deferred| && sid in was.lines
  {
    PassedDiscards(was, config, clocks, ks, i);
    Passed(was, config, clocks, ks, i).lines[sid].session.lastInput
  }

  /** What one event of a pass does to a session's input clock, and what the clock says about its fate. */
  lemma OneEventMoves(was: Desk, config: Config, clocks: seq<Clock>, ks: seq<Kernel>, i: nat, sid: string)
    requires GoodLines(was.lines) && i < |was.deferred| && sid in was.lines
    ensures InputAt(was, config, clocks, ks, i, sid) <= InputAt(was, config, clocks, ks, i + 1, sid)
    ensures Target(was.deferred[i], was.order) == Some(sid) ==>
              match FateAt(was, config, clocks, ks, i)
              case Deliver(_, moved) =>
                && ClockAt(clocks, i).idle >= InputAt(was, config, clocks, ks, i, sid) + IDLE_THRESHOLD
                && (moved ==> InputAt(was, config, clocks, ks, i + 1, sid) > ClockAt(clocks, i).send)
              case _ => ClockAt(clocks, i).idle < InputAt(was, config, clocks, ks, i, sid) + IDLE_THRESHOLD
  {
    PassedDiscards(was, config, clocks, ks, i);
    PassedDiscards(was, config, clocks, ks, i + 1);
    var d := Passed(was, config, clocks, ks, i);
    PassedNext(was, config, clocks, ks, i, d);
    RetryIsLocal(d.lines, d.order, was.deferred[i], config, ClockAt(clocks, i), KernelAt(ks, i));
  }

  /** A pass never turns a session's input clock back. */
  lemma {:induction false} InputClockOnlyAdvances(was: Desk, config: Config, clocks: seq<Clock>, ks: seq<Kernel>,
                                                  i: nat, j: nat, sid: string)
    requires GoodLines(was.lines) && i <= j <= |was.deferred| && sid in was.lines
    ensures InputAt(was, config, clocks, ks, i, sid) <= InputAt(was, config, clocks, ks, j, sid)
  {
    if i < j {
      InputClockOnlyAdvances(was, config, clocks, ks, i, j - 1, sid);
      OneEventMoves(was, config, clocks, ks, j - 1, sid);
    }
  }

  /** A session found busy in a pass gets nothing from the rest of it until two seconds after its last input. */
  lemma BusyStaysBusy(was: Desk, config: Config, clocks: seq<Clock>, ks: seq<Kernel>, i: nat, j: nat, sid: string)
    requires GoodLines(was.lines) && i <= j < |was.deferred| && sid in was.lines
    requires Target(was.deferred[j], was.order) == Some(sid) && FateAt(was, config, clocks, ks, j).Deliver?
    ensures ClockAt(clocks, j).idle >= InputAt(was, config, clocks, ks, i, sid) + IDLE_THRESHOLD
  {
    InputClockOnlyAdvances(was, config, clocks, ks, i, j, sid);
    OneEventMoves(was, config, clocks, ks, j, sid);
  }

  /** In one pass a session's events go out in order: none passes an earlier one that is kept unless its clock reading
      is later, and none follows a delivery that moved the input clock but by a reading more than two seconds on. In
      a pass shorter than that, a session to which writes make progress gets at most one event. */
  lemma PassDeliversInOrder(was: Desk, config: Config, clocks: seq<Clock>, ks: seq<Kernel>, i: nat, j: nat, sid: string)
    requires GoodLines(was.lines) && i < j < |was.deferred| && sid in was.lines
    requires Target(was.deferred[i], was.order) == Target(was.deferred[j], was.order) == Some(sid)
    requires FateAt(was, config, clocks, ks, j).Deliver?
    ensures match FateAt(was, config, clocks, ks, i)
            case Deliver(_, moved) => moved ==> ClockAt(clocks, j).idle > ClockAt(clocks, i).send + IDLE_THRESHOLD
            case _ => ClockAt(clocks, j).idle > ClockAt(clocks, i).idle
  {
    OneEventMoves(was, config, clocks, ks, i, sid);
    BusyStaysBusy(was, config, clocks, ks, i, j, sid);
    BusyStaysBusy(was, config, clocks, ks, i + 1, j, sid);
  }
}
