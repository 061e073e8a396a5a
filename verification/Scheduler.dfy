/** Delivery, deferral and dropping of scheduler events: `handle_scheduler_event` and
    `drain_deferred_scheduler_events` in src/app.rs. */
module Scheduler {
  import opened Naturals
  import opened Wrappers
  import opened InjectedEnter
  import opened SessionInput

  datatype BusyPolicy = Drop | Wait

  datatype SchedulerEvent =
    | ReminderFired(sessionId: Option<string>, message: Message)
    | CronFired(sessionId: Option<string>, message: Message, ifBusy: BusyPolicy)

  /** Seconds of input silence before a message may be injected. */
  const IDLE_THRESHOLD: nat := 2 * SECOND

  /** `input_idle_seconds() >= threshold`. */
  predicate InputIdle(s: Session, now: nat) {
    SaturatingSub(now, s.lastInput) >= IDLE_THRESHOLD
  }

  /** Each live session with its input queues. */
  type Lines = map<string, Line>

  ghost predicate GoodLines(lines: Lines) {
    forall sid | sid in lines :: WellFormed(lines[sid])
  }

  function Target(e: SchedulerEvent, order: seq<string>): Option<string> {
    if e.sessionId.Some? then e.sessionId else if order != [] then Some(order[0]) else None
  }

  /** Whether a busy target makes the event wait instead of dropping it. */
  predicate Waits(e: SchedulerEvent) {
    e.ReminderFired? || e.ifBusy == Wait
  }

  /** Hand the event to `send_scheduler`, whose result is ignored. */
  function Delivered(lines: Lines, sid: string, e: SchedulerEvent, config: Config, now: nat, k: Kernel): Lines
    requires GoodLines(lines) && sid in lines
  {
    lines[sid := SendOf(lines[sid], e.message, config, now, k).0]
  }

  /** The two clock readings an event gets: for the idle test, and for the write. */
  datatype Clock = Clock(idle: nat, send: nat)

  /** `accepted`: the message was queued or sent; `moved`: the session's input clock moved. */
  datatype Fate = Deliver(accepted: bool, moved: bool) | DropBusy | Discard | Keep

  function DeliveryFate(lines: Lines, lines': Lines, sid: string, config: Config, k: Kernel): Fate
    requires sid in lines && sid in lines'
  {
    Deliver(!Refuses(lines[sid], config, k), lines'[sid].session.lastInput != lines[sid].session.lastInput)
  }

  /** A newly fired event. */
  function Handle(lines: Lines, order: seq<string>, e: SchedulerEvent, config: Config, clock: Clock, k: Kernel)
    : (Lines, Fate)
    requires GoodLines(lines)
  {
    var target := Target(e, order);
    if target.None? || target.value !in lines then (lines, Discard)
    else
      var sid := target.value;
      if InputIdle(lines[sid].session, clock.idle) then
        var lines' := Delivered(lines, sid, e, config, clock.send, k);
        (lines', DeliveryFate(lines, lines', sid, config, k))
      else (lines, if Waits(e) then Keep else DropBusy)
  }

  /** One deferred event: a missing target counts as idle and loses the event, no target at all keeps it. */
  function Retry(lines: Lines, order: seq<string>, e: SchedulerEvent, config: Config, clock: Clock, k: Kernel)
    : (r: (Lines, Fate))
    requires GoodLines(lines)
    ensures !r.1.DropBusy?
  {
    var target := Target(e, order);
    if target.None? then (lines, Keep)
    else if target.value !in lines then (lines, Discard)
    else
      var sid := target.value;
      if InputIdle(lines[sid].session, clock.idle) then
        var lines' := Delivered(lines, sid, e, config, clock.send, k);
        (lines', DeliveryFate(lines, lines', sid, config, k))
      else (lines, Keep)
  }

  lemma SendKeepsWellFormed(l: Line, m: Message, config: Config, now: nat, k: Kernel)
    requires WellFormed(l)
    ensures WellFormed(SendOf(l, m, config, now, k).0)
    ensures var s := SendOf(l, m, config, now, k).0.session;
            s.lastInput == l.session.lastInput || s.lastInput > now
  {
    if config.bytes > 0 {
      AppendedIsWellFormed(l, m, config, now);
      var l1 := Appended(l, m, config, now);
      if now >= l1.scheduler[0].nextWrite && !Rejects(l1.session, k) {
        WriteKeepsWellFormed(l1, now, k);
      }
    }
  }

  lemma DeliveredIsGood(lines: Lines, sid: string, e: SchedulerEvent, config: Config, now: nat, k: Kernel)
    requires GoodLines(lines) && sid in lines
    ensures GoodLines(Delivered(lines, sid, e, config, now, k))
  {
    SendKeepsWellFormed(lines[sid], e.message, config, now, k);
  }

  function KernelAt(ks: seq<Kernel>, i: nat): Kernel {
    if i < |ks| then ks[i] else Takes(0, 0)
  }

  function ClockAt(clocks: seq<Clock>, i: nat): Clock {
    if i < |clocks| then clocks[i] else Clock(0, 0)
  }

  lemma RetryIsGood(lines: Lines, order: seq<string>, e: SchedulerEvent, config: Config, clock: Clock, k: Kernel)
    requires GoodLines(lines)
    ensures GoodLines(Retry(lines, order, e, config, clock, k).0)
  {
    var target := Target(e, order);
    if target.Some? && target.value in lines {
      DeliveredIsGood(lines, target.value, e, config, clock.send, k);
    }
  }

  /** When a session's turn comes in `drain_pending_input`, and what its write meets. */
  datatype Turn = Turn(now: nat, k: Kernel)

  function TurnOf(turns: map<string, Turn>, sid: string): Turn {
    if sid in turns then turns[sid] else Turn(0, Takes(0, 0))
  }

  /** Every session not in `ids` has had its turn. */
  ghost predicate TurnsTaken(was: Lines, lines: Lines, turns: map<string, Turn>, ids: set<string>)
    requires GoodLines(was)
  {
    && lines.Keys == was.Keys
    && forall sid | sid in was ::
         lines[sid] == if sid in ids then was[sid]
                       else Serviced(was[sid], TurnOf(turns, sid).now, TurnOf(turns, sid).k).0
  }

  lemma TurnsTakenNext(was: Lines, lines: Lines, turns: map<string, Turn>, ids: set<string>, sid: string)
    requires GoodLines(was) && TurnsTaken(was, lines, turns, ids) && sid in ids
    ensures sid in was ==>
              && lines[sid] == was[sid]
              && var served := Serviced(was[sid], TurnOf(turns, sid).now, TurnOf(turns, sid).k).0;
                 TurnsTaken(was, lines[sid := served], turns, ids - {sid})
    ensures sid !in was ==> TurnsTaken(was, lines, turns, ids - {sid})
  {
  }

  /** Its turn fails a session's queue, or there is no session. */
  ghost predicate Fails(was: Lines, strays: set<string>, turns: map<string, Turn>, sid: string)
    requires GoodLines(was)
  {
    if sid in was then !Serviced(was[sid], TurnOf(turns, sid).now, TurnOf(turns, sid).k).1 else sid in strays
  }

  /** A queue fails when something in it is due and the session does not take writes, or when its session is gone. */
  lemma FailsIff(was: Lines, strays: set<string>, turns: map<string, Turn>, sid: string)
    requires GoodLines(was)
    ensures Fails(was, strays, turns, sid)
            <==> if sid in was then
                   var l, turn := was[sid], TurnOf(turns, sid);
                   && (!l.session.running || turn.k.Fails?)
                   && (l.user != [] || (l.scheduler != [] && l.scheduler[0].nextWrite <= turn.now))
                 else sid in strays
  {
  }

  /** `failed` lists, once each, the queues that failed among those not in `ids`. */
  ghost predicate Failures(was: Lines, strays: set<string>, turns: map<string, Turn>, failed: seq<string>,
                           ids: set<string>)
    requires GoodLines(was)
  {
    NoDuplicates(failed) && forall sid :: sid in failed <==> sid !in ids && Fails(was, strays, turns, sid)
  }

  lemma FailuresNext(was: Lines, strays: set<string>, turns: map<string, Turn>, failed: seq<string>, ids: set<string>,
                     sid: string)
    requires GoodLines(was) && Failures(was, strays, turns, failed, ids) && sid in ids
    ensures Failures(was, strays, turns, if Fails(was, strays, turns, sid) then failed + [sid] else failed, ids - {sid})
  {
  }

  predicate NoDuplicates(ids: seq<string>) {
    forall i, j | 0 <= i < j < |ids| :: ids[i] != ids[j]
  }

  /** The fields the handlers touch, and where every event so far has gone. */
  datatype Desk = Desk(
    order: seq<string>,
    lines: Lines,
    deferred: seq<SchedulerEvent>,
    delivered: seq<SchedulerEvent>,
    refused: seq<SchedulerEvent>,
    dropped: seq<SchedulerEvent>,
    discarded: seq<SchedulerEvent>)

  function HandledDesk(d: Desk, e: SchedulerEvent, config: Config, clock: Clock, k: Kernel): Desk
    requires GoodLines(d.lines)
  {
    var (lines, fate) := Handle(d.lines, d.order, e, config, clock, k);
    if fate.DropBusy? then d.(lines := lines, dropped := d.dropped + [e]) else Put(d, e, lines, fate)
  }

  /** Where an event goes that is not dropped. */
  function Put(d: Desk, e: SchedulerEvent, lines: Lines, fate: Fate): Desk
    requires !fate.DropBusy?
  {
    match fate
    case Deliver(accepted, _) =>
      if accepted then d.(lines := lines, delivered := d.delivered + [e])
      else d.(lines := lines, refused := d.refused + [e])
    case Discard => d.(lines := lines, discarded := d.discarded + [e])
    case Keep => d.(lines := lines, deferred := d.deferred + [e])
  }

  /** The desk once the pass has dealt with the first `i` of the events waiting at its start. */
  ghost function Passed(was: Desk, config: Config, clocks: seq<Clock>, ks: seq<Kernel>, i: nat): (d: Desk)
    requires GoodLines(was.lines) && i <= |was.deferred|
    ensures GoodLines(d.lines) && d.order == was.order
  {
    if i == 0 then was.(deferred := [])
    else
      var d, e := Passed(was, config, clocks, ks, i - 1), was.deferred[i - 1];
      RetryIsGood(d.lines, d.order, e, config, ClockAt(clocks, i - 1), KernelAt(ks, i - 1));
      var (lines, fate) := Retry(d.lines, d.order, e, config, ClockAt(clocks, i - 1), KernelAt(ks, i - 1));
      Put(d, e, lines, fate)
  }

  lemma PassedNext(was: Desk, config: Config, clocks: seq<Clock>, ks: seq<Kernel>, i: nat, d: Desk)
    requires GoodLines(was.lines) && i < |was.deferred| && d == Passed(was, config, clocks, ks, i)
    ensures var (lines, fate) := Retry(d.lines, d.order, was.deferred[i], config, ClockAt(clocks, i), KernelAt(ks, i));
            && Passed(was, config, clocks, ks, i + 1) == Put(d, was.deferred[i], lines, fate)
            && GoodLines(lines)
  {
    RetryIsGood(d.lines, d.order, was.deferred[i], config, ClockAt(clocks, i), KernelAt(ks, i));
  }

  ghost function DrainedDesk(d: Desk, config: Config, clocks: seq<Clock>, ks: seq<Kernel>): Desk
    requires GoodLines(d.lines)
  {
    Passed(d, config, clocks, ks, |d.deferred|)
  }

  class App {
    const config: Config
    var sessionOrder: seq<string>
    var lines: Lines
    var strays: set<string>       // sessions that are gone but still have an entry in `pending_input`
    var log: seq<string>          // the sessions of the records "Pending input dropped"
    var deferredSchedulerEvents: seq<SchedulerEvent>
    ghost var delivered: seq<SchedulerEvent>
    ghost var refused: seq<SchedulerEvent>
    ghost var dropped: seq<SchedulerEvent>
    ghost var discarded: seq<SchedulerEvent>

    ghost function State(): Desk
      reads this
    {
      Desk(sessionOrder, lines, deferredSchedulerEvents, delivered, refused, dropped, discarded)
    }

    /** `send_scheduler` on an idle session. */
    method Deliver(sid: string, event: SchedulerEvent, now: nat, k: Kernel)
      requires GoodLines(lines) && sid in lines
      modifies `lines, `delivered, `refused
      ensures var lines' := Delivered(old(lines), sid, event, config, now, k);
              State() == Put(old(State()), event, lines', DeliveryFate(old(lines), lines', sid, config, k))
    {
      if Refuses(lines[sid], config, k) {
        refused := refused + [event];
      } else {
        delivered := delivered + [event];
      }
      lines := Delivered(lines, sid, event, config, now, k);
    }

    method HandleSchedulerEvent(event: SchedulerEvent, clock: Clock, k: Kernel)
      requires GoodLines(lines)
      modifies this
      ensures State() == HandledDesk(old(State()), event, config, clock, k)
    {
      var target := Target(event, sessionOrder);
      match target {
        case None =>
          discarded := discarded + [event];
        case Some(sid) =>
          if sid !in lines {
            discarded := discarded + [event];
            return;
          }
          if !InputIdle(lines[sid].session, clock.idle) {
            match event {
              case ReminderFired(_, _) =>
                deferredSchedulerEvents := deferredSchedulerEvents + [event];
              case CronFired(_, _, ifBusy) =>
                match ifBusy {
                  case Wait => deferredSchedulerEvents := deferredSchedulerEvents + [event];
                  case Drop => dropped := dropped + [event];
                }
            }
            return;
          }
          Deliver(sid, event, clock.send, k);
      }
    }

    /** One write attempt per session, in whatever order the map yields them: each line moves as if it were alone.
        A failed write, or a session that is gone, throws the queue away and leaves one log record. */
    method DrainPendingInput(turns: map<string, Turn>)
      requires GoodLines(lines)
      modifies `lines, `strays, `log
      ensures GoodLines(lines) && strays == {}
      ensures TurnsTaken(old(lines), lines, turns, {})
      ensures old(log) <= log && Failures(old(lines), old(strays), turns, log[|old(log)|..], {})
    {
      var failed: seq<string> := [];
      var ids := lines.Keys + strays;
      while ids != {}
        invariant GoodLines(lines) && ids <= lines.Keys + strays && log == old(log) && strays == old(strays)
        invariant TurnsTaken(old(lines), lines, turns, ids)
        invariant Failures(old(lines), strays, turns, failed, ids)
        decreases ids
      {
        var sid :| sid in ids;
        var ok := false;
        TurnsTakenNext(old(lines), lines, turns, ids, sid);
        if sid in lines {
          ok := DrainQueue(sid, TurnOf(turns, sid));
        }
        FailuresNext(old(lines), strays, turns, failed, ids, sid);
        if !ok {
          failed := failed + [sid];
        }
        ids := ids - {sid};
      }
      strays := {};
      log := log + failed;
      assert log[|old(log)|..] == failed;
    }

    method DrainQueue(sid: string, turn: Turn) returns (ok: bool)
      requires GoodLines(lines) && sid in lines
      modifies `lines
      ensures GoodLines(lines)
      ensures var (l, done) := Serviced(old(lines)[sid], turn.now, turn.k);
              lines == old(lines)[sid := l] && ok == done
    {
      var queue := lines[sid];
      ServicedKeepsWellFormed(queue, turn.now, turn.k);
      if queue.user == [] && queue.scheduler == [] {
        assert lines[sid := queue] == lines;
        return true;
      }
      var (after, sent) := DrainOf(queue, turn.now, turn.k);
      lines := lines[sid := if sent then after else Emptied(after)];
      return sent;
    }

    /** One turn of the loop below. */
    method RetryEvent(event: SchedulerEvent, clock: Clock, k: Kernel, waiting: seq<SchedulerEvent>)
      returns (stillDeferred: seq<SchedulerEvent>)
      requires GoodLines(lines)
      modifies `lines, `delivered, `refused, `discarded
      ensures var (lines', fate) := Retry(old(lines), sessionOrder, event, config, clock, k);
              State().(deferred := stillDeferred) == Put(old(State()).(deferred := waiting), event, lines', fate)
    {
      stillDeferred := waiting;
      var target := Target(event, sessionOrder);
      var isIdle := target.Some? && (target.value in lines ==> InputIdle(lines[target.value].session, clock.idle));
      if isIdle && target.Some? {
        var sid := target.value;
        if sid in lines {
          Deliver(sid, event, clock.send, k);
        } else {
          discarded := discarded + [event];
        }
      } else {
        stillDeferred := stillDeferred + [event];
      }
    }

    method DrainDeferredSchedulerEvents(clocks: seq<Clock>, ks: seq<Kernel>)
      requires GoodLines(lines)
      modifies this
      ensures State() == DrainedDesk(old(State()), config, clocks, ks)
    {
      if deferredSchedulerEvents == [] {
        return;
      }
      var stillDeferred: seq<SchedulerEvent> := [];
      var events := deferredSchedulerEvents;
      ghost var was := State();
      deferredSchedulerEvents := [];
      for i := 0 to |events|
        invariant GoodLines(lines) && deferredSchedulerEvents == []
        invariant State().(deferred := stillDeferred) == Passed(was, config, clocks, ks, i)
      {
        ghost var d := State().(deferred := stillDeferred);
        stillDeferred := RetryEvent(events[i], ClockAt(clocks, i), KernelAt(ks, i), stillDeferred);
        PassedNext(was, config, clocks, ks, i, d);
      }
      deferredSchedulerEvents := stillDeferred;
    }
  }
}
