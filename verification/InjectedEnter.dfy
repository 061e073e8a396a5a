/** Delayed submission of injected input: src/injected_enter.rs, over the session contract of
    crates/tttt-pty/src/session.rs. Times are nanoseconds. */
module InjectedEnter {
  import opened Naturals
  import opened Wrappers

  const MILLI: nat := 1_000_000
  const SECOND: nat := 1_000_000_000

  /** The part of `PtySession` the protocol reads. */
  datatype Session = Session(running: bool, lastInput: nat, lastOutput: nat)

  /** `serial` numbers the injections in order of arrival; no branch reads it, the theorems name entries by it. */
  datatype PendingEnter = PendingEnter(
    serial: nat,
    sessionId: string,
    text: string,
    fireAt: nat,
    inputAt: nat,
    quietSince: Option<nat>,
    checks: nat,
    retries: nat)

  datatype Reason =
    | SessionGone
    | SendFailed
    | InputBeforeFirst
    | SessionExited
    | InterveningInput
    | NoMatchingInput
    | FinalCheck
    | RetryFailed

  /** What an observer sees: entries joining the queue, visits of due ones, Enter writes reaching a running session,
      and log records. */
  datatype Event =
    | Queued(serial: nat, at: nat)
    | Due(serial: nat, tick: nat)
    | Enter(serial: nat, tick: nat, retry: bool, ok: bool)
    | RetryLogged(serial: nat, number: nat)
    | Ended(serial: nat, reason: Reason)

  function RetryDelay(i: nat): nat {
    if i == 0 then SECOND else if i == 1 then 2 * SECOND else if i == 2 then 4 * SECOND else SECOND
  }

  const RETRIES: nat := 3

  /** One visit's environment: the screen check, whether the write goes through, and how far the clock moved. */
  datatype Env = Env(matches: bool, writeOk: bool, elapsed: nat)

  /** The queue, the sessions and the clock that stamps every input; `clock` is the latest stamp handed out. */
  datatype World = World(
    clock: nat,
    sessions: map<string, Session>,
    pending: seq<PendingEnter>,
    nextSerial: nat,
    trace: seq<Event>)

  function StripEnter(text: string): string {
    if "[ENTER]" <= text then text[7..] else text
  }

  /** A leading `[ENTER]` is not part of the message, and only one is taken off. */
  lemma StripsOneEnter(text: string)
    ensures StripEnter("[ENTER]" + text) == text
    ensures !("[ENTER]" <= text) ==> StripEnter(text) == text
  {
  }

  /** `PendingEnter::new` on a session that has just received the injection. */
  function NewEnter(serial: nat, sid: string, s: Session, text: string, now: nat): PendingEnter {
    PendingEnter(serial, sid, StripEnter(text), now + 100 * MILLI, s.lastInput, None, 0, 0)
  }

  /** A fresh stamp, later than any before it. */
  function Stamp(w: World, env: Env): nat {
    w.clock + 1 + env.elapsed
  }

  /** `send_keys` on a running session: the input clock moves whether or not the write succeeds. */
  function Touched(w: World, sid: string, env: Env): World
    requires sid in w.sessions
  {
    w.(clock := Stamp(w, env), sessions := w.sessions[sid := w.sessions[sid].(lastInput := Stamp(w, env))])
  }

  function Noted(w: World, events: seq<Event>): World {
    w.(trace := w.trace + events)
  }

  function Dropped(w: World, i: nat, events: seq<Event>): World
    requires i < |w.pending|
  {
    Noted(w.(pending := w.pending[..i] + w.pending[i + 1..]), events)
  }

  function Kept(w: World, i: nat, e: PendingEnter, events: seq<Event>): World
    requires i < |w.pending|
  {
    Noted(w.(pending := w.pending[i := e]), events)
  }

  /** Whether output has been silent since the previous check. */
  predicate Silent(s: Session, quietSince: nat, now: nat) {
    SaturatingSub(now, s.lastOutput) >= SaturatingSub(now, quietSince)
  }

  predicate Owned(w: World, e: PendingEnter, waiting: set<string>) {
    e.sessionId in w.sessions && w.sessions[e.sessionId].lastInput == e.inputAt && e.sessionId !in waiting
  }

  /** A due entry whose first Enter is still to come. */
  function FirstVisit(w: World, i: nat, waiting: set<string>, env: Env, now: nat): World
    requires i < |w.pending| && w.pending[i].sessionId in w.sessions
  {
    var e := w.pending[i];
    if !w.sessions[e.sessionId].running then Dropped(w, i, [Due(e.serial, now), Ended(e.serial, SendFailed)])
    else
      var w1 := Touched(w, e.sessionId, env);
      var sent := [Due(e.serial, now), Enter(e.serial, now, false, env.writeOk)];
      if !env.writeOk then Dropped(w1, i, sent + [Ended(e.serial, SendFailed)])
      else if !Owned(w, e, waiting) then Dropped(w1, i, sent + [Ended(e.serial, InputBeforeFirst)])
      else
        var stamp := Stamp(w, env);
        Kept(w1, i, e.(inputAt := stamp, quietSince := Some(stamp), fireAt := now + RetryDelay(0)), sent)
  }

  /** A due entry that has sent its first Enter: stop, wait, or press Enter again. */
  function RetryVisit(w: World, i: nat, waiting: set<string>, env: Env, now: nat): World
    requires i < |w.pending| && w.pending[i].sessionId in w.sessions && w.pending[i].quietSince.Some?
  {
    var e := w.pending[i];
    var s := w.sessions[e.sessionId];
    var due := Due(e.serial, now);
    if !s.running then Dropped(w, i, [due, Ended(e.serial, SessionExited)])
    else if !Owned(w, e, waiting) then Dropped(w, i, [due, Ended(e.serial, InterveningInput)])
    else if !env.matches then Dropped(w, i, [due, Ended(e.serial, NoMatchingInput)])
    else if e.checks == RETRIES then Dropped(w, i, [due, Ended(e.serial, FinalCheck)])
    else
      var next := e.(checks := e.checks + 1, quietSince := Some(now), fireAt := now + RetryDelay(e.checks + 1));
      if !Silent(s, e.quietSince.value, now) then Kept(w, i, next, [due])
      else
        var w1 := Touched(w, e.sessionId, env);
        var sent := [due, Enter(e.serial, now, true, env.writeOk)];
        if !env.writeOk then Dropped(w1, i, sent + [Ended(e.serial, RetryFailed)])
        else Kept(w1, i, next.(retries := e.retries + 1, inputAt := Stamp(w, env)),
                  sent + [RetryLogged(e.serial, e.retries + 1)])
  }

  /** One entry of the `retain_mut` pass. */
  function Visit(w: World, i: nat, waiting: set<string>, env: Env, now: nat): (r: World)
    requires i < |w.pending|
    ensures |r.pending| == |w.pending| || |r.pending| == |w.pending| - 1
  {
    var e := w.pending[i];
    if now < e.fireAt then w
    else if e.sessionId !in w.sessions then Dropped(w, i, [Due(e.serial, now), Ended(e.serial, SessionGone)])
    else if e.quietSince.None? then FirstVisit(w, i, waiting, env, now)
    else RetryVisit(w, i, waiting, env, now)
  }

  function EnvAt(envs: seq<Env>, i: nat): Env {
    if i < |envs| then envs[i] else Env(false, false, 0)
  }

  /** The rest of the pass from entry `i` on; `visit` counts the visits made. */
  function DrainFrom(w: World, i: nat, waiting: set<string>, envs: seq<Env>, visit: nat, now: nat): World
    requires i <= |w.pending|
    decreases |w.pending| - i
  {
    if i == |w.pending| then w
    else
      var w1 := Visit(w, i, waiting, EnvAt(envs, visit), now);
      DrainFrom(w1, if |w1.pending| == |w.pending| then i + 1 else i, waiting, envs, visit + 1, now)
  }

  function Drained(w: World, waiting: set<string>, envs: seq<Env>, now: nat): World {
    DrainFrom(w, 0, waiting, envs, 0, now)
  }

  class DelayedEnters {
    var pending: seq<PendingEnter>
    var sessions: map<string, Session>
    var clock: nat
    ghost var nextSerial: nat
    ghost var trace: seq<Event>

    ghost function State(): World
      reads this
    {
      World(clock, sessions, pending, nextSerial, trace)
    }

    /** `send_keys("[ENTER]")`. */
    method SendEnter(sid: string, env: Env) returns (ok: bool)
      requires sid in sessions
      modifies `sessions, `clock
      ensures if old(sessions[sid].running) then State() == Touched(old(State()), sid, env) && ok == env.writeOk
              else State() == old(State()) && !ok
    {
      if !sessions[sid].running {
        return false;
      }
      clock := clock + 1 + env.elapsed;
      sessions := sessions[sid := sessions[sid].(lastInput := clock)];
      return env.writeOk;
    }

    /** A due entry whose first Enter is still to come. */
    method FirstEnter(i: nat, inputWaiting: set<string>, env: Env, now: nat) returns (keep: bool)
      requires i < |pending| && pending[i].sessionId in sessions && pending[i].quietSince.None?
      modifies this
      ensures State() == FirstVisit(old(State()), i, inputWaiting, env, now)
      ensures keep <==> |pending| == |old(pending)|
    {
      var enter := pending[i];
      trace := trace + [Due(enter.serial, now)];
      var owned := sessions[enter.sessionId].lastInput == enter.inputAt && enter.sessionId !in inputWaiting;
      var running := sessions[enter.sessionId].running;
      var sent := SendEnter(enter.sessionId, env);
      if running {
        trace := trace + [Enter(enter.serial, now, false, sent)];
      }
      if !sent {
        EndEntry(i, SendFailed);
        return false;
      }
      if !owned {
        EndEntry(i, InputBeforeFirst);
        return false;
      }
      enter := enter.(inputAt := sessions[enter.sessionId].lastInput);
      enter := enter.(quietSince := Some(enter.inputAt), fireAt := now + RetryDelay(0));
      pending := pending[i := enter];
      return true;
    }

    /** A due entry that has sent its first Enter. */
    method RetryEnter(i: nat, inputWaiting: set<string>, env: Env, now: nat) returns (keep: bool)
      requires i < |pending| && pending[i].sessionId in sessions && pending[i].quietSince.Some?
      modifies this
      ensures State() == RetryVisit(old(State()), i, inputWaiting, env, now)
      ensures keep <==> |pending| == |old(pending)|
    {
      var enter := pending[i];
      trace := trace + [Due(enter.serial, now)];
      if !sessions[enter.sessionId].running {
        EndEntry(i, SessionExited);
        return false;
      }
      if sessions[enter.sessionId].lastInput != enter.inputAt || enter.sessionId in inputWaiting {
        EndEntry(i, InterveningInput);
        return false;
      }
      if !env.matches {
        EndEntry(i, NoMatchingInput);
        return false;
      }
      if enter.checks == RETRIES {
        EndEntry(i, FinalCheck);
        return false;
      }
      var quietFor := SaturatingSub(now, enter.quietSince.value);
      if SaturatingSub(now, sessions[enter.sessionId].lastOutput) >= quietFor {
        var sent := SendEnter(enter.sessionId, env);
        trace := trace + [Enter(enter.serial, now, true, sent)];
        if !sent {
          EndEntry(i, RetryFailed);
          return false;
        }
        enter := enter.(retries := enter.retries + 1, inputAt := sessions[enter.sessionId].lastInput);
        trace := trace + [RetryLogged(enter.serial, enter.retries)];
      }
      enter := enter.(checks := enter.checks + 1);
      enter := enter.(quietSince := Some(now), fireAt := now + RetryDelay(enter.checks));
      pending := pending[i := enter];
      return true;
    }

    /** The closure given to `retain_mut`, on entry `i`; the entry is removed when it returns false. */
    method VisitEntry(i: nat, inputWaiting: set<string>, env: Env, now: nat) returns (keep: bool)
      requires i < |pending|
      modifies this
      ensures State() == Visit(old(State()), i, inputWaiting, env, now)
      ensures keep <==> |pending| == |old(pending)|
    {
      var enter := pending[i];
      if now < enter.fireAt {
        return true;
      }
      if enter.sessionId !in sessions {
        trace := trace + [Due(enter.serial, now)];
        EndEntry(i, SessionGone);
        return false;
      }
      if enter.quietSince.None? {
        keep := FirstEnter(i, inputWaiting, env, now);
      } else {
        keep := RetryEnter(i, inputWaiting, env, now);
      }
    }

    method EndEntry(i: nat, reason: Reason)
      requires i < |pending|
      modifies `pending, `trace
      ensures State() == Dropped(old(State()), i, [Ended(old(pending)[i].serial, reason)])
    {
      trace := trace + [Ended(pending[i].serial, reason)];
      pending := pending[..i] + pending[i + 1..];
    }

    method DrainDelayedEnters(inputWaiting: set<string>, envs: seq<Env>, now: nat)
      modifies this
      ensures State() == Drained(old(State()), inputWaiting, envs, now)
    {
      var i, visit := 0, 0;
      while i < |pending|
        invariant i <= |pending|
        invariant DrainFrom(State(), i, inputWaiting, envs, visit, now)
                  == Drained(old(State()), inputWaiting, envs, now)
        decreases |pending| - i
      {
        var keep := VisitEntry(i, inputWaiting, EnvAt(envs, visit), now);
        if keep {
          i := i + 1;
        }
        visit := visit + 1;
      }
    }
  }
}
