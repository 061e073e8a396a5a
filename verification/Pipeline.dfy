/** The writer and the delayed Enters as one system: what the paced writer does to a session is a step of the
    delayed-Enter protocol, so the protocol's guarantees hold of Enters armed by the real writer. */
module Pipeline {
  import opened Naturals
  import opened InjectedEnter
  import opened SessionInput
  import Scheduler
  import Protocol = InjectedEnterRuns

  datatype FeedOp =
    | Type(bytes: seq<Utf8.Byte>)
    | Send(m: Message)
    | Drain           // a turn of `drain_pending_input`, which empties the queue on failure

  datatype Op =
    | Tick(envs: seq<Env>, now: nat)                     // `drain_pending_delayed_enters`
    | Elsewhere(step: Protocol.Op)                       // output, exits, sessions opened and removed, other input
    | Feed(sid: string, feed: FeedOp, now: nat, k: Kernel)

  /** `lines` holds each session's queues; the session itself lives in the world. */
  datatype System = System(world: World, lines: Scheduler.Lines)

  /** The texts the scheduler composes begin with `[ENTER]`, so none decodes to nothing. */
  ghost predicate NoEmptyMessage(l: Line) {
    forall i | 0 <= i < |l.scheduler| :: l.scheduler[i].data != []
  }

  ghost predicate Good(lines: Scheduler.Lines) {
    forall sid | sid in lines :: WellFormed(lines[sid]) && NoEmptyMessage(lines[sid])
  }

  /** The line as the writer sees it, with the session as it is now. */
  function Attached(l: Line, sid: string, s: Session): Line {
    l.(id := sid, session := s)
  }

  function Fed(l: Line, op: FeedOp, config: Config, now: nat, k: Kernel): Line
    requires WellFormed(l)
  {
    match op
    case Type(bytes) => l.(user := l.user + bytes)
    case Send(m) => SendOf(l, m, config, now, k).0
    case Drain => Serviced(l, now, k).0
  }

  /** The world once the writer has gone from `l` to `l'`: the session's new state, and the Enters it has armed. */
  function Merged(w: World, l: Line, l': Line): World
    requires |l.armed| <= |l'.armed|
  {
    var w1 := w.(clock := Max(w.clock, l'.session.lastInput), sessions := w.sessions[l.id := l'.session]);
    if |l'.armed| == |l.armed| then w1
    else
      var e := l'.armed[|l.armed|].(serial := w.nextSerial);
      w1.(pending := w.pending + [e], nextSerial := w.nextSerial + 1,
          trace := w.trace + [Queued(w.nextSerial, Scheduled(e))])
  }

  /** The instant an entry was made: 100 ms before its first Enter is due. */
  function Scheduled(e: PendingEnter): nat {
    SaturatingSub(e.fireAt, 100 * MILLI)
  }

  /** The clock read after a write is later than every stamp handed out before. */
  predicate Fresh(w: World, l: Line, l': Line) {
    l'.session.lastInput == l.session.lastInput || l'.session.lastInput > w.clock
  }

  predicate Applies(p: System, sid: string) {
    sid in p.lines && sid in p.world.sessions
  }

  /** The sessions that have input queued: what the event loop tells the protocol. */
  function InputWaiting(lines: Scheduler.Lines): set<string> {
    set sid | sid in lines && (lines[sid].user != [] || lines[sid].scheduler != [])
  }

  ghost predicate OpOk(p: System, config: Config, op: Op)
    requires Good(p.lines)
  {
    && !(op.Elsewhere? && op.step.Tick?)
    && (op.Feed? && Applies(p, op.sid) ==>
      && (op.feed.Send? ==> op.feed.m.data != [])
      && var l := Attached(p.lines[op.sid], op.sid, p.world.sessions[op.sid]);
         Fresh(p.world, l, Fed(l, op.feed, config, op.now, op.k)))
  }

  lemma FedArmsAtMostOne(l: Line, op: FeedOp, config: Config, now: nat, k: Kernel)
    requires WellFormed(l)
    ensures |l.armed| <= |Fed(l, op, config, now, k).armed| <= |l.armed| + 1
    ensures Fed(l, op, config, now, k).id == l.id
  {
  }

  lemma WriteKeepsNonEmpty(l: Line, now: nat, k: Kernel)
    requires WellFormed(l) && NoEmptyMessage(l) && l.scheduler != [] && k.Takes?
    ensures NoEmptyMessage(WriteFront(l, now, k))
  {
    var l' := WriteFront(l, now, k);
    forall i | 0 <= i < |l'.scheduler|
      ensures l'.scheduler[i].data != []
    {
      var next := if i + 1 < |l.scheduler| then i + 1 else i;
      assert l'.scheduler[i].data in {l.scheduler[i].data, l.scheduler[next].data};
    }
  }

  lemma FedIsGood(l: Line, op: FeedOp, config: Config, now: nat, k: Kernel)
    requires WellFormed(l) && NoEmptyMessage(l) && (op.Send? ==> op.m.data != [])
    ensures WellFormed(Fed(l, op, config, now, k)) && NoEmptyMessage(Fed(l, op, config, now, k))
  {
    match op
    case Type(_) =>
    case Send(m) =>
      Scheduler.SendKeepsWellFormed(l, m, config, now, k);
      if config.bytes > 0 {
        AppendedIsWellFormed(l, m, config, now);
        var l1 := Appended(l, m, config, now);
        assert NoEmptyMessage(l1);
        if now >= l1.scheduler[0].nextWrite && !Rejects(l1.session, k) {
          WriteKeepsNonEmpty(l1, now, k);
        }
      }
    case Drain =>
      ServicedKeepsWellFormed(l, now, k);
      if l.user == [] && l.scheduler != [] && now >= l.scheduler[0].nextWrite && !Rejects(l.session, k) {
        WriteKeepsNonEmpty(l, now, k);
      }
  }

  ghost function Step(p: System, config: Config, op: Op): (r: System)
    requires Good(p.lines) && OpOk(p, config, op)
    ensures Good(r.lines)
  {
    match op
    case Tick(envs, now) => p.(world := Protocol.Step(p.world, Protocol.Tick(InputWaiting(p.lines), envs, now)))
    case Elsewhere(step) => p.(world := Protocol.Step(p.world, step))
    case Feed(sid, feed, now, k) =>
      if !Applies(p, sid) then
        if feed.Drain? && sid in p.lines then p.(lines := p.lines[sid := Emptied(p.lines[sid])]) else p
      else
        var l := Attached(p.lines[sid], sid, p.world.sessions[sid]);
        var l' := Fed(l, feed, config, now, k);
        FedIsGood(l, feed, config, now, k);
        FedArmsAtMostOne(l, feed, config, now, k);
        System(Merged(p.world, l, l'), p.lines[sid := l'])
  }

  // ----- one step of the writer as a step of the protocol

  function EnvFor(w: World, stamp: nat, ok: bool): Env
    requires stamp > w.clock
  {
    Env(false, ok, stamp - w.clock - 1)
  }

  /** What a move of the writer amounts to: nothing seen; input; or input completing a message and its Enter. */
  ghost predicate Plain(l: Line, l': Line) {
    && l'.id == l.id
    && l'.session == l.session.(lastInput := l'.session.lastInput)
    && (l'.session.lastInput != l.session.lastInput ==> l.session.running)
    && (l'.armed == l.armed
        || (l'.session.lastInput != l.session.lastInput
            && exists text, at :: l'.armed == l.armed + [NewEnter(UNNUMBERED, l.id, l'.session, text, at)]))
  }

  lemma WriteIsPlain(l: Line, now: nat, k: Kernel)
    requires WellFormed(l) && NoEmptyMessage(l) && l.scheduler != [] && !Rejects(l.session, k)
    ensures Plain(l, WriteFront(l, now, k))
  {
    assert GoodInput(l.scheduler[0]);
  }

  lemma FedIsPlain(l: Line, op: FeedOp, config: Config, now: nat, k: Kernel)
    requires WellFormed(l) && NoEmptyMessage(l) && (op.Send? ==> op.m.data != [])
    ensures Plain(l, Fed(l, op, config, now, k))
  {
    match op
    case Type(_) =>
    case Send(m) =>
      if config.bytes > 0 {
        AppendedIsWellFormed(l, m, config, now);
        var l1 := Appended(l, m, config, now);
        assert NoEmptyMessage(l1);
        if now >= l1.scheduler[0].nextWrite && !Rejects(l1.session, k) {
          WriteIsPlain(l1, now, k);
        }
      }
    case Drain =>
      if l.user == [] && l.scheduler != [] && now >= l.scheduler[0].nextWrite && !Rejects(l.session, k) {
        WriteIsPlain(l, now, k);
      }
  }

  /** The protocol sees a move of the writer as nothing, as other input, or as one injection. */
  lemma PlainIsProtocolStep(w: World, l: Line, l': Line) returns (steps: seq<Protocol.Op>)
    requires Plain(l, l') && l.id in w.sessions && w.sessions[l.id] == l.session
    requires l.session.lastInput <= w.clock && Fresh(w, l, l')
    ensures |steps| <= 1 && Protocol.Run(w, steps) == Merged(w, l, l')
  {
    var stamp := l'.session.lastInput;
    if stamp == l.session.lastInput {
      steps := [];
      assert w.sessions[l.id := l'.session] == w.sessions;
    } else {
      var env := EnvFor(w, stamp, true);
      if l'.armed == l.armed {
        steps := [Protocol.OtherInput(l.id, env)];
      } else {
        var text, at :| l'.armed == l.armed + [NewEnter(UNNUMBERED, l.id, l'.session, text, at)];
        steps := [Protocol.Inject(l.id, text, env, at)];
      }
      RunOne(w, steps[0]);
    }
  }

  lemma RunOne(w: World, step: Protocol.Op)
    ensures Protocol.Run(w, [step]) == Protocol.Step(w, step)
  {
    assert [step][1..] == [];
    assert Protocol.Run(Protocol.Step(w, step), []) == Protocol.Step(w, step);
  }

  // ----- main results

  lemma FeedIsProtocolStep(p: System, config: Config, op: Op) returns (steps: seq<Protocol.Op>)
    requires Good(p.lines) && Protocol.Inv(p.world) && op.Feed? && OpOk(p, config, op)
    ensures |steps| <= 1 && Protocol.Run(p.world, steps) == Step(p, config, op).world
  {
    if Applies(p, op.sid) {
      var l := Attached(p.lines[op.sid], op.sid, p.world.sessions[op.sid]);
      FedIsPlain(l, op.feed, config, op.now, op.k);
      steps := PlainIsProtocolStep(p.world, l, Fed(l, op.feed, config, op.now, op.k));
    } else {
      steps := [];
    }
  }

  /** Every clock reading is fresh and no message is empty. */
  ghost predicate RunOk(p: System, config: Config, ops: seq<Op>)
    requires Good(p.lines)
    decreases ops
  {
    ops != [] ==> OpOk(p, config, ops[0]) && RunOk(Step(p, config, ops[0]), config, ops[1..])
  }

  ghost function Run(p: System, config: Config, ops: seq<Op>): (r: System)
    requires Good(p.lines) && RunOk(p, config, ops)
    ensures Good(r.lines)
    decreases ops
  {
    if ops == [] then p else Run(Step(p, config, ops[0]), config, ops[1..])
  }

  lemma {:induction false} RunConcat(w: World, a: seq<Protocol.Op>, b: seq<Protocol.Op>)
    ensures Protocol.Run(w, a + b) == Protocol.Run(Protocol.Run(w, a), b)
    decreases a
  {
    if a == [] {
      assert a + b == b;
    } else {
      assert (a + b)[1..] == a[1..] + b;
      RunConcat(Protocol.Step(w, a[0]), a[1..], b);
    }
  }

  /** Whatever the writer does, however short its writes and however they fall between ticks, the world it leads to
      is one that a run of the protocol leads to. */
  lemma {:induction false} WriterRefinesProtocol(p: System, config: Config, ops: seq<Op>)
    returns (steps: seq<Protocol.Op>)
    requires Good(p.lines) && Protocol.Inv(p.world) && RunOk(p, config, ops)
    ensures Run(p, config, ops).world == Protocol.Run(p.world, steps)
    decreases ops
  {
    steps := [];
    if ops != [] {
      var first: seq<Protocol.Op>;
      if ops[0].Elsewhere? || ops[0].Tick? {
        var step := if ops[0].Elsewhere? then ops[0].step
                    else Protocol.Tick(InputWaiting(p.lines), ops[0].envs, ops[0].now);
        first := [step];
        RunOne(p.world, step);
      } else {
        first := FeedIsProtocolStep(p, config, ops[0]);
      }
      var p1 := Step(p, config, ops[0]);
      Protocol.RunKeepsInv(p.world, first);
      var rest := WriterRefinesProtocol(p1, config, ops[1..]);
      steps := first + rest;
      RunConcat(p.world, first, rest);
    }
  }

  /** So at most one Enter armed by the writer owns its session's input, and every one of them stays within the
      bounds on attempts, spacing and log records. */
  lemma ArmedEntersAreSafe(config: Config, lines: Scheduler.Lines, ops: seq<Op>, i: nat, j: nat, serial: nat)
    requires Good(lines) && RunOk(System(Protocol.INITIAL, lines), config, ops)
    ensures var w := Run(System(Protocol.INITIAL, lines), config, ops).world;
            && (i < j < |w.pending| && w.pending[i].sessionId == w.pending[j].sessionId
                ==> !(Protocol.Live(w, w.pending[i]) && Protocol.Live(w, w.pending[j])))
            && var h := Protocol.Hist(w.trace, serial);
               && |h.enters| <= 4 && Protocol.Spaced(h.enters) && h.dues <= 5
               && h.retryLogs == h.retriesSent
               && h.ends == (if serial < w.nextSerial && !Protocol.Pending(w, serial) then 1 else 0)
  {
    Protocol.RunKeepsInv(Protocol.INITIAL, []);
    var steps := WriterRefinesProtocol(System(Protocol.INITIAL, lines), config, ops);
    Protocol.AtMostOneLivePerSession(steps, i, j);
    Protocol.EveryInjectionIsBounded(steps, serial);
  }

  /** And while bytes wait in a session's queues, a tick presses no retry there. */
  lemma NoRetryWhileInputWaits(config: Config, lines: Scheduler.Lines, ops: seq<Op>, envs: seq<Env>, now: nat,
                               e: PendingEnter)
    requires Good(lines) && RunOk(System(Protocol.INITIAL, lines), config, ops)
    requires var p := Run(System(Protocol.INITIAL, lines), config, ops);
             e in p.world.pending && e.sessionId in p.lines
             && (p.lines[e.sessionId].user != [] || p.lines[e.sessionId].scheduler != [])
    ensures var p := Run(System(Protocol.INITIAL, lines), config, ops);
            && Good(p.lines) && OpOk(p, config, Tick(envs, now))
            && Protocol.RetryAttempts(Step(p, config, Tick(envs, now)).world, e.serial)
               == Protocol.RetryAttempts(p.world, e.serial)
  {
    ReachedIsGood(config, lines, ops);
    TickSparesWaiting(Run(System(Protocol.INITIAL, lines), config, ops), config, envs, now, e);
  }

  lemma ReachedIsGood(config: Config, lines: Scheduler.Lines, ops: seq<Op>)
    requires Good(lines) && RunOk(System(Protocol.INITIAL, lines), config, ops)
    ensures Protocol.Inv(Run(System(Protocol.INITIAL, lines), config, ops).world)
  {
    Protocol.RunKeepsInv(Protocol.INITIAL, []);
    var steps := WriterRefinesProtocol(System(Protocol.INITIAL, lines), config, ops);
    Protocol.RunKeepsInv(Protocol.INITIAL, steps);
  }

  lemma TickSparesWaiting(p: System, config: Config, envs: seq<Env>, now: nat, e: PendingEnter)
    requires Good(p.lines) && Protocol.Inv(p.world) && e in p.world.pending && e.sessionId in InputWaiting(p.lines)
    ensures OpOk(p, config, Tick(envs, now))
    ensures Protocol.RetryAttempts(Step(p, config, Tick(envs, now)).world, e.serial)
            == Protocol.RetryAttempts(p.world, e.serial)
  {
    Protocol.PassSparesWaiting(p.world, InputWaiting(p.lines), envs, now, e);
  }
}
