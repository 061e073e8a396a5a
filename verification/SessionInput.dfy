/** Chunked, paced writing of scheduler messages behind the user's own input: src/pending_input.rs. */
module SessionInput {
  import opened Naturals
  import opened Wrappers
  import opened Utf8
  import opened Chunking
  import opened InjectedEnter

  datatype Config = Config(bytes: nat, gap: nat)

  /** A scheduler message: its text, and the key bytes it decodes to. */
  datatype Message = Message(text: string, data: seq<Byte>)

  datatype SchedulerInput = SchedulerInput(
    text: string,
    data: seq<Byte>,
    offset: nat,
    chunkEnd: nat,
    nextWrite: nat,
    config: Config)

  /** What a write meets: the kernel takes some bytes, or fails, for `send_keys` perhaps after `partial` bytes;
      `elapsed` is how long the call takes. */
  datatype Kernel = Takes(n: nat, elapsed: nat) | Fails(partial: nat, elapsed: nat)

  /** One scheduler write attempt: the message's place in the order of arrival, when, bytes offered and taken, and the
      clock once it returned. */
  datatype Attempt = Attempt(message: nat, at: nat, offered: nat, taken: nat, written: nat)

  /** A message that has left the queue, finished or thrown away, with the number of its bytes written. */
  datatype Closed = Closed(message: Message, written: nat, finished: bool)

  /** The two queues with the session they feed, and what has gone through them so far. */
  datatype Line = Line(
    id: string,
    user: seq<Byte>,
    scheduler: seq<SchedulerInput>,
    session: Session,
    armed: seq<PendingEnter>,
    sentUser: seq<Byte>,
    sentScheduler: seq<Byte>,
    closed: seq<Closed>,
    attempts: seq<Attempt>)

  /** The instant read after a write: later than the tick's `now` and than any earlier input. */
  function StampAfter(s: Session, k: Kernel, now: nat): nat {
    Max(now, s.lastInput) + 1 + k.elapsed
  }

  /** `try_send_raw`: any progress moves the input clock; an exited session or a failed write is an error. */
  predicate Rejects(s: Session, k: Kernel) {
    !s.running || k.Fails?
  }

  function Taken(offered: nat, k: Kernel): nat
    requires k.Takes?
  {
    Min(k.n, offered)
  }

  function AfterWrite(s: Session, n: nat, k: Kernel, now: nat): Session {
    if n > 0 then s.(lastInput := StampAfter(s, k, now)) else s
  }

  /** Entries are numbered where they are queued. */
  const UNNUMBERED: nat := 0

  /** The write attempt on the front message. */
  function WriteFront(l: Line, now: nat, k: Kernel): Line
    requires l.scheduler != [] && k.Takes?
    requires l.scheduler[0].offset <= l.scheduler[0].chunkEnd <= |l.scheduler[0].data|
  {
    var n := Taken(l.scheduler[0].chunkEnd - l.scheduler[0].offset, k);
    Booked(l.(session := AfterWrite(l.session, n, k, now)), now, n)
  }

  /** The front message after a write of `n` bytes has stamped the session. */
  function Booked(l: Line, now: nat, n: nat): Line
    requires l.scheduler != []
    requires l.scheduler[0].offset + n <= l.scheduler[0].chunkEnd <= |l.scheduler[0].data|
  {
    var input := l.scheduler[0];
    var writtenAt := Max(now, l.session.lastInput);
    var offset := input.offset + n;
    var l1 := l.(
      sentScheduler := l.sentScheduler + input.data[input.offset..offset],
      attempts := l.attempts + [Attempt(|l.closed|, now, input.chunkEnd - input.offset, n, writtenAt)]);
    if offset == |input.data| then
      l1.(scheduler := l.scheduler[1..],
          armed := l.armed + [NewEnter(UNNUMBERED, l.id, l.session, input.text, writtenAt)],
          closed := l.closed + [Whole(Message(input.text, input.data))])
    else
      l1.(scheduler := [Advanced(input, n, writtenAt)] + l.scheduler[1..])
  }

  /** A message still in progress after `n` more bytes: the next chunk once the current one is out, and the next
      attempt no sooner than one gap from now. */
  function Advanced(input: SchedulerInput, n: nat, writtenAt: nat): SchedulerInput
    requires input.offset + n <= |input.data|
  {
    var offset := input.offset + n;
    var chunkEnd := if offset == input.chunkEnd then input.chunkEnd + ChunkEnd(input.data[offset..], input.config.bytes)
                    else input.chunkEnd;
    input.(offset := offset, chunkEnd := chunkEnd, nextWrite := writtenAt + input.config.gap)
  }

  function DrainSchedulerOf(l: Line, now: nat, k: Kernel): (Line, bool)
    requires WellFormed(l)
  {
    if l.scheduler == [] || now < l.scheduler[0].nextWrite then (l, true)
    else if Rejects(l.session, k) then (l, false)
    else (WriteFront(l, now, k), true)
  }

  function DrainOf(l: Line, now: nat, k: Kernel): (Line, bool)
    requires WellFormed(l)
  {
    if l.user == [] then DrainSchedulerOf(l, now, k)
    else if Rejects(l.session, k) then (l, false)
    else
      var n := Taken(|l.user|, k);
      (l.(user := l.user[n..], sentUser := l.sentUser + l.user[..n], session := AfterWrite(l.session, n, k, now)), true)
  }

  /** A message all of whose bytes are out. */
  function Whole(m: Message): Closed {
    Closed(m, |m.data|, true)
  }

  /** What becomes of the queued messages when the queue is thrown away. */
  function ThrownAway(scheduler: seq<SchedulerInput>): (r: seq<Closed>)
    ensures |r| == |scheduler|
  {
    seq(|scheduler|, i requires 0 <= i < |scheduler| =>
      Closed(Message(scheduler[i].text, scheduler[i].data), scheduler[i].offset, false))
  }

  /** The queue after a failed write, or once its session is gone. */
  function Emptied(l: Line): Line {
    l.(user := [], scheduler := [], closed := l.closed + ThrownAway(l.scheduler))
  }

  /** One session's turn in `drain_pending_input`: a failed write throws its whole queue away. */
  function Serviced(l: Line, now: nat, k: Kernel): (Line, bool)
    requires WellFormed(l)
  {
    if l.user == [] && l.scheduler == [] then (l, true)
    else
      var (l', ok) := DrainOf(l, now, k);
      if ok then (l', true) else (Emptied(l'), false)
  }

  function NewInput(m: Message, config: Config, now: nat): SchedulerInput {
    SchedulerInput(m.text, m.data, 0, ChunkEnd(m.data, config.bytes), now, config)
  }

  /** How many bytes `send_keys` puts out: all of them, or those before the piece that failed. */
  function KeysWritten(s: Session, length: nat, k: Kernel): (n: nat)
    ensures n <= length && (!Rejects(s, k) ==> n == length)
  {
    if !s.running then 0 else if k.Takes? then length else Min(k.partial, length)
  }

  /** With chunking off, `send_keys` writes the whole message at once, in pieces of which a later one may fail. */
  function SendWhole(l: Line, m: Message, now: nat, k: Kernel): (Line, bool) {
    var n, ok := KeysWritten(l.session, |m.data|, k), !Rejects(l.session, k);
    var s := if l.session.running then l.session.(lastInput := StampAfter(l.session, k, now)) else l.session;
    var l1 := l.(session := s, sentScheduler := l.sentScheduler + m.data[..n], closed := l.closed + [Closed(m, n, ok)]);
    (if ok then l1.(armed := l.armed + [NewEnter(UNNUMBERED, l.id, s, m.text, Max(now, s.lastInput))]) else l1, ok)
  }

  function Appended(l: Line, m: Message, config: Config, now: nat): Line {
    l.(scheduler := l.scheduler + [NewInput(m, config, now)])
  }

  function SendOf(l: Line, m: Message, config: Config, now: nat, k: Kernel): (Line, bool)
    requires WellFormed(l)
  {
    if config.bytes == 0 then SendWhole(l, m, now, k)
    else
      AppendedIsWellFormed(l, m, config, now);
      DrainSchedulerOf(Appended(l, m, config, now), now, k)
  }

  /** The queue's own bookkeeping: a message in progress has bytes of a chunk to offer, and the chunk stops at a
      character boundary. */
  ghost predicate GoodInput(i: SchedulerInput) {
    && i.offset <= i.chunkEnd <= |i.data|
    && (i.data != [] ==> i.offset < i.chunkEnd)
    && IsBoundary(i.data, i.chunkEnd)
    && Fits(i.data, i.chunkEnd - i.offset, i.config.bytes)
  }

  /** If the message is valid UTF-8, `n` is within the limit or at most one character. */
  ghost predicate Fits(data: seq<Byte>, n: nat, limit: nat) {
    forall s: seq<Scalar> | data == Encode(s) :: limit > 0 ==> n <= Max(limit, 4)
  }

  ghost predicate WellFormed(l: Line) {
    GoodQueue(l.scheduler)
  }

  ghost predicate GoodQueue(scheduler: seq<SchedulerInput>) {
    forall i | 0 <= i < |scheduler| :: GoodInput(scheduler[i])
  }

  lemma GoodQueueStep(scheduler: seq<SchedulerInput>, front: SchedulerInput)
    requires GoodQueue(scheduler) && scheduler != []
    ensures GoodQueue(scheduler[1..])
    ensures GoodInput(front) ==> GoodQueue([front] + scheduler[1..])
  {
  }

  lemma ChunkFits(data: seq<Byte>, c: nat, limit: nat)
    requires c <= |data| && IsBoundary(data, c)
    ensures Fits(data, ChunkEnd(data[c..], limit), limit)
  {
    forall s: seq<Scalar> | data == Encode(s) && limit > 0
      ensures ChunkEnd(data[c..], limit) <= Max(limit, 4)
    {
      ChunkSize(s, c, limit);
    }
  }

  lemma NewInputIsGood(m: Message, config: Config, now: nat)
    ensures GoodInput(NewInput(m, config, now))
  {
    ChunkProgresses(m.data, config.bytes);
    ChunkFits(m.data, 0, config.bytes);
    assert m.data[0..] == m.data;
  }

  lemma AppendedIsWellFormed(l: Line, m: Message, config: Config, now: nat)
    requires WellFormed(l)
    ensures WellFormed(Appended(l, m, config, now))
  {
    NewInputIsGood(m, config, now);
  }

  lemma AdvancedIsGood(input: SchedulerInput, n: nat, writtenAt: nat)
    requires GoodInput(input) && input.offset + n <= input.chunkEnd && input.offset + n < |input.data|
    ensures GoodInput(Advanced(input, n, writtenAt))
  {
    if input.offset + n == input.chunkEnd {
      ChunkIsOfTail(input.data, input.chunkEnd, input.config.bytes);
      ChunkFits(input.data, input.chunkEnd, input.config.bytes);
    }
  }

  lemma WriteKeepsWellFormed(l: Line, now: nat, k: Kernel)
    requires WellFormed(l) && l.scheduler != [] && k.Takes?
    ensures WellFormed(WriteFront(l, now, k))
  {
    var input := l.scheduler[0];
    var n := Taken(input.chunkEnd - input.offset, k);
    if input.offset + n < |input.data| {
      var writtenAt := Max(now, AfterWrite(l.session, n, k, now).lastInput);
      AdvancedIsGood(input, n, writtenAt);
      GoodQueueStep(l.scheduler, Advanced(input, n, writtenAt));
    } else {
      GoodQueueStep(l.scheduler, input);
    }
  }

  lemma ServicedKeepsWellFormed(l: Line, now: nat, k: Kernel)
    requires WellFormed(l)
    ensures WellFormed(Serviced(l, now, k).0)
  {
    if l.user == [] && l.scheduler != [] && now >= l.scheduler[0].nextWrite && !Rejects(l.session, k) {
      WriteKeepsWellFormed(l, now, k);
    }
  }

  /** With chunking off, a message that the session does not take is gone: nothing keeps it. */
  predicate Refuses(l: Line, config: Config, k: Kernel) {
    config.bytes == 0 && Rejects(l.session, k)
  }

  /** A message handed over is queued or has its Enter armed, once, exactly when it is not refused; a refused one
      leaves the input clock and the bytes that went out before the failure. */
  lemma SendAcceptsIffNotRefused(l: Line, m: Message, config: Config, now: nat, k: Kernel)
    requires WellFormed(l)
    ensures var l' := SendOf(l, m, config, now, k).0;
            && (|l'.scheduler| + |l'.armed| == |l.scheduler| + |l.armed| + 1 <==> !Refuses(l, config, k))
            && (Refuses(l, config, k) ==>
                  var n := KeysWritten(l.session, |m.data|, k);
                  l' == l.(session := l'.session, sentScheduler := l.sentScheduler + m.data[..n],
                           closed := l.closed + [Closed(m, n, false)]))
  {
    if config.bytes > 0 {
      AppendedIsWellFormed(l, m, config, now);
    }
  }

  /** Every message handed over so far, in order: those that have left the queue and those in it. */
  function HandedOver(l: Line): seq<Message> {
    seq(|l.closed|, i requires 0 <= i < |l.closed| => l.closed[i].message)
    + seq(|l.scheduler|, i requires 0 <= i < |l.scheduler| => Message(l.scheduler[i].text, l.scheduler[i].data))
  }

  lemma BookedHandsNothingOver(l: Line, now: nat, n: nat)
    requires l.scheduler != []
    requires l.scheduler[0].offset + n <= l.scheduler[0].chunkEnd <= |l.scheduler[0].data|
    ensures HandedOver(Booked(l, now, n)) == HandedOver(l)
  {
    var a, b := HandedOver(Booked(l, now, n)), HandedOver(l);
    assert |a| == |b|;
    forall i | 0 <= i < |a|
      ensures a[i] == b[i]
    {
    }
  }

  /** `l'` has been handed `m` and nothing else: behind the queue, or past it with chunking off. */
  predicate Took(l: Line, l': Line, m: Message, config: Config) {
    if config.bytes > 0 then HandedOver(l') == HandedOver(l) + [m]
    else
      && l'.scheduler == l.scheduler && |l'.closed| == |l.closed| + 1
      && l'.closed[..|l.closed|] == l.closed && l'.closed[|l.closed|].message == m
  }

  /** Handing over a message adds that very message, whatever becomes of it. */
  lemma SendHandsOver(l: Line, m: Message, config: Config, now: nat, k: Kernel)
    requires WellFormed(l)
    ensures Took(l, SendOf(l, m, config, now, k).0, m, config)
  {
    if config.bytes > 0 {
      AppendedIsWellFormed(l, m, config, now);
      var l1 := Appended(l, m, config, now);
      assert HandedOver(l1) == HandedOver(l) + [m];
      if now >= l1.scheduler[0].nextWrite && !Rejects(l1.session, k) {
        assert GoodInput(l1.scheduler[0]);
        var n := Taken(l1.scheduler[0].chunkEnd - l1.scheduler[0].offset, k);
        BookedHandsNothingOver(l1.(session := AfterWrite(l1.session, n, k, now)), now, n);
      }
    }
  }

  /** Handing a message over moves the input clock exactly when its session runs and, with chunking on, some bytes of
      the front message go out; with chunking off a refused write moves it as well. */
  lemma SendMovesClockIff(l: Line, m: Message, config: Config, now: nat, k: Kernel)
    requires WellFormed(l)
    ensures var l' := SendOf(l, m, config, now, k).0;
            && l'.session == l.session.(lastInput := l'.session.lastInput)
            && l'.session.lastInput in {l.session.lastInput, StampAfter(l.session, k, now)}
            && (l'.session.lastInput != l.session.lastInput
                <==> if config.bytes == 0 then l.session.running else |l'.sentScheduler| > |l.sentScheduler|)
  {
    if config.bytes > 0 {
      AppendedIsWellFormed(l, m, config, now);
    }
  }

  /** The next chunk and deadline of a message still in progress. */
  method Advance(input: SchedulerInput, n: nat, writtenAt: nat) returns (r: SchedulerInput)
    requires input.offset + n <= |input.data|
    ensures r == Advanced(input, n, writtenAt)
  {
    r := input.(offset := input.offset + n);
    if r.offset == r.chunkEnd {
      var more := ChunkLen(r.data[r.offset..], r.config.bytes);
      r := r.(chunkEnd := r.chunkEnd + more);
    }
    r := r.(nextWrite := writtenAt + r.config.gap);
  }

  class PtySession {
    const id: string
    var running: bool
    var lastInput: nat
    var lastOutput: nat

    function State(): Session
      reads this
    {
      Session(running, lastInput, lastOutput)
    }

    method TrySendRaw(data: seq<Byte>, k: Kernel, now: nat) returns (r: Result<nat, string>)
      modifies this
      ensures r.Ok? <==> !Rejects(old(State()), k)
      ensures if r.Ok? then r.value == Taken(|data|, k) && State() == AfterWrite(old(State()), r.value, k, now)
              else State() == old(State())
    {
      if !running {
        return Err("session exited");
      }
      if k.Fails? {
        return Err("write failed");
      }
      var n := Min(k.n, |data|);
      if n > 0 {
        lastInput := StampAfter(State(), k, now);
      }
      return Ok(n);
    }

    /** `written` is how many bytes are out when it returns. */
    method SendKeys(data: seq<Byte>, k: Kernel, now: nat) returns (ok: bool, ghost written: nat)
      modifies this
      ensures written == KeysWritten(old(State()), |data|, k)
      ensures ok <==> !Rejects(old(State()), k)
      ensures State() == if old(running) then old(State()).(lastInput := StampAfter(old(State()), k, now))
                         else old(State())
    {
      if !running {
        return false, 0;
      }
      written := KeysWritten(State(), |data|, k);
      lastInput := StampAfter(State(), k, now);
      return k.Takes?, written;
    }
  }

  /** `Vec<PendingEnter>`. */
  class EnterList {
    var items: seq<PendingEnter>
  }

  class PendingInput {
    var user: seq<Byte>
    var scheduler: seq<SchedulerInput>
    ghost var armed: seq<PendingEnter>
    ghost var sentUser: seq<Byte>
    ghost var sentScheduler: seq<Byte>
    ghost var closed: seq<Closed>
    ghost var attempts: seq<Attempt>

    ghost function LineOf(session: PtySession): Line
      reads this, session
    {
      Line(session.id, user, scheduler, session.State(), armed, sentUser, sentScheduler, closed, attempts)
    }

    method SendScheduler(m: Message, session: PtySession, config: Config, enters: EnterList, now: nat, k: Kernel)
      returns (ok: bool)
      requires WellFormed(LineOf(session))
      modifies this, session, enters
      ensures (LineOf(session), ok) == SendOf(old(LineOf(session)), m, config, now, k)
      ensures armed == old(armed) + armed[|old(armed)|..]
      ensures enters.items == old(enters.items) + armed[|old(armed)|..]
    {
      if config.bytes == 0 {
        ghost var written;
        ok, written := session.SendKeys(m.data, k, now);
        sentScheduler := sentScheduler + m.data[..written];
        closed := closed + [Closed(m, written, ok)];
        if ok {
          var enter := NewEnter(UNNUMBERED, session.id, session.State(), m.text, Max(now, session.lastInput));
          enters.items := enters.items + [enter];
          armed := armed + [enter];
        }
        return;
      }
      AppendedIsWellFormed(LineOf(session), m, config, now);
      var chunkEnd := ChunkLen(m.data, config.bytes);
      scheduler := scheduler + [SchedulerInput(m.text, m.data, 0, chunkEnd, now, config)];
      ok := DrainScheduler(session, enters, now, k);
    }

    method Drain(session: PtySession, enters: EnterList, now: nat, k: Kernel) returns (ok: bool)
      requires WellFormed(LineOf(session))
      modifies this, session, enters
      ensures (LineOf(session), ok) == DrainOf(old(LineOf(session)), now, k)
      ensures armed == old(armed) + armed[|old(armed)|..]
      ensures enters.items == old(enters.items) + armed[|old(armed)|..]
    {
      if user != [] {
        var r := session.TrySendRaw(user, k, now);
        if r.Err? {
          return false;
        }
        sentUser := sentUser + user[..r.value];
        user := user[r.value..];
        return true;
      }
      ok := DrainScheduler(session, enters, now, k);
    }

    method DrainScheduler(session: PtySession, enters: EnterList, now: nat, k: Kernel) returns (ok: bool)
      requires WellFormed(LineOf(session))
      modifies this, session, enters
      ensures (LineOf(session), ok) == DrainSchedulerOf(old(LineOf(session)), now, k)
      ensures armed == old(armed) + armed[|old(armed)|..]
      ensures enters.items == old(enters.items) + armed[|old(armed)|..]
    {
      if scheduler == [] {
        return true;
      }
      var input := scheduler[0];
      if now < input.nextWrite {
        return true;
      }
      var r := session.TrySendRaw(input.data[input.offset..input.chunkEnd], k, now);
      if r.Err? {
        return false;
      }
      Book(r.value, session, enters, now);
      return true;
    }

    /** The part of `drain_scheduler` after the write. */
    method Book(n: nat, session: PtySession, enters: EnterList, now: nat)
      requires scheduler != [] && scheduler[0].offset + n <= scheduler[0].chunkEnd <= |scheduler[0].data|
      modifies this, enters
      ensures LineOf(session) == Booked(old(LineOf(session)), now, n)
      ensures armed == old(armed) + armed[|old(armed)|..]
      ensures enters.items == old(enters.items) + armed[|old(armed)|..]
    {
      var input := scheduler[0];
      var offset := input.offset + n;
      sentScheduler := sentScheduler + input.data[input.offset..offset];
      var writtenAt := Max(now, session.lastInput);
      attempts := attempts + [Attempt(|closed|, now, input.chunkEnd - input.offset, n, writtenAt)];
      if offset == |input.data| {
        var enter := NewEnter(UNNUMBERED, session.id, session.State(), input.text, writtenAt);
        enters.items := enters.items + [enter];
        armed := armed + [enter];
        closed := closed + [Whole(Message(input.text, input.data))];
        scheduler := scheduler[1..];
      } else {
        input := Advance(input, n, writtenAt);
        scheduler := [input] + scheduler[1..];
      }
    }

    /** How long the event loop may sleep: whole milliseconds, rounded up, and at most `normal`. */
    method PollTimeoutMs(now: nat, normal: nat) returns (ms: nat)
      requires normal <= 0xFFFF
      ensures ms <= normal
      ensures user != [] || scheduler == [] ==> ms == normal
      ensures user == [] && scheduler != [] && ms < normal ==>
                && now + ms * MILLI >= scheduler[0].nextWrite
                && (ms > 0 ==> now + (ms - 1) * MILLI < scheduler[0].nextWrite)
      ensures user == [] && scheduler != [] && ms == normal && ms > 0 ==>
                now + (ms - 1) * MILLI < scheduler[0].nextWrite
    {
      if user != [] {
        return normal;
      }
      if scheduler == [] {
        return normal;
      }
      var wait := SaturatingSub(scheduler[0].nextWrite, now);
      var roundedUp := wait / MILLI + if wait % MILLI != 0 then 1 else 0;
      return Min(normal, Min(roundedUp, 0xFFFF));
    }
  }
}
