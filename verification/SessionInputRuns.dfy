/** Whole runs of one session's input queues under arbitrary short writes, failures and interleavings. */
module SessionInputRuns {
  import opened Naturals
  import opened Utf8
  import opened Chunking
  import opened InjectedEnter
  import opened SessionInput

  datatype Op =
    | Type(bytes: seq<Byte>)
    | Send(m: Message, now: nat, k: Kernel)
    | Drain(now: nat, k: Kernel)        // a turn of `drain_pending_input`; a failed write throws the queue away
    | SessionGone                       // such a turn when the session is no longer there
    | Elsewhere(session: Session)       // whatever else happens to the session: other input, output, exit

  /** User bytes up to a loss: those written, and those thrown away. */
  datatype Stretch = Stretch(sent: seq<Byte>, lost: seq<Byte>)

  /** The line with everything ever handed to it and when. */
  datatype Feed = Feed(line: Line, typed: seq<Byte>, stretches: seq<Stretch>, handed: seq<Message>, arrivals: seq<nat>)

  function Step(f: Feed, config: Config, op: Op): Feed
    requires WellFormed(f.line)
  {
    match op
    case Type(bytes) => f.(line := f.line.(user := f.line.user + bytes), typed := f.typed + bytes)
    case Send(m, now, k) =>
      var l := SendOf(f.line, m, config, now, k).0;
      f.(line := l, handed := f.handed + [m], arrivals := f.arrivals + [now])
    case Drain(now, k) =>
      var (l, ok) := Serviced(f.line, now, k);
      if ok then f.(line := l) else Lost(f)
    case SessionGone => Lost(f)
    case Elsewhere(session) => f.(line := f.line.(session := session))
  }

  /** The queue is thrown away. */
  function Lost(f: Feed): Feed {
    var stretch := Stretch(SinceLoss(f.stretches, f.line.sentUser), f.line.user);
    f.(line := Emptied(f.line), stretches := f.stretches + [stretch])
  }

  /** The user bytes written before the last loss. */
  function SentIn(stretches: seq<Stretch>): seq<Byte> {
    if stretches == [] then [] else SentIn(stretches[..|stretches| - 1]) + stretches[|stretches| - 1].sent
  }

  /** The user bytes typed before the last loss. */
  function TypedIn(stretches: seq<Stretch>): seq<Byte> {
    if stretches == [] then []
    else
      var last := stretches[|stretches| - 1];
      TypedIn(stretches[..|stretches| - 1]) + (last.sent + last.lost)
  }

  function SinceLoss(stretches: seq<Stretch>, sent: seq<Byte>): seq<Byte> {
    if |SentIn(stretches)| <= |sent| then sent[|SentIn(stretches)|..] else []
  }

  function AllData(ms: seq<Message>): seq<Byte> {
    if ms == [] then [] else ms[0].data + AllData(ms[1..])
  }

  /** The bytes still queued, front message first. */
  function Backlog(scheduler: seq<SchedulerInput>): seq<Byte>
    requires GoodQueue(scheduler)
  {
    if scheduler == [] then []
    else
      assert GoodInput(scheduler[0]);
      scheduler[0].data[scheduler[0].offset..] + Backlog(scheduler[1..])
  }

  /** The bytes of the front message already written. */
  function Begun(scheduler: seq<SchedulerInput>): seq<Byte> {
    if scheduler == [] || scheduler[0].offset > |scheduler[0].data| then []
    else scheduler[0].data[..scheduler[0].offset]
  }

  function WrittenOf(c: Closed): seq<Byte> {
    if c.written <= |c.message.data| then c.message.data[..c.written] else []
  }

  function LostOf(c: Closed): seq<Byte> {
    if c.written <= |c.message.data| then c.message.data[c.written..] else []
  }

  /** The bytes written of messages that have left the queue, in order. */
  function Written(closed: seq<Closed>): seq<Byte> {
    if closed == [] then [] else Written(closed[..|closed| - 1]) + WrittenOf(closed[|closed| - 1])
  }

  /** The bytes thrown away with them, in order. */
  function Thrown(closed: seq<Closed>): seq<Byte> {
    if closed == [] then [] else Thrown(closed[..|closed| - 1]) + LostOf(closed[|closed| - 1])
  }

  /** The messages that left the queue with their last byte. */
  function Finished(closed: seq<Closed>): seq<Message> {
    if closed == [] then []
    else
      var c := closed[|closed| - 1];
      Finished(closed[..|closed| - 1]) + if c.finished then [c.message] else []
  }

  // ----- the invariant

  /** What was written and what is queued is what was typed, but for the stretches thrown away. */
  predicate UserOk(stretches: seq<Stretch>, sent: seq<Byte>, user: seq<Byte>, typed: seq<Byte>) {
    SentIn(stretches) <= sent && typed == TypedIn(stretches) + SinceLoss(stretches, sent) + user
  }

  /** The closed messages are the first ones handed, each written up to some point, a finished one to its end. */
  predicate LedgerOk(closed: seq<Closed>, handed: seq<Message>) {
    && |closed| <= |handed|
    && forall i | 0 <= i < |closed| ::
         && closed[i].message == handed[i]
         && closed[i].written <= |handed[i].data|
         && (closed[i].finished ==> closed[i].written == |handed[i].data|)
  }

  /** Message `i` of the queue is handed message number `|closed| + i`, and only the front one has begun. */
  ghost predicate Queue(scheduler: seq<SchedulerInput>, rest: seq<Message>, config: Config) {
    && |scheduler| == |rest|
    && forall i | 0 <= i < |scheduler| ::
         && GoodInput(scheduler[i])
         && scheduler[i].text == rest[i].text && scheduler[i].data == rest[i].data && scheduler[i].config == config
         && (scheduler[i].data != [] ==> scheduler[i].offset < |scheduler[i].data|)
         && (i > 0 ==> scheduler[i].offset == 0)
  }

  /** Exactly one Enter per finished message, in order of arrival. */
  predicate ArmedInOrder(armed: seq<PendingEnter>, finished: seq<Message>) {
    |armed| == |finished| && forall i | 0 <= i < |armed| :: armed[i].text == StripEnter(finished[i].text)
  }

  ghost predicate BytesOk(l: Line, handed: seq<Message>, config: Config) {
    && LedgerOk(l.closed, handed)
    && ArmedInOrder(l.armed, Finished(l.closed))
    && Queue(l.scheduler, handed[|l.closed|..], config)
    && l.sentScheduler == Written(l.closed) + Begun(l.scheduler)
    && (config.bytes == 0 ==> l.scheduler == [])
  }

  predicate Paced(attempts: seq<Attempt>, gap: nat) {
    forall i | 0 < i < |attempts| ::
      && attempts[i - 1].message <= attempts[i].message
      && (attempts[i - 1].message == attempts[i].message ==> attempts[i].at >= attempts[i - 1].at + gap)
  }

  predicate Attempted(attempts: seq<Attempt>, done: nat) {
    forall i | 0 <= i < |attempts| ::
      attempts[i].taken <= attempts[i].offered && attempts[i].message <= done && attempts[i].at <= attempts[i].written
  }

  /** Whether the front message has had an attempt. */
  predicate Tried(attempts: seq<Attempt>, done: nat) {
    attempts != [] && attempts[|attempts| - 1].message == done
  }

  /** When queued message `i` may next be attempted: one gap after the last attempt on it, else as soon as it came. */
  function Deadline(attempts: seq<Attempt>, done: nat, arrivals: seq<nat>, i: nat, gap: nat): nat
    requires done + i < |arrivals|
  {
    if i == 0 && Tried(attempts, done) then attempts[|attempts| - 1].written + gap else arrivals[done + i]
  }

  predicate PaceOk(scheduler: seq<SchedulerInput>, attempts: seq<Attempt>, done: nat, arrivals: seq<nat>, gap: nat) {
    && |arrivals| == done + |scheduler|
    && Paced(attempts, gap)
    && Attempted(attempts, done)
    && (Tried(attempts, done) ==> scheduler != [])
    && forall i | 0 <= i < |scheduler| :: scheduler[i].nextWrite == Deadline(attempts, done, arrivals, i, gap)
  }

  ghost predicate Inv(f: Feed, config: Config) {
    && UserOk(f.stretches, f.line.sentUser, f.line.user, f.typed)
    && BytesOk(f.line, f.handed, config)
    && |f.arrivals| == |f.handed|
    && PaceOk(f.line.scheduler, f.line.attempts, |f.line.closed|, f.arrivals, config.gap)
  }

  function Start(id: string, s: Session): Feed {
    Feed(Line(id, [], [], s, [], [], [], [], []), [], [], [], [])
  }

  // ----- sequences

  lemma {:induction false} AllDataConcat(a: seq<Message>, b: seq<Message>)
    ensures AllData(a + b) == AllData(a) + AllData(b)
  {
    if a == [] {
      assert a + b == b;
    } else {
      assert (a + b)[1..] == a[1..] + b;
      AllDataConcat(a[1..], b);
    }
  }

  lemma SliceExtends(before: seq<Byte>, data: seq<Byte>, from: nat, to: nat)
    requires from <= to <= |data|
    ensures before + data[..from] + data[from..to] == before + data[..to]
  {
  }

  lemma SliceCompletes(before: seq<Byte>, data: seq<Byte>, from: nat, after: seq<Byte>)
    requires from <= |data|
    ensures before + data[..from] + (data[from..] + after) == before + (data + after)
  {
  }

  lemma Next<T>(xs: seq<T>, x: T)
    ensures (xs + [x])[..|xs| + 1 - 1] == xs && (xs + [x])[|xs|] == x
  {
  }

  lemma WrittenNext(closed: seq<Closed>, c: Closed)
    ensures Written(closed + [c]) == Written(closed) + WrittenOf(c)
    ensures Thrown(closed + [c]) == Thrown(closed) + LostOf(c)
    ensures Finished(closed + [c]) == Finished(closed) + if c.finished then [c.message] else []
  {
    Next(closed, c);
  }

  // ----- user bytes

  lemma Regroup(a: seq<Byte>, b: seq<Byte>, c: seq<Byte>, d: seq<Byte>)
    ensures a + b + (c + d) == a + (b + c) + d
    ensures a + b + (c + d) == a + b + c + d
  {
  }

  lemma SinceLossExtends(stretches: seq<Stretch>, sent: seq<Byte>, more: seq<Byte>)
    requires SentIn(stretches) <= sent
    ensures SinceLoss(stretches, sent + more) == SinceLoss(stretches, sent) + more
  {
  }

  lemma TypedMore(stretches: seq<Stretch>, sent: seq<Byte>, user: seq<Byte>, typed: seq<Byte>, bytes: seq<Byte>)
    requires UserOk(stretches, sent, user, typed)
    ensures UserOk(stretches, sent, user + bytes, typed + bytes)
  {
    Regroup(TypedIn(stretches), SinceLoss(stretches, sent), user, bytes);
  }

  lemma SentMore(stretches: seq<Stretch>, sent: seq<Byte>, user: seq<Byte>, typed: seq<Byte>, n: nat)
    requires UserOk(stretches, sent, user, typed) && n <= |user|
    ensures UserOk(stretches, sent + user[..n], user[n..], typed)
  {
    SinceLossExtends(stretches, sent, user[..n]);
    Regroup(TypedIn(stretches), SinceLoss(stretches, sent), user[..n], user[n..]);
    assert user == user[..n] + user[n..];
  }

  lemma UserLost(stretches: seq<Stretch>, sent: seq<Byte>, user: seq<Byte>, typed: seq<Byte>)
    requires UserOk(stretches, sent, user, typed)
    ensures UserOk(stretches + [Stretch(SinceLoss(stretches, sent), user)], sent, [], typed)
  {
    var s := Stretch(SinceLoss(stretches, sent), user);
    Next(stretches, s);
    assert SentIn(stretches + [s]) == SentIn(stretches) + s.sent == sent;
    assert sent[|sent|..] == [];
    Regroup(TypedIn(stretches), s.sent, user, []);
  }

  // ----- scheduler bytes

  lemma WholeIsWritten(m: Message)
    ensures WrittenOf(Whole(m)) == m.data && LostOf(Whole(m)) == []
  {
  }

  lemma ArmedNext(armed: seq<PendingEnter>, closed: seq<Closed>, m: Message, e: PendingEnter)
    requires ArmedInOrder(armed, Finished(closed)) && e.text == StripEnter(m.text)
    ensures ArmedInOrder(armed + [e], Finished(closed + [Whole(m)]))
  {
    WrittenNext(closed, Whole(m));
  }

  lemma LedgerNext(closed: seq<Closed>, handed: seq<Message>)
    requires LedgerOk(closed, handed) && |closed| < |handed|
    ensures LedgerOk(closed + [Whole(handed[|closed|])], handed)
  {
  }

  lemma FinishedQueue(scheduler: seq<SchedulerInput>, rest: seq<Message>, config: Config)
    requires Queue(scheduler, rest, config) && scheduler != []
    ensures Queue(scheduler[1..], rest[1..], config)
    ensures Begun(scheduler[1..]) == []
  {
    forall i | 0 <= i < |scheduler[1..]|
      ensures scheduler[1..][i] == scheduler[i + 1] && rest[1..][i] == rest[i + 1]
    {
    }
  }

  lemma TakeDrop(before: seq<Byte>, data: seq<Byte>, from: nat)
    requires from <= |data|
    ensures before + data[..from] + data[from..] == before + data
  {
  }

  lemma FinishedBytes(closed: seq<Closed>, scheduler: seq<SchedulerInput>, m: Message, sent: seq<Byte>)
    requires scheduler != [] && scheduler[0].data == m.data && scheduler[0].offset <= |m.data|
    requires sent == Written(closed) + Begun(scheduler)
    ensures sent + m.data[scheduler[0].offset..] == Written(closed + [Whole(m)])
  {
    WrittenNext(closed, Whole(m));
    WholeIsWritten(m);
    assert Begun(scheduler) == m.data[..scheduler[0].offset];
    TakeDrop(Written(closed), m.data, scheduler[0].offset);
  }

  lemma FinishingKeepsBytes(l: Line, handed: seq<Message>, config: Config, l': Line, e: PendingEnter)
    requires BytesOk(l, handed, config) && l.scheduler != []
    requires var i := l.scheduler[0];
             && i.offset <= |i.data| && e.text == StripEnter(i.text)
             && l'.scheduler == l.scheduler[1..] && l'.armed == l.armed + [e]
             && l'.closed == l.closed + [Whole(Message(i.text, i.data))]
             && l'.sentScheduler == l.sentScheduler + i.data[i.offset..]
    ensures BytesOk(l', handed, config)
  {
    var done := |l.closed|;
    var m := handed[done];
    assert handed[done..][0] == m;
    assert Message(l.scheduler[0].text, l.scheduler[0].data) == m;
    LedgerNext(l.closed, handed);
    ArmedNext(l.armed, l.closed, m, e);
    FinishedQueue(l.scheduler, handed[done..], config);
    assert handed[done..][1..] == handed[done + 1..];
    FinishedBytes(l.closed, l.scheduler, m, l.sentScheduler);
  }

  lemma AdvancedQueue(scheduler: seq<SchedulerInput>, rest: seq<Message>, config: Config, n: nat, writtenAt: nat)
    requires Queue(scheduler, rest, config) && scheduler != []
    requires scheduler[0].offset + n <= scheduler[0].chunkEnd && scheduler[0].offset + n < |scheduler[0].data|
    ensures Queue([Advanced(scheduler[0], n, writtenAt)] + scheduler[1..], rest, config)
  {
    var front := Advanced(scheduler[0], n, writtenAt);
    AdvancedIsGood(scheduler[0], n, writtenAt);
    var queue := [front] + scheduler[1..];
    forall i | 0 <= i < |queue|
      ensures queue[i] == if i == 0 then front else scheduler[i]
    {
    }
  }

  lemma AdvancedBytes(before: seq<Byte>, scheduler: seq<SchedulerInput>, sent: seq<Byte>, n: nat, writtenAt: nat)
    requires scheduler != [] && scheduler[0].offset + n <= |scheduler[0].data|
    requires sent == before + Begun(scheduler)
    ensures var i := scheduler[0];
            sent + i.data[i.offset..i.offset + n] == before + Begun([Advanced(i, n, writtenAt)] + scheduler[1..])
  {
    SliceExtends(before, scheduler[0].data, scheduler[0].offset, scheduler[0].offset + n);
  }

  lemma AdvancingKeepsBytes(l: Line, handed: seq<Message>, config: Config, l': Line, n: nat, writtenAt: nat)
    requires BytesOk(l, handed, config) && l.scheduler != []
    requires var i := l.scheduler[0];
             && i.offset + n <= i.chunkEnd && i.offset + n < |i.data|
             && l'.scheduler == [Advanced(i, n, writtenAt)] + l.scheduler[1..]
             && l'.sentScheduler == l.sentScheduler + i.data[i.offset..i.offset + n]
    requires l'.armed == l.armed && l'.closed == l.closed
    ensures BytesOk(l', handed, config)
  {
    AdvancedQueue(l.scheduler, handed[|l.closed|..], config, n, writtenAt);
    AdvancedBytes(Written(l.closed), l.scheduler, l.sentScheduler, n, writtenAt);
  }

  lemma BookedAdvance(l: Line, now: nat, n: nat)
    requires l.scheduler != []
    requires var i := l.scheduler[0]; i.offset + n <= i.chunkEnd <= |i.data| && i.offset + n < |i.data|
    ensures var l', i, writtenAt := Booked(l, now, n), l.scheduler[0], Max(now, l.session.lastInput);
            && l'.closed == l.closed && l'.armed == l.armed
            && l'.attempts == l.attempts + [Attempt(|l.closed|, now, i.chunkEnd - i.offset, n, writtenAt)]
            && l'.scheduler == [Advanced(i, n, writtenAt)] + l.scheduler[1..]
            && l'.sentScheduler == l.sentScheduler + i.data[i.offset..i.offset + n]
  {
  }

  lemma AdvancingWriteKeepsBytes(l: Line, handed: seq<Message>, config: Config, now: nat, n: nat)
    requires BytesOk(l, handed, config) && l.scheduler != []
    requires var i := l.scheduler[0]; i.offset + n <= i.chunkEnd <= |i.data| && i.offset + n < |i.data|
    ensures BytesOk(Booked(l, now, n), handed, config)
  {
    BookedAdvance(l, now, n);
    AdvancingKeepsBytes(l, handed, config, Booked(l, now, n), n, Max(now, l.session.lastInput));
  }

  lemma FinishingWriteKeepsBytes(l: Line, handed: seq<Message>, config: Config, now: nat, n: nat)
    requires BytesOk(l, handed, config) && l.scheduler != []
    requires var i := l.scheduler[0]; i.offset + n == i.chunkEnd == |i.data|
    ensures BytesOk(Booked(l, now, n), handed, config)
  {
    var i := l.scheduler[0];
    assert i.data[i.offset..|i.data|] == i.data[i.offset..];
    var l' := Booked(l, now, n);
    FinishingKeepsBytes(l, handed, config, l', l'.armed[|l.armed|]);
  }

  // ----- pacing

  lemma PacedNext(attempts: seq<Attempt>, a: Attempt, gap: nat)
    requires Paced(attempts, gap)
    requires attempts != [] ==>
               var last := attempts[|attempts| - 1];
               last.message <= a.message && (last.message == a.message ==> a.at >= last.at + gap)
    ensures Paced(attempts + [a], gap)
  {
  }

  lemma AttemptedNext(attempts: seq<Attempt>, a: Attempt, done: nat, done': nat)
    requires Attempted(attempts, done) && done <= done'
    requires a.taken <= a.offered && a.message <= done' && a.at <= a.written
    ensures Attempted(attempts + [a], done')
  {
  }

  /** An attempt on the front message, made no sooner than its deadline. */
  lemma AttemptKeepsPace(scheduler: seq<SchedulerInput>, attempts: seq<Attempt>, done: nat, arrivals: seq<nat>,
                         gap: nat, a: Attempt)
    requires PaceOk(scheduler, attempts, done, arrivals, gap) && scheduler != []
    requires a.at >= scheduler[0].nextWrite
    requires a.message == done && a.at <= a.written && a.taken <= a.offered
    ensures Paced(attempts + [a], gap) && Attempted(attempts + [a], done)
  {
    if attempts != [] {
      assert attempts[|attempts| - 1].message <= done;
    }
    PacedNext(attempts, a, gap);
    AttemptedNext(attempts, a, done, done);
  }

  lemma FinishingKeepsPace(scheduler: seq<SchedulerInput>, attempts: seq<Attempt>, done: nat, arrivals: seq<nat>,
                           gap: nat, a: Attempt)
    requires PaceOk(scheduler, attempts, done, arrivals, gap) && scheduler != []
    requires a.at >= scheduler[0].nextWrite
    requires a.message == done && a.at <= a.written && a.taken <= a.offered
    ensures PaceOk(scheduler[1..], attempts + [a], done + 1, arrivals, gap)
  {
    AttemptKeepsPace(scheduler, attempts, done, arrivals, gap, a);
    forall i | 0 <= i < |scheduler[1..]|
      ensures scheduler[1..][i].nextWrite == Deadline(attempts + [a], done + 1, arrivals, i, gap)
    {
      assert scheduler[1..][i] == scheduler[i + 1];
    }
  }

  lemma AdvancingKeepsPace(scheduler: seq<SchedulerInput>, attempts: seq<Attempt>, done: nat, arrivals: seq<nat>,
                           gap: nat, a: Attempt, front: SchedulerInput)
    requires PaceOk(scheduler, attempts, done, arrivals, gap) && scheduler != []
    requires a.at >= scheduler[0].nextWrite
    requires a.message == done && a.at <= a.written && a.taken <= a.offered && front.nextWrite == a.written + gap
    ensures PaceOk([front] + scheduler[1..], attempts + [a], done, arrivals, gap)
  {
    AttemptKeepsPace(scheduler, attempts, done, arrivals, gap, a);
    var queue := [front] + scheduler[1..];
    forall i | 0 <= i < |queue|
      ensures queue[i].nextWrite == Deadline(attempts + [a], done, arrivals, i, gap)
    {
      assert i > 0 ==> queue[i] == scheduler[i];
    }
  }

  lemma FinishingWriteKeepsPace(l: Line, gap: nat, arrivals: seq<nat>, now: nat, n: nat)
    requires PaceOk(l.scheduler, l.attempts, |l.closed|, arrivals, gap)
    requires l.scheduler != [] && now >= l.scheduler[0].nextWrite
    requires var i := l.scheduler[0]; i.offset + n == i.chunkEnd == |i.data|
    ensures var l' := Booked(l, now, n); PaceOk(l'.scheduler, l'.attempts, |l'.closed|, arrivals, gap)
  {
    var i := l.scheduler[0];
    var a := Attempt(|l.closed|, now, i.chunkEnd - i.offset, n, Max(now, l.session.lastInput));
    FinishingKeepsPace(l.scheduler, l.attempts, |l.closed|, arrivals, gap, a);
  }

  lemma AdvancingWriteKeepsPace(l: Line, gap: nat, arrivals: seq<nat>, now: nat, n: nat)
    requires PaceOk(l.scheduler, l.attempts, |l.closed|, arrivals, gap)
    requires l.scheduler != [] && now >= l.scheduler[0].nextWrite && l.scheduler[0].config.gap == gap
    requires var i := l.scheduler[0]; i.offset + n <= i.chunkEnd <= |i.data| && i.offset + n < |i.data|
    ensures var l' := Booked(l, now, n); PaceOk(l'.scheduler, l'.attempts, |l'.closed|, arrivals, gap)
  {
    var i, writtenAt := l.scheduler[0], Max(now, l.session.lastInput);
    var a := Attempt(|l.closed|, now, i.chunkEnd - i.offset, n, writtenAt);
    BookedAdvance(l, now, n);
    AdvancingKeepsPace(l.scheduler, l.attempts, |l.closed|, arrivals, gap, a, Advanced(i, n, writtenAt));
  }

  lemma UntriedKeepsPace(scheduler: seq<SchedulerInput>, attempts: seq<Attempt>, done: nat, arrivals: seq<nat>,
                         gap: nat, i: SchedulerInput)
    requires PaceOk(scheduler, attempts, done, arrivals, gap)
    ensures PaceOk(scheduler + [i], attempts, done, arrivals + [i.nextWrite], gap)
  {
  }

  /** Messages leave the queue without another attempt. */
  lemma ClosingKeepsPace(scheduler: seq<SchedulerInput>, attempts: seq<Attempt>, done: nat, arrivals: seq<nat>,
                         gap: nat, arrivals': seq<nat>)
    requires PaceOk(scheduler, attempts, done, arrivals, gap) && |arrivals'| >= |arrivals|
    ensures PaceOk([], attempts, |arrivals'|, arrivals', gap)
  {
  }

  // ----- the steps

  /** Steps that leave the scheduler's queue alone. */
  lemma UserSideKeepsInv(f: Feed, config: Config, l': Line, typed: seq<Byte>)
    requires Inv(f, config) && UserOk(f.stretches, l'.sentUser, l'.user, typed)
    requires l' == f.line.(user := l'.user, sentUser := l'.sentUser, session := l'.session)
    ensures Inv(f.(line := l', typed := typed), config)
  {
  }

  lemma BookingKeepsInv(f: Feed, config: Config, now: nat, n: nat)
    requires Inv(f, config) && f.line.scheduler != [] && now >= f.line.scheduler[0].nextWrite
    requires var i := f.line.scheduler[0]; i.offset + n <= i.chunkEnd <= |i.data|
    ensures Inv(f.(line := Booked(f.line, now, n)), config)
  {
    var i := f.line.scheduler[0];
    if i.offset + n < |i.data| {
      AdvancingWriteKeepsBytes(f.line, f.handed, config, now, n);
      AdvancingWriteKeepsPace(f.line, config.gap, f.arrivals, now, n);
    } else {
      FinishingWriteKeepsBytes(f.line, f.handed, config, now, n);
      FinishingWriteKeepsPace(f.line, config.gap, f.arrivals, now, n);
    }
  }

  lemma InvIsWellFormed(f: Feed, config: Config)
    requires Inv(f, config)
    ensures WellFormed(f.line)
  {
  }

  /** A due attempt stamps the session, then books the bytes taken. */
  lemma DueAttempt(l: Line, now: nat, k: Kernel) returns (stamped: Line, n: nat)
    requires WellFormed(l) && l.scheduler != [] && now >= l.scheduler[0].nextWrite && !Rejects(l.session, k)
    ensures stamped == l.(session := stamped.session)
    ensures var i := l.scheduler[0]; i.offset + n <= i.chunkEnd <= |i.data|
    ensures DrainSchedulerOf(l, now, k) == (Booked(stamped, now, n), true)
  {
    assert GoodInput(l.scheduler[0]);
    n := Taken(l.scheduler[0].chunkEnd - l.scheduler[0].offset, k);
    stamped := l.(session := AfterWrite(l.session, n, k, now));
  }

  lemma DrainSchedulerKeepsInv(f: Feed, config: Config, now: nat, k: Kernel)
    requires Inv(f, config)
    ensures WellFormed(f.line)
    ensures Inv(f.(line := DrainSchedulerOf(f.line, now, k).0), config)
  {
    InvIsWellFormed(f, config);
    if f.line.scheduler != [] && now >= f.line.scheduler[0].nextWrite && !Rejects(f.line.session, k) {
      var stamped, n := DueAttempt(f.line, now, k);
      DueAttemptKeepsInv(f, config, stamped, now, n);
    }
  }

  lemma DueAttemptKeepsInv(f: Feed, config: Config, stamped: Line, now: nat, n: nat)
    requires Inv(f, config) && f.line.scheduler != [] && now >= f.line.scheduler[0].nextWrite
    requires stamped == f.line.(session := stamped.session)
    requires var i := f.line.scheduler[0]; i.offset + n <= i.chunkEnd <= |i.data|
    ensures Inv(f.(line := Booked(stamped, now, n)), config)
  {
    UserSideKeepsInv(f, config, stamped, f.typed);
    BookingKeepsInv(f.(line := stamped), config, now, n);
    assert f.(line := stamped, typed := f.typed) == f.(line := stamped);
  }

  /** Only the front message has begun. */
  predicate FrontBegun(scheduler: seq<SchedulerInput>) {
    && (scheduler != [] ==> scheduler[0].offset <= |scheduler[0].data|)
    && forall i | 0 < i < |scheduler| :: scheduler[i].offset == 0
  }

  lemma ThrownNext(init: seq<SchedulerInput>, last: SchedulerInput)
    ensures ThrownAway(init + [last]) == ThrownAway(init) + [Closed(Message(last.text, last.data), last.offset, false)]
  {
  }

  lemma {:induction false} ThrownBytes(scheduler: seq<SchedulerInput>)
    requires FrontBegun(scheduler)
    ensures Written(ThrownAway(scheduler)) == Begun(scheduler) && Finished(ThrownAway(scheduler)) == []
  {
    if scheduler != [] {
      var init, last := scheduler[..|scheduler| - 1], scheduler[|scheduler| - 1];
      assert scheduler == init + [last];
      ThrownBytes(init);
      ThrownNext(init, last);
      var c := Closed(Message(last.text, last.data), last.offset, false);
      WrittenNext(ThrownAway(init), c);
      if init != [] {
        assert WrittenOf(c) == [];
      }
    }
  }

  lemma ThrownLedger(scheduler: seq<SchedulerInput>, rest: seq<Message>, config: Config)
    requires Queue(scheduler, rest, config)
    ensures LedgerOk(ThrownAway(scheduler), rest) && FrontBegun(scheduler)
  {
    forall i | 0 <= i < |scheduler|
      ensures ThrownAway(scheduler)[i].message == rest[i] && scheduler[i].offset <= |rest[i].data|
    {
      assert GoodInput(scheduler[i]);
    }
  }

  lemma ReassociateBytes(a: seq<Byte>, b: seq<Byte>, c: seq<Byte>)
    ensures a + b + c == a + (b + c)
  {
  }

  lemma {:induction false} WrittenConcat(a: seq<Closed>, b: seq<Closed>)
    ensures Written(a + b) == Written(a) + Written(b)
  {
    if b == [] {
      assert a + b == a;
    } else {
      var init, last := b[..|b| - 1], b[|b| - 1];
      assert a + b == (a + init) + [last] && b == init + [last];
      WrittenConcat(a, init);
      WrittenNext(a + init, last);
      ReassociateBytes(Written(a), Written(init), WrittenOf(last));
    }
  }

  lemma {:induction false} UnfinishedConcat(a: seq<Closed>, b: seq<Closed>)
    requires Finished(b) == []
    ensures Finished(a + b) == Finished(a)
  {
    if b == [] {
      assert a + b == a;
    } else {
      var init, last := b[..|b| - 1], b[|b| - 1];
      assert a + b == (a + init) + [last] && b == init + [last];
      UnfinishedConcat(a, init);
      WrittenNext(a + init, last);
    }
  }

  lemma LedgerConcat(a: seq<Closed>, b: seq<Closed>, handed: seq<Message>)
    requires LedgerOk(a, handed) && LedgerOk(b, handed[|a|..])
    ensures LedgerOk(a + b, handed)
  {
    forall i | |a| <= i < |a + b|
      ensures (a + b)[i] == b[i - |a|] && handed[i] == handed[|a|..][i - |a|]
    {
    }
  }

  lemma EmptyingKeepsBytes(l: Line, handed: seq<Message>, config: Config)
    requires BytesOk(l, handed, config)
    ensures BytesOk(Emptied(l), handed, config) && |Emptied(l).closed| == |handed|
  {
    var rest := handed[|l.closed|..];
    ThrownLedger(l.scheduler, rest, config);
    ThrownBytes(l.scheduler);
    WrittenConcat(l.closed, ThrownAway(l.scheduler));
    UnfinishedConcat(l.closed, ThrownAway(l.scheduler));
    LedgerConcat(l.closed, ThrownAway(l.scheduler), handed);
    assert handed[|handed|..] == [];
  }

  lemma LosingKeepsInv(f: Feed, config: Config)
    requires Inv(f, config)
    ensures Inv(Lost(f), config)
  {
    EmptyingKeepsBytes(f.line, f.handed, config);
    UserLost(f.stretches, f.line.sentUser, f.line.user, f.typed);
    ClosingKeepsPace(f.line.scheduler, f.line.attempts, |f.line.closed|, f.arrivals, config.gap, f.arrivals);
  }

  lemma DrainKeepsInv(f: Feed, config: Config, now: nat, k: Kernel)
    requires Inv(f, config)
    ensures WellFormed(f.line)
    ensures Inv(Step(f, config, Drain(now, k)), config)
  {
    var l := f.line;
    if !Serviced(l, now, k).1 {
      LosingKeepsInv(f, config);
    } else if l.user == [] {
      DrainSchedulerKeepsInv(f, config, now, k);
    } else {
      SentMore(f.stretches, l.sentUser, l.user, f.typed, Taken(|l.user|, k));
      UserSideKeepsInv(f, config, DrainOf(l, now, k).0, f.typed);
    }
  }

  lemma SendKeepsInv(f: Feed, config: Config, m: Message, now: nat, k: Kernel)
    requires Inv(f, config)
    ensures WellFormed(f.line)
    ensures Inv(Step(f, config, Send(m, now, k)), config)
  {
    if config.bytes > 0 {
      QueueingKeepsInv(f, config, m, now);
      DrainSchedulerKeepsInv(Queued(f, config, m, now), config, now, k);
    } else {
      SendWholeKeepsInv(f, config, m, now, k);
    }
  }

  lemma StepKeepsInv(f: Feed, config: Config, op: Op)
    requires Inv(f, config)
    ensures WellFormed(f.line)
    ensures Inv(Step(f, config, op), config)
  {
    match op
    case Type(bytes) =>
      TypedMore(f.stretches, f.line.sentUser, f.line.user, f.typed, bytes);
      UserSideKeepsInv(f, config, f.line.(user := f.line.user + bytes), f.typed + bytes);
    case Drain(now, k) => DrainKeepsInv(f, config, now, k);
    case Send(m, now, k) => SendKeepsInv(f, config, m, now, k);
    case SessionGone => LosingKeepsInv(f, config);
    case Elsewhere(session) => UserSideKeepsInv(f, config, f.line.(session := session), f.typed);
  }

  lemma LedgerWider(closed: seq<Closed>, handed: seq<Message>, c: Closed)
    requires LedgerOk(closed, handed) && |closed| == |handed|
    requires c.written <= |c.message.data| && (c.finished ==> c.written == |c.message.data|)
    ensures LedgerOk(closed + [c], handed + [c.message])
  {
  }

  lemma ClosedAtOnceBytes(closed: seq<Closed>, sent: seq<Byte>, c: Closed)
    requires sent == Written(closed) && c.written <= |c.message.data|
    ensures sent + c.message.data[..c.written] == Written(closed + [c])
  {
    WrittenNext(closed, c);
  }

  /** A message that is never queued leaves at once, with its Enter armed if it is finished. */
  lemma ClosedAtOnceKeepsBytes(l: Line, handed: seq<Message>, config: Config, c: Closed, l': Line)
    requires BytesOk(l, handed, config) && config.bytes == 0
    requires c.written <= |c.message.data| && (c.finished ==> c.written == |c.message.data|)
    requires l'.sentScheduler == l.sentScheduler + c.message.data[..c.written]
    requires l'.closed == l.closed + [c] && l'.scheduler == []
    requires ArmedInOrder(l'.armed, Finished(l'.closed))
    ensures BytesOk(l', handed + [c.message], config)
  {
    LedgerWider(l.closed, handed, c);
    assert Written(l.closed) + [] == Written(l.closed);
    ClosedAtOnceBytes(l.closed, l.sentScheduler, c);
    assert (handed + [c.message])[|l'.closed|..] == [];
    assert Written(l'.closed) + [] == Written(l'.closed);
  }

  lemma SendWholeArms(l: Line, m: Message, now: nat, k: Kernel)
    requires ArmedInOrder(l.armed, Finished(l.closed))
    ensures var l' := SendWhole(l, m, now, k).0; ArmedInOrder(l'.armed, Finished(l'.closed))
  {
    var l' := SendWhole(l, m, now, k).0;
    if Rejects(l.session, k) {
      WrittenNext(l.closed, l'.closed[|l.closed|]);
    } else {
      ArmedNext(l.armed, l.closed, m, l'.armed[|l.armed|]);
    }
  }

  lemma SendWholeKeepsInv(f: Feed, config: Config, m: Message, now: nat, k: Kernel)
    requires Inv(f, config) && config.bytes == 0
    ensures var l := SendWhole(f.line, m, now, k).0;
            Inv(f.(line := l, handed := f.handed + [m], arrivals := f.arrivals + [now]), config)
  {
    var l := f.line;
    var n, ok := KeysWritten(l.session, |m.data|, k), !Rejects(l.session, k);
    SendWholeArms(l, m, now, k);
    ClosedAtOnceKeepsBytes(l, f.handed, config, Closed(m, n, ok), SendWhole(l, m, now, k).0);
    ClosingKeepsPace([], l.attempts, |l.closed|, f.arrivals, config.gap, f.arrivals + [now]);
  }

  lemma LongerQueue(scheduler: seq<SchedulerInput>, rest: seq<Message>, config: Config, m: Message, now: nat)
    requires Queue(scheduler, rest, config)
    ensures Queue(scheduler + [NewInput(m, config, now)], rest + [m], config)
    ensures Begun(scheduler + [NewInput(m, config, now)]) == Begun(scheduler)
  {
    NewInputIsGood(m, config, now);
  }

  function Queued(f: Feed, config: Config, m: Message, now: nat): Feed {
    f.(line := Appended(f.line, m, config, now), handed := f.handed + [m], arrivals := f.arrivals + [now])
  }

  lemma QueueingKeepsInv(f: Feed, config: Config, m: Message, now: nat)
    requires Inv(f, config) && config.bytes > 0
    ensures Inv(Queued(f, config, m, now), config)
  {
    var l, done := f.line, |f.line.closed|;
    assert (f.handed + [m])[done..] == f.handed[done..] + [m];
    LongerQueue(l.scheduler, f.handed[done..], config, m, now);
    UntriedKeepsPace(l.scheduler, l.attempts, done, f.arrivals, config.gap, NewInput(m, config, now));
  }

  function Run(f: Feed, config: Config, ops: seq<Op>): (r: Feed)
    requires Inv(f, config)
    ensures Inv(r, config)
    decreases ops
  {
    if ops == [] then f
    else
      StepKeepsInv(f, config, ops[0]);
      Run(Step(f, config, ops[0]), config, ops[1..])
  }

  // ----- main results

  lemma {:induction false} BegunThenBacklog(scheduler: seq<SchedulerInput>, rest: seq<Message>, config: Config)
    requires Queue(scheduler, rest, config)
    ensures GoodQueue(scheduler)
    ensures Begun(scheduler) + Backlog(scheduler) == AllData(rest)
  {
    if scheduler != [] {
      BegunThenBacklog(scheduler[1..], rest[1..], config);
      FinishedQueue(scheduler, rest, config);
      assert GoodInput(scheduler[0]) && scheduler[0].data == rest[0].data;
      SliceCompletes([], rest[0].data, scheduler[0].offset, AllData(rest[1..]));
    }
  }

  lemma {:induction false} ClosedAddsUp(closed: seq<Closed>, handed: seq<Message>)
    requires LedgerOk(closed, handed)
    ensures |Written(closed)| + |Thrown(closed)| == |AllData(handed[..|closed|])|
  {
    if closed != [] {
      var n := |closed| - 1;
      ClosedAddsUp(closed[..n], handed);
      AllDataNext(handed, n);
      SplitAddsUp(closed[n]);
      assert handed[..|closed[..n]|] == handed[..n];
    }
  }

  lemma SplitAddsUp(c: Closed)
    requires c.written <= |c.message.data|
    ensures |WrittenOf(c)| + |LostOf(c)| == |c.message.data|
  {
  }

  lemma EmptySum(a: seq<Byte>, b: seq<Byte>)
    requires a + b == []
    ensures a == [] && b == []
  {
    assert |a + b| == |a| + |b|;
  }

  lemma NothingLost(c: Closed)
    requires c.written <= |c.message.data| && LostOf(c) == []
    ensures WrittenOf(c) == c.message.data
  {
    assert |LostOf(c)| == |c.message.data| - c.written;
  }

  lemma {:induction false} UnlostIsAllWritten(closed: seq<Closed>, handed: seq<Message>)
    requires LedgerOk(closed, handed) && Thrown(closed) == []
    ensures Written(closed) == AllData(handed[..|closed|])
  {
    if closed != [] {
      var n := |closed| - 1;
      EmptySum(Thrown(closed[..n]), LostOf(closed[n]));
      UnlostIsAllWritten(closed[..n], handed);
      AllDataNext(handed, n);
      NothingLost(closed[n]);
      assert handed[..|closed[..n]|] == handed[..n];
    }
  }

  lemma AllDataNext(ms: seq<Message>, n: nat)
    requires n < |ms|
    ensures AllData(ms[..n + 1]) == AllData(ms[..n]) + ms[n].data
  {
    assert ms[..n + 1] == ms[..n] + [ms[n]];
    AllDataConcat(ms[..n], [ms[n]]);
    assert AllData([ms[n]]) == ms[n].data + AllData([ms[n]][1..]);
  }

  /** Written so far, and queued, against all handed. */
  lemma BytesAddUp(l: Line, handed: seq<Message>, config: Config)
    requires BytesOk(l, handed, config)
    ensures GoodQueue(l.scheduler)
    ensures |l.sentScheduler| + |Backlog(l.scheduler)| + |Thrown(l.closed)| == |AllData(handed)|
    ensures Begun(l.scheduler) + Backlog(l.scheduler) == AllData(handed[|l.closed|..])
  {
    BegunThenBacklog(l.scheduler, handed[|l.closed|..], config);
    ClosedAddsUp(l.closed, handed);
    AllDataInTwo(handed, |l.closed|);
  }

  lemma AllDataInTwo(ms: seq<Message>, n: nat)
    requires n <= |ms|
    ensures AllData(ms) == AllData(ms[..n]) + AllData(ms[n..])
  {
    assert ms == ms[..n] + ms[n..];
    AllDataConcat(ms[..n], ms[n..]);
  }

  lemma UnlostBytes(l: Line, handed: seq<Message>, config: Config)
    requires BytesOk(l, handed, config) && Thrown(l.closed) == []
    ensures GoodQueue(l.scheduler)
    ensures l.sentScheduler + Backlog(l.scheduler) == AllData(handed)
  {
    var rest := handed[|l.closed|..];
    BegunThenBacklog(l.scheduler, rest, config);
    UnlostIsAllWritten(l.closed, handed);
    AllDataInTwo(handed, |l.closed|);
    ReassociateBytes(Written(l.closed), Begun(l.scheduler), Backlog(l.scheduler));
  }

  /** Nothing is duplicated or reordered, and nothing lost but what a failed write throws away. The scheduler bytes
      written are, message by message in order of arrival, the written parts of the messages no longer queued and of
      the front one; written, queued and thrown away add up to all that was handed over; and the bytes written and
      then the bytes queued are the messages handed over exactly when nothing was thrown away. The user's bytes
      written and queued are those typed but for whole stretches thrown away. */
  ghost predicate Conserved(f: Feed) {
    var l := f.line;
    && LedgerOk(l.closed, f.handed) && GoodQueue(l.scheduler)
    && l.sentScheduler == Written(l.closed) + Begun(l.scheduler)
    && Begun(l.scheduler) + Backlog(l.scheduler) == AllData(f.handed[|l.closed|..])
    && |l.sentScheduler| + |Backlog(l.scheduler)| + |Thrown(l.closed)| == |AllData(f.handed)|
    && (l.sentScheduler + Backlog(l.scheduler) == AllData(f.handed) <==> Thrown(l.closed) == [])
    && l.sentUser == SentIn(f.stretches) + SinceLoss(f.stretches, l.sentUser)
    && f.typed == TypedIn(f.stretches) + SinceLoss(f.stretches, l.sentUser) + l.user
  }

  /** A turn throws the queues away exactly when the session does not take writes and one is due. */
  lemma TurnThrowsIff(l: Line, now: nat, k: Kernel)
    requires WellFormed(l)
    ensures var (l', ok) := Serviced(l, now, k);
            && (!ok <==> Rejects(l.session, k)
                         && (l.user != [] || (l.scheduler != [] && l.scheduler[0].nextWrite <= now)))
            && (!ok ==> l' == Emptied(l))
  {
  }

  lemma InvConserves(f: Feed, config: Config)
    requires Inv(f, config)
    ensures Conserved(f)
  {
    BytesAddUp(f.line, f.handed, config);
    if Thrown(f.line.closed) == [] {
      UnlostBytes(f.line, f.handed, config);
    }
    SentInTwo(f.stretches, f.line.sentUser);
  }

  lemma SentInTwo(stretches: seq<Stretch>, sent: seq<Byte>)
    requires SentIn(stretches) <= sent
    ensures sent == SentIn(stretches) + SinceLoss(stretches, sent)
  {
  }

  lemma BytesAreConserved(id: string, s: Session, config: Config, ops: seq<Op>)
    ensures Inv(Start(id, s), config) && Conserved(Run(Start(id, s), config, ops))
  {
    StartIsGood(id, s, config);
    InvConserves(Run(Start(id, s), config, ops), config);
  }

  lemma StartIsGood(id: string, s: Session, config: Config)
    ensures Inv(Start(id, s), config)
  {
    var f := Start(id, s);
    NothingYet(f.line, config);
    assert PaceOk([], [], 0, [], config.gap);
  }

  lemma NothingYet(l: Line, config: Config)
    requires l.closed == [] && l.scheduler == [] && l.armed == [] && l.sentScheduler == []
    ensures BytesOk(l, [], config)
  {
    var none: seq<Message> := [];
    assert none[|l.closed|..] == [];
  }

  /** In every state of a run Enters are armed one per finished message, in order, and only once all bytes of the
      message are out: the bytes written are those of the messages that have left the queue and a proper part of the
      next one. */
  lemma EntersFollowFinalBytes(f: Feed, config: Config)
    requires Inv(f, config)
    ensures var done := |f.line.closed|;
            && ArmedInOrder(f.line.armed, Finished(f.line.closed))
            && (forall i | 0 <= i < done && f.line.closed[i].finished :: f.line.closed[i] == Whole(f.handed[i]))
            && f.line.sentScheduler == Written(f.line.closed) + Begun(f.line.scheduler)
            && (done < |f.handed| ==> Begun(f.line.scheduler) <= f.handed[done].data)
            && (done < |f.handed| && f.handed[done].data != [] ==> Begun(f.line.scheduler) != f.handed[done].data)
  {
    var done := |f.line.closed|;
    if done < |f.handed| {
      assert f.handed[done..][0] == f.handed[done];
      assert GoodInput(f.line.scheduler[0]);
    }
  }

  lemma DrainPutsUserFirst(l: Line, now: nat, k: Kernel)
    requires WellFormed(l) && l.user != []
    ensures var l' := Serviced(l, now, k).0;
            && l'.sentScheduler == l.sentScheduler && l'.attempts == l.attempts && l'.armed == l.armed
  {
  }

  /** No message is handed over in the run, and before each of its steps user bytes wait. */
  ghost predicate UserWaitsThroughout(f: Feed, config: Config, ops: seq<Op>)
    requires Inv(f, config)
    decreases ops
  {
    ops != [] ==>
      && f.line.user != [] && !ops[0].Send?
      && Inv(Step(f, config, ops[0]), config) && UserWaitsThroughout(Step(f, config, ops[0]), config, ops[1..])
  }

  /** However long the user's bytes wait, and whatever happens to the session, turns write no scheduler byte, attempt
      none and arm no Enter before the last of them is gone. */
  lemma {:induction false} UserBytesGoFirst(f: Feed, config: Config, ops: seq<Op>)
    requires Inv(f, config) && UserWaitsThroughout(f, config, ops)
    ensures var l := Run(f, config, ops).line;
            && l.sentScheduler == f.line.sentScheduler && l.attempts == f.line.attempts && l.armed == f.line.armed
    decreases ops
  {
    if ops != [] {
      if ops[0].Drain? {
        DrainPutsUserFirst(f.line, ops[0].now, ops[0].k);
      }
      UserBytesGoFirst(Step(f, config, ops[0]), config, ops[1..]);
    }
  }

  /** User priority belongs to `drain` alone: handing a message over puts scheduler bytes ahead of waiting user bytes
      exactly when the session takes some byte of it or, with chunking on, the front message is due and has a byte the
      session takes. */
  lemma SendOvertakesIff(l: Line, m: Message, config: Config, now: nat, k: Kernel)
    requires WellFormed(l) && l.user != []
    ensures var l' := SendOf(l, m, config, now, k).0;
            var front := Appended(l, m, config, now).scheduler[0];
            && l'.user == l.user && l'.sentUser == l.sentUser
            && (l'.sentScheduler != l.sentScheduler
                <==> if config.bytes == 0 then KeysWritten(l.session, |m.data|, k) > 0
                     else !Rejects(l.session, k) && front.nextWrite <= now && front.data != [] && k.n > 0)
  {
    if config.bytes > 0 {
      AppendedIsWellFormed(l, m, config, now);
      DueWriteSendsIff(Appended(l, m, config, now), now, k);
    }
  }

  lemma DueWriteSendsIff(l: Line, now: nat, k: Kernel)
    requires WellFormed(l) && l.scheduler != []
    ensures var l', front := DrainSchedulerOf(l, now, k).0, l.scheduler[0];
            && l'.user == l.user && l'.sentUser == l.sentUser
            && (l'.sentScheduler != l.sentScheduler
                <==> !Rejects(l.session, k) && front.nextWrite <= now && front.data != [] && k.n > 0)
  {
    var i := l.scheduler[0];
    assert GoodInput(i);
    if !Rejects(l.session, k) && i.nextWrite <= now {
      var n := Taken(i.chunkEnd - i.offset, k);
      assert |i.data[i.offset..i.offset + n]| == n;
    }
  }

  /** A session idle for two seconds with user bytes waiting, and a message that is written ahead of them. */
  ghost predicate Overtakes(f: Feed, config: Config, m: Message, now: nat, k: Kernel) {
    && WellFormed(f.line) && f.line.user != [] && now >= f.line.session.lastInput + 2 * SECOND
    && var f' := Step(f, config, Send(m, now, k));
       f'.line.sentScheduler != f.line.sentScheduler && f'.line.user == f.line.user
  }

  /** The state after a run from a fresh session. */
  ghost predicate Reached(config: Config, ops: seq<Op>, f: Feed) {
    var start := Start("pty-1", Session(true, 0, 0));
    Inv(start, config) && f == Run(start, config, ops)
  }

  lemma ReachOne(config: Config, op: Op) returns (f: Feed)
    ensures Reached(config, [op], f) && f == Step(Start("pty-1", Session(true, 0, 0)), config, op) && WellFormed(f.line)
  {
    var start := Start("pty-1", Session(true, 0, 0));
    StartIsGood("pty-1", Session(true, 0, 0), config);
    RunOne(start, config, op);
    f := Step(start, config, op);
    InvIsWellFormed(f, config);
  }

  lemma ReachNext(config: Config, ops: seq<Op>, f: Feed, op: Op) returns (f': Feed)
    requires Reached(config, ops, f)
    ensures WellFormed(f.line) && f' == Step(f, config, op) && Reached(config, ops + [op], f') && WellFormed(f'.line)
  {
    var start := Start("pty-1", Session(true, 0, 0));
    InvIsWellFormed(f, config);
    RunOne(f, config, op);
    RunConcat(start, config, ops, [op]);
    f' := Step(f, config, op);
    InvIsWellFormed(f', config);
  }

  lemma IdleSendOvertakes(f: Feed, config: Config, m: Message, now: nat, k: Kernel)
    requires WellFormed(f.line) && f.line.user != [] && f.line.scheduler == [] && config.bytes > 0
    requires f.line.session.running && now >= f.line.session.lastInput + 2 * SECOND
    requires m.data != [] && k.Takes? && k.n > 0
    ensures Overtakes(f, config, m, now, k)
  {
    SendOvertakesIff(f.line, m, config, now, k);
    assert Appended(f.line, m, config, now).scheduler[0] == NewInput(m, config, now);
  }

  /** A run that ends so: the user types into a session that is not reading, and two seconds later a message fires. */
  lemma SendMayOvertakeUserBytes()
    ensures exists ops: seq<Op>, f: Feed, config: Config, m: Message, now: nat, k: Kernel ::
              Reached(config, ops, f) && Overtakes(f, config, m, now, k)
  {
    var config, m, now, k := Config(48, 8), Message("[ENTER]x", [0x0D]), 2 * SECOND, Takes(1, 0);
    var f := ReachOne(config, Type([0x61]));
    IdleSendOvertakes(f, config, m, now, k);
  }

  lemma RunOne(f: Feed, config: Config, op: Op)
    requires Inv(f, config)
    ensures Run(f, config, [op]) == Step(f, config, op) && Inv(Step(f, config, op), config)
  {
    StepKeepsInv(f, config, op);
    assert [op][1..] == [];
    assert Run(Step(f, config, op), config, []) == Step(f, config, op);
  }

  lemma {:induction false} RunConcat(f: Feed, config: Config, a: seq<Op>, b: seq<Op>)
    requires Inv(f, config)
    ensures Run(f, config, a + b) == Run(Run(f, config, a), config, b)
    decreases a
  {
    if a == [] {
      assert a + b == b;
    } else {
      assert (a + b)[1..] == a[1..] + b;
      StepKeepsInv(f, config, a[0]);
      RunConcat(Step(f, config, a[0]), config, a[1..], b);
    }
  }

  /** Pacing is per message: in every state of a run with no user bytes waiting, a drain at `now` attempts the front
      message exactly when the session takes writes and its deadline has come, one gap after the clock reading that
      followed the last attempt on it, or, for a message not attempted yet, the moment it arrived. */
  lemma PacingIsPerMessage(f: Feed, config: Config, now: nat, k: Kernel)
    requires Inv(f, config) && f.line.user == [] && f.line.scheduler != []
    ensures WellFormed(f.line) && |f.line.closed| < |f.arrivals|
    ensures var l := f.line;
            Step(f, config, Drain(now, k)).line.attempts != l.attempts
            <==> !Rejects(l.session, k) && now >= Deadline(l.attempts, |l.closed|, f.arrivals, 0, config.gap)
  {
    assert GoodInput(f.line.scheduler[0]);
    if !Rejects(f.line.session, k) && f.line.scheduler[0].nextWrite <= now {
      DueTurnAttempts(f.line, now, k);
    }
  }

  lemma DueTurnAttempts(l: Line, now: nat, k: Kernel)
    requires WellFormed(l) && l.user == [] && l.scheduler != [] && l.scheduler[0].nextWrite <= now
             && !Rejects(l.session, k)
    ensures var (l', ok) := Serviced(l, now, k);
            && ok && l'.user == [] && l'.session.running
            && |l'.attempts| == |l.attempts| + 1 && l'.attempts[..|l.attempts|] == l.attempts
            && l'.attempts[|l.attempts|].at == now && l'.attempts[|l.attempts|].message == |l.closed|
            && (|l'.closed| > |l.closed| ==> |l'.closed| == |l.closed| + 1 && l'.scheduler == l.scheduler[1..])
  {
    assert GoodInput(l.scheduler[0]);
    assert Serviced(l, now, k).0 == WriteFront(l, now, k);
  }

  /** So a message that has waited behind another starts in the very tick that finishes it. */
  lemma NextMessageNeedsNoGap(f: Feed, config: Config, now: nat, k: Kernel, k': Kernel)
    requires Inv(f, config) && f.line.user == [] && |f.line.scheduler| > 1
    requires f.arrivals[|f.line.closed| + 1] <= now && f.line.session.running && k.Takes? && k'.Takes?
    requires Step(f, config, Drain(now, k)).line.attempts != f.line.attempts
    requires |Step(f, config, Drain(now, k)).line.closed| > |f.line.closed|
    ensures var f1 := Step(f, config, Drain(now, k));
            && WellFormed(f1.line)
            && var attempts, n := Step(f1, config, Drain(now, k')).line.attempts, |f.line.attempts|;
               |attempts| == n + 2 && attempts[n].at == attempts[n + 1].at == now
               && attempts[n].message + 1 == attempts[n + 1].message
  {
    StepKeepsInv(f, config, Drain(now, k));
    DueTurnAttempts(f.line, now, k);
    var f1 := Step(f, config, Drain(now, k));
    assert f1.line.scheduler[0].nextWrite == f.arrivals[|f.line.closed| + 1] by {
      assert f1.line.scheduler[0] == f.line.scheduler[1];
    }
    DueTurnAttempts(f1.line, now, k');
  }

  /** A turn of a session that takes nothing leaves the first message tried and the second behind it. */
  lemma SecondWaits(l: Line, a: Message, b: Message, config: Config, t: nat)
    requires l.scheduler == [] && l.session == Session(true, 0, 0) && config.bytes > 0
    requires config.gap > 0 && |a.data| == 1
    ensures WellFormed(l)
    ensures var l1 := SendOf(l, a, config, t, Takes(0, 0)).0;
            && WellFormed(l1)
            && var l2 := SendOf(l1, b, config, t, Takes(0, 0)).0;
               && l2.scheduler == [NewInput(a, config, t).(nextWrite := t + config.gap), NewInput(b, config, t)]
               && l2.user == l.user && l2.session == l.session && l2.closed == l.closed
  {
    AppendedIsWellFormed(l, a, config, t);
    SendKeepsQueueGood(l, a, config, t);
    var l1 := SendOf(l, a, config, t, Takes(0, 0)).0;
    AppendedIsWellFormed(l1, b, config, t);
  }

  lemma SendKeepsQueueGood(l: Line, a: Message, config: Config, t: nat)
    requires l.scheduler == [] && l.session == Session(true, 0, 0) && config.bytes > 0 && |a.data| == 1
    ensures WellFormed(l)
    ensures var l1 := SendOf(l, a, config, t, Takes(0, 0)).0;
            && WellFormed(l1) && l1.scheduler == [NewInput(a, config, t).(nextWrite := t + config.gap)]
            && l1.user == l.user && l1.session == l.session && l1.closed == l.closed
  {
    AppendedIsWellFormed(l, a, config, t);
    var l' := Appended(l, a, config, t);
    assert l'.scheduler == [NewInput(a, config, t)];
    WriteKeepsWellFormed(l', t, Takes(0, 0));
  }

  lemma TwoSends(start: Feed, a: Message, b: Message, config: Config, t: nat)
    requires start.line.scheduler == [] && start.line.session == Session(true, 0, 0) && config.bytes > 0
    requires config.gap > 0 && |a.data| == 1 && start.arrivals == []
    ensures WellFormed(start.line)
    ensures var f1 := Step(start, config, Send(a, t, Takes(0, 0)));
            && WellFormed(f1.line)
            && var f := Step(f1, config, Send(b, t, Takes(0, 0)));
               && f.line.user == start.line.user && f.line.session == start.line.session && f.arrivals == [t, t]
               && f.line.closed == start.line.closed
               && f.line.scheduler == [NewInput(a, config, t).(nextWrite := t + config.gap), NewInput(b, config, t)]
  {
    SecondWaits(start.line, a, b, config, t);
  }

  /** A run with two one-byte messages waiting behind a session that is not reading. */
  lemma TwoMessagesWait(config: Config, a: Message, b: Message, t: nat) returns (f: Feed, ops: seq<Op>)
    requires config.bytes > 0 && config.gap > 0 && |a.data| == 1
    ensures Reached(config, ops, f)
    ensures f.line.user == [] && f.line.session == Session(true, 0, 0) && f.line.closed == [] && f.arrivals == [t, t]
    ensures f.line.scheduler == [NewInput(a, config, t).(nextWrite := t + config.gap), NewInput(b, config, t)]
  {
    TwoSends(Start("pty-1", Session(true, 0, 0)), a, b, config, t);
    var f1 := ReachOne(config, Send(a, t, Takes(0, 0)));
    ops := [Send(a, t, Takes(0, 0))] + [Send(b, t, Takes(0, 0))];
    f := ReachNext(config, [Send(a, t, Takes(0, 0))], f1, Send(b, t, Takes(0, 0)));
  }

  /** Attempts `i` and `i + 1` are at one reading, on different messages. */
  predicate OneTick(attempts: seq<Attempt>, i: nat) {
    i + 1 < |attempts| && attempts[i].at == attempts[i + 1].at && attempts[i].message < attempts[i + 1].message
  }

  lemma OneByteTurnCloses(l: Line, a: Message, config: Config, t: nat, now: nat)
    requires WellFormed(l) && l.user == [] && l.session.running && |l.scheduler| == 2 && |a.data| == 1
    requires l.scheduler[0] == NewInput(a, config, t).(nextWrite := now)
    ensures |Serviced(l, now, Takes(1, 0)).0.closed| > |l.closed|
  {
    assert GoodInput(l.scheduler[0]);
  }

  lemma TwoTurnsServeTwo(f: Feed, config: Config, a: Message, t: nat, now: nat)
    requires Inv(f, config) && f.line.user == [] && f.line.session.running && |a.data| == 1
    requires |f.line.scheduler| == 2 && f.line.scheduler[0] == NewInput(a, config, t).(nextWrite := now)
    requires f.arrivals == [t, t] && f.line.closed == [] && t <= now
    ensures WellFormed(f.line)
    ensures var f1 := Step(f, config, Drain(now, Takes(1, 0)));
            && WellFormed(f1.line)
            && OneTick(Step(f1, config, Drain(now, Takes(1, 0))).line.attempts, |f.line.attempts|)
  {
    OneByteTurnCloses(f.line, a, config, t, now);
    DueTurnAttempts(f.line, now, Takes(1, 0));
    NextMessageNeedsNoGap(f, config, now, Takes(1, 0), Takes(1, 0));
  }

  lemma ReachedIsGood(config: Config, ops: seq<Op>, f: Feed)
    requires Reached(config, ops, f)
    ensures Inv(f, config)
  {
  }

  lemma ReachTwo(config: Config, ops: seq<Op>, f: Feed, op: Op) returns (ops': seq<Op>, f': Feed)
    requires Reached(config, ops, f)
    ensures Reached(config, ops', f')
    ensures WellFormed(f.line) && WellFormed(Step(f, config, op).line) && f' == Step(Step(f, config, op), config, op)
  {
    var f1 := ReachNext(config, ops, f, op);
    ops' := ops + [op] + [op];
    f' := ReachNext(config, ops + [op], f1, op);
  }

  /** A run that attempts the last byte of one message and the first of the next at one reading of the clock. */
  lemma OneTickMayServeTwoMessages()
    ensures exists ops: seq<Op>, f: Feed, config: Config, i: nat ::
              Reached(config, ops, f) && config.gap > 0 && OneTick(f.line.attempts, i)
  {
    var config, t := Config(48, 8), 2 * SECOND;
    var a := Message("[ENTER]x", [0x0D]);
    var f, ops := TwoMessagesWait(config, a, Message("[ENTER]y", [0x0D]), t);
    ReachedIsGood(config, ops, f);
    TwoTurnsServeTwo(f, config, a, t, t + 8);
    var ops', f' := ReachTwo(config, ops, f, Drain(t + 8, Takes(1, 0)));
    assert OneTick(f'.line.attempts, |f.line.attempts|);
  }

  // ----- what one turn writes

  /** Every queued message is being cut where cutting it up as a whole would cut it, whatever the short writes. */
  ghost predicate OnCuts(scheduler: seq<SchedulerInput>) {
    forall i | 0 <= i < |scheduler| :: OnCut(scheduler[i])
  }

  ghost predicate OnCut(i: SchedulerInput) {
    i.offset < |i.data| ==> i.chunkEnd == CutAfter(i.data, i.offset, i.config.bytes)
  }

  lemma NewInputIsOnCut(m: Message, config: Config, now: nat)
    ensures OnCut(NewInput(m, config, now))
  {
    if m.data != [] {
      FirstCut(m.data, config.bytes);
    }
  }

  lemma AdvancedWithinChunk(i: SchedulerInput, n: nat, writtenAt: nat)
    requires i.offset + n < i.chunkEnd <= |i.data|
    ensures var a := Advanced(i, n, writtenAt);
            a.data == i.data && a.offset == i.offset + n && a.config == i.config && a.chunkEnd == i.chunkEnd
  {
  }

  lemma AdvancedToChunkEnd(i: SchedulerInput, n: nat, writtenAt: nat)
    requires i.offset + n == i.chunkEnd < |i.data|
    ensures var a := Advanced(i, n, writtenAt);
            && a.data == i.data && a.offset == i.chunkEnd && a.config == i.config
            && a.chunkEnd == i.chunkEnd + ChunkEnd(i.data[i.chunkEnd..], i.config.bytes)
  {
  }

  lemma AdvancedIsOnCut(i: SchedulerInput, n: nat, writtenAt: nat)
    requires OnCut(i) && i.offset + n <= i.chunkEnd && i.offset + n < |i.data|
    ensures OnCut(Advanced(i, n, writtenAt))
  {
    NextCut(i.data, i.offset, i.offset + n, i.config.bytes);
    if i.offset + n < i.chunkEnd {
      AdvancedWithinChunk(i, n, writtenAt);
    } else {
      AdvancedToChunkEnd(i, n, writtenAt);
    }
  }

  lemma OnCutsStep(scheduler: seq<SchedulerInput>, front: SchedulerInput)
    requires OnCuts(scheduler) && scheduler != []
    ensures OnCuts(scheduler[1..])
    ensures OnCut(front) ==> OnCuts([front] + scheduler[1..])
  {
  }

  lemma DrainSchedulerKeepsCuts(l: Line, now: nat, k: Kernel)
    requires WellFormed(l) && OnCuts(l.scheduler)
    ensures OnCuts(DrainSchedulerOf(l, now, k).0.scheduler)
  {
    if l.scheduler != [] && now >= l.scheduler[0].nextWrite && !Rejects(l.session, k) {
      var input := l.scheduler[0];
      assert GoodInput(input);
      var n := Taken(input.chunkEnd - input.offset, k);
      if input.offset + n < |input.data| {
        var writtenAt := Max(now, AfterWrite(l.session, n, k, now).lastInput);
        AdvancedIsOnCut(input, n, writtenAt);
        OnCutsStep(l.scheduler, Advanced(input, n, writtenAt));
      } else {
        OnCutsStep(l.scheduler, input);
      }
    }
  }

  lemma StepKeepsCuts(f: Feed, config: Config, op: Op)
    requires Inv(f, config) && OnCuts(f.line.scheduler)
    ensures WellFormed(f.line)
    ensures OnCuts(Step(f, config, op).line.scheduler)
  {
    InvIsWellFormed(f, config);
    match op
    case Send(m, now, k) =>
      if config.bytes > 0 {
        AppendedIsWellFormed(f.line, m, config, now);
        NewInputIsOnCut(m, config, now);
        DrainSchedulerKeepsCuts(Appended(f.line, m, config, now), now, k);
      }
    case Drain(now, k) => DrainSchedulerKeepsCuts(f.line, now, k);
    case _ =>
  }

  lemma {:induction false} RunKeepsCuts(f: Feed, config: Config, ops: seq<Op>)
    requires Inv(f, config) && OnCuts(f.line.scheduler)
    ensures OnCuts(Run(f, config, ops).line.scheduler)
    decreases ops
  {
    if ops != [] {
      StepKeepsInv(f, config, ops[0]);
      StepKeepsCuts(f, config, ops[0]);
      RunKeepsCuts(Step(f, config, ops[0]), config, ops[1..]);
    }
  }

  /** In every state of a run messages are cut at the fixed cuts of their whole text. */
  lemma EveryRunIsOnCuts(id: string, s: Session, config: Config, ops: seq<Op>)
    ensures Inv(Start(id, s), config) && OnCuts(Run(Start(id, s), config, ops).line.scheduler)
  {
    StartIsGood(id, s, config);
    RunKeepsCuts(Start(id, s), config, ops);
  }

  /** What a turn writes, to the byte: of waiting user bytes the first ones the kernel takes; else, if the front message
      is due, what it takes of the bytes up to the next cut; else nothing. */
  lemma TurnWritesExactly(f: Feed, config: Config, now: nat, k: Kernel)
    requires Inv(f, config) && OnCuts(f.line.scheduler)
    ensures WellFormed(f.line)
    ensures var l, l' := f.line, Step(f, config, Drain(now, k)).line;
            if !l.session.running || k.Fails? then
              l'.sentUser == l.sentUser && l'.sentScheduler == l.sentScheduler
            else if l.user != [] then
              var n := if k.n < |l.user| then k.n else |l.user|;
              l'.sentUser == l.sentUser + l.user[..n] && l'.user == l.user[n..] && l'.sentScheduler == l.sentScheduler
            else if l.scheduler != [] && l.scheduler[0].nextWrite <= now then
              var i := l.scheduler[0];
              i.offset <= |i.data|
              && var cut := if i.offset < |i.data| then CutAfter(i.data, i.offset, config.bytes) else i.offset;
                 var end := if i.offset + k.n < cut then i.offset + k.n else cut;
                 i.offset <= end && l'.sentScheduler == l.sentScheduler + i.data[i.offset..end]
                 && l'.sentUser == l.sentUser
            else l'.sentUser == l.sentUser && l'.sentScheduler == l.sentScheduler
  {
    InvIsWellFormed(f, config);
    var l := f.line;
    if l.user == [] && l.scheduler != [] {
      assert GoodInput(l.scheduler[0]) && OnCut(l.scheduler[0]) && l.scheduler[0].config == config;
      DueWriteIsExact(l, now, k);
    }
  }

  lemma DueWriteIsExact(l: Line, now: nat, k: Kernel)
    requires WellFormed(l) && l.scheduler != []
    ensures var l', i := DrainSchedulerOf(l, now, k).0, l.scheduler[0];
            && l'.user == l.user && l'.sentUser == l.sentUser && i.offset <= i.chunkEnd <= |i.data|
            && l'.sentScheduler ==
                 if Rejects(l.session, k) || now < i.nextWrite then l.sentScheduler
                 else
                   var end := if i.offset + k.n < i.chunkEnd then i.offset + k.n else i.chunkEnd;
                   l.sentScheduler + i.data[i.offset..end]
  {
    assert GoodInput(l.scheduler[0]);
  }

  /** A fresh Enter for what has just gone out: of this session, owning the input the write has stamped, due 100 ms
      after the clock reading that followed it. */
  predicate Fresh(e: PendingEnter, l': Line, now: nat) {
    && e.sessionId == l'.id && e.inputAt == l'.session.lastInput
    && e.fireAt == (if now >= l'.session.lastInput then now else l'.session.lastInput) + 100_000_000
    && e.quietSince.None? && e.checks == 0 && e.retries == 0
  }

  lemma ArmedIsFresh(l: Line, m: Message, config: Config, now: nat, k: Kernel)
    requires WellFormed(l)
    ensures var l' := SendOf(l, m, config, now, k).0;
            |l'.armed| > |l.armed| ==> |l'.armed| == |l.armed| + 1 && Fresh(l'.armed[|l.armed|], l', now)
    ensures var l' := Serviced(l, now, k).0;
            |l'.armed| > |l.armed| ==> |l'.armed| == |l.armed| + 1 && Fresh(l'.armed[|l.armed|], l', now)
  {
    if config.bytes > 0 {
      AppendedIsWellFormed(l, m, config, now);
    }
  }

  /** Bytes taken by attempts `i` up to but not including `j`. */
  function TakenBetween(attempts: seq<Attempt>, i: nat, j: nat): nat
    requires i <= j <= |attempts|
  {
    if i == j then 0 else TakenBetween(attempts, i, j - 1) + attempts[j - 1].taken
  }

  /** Every message handed is well-formed text. */
  ghost predicate ValidText(m: Message) {
    exists s: seq<Scalar> :: m.data == Encode(s)
  }

  predicate SmallAttempts(attempts: seq<Attempt>, most: nat) {
    forall a | a in attempts :: a.taken <= a.offered <= most
  }

  lemma OfferIsSmall(input: SchedulerInput, m: Message)
    requires GoodInput(input) && input.data == m.data && ValidText(m) && input.config.bytes > 0
    ensures input.chunkEnd - input.offset <= Max(input.config.bytes, 4)
  {
    var s: seq<Scalar> :| m.data == Encode(s);
    assert input.data == Encode(s);
  }

  lemma DrainSchedulerAttemptsSmall(f: Feed, config: Config, now: nat, k: Kernel)
    requires Inv(f, config) && config.bytes > 0
    requires SmallAttempts(f.line.attempts, Max(config.bytes, 4)) && forall m | m in f.handed :: ValidText(m)
    ensures WellFormed(f.line)
    ensures SmallAttempts(DrainSchedulerOf(f.line, now, k).0.attempts, Max(config.bytes, 4))
  {
    var l := f.line;
    if l.scheduler != [] && now >= l.scheduler[0].nextWrite && !Rejects(l.session, k) {
      assert GoodInput(l.scheduler[0]);
      OfferIsSmall(l.scheduler[0], f.handed[|l.closed|..][0]);
      var a := WriteFront(l, now, k).attempts[|l.attempts|];
      assert WriteFront(l, now, k).attempts == l.attempts + [a];
    }
  }

  lemma StepAttemptsSmall(f: Feed, config: Config, op: Op)
    requires Inv(f, config) && config.bytes > 0
    requires SmallAttempts(f.line.attempts, Max(config.bytes, 4)) && forall m | m in f.handed :: ValidText(m)
    requires op.Send? ==> ValidText(op.m)
    ensures SmallAttempts(Step(f, config, op).line.attempts, Max(config.bytes, 4))
    ensures forall m | m in Step(f, config, op).handed :: ValidText(m)
  {
    match op
    case Drain(now, k) =>
      if f.line.user == [] {
        DrainSchedulerAttemptsSmall(f, config, now, k);
      }
    case Send(m, now, k) => SendAttemptsSmall(f, config, m, now, k);
    case _ =>
  }

  lemma SendAttemptsSmall(f: Feed, config: Config, m: Message, now: nat, k: Kernel)
    requires Inv(f, config) && config.bytes > 0 && ValidText(m)
    requires SmallAttempts(f.line.attempts, Max(config.bytes, 4)) && forall m | m in f.handed :: ValidText(m)
    ensures WellFormed(f.line)
    ensures SmallAttempts(Step(f, config, Send(m, now, k)).line.attempts, Max(config.bytes, 4))
  {
    QueueingKeepsInv(f, config, m, now);
    DrainSchedulerAttemptsSmall(Queued(f, config, m, now), config, now, k);
  }

  /** No attempt carries more than `max(limit, 4)` bytes when the messages are valid UTF-8. */
  lemma {:induction false} AttemptsAreSmall(f: Feed, config: Config, ops: seq<Op>)
    requires Inv(f, config) && config.bytes > 0
    requires SmallAttempts(f.line.attempts, Max(config.bytes, 4)) && forall m | m in f.handed :: ValidText(m)
    requires forall op | op in ops && op.Send? :: ValidText(op.m)
    ensures SmallAttempts(Run(f, config, ops).line.attempts, Max(config.bytes, 4))
    decreases ops
  {
    if ops != [] {
      StepKeepsInv(f, config, ops[0]);
      StepAttemptsSmall(f, config, ops[0]);
      AttemptsAreSmall(Step(f, config, ops[0]), config, ops[1..]);
    }
  }

  lemma OneMoreAttempt(total: nat, taken: nat, span: nat, span': nat, gap: nat, most: nat)
    requires total * gap <= span * most && taken <= most && span + gap <= span'
    ensures (total + taken) * gap <= span' * most
  {
    MulMono(taken, most, gap);
    MulMono(span + gap, span', most);
    assert (total + taken) * gap == total * gap + taken * gap;
    assert (span + gap) * most == span * most + gap * most;
  }

  lemma {:induction false} WindowBound(attempts: seq<Attempt>, i: nat, j: nat, gap: nat, most: nat)
    requires i < j <= |attempts| && Paced(attempts, gap) && SmallAttempts(attempts, most)
    requires attempts[i].message == attempts[j - 1].message
    ensures attempts[j - 1].at >= attempts[i].at
    ensures TakenBetween(attempts, i, j) * gap <= (attempts[j - 1].at - attempts[i].at + gap) * most
    decreases j
  {
    var last := attempts[j - 1];
    assert last in attempts;
    if j == i + 1 {
      assert TakenBetween(attempts, i, j) == TakenBetween(attempts, i, i) + last.taken;
      OneMoreAttempt(0, last.taken, 0, gap, gap, most);
    } else {
      MessagesNondecreasing(attempts, i, j - 2, gap);
      assert attempts[(j - 1) - 1].message <= last.message;
      WindowBound(attempts, i, j - 1, gap, most);
      OneMoreAttempt(TakenBetween(attempts, i, j - 1), last.taken, attempts[j - 2].at - attempts[i].at + gap,
                     last.at - attempts[i].at + gap, gap, most);
    }
  }

  lemma MulMono(a: nat, b: nat, c: nat)
    requires a <= b
    ensures a * c <= b * c
  {
  }

  lemma {:induction false} MessagesNondecreasing(attempts: seq<Attempt>, i: nat, j: nat, gap: nat)
    requires i <= j < |attempts| && Paced(attempts, gap)
    ensures attempts[i].message <= attempts[j].message
    decreases j
  {
    if i < j {
      MessagesNondecreasing(attempts, i, j - 1, gap);
    }
  }

  /** Pacing bounds throughput: over any window of a message's attempts, however late the ticks and whatever else
      runs, bytes written times the gap is at most `max(limit, 4)` times the window's length plus one gap. */
  lemma ThroughputIsBounded(id: string, s: Session, config: Config, ops: seq<Op>)
    requires config.bytes > 0 && forall op | op in ops && op.Send? :: ValidText(op.m)
    ensures Inv(Start(id, s), config)
    ensures WindowsAreBounded(Run(Start(id, s), config, ops).line.attempts, config.gap, Max(config.bytes, 4))
  {
    StartIsGood(id, s, config);
    AttemptsAreSmall(Start(id, s), config, ops);
    SmallPacedIsBounded(Run(Start(id, s), config, ops).line.attempts, config.gap, Max(config.bytes, 4));
  }

  /** Over every window of attempts on one message. */
  predicate WindowsAreBounded(attempts: seq<Attempt>, gap: nat, most: nat) {
    forall i, j | 0 <= i <= j < |attempts| && attempts[i].message == attempts[j].message ::
      && attempts[i].at <= attempts[j].at
      && TakenBetween(attempts, i, j + 1) * gap <= (attempts[j].at - attempts[i].at + gap) * most
  }

  lemma SmallPacedIsBounded(attempts: seq<Attempt>, gap: nat, most: nat)
    requires Paced(attempts, gap) && SmallAttempts(attempts, most)
    ensures WindowsAreBounded(attempts, gap, most)
  {
    forall i, j | 0 <= i <= j < |attempts| && attempts[i].message == attempts[j].message
      ensures attempts[i].at <= attempts[j].at
              && TakenBetween(attempts, i, j + 1) * gap <= (attempts[j].at - attempts[i].at + gap) * most
    {
      WindowBound(attempts, i, j + 1, gap, most);
    }
  }
}
