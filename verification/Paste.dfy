/** Bracketed-paste tracking of the attach client: `process_paste_bytes` in src/attach.rs. */
module Paste {
  import opened Utf8
  import opened Collections

  datatype PasteMode =
    | Idle
    | StartEsc | StartBracket | Start2 | Start0
    | InPaste
    | EndEsc | EndBracket | End2 | End0 | End1

  const ESC: Byte := 0x1b
  const DETACH: Byte := 0x1c

  const START: seq<Byte> := [ESC, '[' as int, '2' as int, '0' as int, '0' as int, '~' as int]
  const END: seq<Byte> := [ESC, '[' as int, '2' as int, '0' as int, '1' as int, '~' as int]

  predicate Inside(m: PasteMode) {
    m in {InPaste, EndEsc, EndBracket, End2, End0, End1}
  }

  function Next(m: PasteMode, b: Byte): PasteMode {
    match m
    case Idle => if b == ESC then StartEsc else Idle
    case StartEsc => if b == '[' as int then StartBracket else Idle
    case StartBracket => if b == '2' as int then Start2 else Idle
    case Start2 => if b == '0' as int then Start0 else Idle
    case Start0 => if b == '0' as int then InPaste else Idle
    case InPaste => if b == ESC then EndEsc else InPaste
    case EndEsc => if b == '[' as int then EndBracket else InPaste
    case EndBracket => if b == '2' as int then End2 else InPaste
    case End2 => if b == '0' as int then End0 else InPaste
    case End0 => if b == '1' as int then End1 else InPaste
    case End1 => if b == '~' as int then Idle else InPaste
  }

  function Feed(m: PasteMode, bytes: seq<Byte>): PasteMode {
    if bytes == [] then m else Next(Feed(m, bytes[..|bytes| - 1]), bytes[|bytes| - 1])
  }

  /** Some detach byte arrives while no escape sequence and no paste is open. */
  ghost predicate Detaches(m: PasteMode, bytes: seq<Byte>) {
    exists i :: 0 <= i < |bytes| && DetachAt(m, bytes, i)
  }

  predicate DetachAt(m: PasteMode, bytes: seq<Byte>, i: nat)
    requires i < |bytes|
  {
    bytes[i] == DETACH && Feed(m, bytes[..i]) == Idle
  }

  method ProcessPasteBytes(bytes: seq<Byte>, mode: PasteMode) returns (pasteMode: PasteMode, containsDetachKey: bool)
    ensures pasteMode == Feed(mode, bytes)
    ensures containsDetachKey <==> Detaches(mode, bytes)
    ensures mode == Idle ==> pasteMode == TextMode(bytes)
    ensures mode == Idle ==>
              (containsDetachKey
               <==> exists i :: 0 <= i < |bytes| && bytes[i] == 28 && Quiet(bytes[..i]))
  {
    pasteMode := mode;
    containsDetachKey := false;
    for i := 0 to |bytes|
      invariant pasteMode == Feed(mode, bytes[..i])
      invariant containsDetachKey <==> exists j :: 0 <= j < i && DetachAt(mode, bytes, j)
    {
      var byte := bytes[i];
      assert bytes[..i + 1][..i] == bytes[..i];
      assert DetachAt(mode, bytes, i) <==> byte == DETACH && pasteMode == Idle;
      match pasteMode
      case Idle =>
        if byte == ESC {
          pasteMode := StartEsc;
        } else if byte == DETACH {
          containsDetachKey := true;
        }
      case StartEsc =>
        if byte == '[' as int { pasteMode := StartBracket; } else { pasteMode := Idle; }
      case StartBracket =>
        if byte == '2' as int { pasteMode := Start2; } else { pasteMode := Idle; }
      case Start2 =>
        if byte == '0' as int { pasteMode := Start0; } else { pasteMode := Idle; }
      case Start0 =>
        if byte == '0' as int {
          pasteMode := InPaste;
        } else if byte == '1' as int {
          pasteMode := Idle;
        } else {
          pasteMode := Idle;
        }
      case InPaste =>
        if byte == ESC { pasteMode := EndEsc; }
      case EndEsc =>
        if byte == '[' as int { pasteMode := EndBracket; } else { pasteMode := InPaste; }
      case EndBracket =>
        if byte == '2' as int { pasteMode := End2; } else { pasteMode := InPaste; }
      case End2 =>
        if byte == '0' as int { pasteMode := End0; } else { pasteMode := InPaste; }
      case End0 =>
        if byte == '1' as int { pasteMode := End1; } else { pasteMode := InPaste; }
      case End1 =>
        if byte == '~' as int { pasteMode := Idle; } else { pasteMode := InPaste; }
    }
    assert bytes[..|bytes|] == bytes;
    if mode == Idle {
      FeedReadsText(bytes);
      DetachReadsText(bytes);
    }
  }

  // ----- read boundaries

  function Concat(calls: seq<seq<Byte>>): seq<Byte> {
    if calls == [] then [] else Concat(calls[..|calls| - 1]) + calls[|calls| - 1]
  }

  lemma {:induction false} FeedConcat(m: PasteMode, a: seq<Byte>, b: seq<Byte>)
    ensures Feed(m, a + b) == Feed(Feed(m, a), b)
  {
    if b == [] {
      assert a + b == a;
    } else {
      assert (a + b)[..|a + b| - 1] == a + b[..|b| - 1];
      FeedConcat(m, a, b[..|b| - 1]);
    }
  }

  /** The mode left by calling the function once per read, each call starting where the last ended. */
  function FeedReads(m: PasteMode, calls: seq<seq<Byte>>): PasteMode {
    if calls == [] then m else Feed(FeedReads(m, calls[..|calls| - 1]), calls[|calls| - 1])
  }

  /** Some call reports the detach key. */
  ghost predicate SomeReadDetaches(m: PasteMode, calls: seq<seq<Byte>>) {
    calls != [] && (SomeReadDetaches(m, calls[..|calls| - 1])
                    || Detaches(FeedReads(m, calls[..|calls| - 1]), calls[|calls| - 1]))
  }

  lemma DetachesConcat(m: PasteMode, a: seq<Byte>, b: seq<Byte>)
    ensures Detaches(m, a + b) <==> Detaches(m, a) || Detaches(Feed(m, a), b)
  {
    forall i | 0 <= i < |a|
      ensures DetachAt(m, a + b, i) <==> DetachAt(m, a, i)
    {
      assert (a + b)[..i] == a[..i];
    }
    forall i | 0 <= i < |b|
      ensures DetachAt(m, a + b, |a| + i) <==> DetachAt(Feed(m, a), b, i)
    {
      assert (a + b)[..|a| + i] == a + b[..i];
      FeedConcat(m, a, b[..i]);
    }
    if i :| 0 <= i < |a + b| && DetachAt(m, a + b, i) {
      if i >= |a| {
        assert DetachAt(Feed(m, a), b, i - |a|);
      }
    }
  }

  /** However the stream is cut into reads, the final mode and the detach report are those of the uncut stream. */
  lemma {:induction false} ReadBoundariesDoNotMatter(m: PasteMode, calls: seq<seq<Byte>>)
    ensures FeedReads(m, calls) == Feed(m, Concat(calls))
    ensures SomeReadDetaches(m, calls) <==> Detaches(m, Concat(calls))
  {
    if calls != [] {
      var init, last := calls[..|calls| - 1], calls[|calls| - 1];
      ReadBoundariesDoNotMatter(m, init);
      FeedConcat(m, Concat(init), last);
      DetachesConcat(m, Concat(init), last);
    }
  }

  // ----- leaving a paste

  /** How much of the end marker has just been read. */
  function MarkerProgress(m: PasteMode): nat {
    match m
    case EndEsc => 1
    case EndBracket => 2
    case End2 => 3
    case End0 => 4
    case End1 => 5
    case _ => 0
  }

  /** A step of progress reads the marker's next byte; any other step starts over. */
  lemma ProgressStep(m: PasteMode, b: Byte)
    ensures var k := MarkerProgress(Next(m, b));
            k > 0 ==> k < |END| && MarkerProgress(m) == k - 1 && b == END[k - 1]
  {
  }

  lemma SuffixExtends(init: seq<Byte>, b: Byte, suffix: seq<Byte>)
    requires EndsWith(init, suffix)
    ensures EndsWith(init + [b], suffix + [b])
  {
    assert (init + [b])[|init| - |suffix|..] == init[|init| - |suffix|..] + [b];
  }

  lemma {:induction false} ProgressIsSuffix(s: seq<Byte>)
    ensures EndsWith(s, END[..MarkerProgress(Feed(Idle, s))])
  {
    var k := MarkerProgress(Feed(Idle, s));
    if k > 0 {
      var init, b := s[..|s| - 1], s[|s| - 1];
      ProgressIsSuffix(init);
      ProgressStep(Feed(Idle, init), b);
      SuffixExtends(init, b, END[..k - 1]);
      assert s == init + [b] && END[..k] == END[..k - 1] + [END[k - 1]];
    } else {
      assert END[..0] == [];
    }
  }

  /** A paste is left only right after the literal end marker, and only for the idle mode. */
  lemma LeavesPasteOnlyAfterEndMarker(s: seq<Byte>, b: Byte)
    requires Inside(Feed(Idle, s)) && !Inside(Feed(Idle, s + [b]))
    ensures Feed(Idle, s + [b]) == Idle && EndsWith(s + [b], END)
  {
    assert (s + [b])[..|s|] == s;
    ProgressIsSuffix(s);
    assert Feed(Idle, s) == End1;
    assert (s + [b])[|s| - 5..] == s[|s| - 5..] + [b];
    assert END == END[..5] + [b];
  }

  /** The end-marker scan as a reading of the payload text, with no automaton: at each ESC the longest match
      with the marker is consumed together with the byte that broke it. */
  datatype Scan = Open | Partial(matched: nat) | Closed(rest: seq<Byte>)

  function ScanPayload(p: seq<Byte>): (r: Scan)
    ensures r.Closed? ==> |r.rest| < |p|
    decreases |p|
  {
    if p == [] then Open
    else if p[0] != ESC then ScanPayload(p[1..])
    else
      var n := CommonPrefix(p, END);
      if n == |END| then Closed(p[n..])
      else if n == |p| then Partial(n)
      else ScanPayload(p[n + 1..])
  }

  function AfterMarker(n: nat): PasteMode {
    match n
    case 0 => InPaste
    case 1 => EndEsc
    case 2 => EndBracket
    case 3 => End2
    case 4 => End0
    case 5 => End1
    case _ => Idle
  }

  lemma {:induction false} FeedMarkerPrefix(n: nat)
    requires n <= |END|
    ensures Feed(InPaste, END[..n]) == AfterMarker(n)
  {
    if n > 0 {
      assert END[..n][..n - 1] == END[..n - 1];
      FeedMarkerPrefix(n - 1);
    }
  }

  function ModeAfter(scan: Scan): PasteMode {
    match scan
    case Open => InPaste
    case Partial(n) => AfterMarker(n)
    case Closed(rest) => Feed(Idle, rest)
  }

  lemma FeedFirst(m: PasteMode, p: seq<Byte>)
    requires p != []
    ensures Feed(m, p) == Feed(Next(m, p[0]), p[1..])
  {
    var first: seq<Byte> := [p[0]];
    assert p == first + p[1..];
    FeedConcat(m, first, p[1..]);
    assert first[..0] == [];
  }

  /** Reading the matched part of the marker, then the byte that breaks it. */
  lemma FeedBroken(p: seq<Byte>, n: nat)
    requires n == CommonPrefix(p, END) && 0 < n < |END| && n < |p|
    ensures Feed(InPaste, p) == Feed(InPaste, p[n + 1..])
  {
    FeedInThree(p, n);
    FeedMarkerPrefix(n);
    BrokenMarkerResumesPaste(n, p[n]);
  }

  lemma FeedInThree(p: seq<Byte>, n: nat)
    requires n < |p|
    ensures Feed(InPaste, p) == Feed(Next(Feed(InPaste, p[..n]), p[n]), p[n + 1..])
  {
    assert p == p[..n] + p[n..];
    FeedConcat(InPaste, p[..n], p[n..]);
    FeedFirst(Feed(InPaste, p[..n]), p[n..]);
    assert p[n..][1..] == p[n + 1..];
  }

  lemma BrokenMarkerResumesPaste(n: nat, b: Byte)
    requires 0 < n < |END| && b != END[n]
    ensures Next(AfterMarker(n), b) == InPaste
  {
  }

  lemma {:induction false} ScanAgreesWithFeed(p: seq<Byte>)
    ensures Feed(InPaste, p) == ModeAfter(ScanPayload(p))
    ensures ScanPayload(p).Partial? ==> 0 < ScanPayload(p).matched < |END|
    decreases |p|
  {
    if p != [] {
      var n := CommonPrefix(p, END);
      if p[0] != ESC {
        FeedFirst(InPaste, p);
        ScanAgreesWithFeed(p[1..]);
      } else if n < |END| && n < |p| {
        FeedBroken(p, n);
        ScanAgreesWithFeed(p[n + 1..]);
      } else {
        FeedMarker(p, n);
      }
    }
  }

  // ----- the whole stream read as text

  /** The bytes of the two markers, and the detach key. */
  lemma MarkerBytes()
    ensures OPENING == [27, 91, 50, 48, 48] && END == [27, 91, 50, 48, 49, 126] && ESC == 27 && DETACH == 28
  {
  }

  /** ESC [ 2 0 0: what opens a paste. */
  const OPENING: seq<Byte> := [27, 91, 50, 48, 48]

  /** The text outside a paste: it opens none, stops part-way into an opening, or opens one. */
  datatype Outside = Plain | Opening(matched: nat) | Opens(rest: seq<Byte>)

  /** At each ESC the longest match with the opening is read, and a match that breaks off is skipped together with the
      byte that breaks it. */
  function ScanOutside(p: seq<Byte>): (r: Outside)
    ensures r.Opens? ==> |r.rest| < |p|
    decreases |p|
  {
    if p == [] then Plain
    else if p[0] != 27 then ScanOutside(p[1..])
    else
      var n := CommonPrefix(p, OPENING);
      if n == 5 then Opens(p[5..])
      else if n == |p| then Opening(n)
      else ScanOutside(p[n + 1..])
  }

  function AfterOpening(n: nat): PasteMode {
    match n
    case 0 => Idle
    case 1 => StartEsc
    case 2 => StartBracket
    case 3 => Start2
    case 4 => Start0
    case _ => InPaste
  }

  /** The mode after a stream that begins idle: outside text and payloads in turn. */
  function TextMode(p: seq<Byte>): PasteMode
    decreases |p|
  {
    match ScanOutside(p)
    case Plain => Idle
    case Opening(n) => AfterOpening(n)
    case Opens(payload) =>
      match ScanPayload(payload)
      case Open => InPaste
      case Partial(n) => AfterMarker(n)
      case Closed(rest) => TextMode(rest)
  }

  /** Neither a paste nor a possible opening is open. */
  predicate Quiet(p: seq<Byte>) {
    TextMode(p) == Idle
  }

  lemma {:induction false} FeedOpeningPrefix(n: nat)
    requires n <= 5
    ensures Feed(Idle, OPENING[..n]) == AfterOpening(n)
  {
    if n > 0 {
      assert OPENING[..n][..n - 1] == OPENING[..n - 1];
      FeedOpeningPrefix(n - 1);
    }
  }

  lemma FeedsThrough(m: PasteMode, p: seq<Byte>, n: nat)
    requires n <= |p|
    ensures Feed(m, p) == Feed(Feed(m, p[..n]), p[n..])
  {
    assert p == p[..n] + p[n..];
    FeedConcat(m, p[..n], p[n..]);
  }

  lemma BrokenOpeningIsSkipped(p: seq<Byte>, n: nat)
    requires n == CommonPrefix(p, OPENING) && 0 < n < 5 && n < |p|
    ensures Feed(Idle, p) == Feed(Idle, p[n + 1..])
  {
    FeedsThrough(Idle, p, n);
    assert p[..n] == OPENING[..n];
    FeedOpeningPrefix(n);
    FeedFirst(AfterOpening(n), p[n..]);
    assert p[n..][1..] == p[n + 1..];
  }

  lemma {:induction false} OutsideAgreesWithFeed(p: seq<Byte>)
    ensures Feed(Idle, p) == match ScanOutside(p)
                             case Plain => Idle
                             case Opening(n) => AfterOpening(n)
                             case Opens(payload) => Feed(InPaste, payload)
    decreases |p|
  {
    if p != [] {
      var n := CommonPrefix(p, OPENING);
      if p[0] != 27 {
        FeedFirst(Idle, p);
        OutsideAgreesWithFeed(p[1..]);
      } else if n < 5 && n < |p| {
        BrokenOpeningIsSkipped(p, n);
        OutsideAgreesWithFeed(p[n + 1..]);
      } else {
        FeedsThrough(Idle, p, n);
        assert p[..n] == OPENING[..n];
        FeedOpeningPrefix(n);
        assert n == |p| ==> p[n..] == [];
      }
    }
  }

  /** From the idle mode the automaton's mode is that of the text read so far. */
  lemma {:induction false} FeedReadsText(p: seq<Byte>)
    ensures Feed(Idle, p) == TextMode(p)
    decreases |p|
  {
    OutsideAgreesWithFeed(p);
    match ScanOutside(p)
    case Opens(payload) =>
      ScanAgreesWithFeed(payload);
      match ScanPayload(payload) {
        case Closed(rest) => FeedReadsText(rest);
        case _ =>
      }
    case _ =>
  }

  /** So the detach key is reported exactly when one stands where neither a paste nor a possible opening is open. */
  lemma DetachReadsText(p: seq<Byte>)
    ensures Detaches(Idle, p) <==> exists i :: 0 <= i < |p| && p[i] == 28 && Quiet(p[..i])
  {
    forall i | 0 <= i < |p|
      ensures DetachAt(Idle, p, i) <==> p[i] == 28 && Quiet(p[..i])
    {
      FeedReadsText(p[..i]);
    }
  }

  lemma FeedMarker(p: seq<Byte>, n: nat)
    requires n == CommonPrefix(p, END) && (n == |END| || n == |p|)
    ensures Feed(InPaste, p) == Feed(AfterMarker(n), p[n..])
    ensures n == |p| ==> Feed(InPaste, p) == AfterMarker(n)
  {
    assert p == END[..n] + p[n..];
    FeedConcat(InPaste, END[..n], p[n..]);
    FeedMarkerPrefix(n);
    assert n == |p| ==> p[n..] == [];
  }

  /** A payload that does not itself close the paste is closed by the end marker exactly when it does not stop
      part-way through a marker. */
  lemma EndMarkerClosesIffOpen(p: seq<Byte>)
    requires !ScanPayload(p).Closed?
    ensures Feed(InPaste, p + END) == (if ScanPayload(p).Open? then Idle else InPaste)
  {
    ScanAgreesWithFeed(p);
    FeedConcat(InPaste, p, END);
    if ScanPayload(p).Open? {
      FeedMarkerPrefix(|END|);
      assert END[..|END|] == END;
    } else {
      var m := AfterMarker(ScanPayload(p).matched);
      assert END == [ESC] + END[1..];
      FeedConcat(m, [ESC], END[1..]);
      assert Feed(m, [ESC]) == Next(Feed(m, []), ESC) == InPaste;
      EscFreeStaysInPaste(END[1..]);
    }
  }

  /** The failing case in its smallest form: one stray ESC before the marker keeps the paste open. */
  lemma StrayEscapeKeepsPasteOpen()
    ensures Feed(InPaste, [ESC] + END) == InPaste
  {
    assert CommonPrefix([ESC], END) == 1 by {
      assert END[0] == ESC;
      assert CommonPrefix([ESC][1..], END[1..]) == 0;
    }
    EndMarkerClosesIffOpen([ESC]);
  }

  lemma {:induction false} EscFreeStaysInPaste(p: seq<Byte>)
    requires ESC !in p
    ensures Feed(InPaste, p) == InPaste
  {
    if p != [] {
      EscFreeStaysInPaste(p[..|p| - 1]);
    }
  }

  lemma {:induction false} EscFreeScansOpen(p: seq<Byte>)
    requires ESC !in p
    ensures ScanPayload(p) == Open
  {
    if p != [] {
      EscFreeScansOpen(p[1..]);
    }
  }

  lemma FeedStart()
    ensures forall i | 0 <= i <= 6 ::
              Feed(Idle, START[..i]) == [Idle, StartEsc, StartBracket, Start2, Start0, InPaste, InPaste][i]
  {
    assert START[..1][..0] == START[..0];
    assert START[..2][..1] == START[..1];
    assert START[..3][..2] == START[..2];
    assert START[..4][..3] == START[..3];
    assert START[..5][..4] == START[..4];
    assert START[..6][..5] == START[..5];
  }

  /** A properly bracketed payload without ESC bytes never reports the detach key and leaves no paste open. */
  lemma BracketedPasteIsInert(payload: seq<Byte>)
    requires ESC !in payload
    ensures Feed(Idle, START + payload + END) == Idle
    ensures !Detaches(Idle, START + payload + END)
  {
    var body := payload + END;
    var text := START + body;
    assert START + payload + END == text;
    FeedStart();
    assert START[..6] == START;
    FeedConcat(Idle, START, body);
    EscFreeScansOpen(payload);
    EndMarkerClosesIffOpen(payload);
    forall i | 0 <= i < |text|
      ensures !DetachAt(Idle, text, i)
    {
      if i < |START| {
        assert text[i] == START[i];
      } else if i < |START| + |payload| {
        var k := i - |START|;
        assert text[..i] == START + payload[..k];
        FeedConcat(Idle, START, payload[..k]);
        EscFreeStaysInPaste(payload[..k]);
      } else {
        assert text[i] == END[i - |START| - |payload|];
      }
    }
  }
}
