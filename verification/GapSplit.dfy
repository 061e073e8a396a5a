/** Splitting a session's timestamps at long gaps: the loop of `split_null_pid_orphan_into_chunks` in
    crates/tttt-log/src/sqlite.rs. */
module GapSplit {
  import opened Naturals

  /** One hour. */
  const GAP_THRESHOLD_MS: nat := 60 * 60 * 1000

  predicate Gap(before: nat, after: nat) {
    SaturatingSub(after, before) > GAP_THRESHOLD_MS
  }

  predicate Sorted(ts: seq<nat>) {
    forall i, j | 0 <= i < j < |ts| :: ts[i] <= ts[j]
  }

  function Last(s: seq<nat>): nat
    requires s != []
  {
    s[|s| - 1]
  }

  predicate NonEmpty(blocks: seq<seq<nat>>) {
    forall i | 0 <= i < |blocks| :: blocks[i] != []
  }

  /** The timestamps grouped as the loop groups them. */
  function Blocks(ts: seq<nat>): (bs: seq<seq<nat>>)
    ensures NonEmpty(bs) && (bs == [] <==> ts == [])
  {
    if ts == [] then []
    else
      var t := Last(ts);
      var bs := Blocks(ts[..|ts| - 1]);
      if bs == [] || Gap(Last(bs[|bs| - 1]), t) then bs + [[t]]
      else bs[..|bs| - 1] + [bs[|bs| - 1] + [t]]
  }

  /** The closed time ranges of the blocks. */
  function Ranges(bs: seq<seq<nat>>): (r: seq<(nat, nat)>)
    requires NonEmpty(bs)
    ensures |r| == |bs|
  {
    seq(|bs|, i requires 0 <= i < |bs| => (bs[i][0], Last(bs[i])))
  }

  method SplitAtGaps(timestamps: seq<nat>) returns (chunks: seq<(nat, nat)>)
    ensures chunks == Ranges(Blocks(timestamps))
  {
    if timestamps == [] {
      return [];
    }
    chunks := [];
    var chunkStart, chunkEnd := timestamps[0], timestamps[0];
    assert timestamps[..1][..0] == [];
    for i := 1 to |timestamps|
      invariant chunks + [(chunkStart, chunkEnd)] == Ranges(Blocks(timestamps[..i]))
    {
      var ts := timestamps[i];
      assert timestamps[..i + 1] == timestamps[..i] + [ts];
      RangesNext(timestamps[..i], ts, chunks, chunkStart, chunkEnd);
      if SaturatingSub(ts, chunkEnd) > GAP_THRESHOLD_MS {
        chunks := chunks + [(chunkStart, chunkEnd)];
        chunkStart := ts;
      }
      chunkEnd := ts;
    }
    assert timestamps[..|timestamps|] == timestamps;
    chunks := chunks + [(chunkStart, chunkEnd)];
  }

  lemma BlocksNext(init: seq<nat>, t: nat)
    ensures var bs := Blocks(init);
            Blocks(init + [t]) == if bs == [] || Gap(Last(bs[|bs| - 1]), t) then bs + [[t]]
                                  else bs[..|bs| - 1] + [bs[|bs| - 1] + [t]]
  {
    assert (init + [t])[..|init|] == init;
  }

  lemma RangesSnoc(bs: seq<seq<nat>>, b: seq<nat>)
    requires NonEmpty(bs) && b != []
    ensures NonEmpty(bs + [b]) && Ranges(bs + [b]) == Ranges(bs) + [(b[0], Last(b))]
  {
  }

  lemma RangesNext(init: seq<nat>, t: nat, chunks: seq<(nat, nat)>, start: nat, end: nat)
    requires chunks + [(start, end)] == Ranges(Blocks(init))
    ensures Ranges(Blocks(init + [t]))
            == if Gap(end, t) then chunks + [(start, end)] + [(t, t)] else chunks + [(start, t)]
  {
    var bs := Blocks(init);
    var n := |bs| - 1;
    var last := bs[n];
    assert bs == bs[..n] + [last];
    RangesSnoc(bs[..n], last);
    SnocInjective(chunks, (start, end), Ranges(bs[..n]), (last[0], Last(last)));
    BlocksNext(init, t);
    if Gap(end, t) {
      RangesSnoc(bs, [t]);
    } else {
      RangesSnoc(bs[..n], last + [t]);
    }
  }

  lemma SnocInjective(a: seq<(nat, nat)>, x: (nat, nat), b: seq<(nat, nat)>, y: (nat, nat))
    requires a + [x] == b + [y]
    ensures a == b && x == y
  {
    assert |a + [x]| == |b + [y]|;
    assert a == (a + [x])[..|a|] && b == (b + [y])[..|b|];
    assert x == (a + [x])[|a|] && y == (b + [y])[|b|];
  }

  // ----- what the split is

  function Joined(bs: seq<seq<nat>>): seq<nat> {
    if bs == [] then [] else Joined(bs[..|bs| - 1]) + bs[|bs| - 1]
  }

  predicate GapFree(b: seq<nat>) {
    forall i | 0 < i < |b| :: !Gap(b[i - 1], b[i])
  }

  /** A partition of `ts` into consecutive gap-free blocks with a gap between any two neighbours. */
  predicate IsGapSplit(ts: seq<nat>, bs: seq<seq<nat>>) {
    && Joined(bs) == ts
    && NonEmpty(bs)
    && (forall i | 0 <= i < |bs| :: GapFree(bs[i]))
    && (forall i | 0 < i < |bs| :: Gap(Last(bs[i - 1]), bs[i][0]))
  }

  lemma NewBlockSplits(ts: seq<nat>, bs: seq<seq<nat>>, t: nat)
    requires IsGapSplit(ts, bs) && (bs != [] ==> Gap(Last(bs[|bs| - 1]), t))
    ensures IsGapSplit(ts + [t], bs + [[t]])
  {
    var bs' := bs + [[t]];
    assert bs'[..|bs|] == bs;
  }

  lemma JoinedLonger(before: seq<seq<nat>>, b: seq<nat>, t: nat)
    ensures Joined(before + [b + [t]]) == Joined(before + [b]) + [t]
  {
    assert (before + [b])[..|before|] == before && (before + [b + [t]])[..|before|] == before;
    assert Joined(before) + (b + [t]) == Joined(before) + b + [t];
  }

  lemma LongerBlockSplits(ts: seq<nat>, bs: seq<seq<nat>>, t: nat)
    requires bs != [] && IsGapSplit(ts, bs) && !Gap(Last(bs[|bs| - 1]), t)
    ensures IsGapSplit(ts + [t], bs[..|bs| - 1] + [bs[|bs| - 1] + [t]])
  {
    var n := |bs| - 1;
    var longer := bs[n] + [t];
    var bs' := bs[..n] + [longer];
    assert bs == bs[..n] + [bs[n]];
    JoinedLonger(bs[..n], bs[n], t);
    assert GapFree(longer) by {
      assert GapFree(bs[n]);
    }
    assert longer[0] == bs[n][0];
    forall i | 0 < i < |bs'|
      ensures Gap(Last(bs'[i - 1]), bs'[i][0])
    {
      assert Gap(Last(bs[i - 1]), bs[i][0]);
    }
  }

  lemma {:induction false} BlocksSplit(ts: seq<nat>)
    ensures IsGapSplit(ts, Blocks(ts))
  {
    if ts != [] {
      var init, t := ts[..|ts| - 1], Last(ts);
      BlocksSplit(init);
      NextSplits(init, t);
      assert ts == init + [t];
    }
  }

  lemma NextSplits(init: seq<nat>, t: nat)
    requires IsGapSplit(init, Blocks(init))
    ensures IsGapSplit(init + [t], Blocks(init + [t]))
  {
    var bs := Blocks(init);
    BlocksNext(init, t);
    if bs == [] || Gap(Last(bs[|bs| - 1]), t) {
      NewBlockSplits(init, bs, t);
    } else {
      LongerBlockSplits(init, bs, t);
    }
  }

  /** The blocks without their last timestamp. */
  function Shortened(bs: seq<seq<nat>>): seq<seq<nat>>
    requires bs != [] && NonEmpty(bs)
  {
    var n := |bs| - 1;
    if |bs[n]| == 1 then bs[..n] else bs[..n] + [bs[n][..|bs[n]| - 1]]
  }

  lemma ShortenedSplits(ts: seq<nat>, bs: seq<seq<nat>>)
    requires bs != [] && IsGapSplit(ts, bs)
    ensures ts != [] && Last(ts) == Last(bs[|bs| - 1])
    ensures IsGapSplit(ts[..|ts| - 1], Shortened(bs))
  {
    var n := |bs| - 1;
    var b := bs[n];
    assert ts == Joined(bs[..n]) + b;
    var short := Shortened(bs);
    if |b| == 1 {
      assert ts[..|ts| - 1] == Joined(bs[..n]);
    } else {
      assert short[..n] == bs[..n];
      assert ts[..|ts| - 1] == Joined(bs[..n]) + b[..|b| - 1];
    }
  }

  lemma {:induction false} JoinedIsEmpty(bs: seq<seq<nat>>)
    requires NonEmpty(bs) && Joined(bs) == []
    ensures bs == []
  {
  }

  /** Putting a timestamp back where the loop puts it: a block of its own after a gap, else at the end of the last. */
  lemma BlockRestored(init: seq<nat>, before: seq<seq<nat>>, t: nat)
    requires before == Blocks(init) && (before != [] ==> Gap(Last(before[|before| - 1]), t))
    ensures Blocks(init + [t]) == before + [[t]]
  {
    BlocksNext(init, t);
  }

  lemma BlockLengthened(init: seq<nat>, before: seq<seq<nat>>, cut: seq<nat>, t: nat)
    requires cut != [] && before + [cut] == Blocks(init) && !Gap(Last(cut), t)
    ensures Blocks(init + [t]) == before + [cut + [t]]
  {
    BlocksNext(init, t);
    assert (before + [cut])[..|before|] == before;
  }

  /** What a split says about its last timestamp. */
  lemma LastStep(ts: seq<nat>, bs: seq<seq<nat>>)
    requires bs != [] && IsGapSplit(ts, bs)
    ensures var b := bs[|bs| - 1];
            if |b| == 1 then |bs| > 1 ==> Gap(Last(bs[|bs| - 2]), b[0])
            else !Gap(Last(b[..|b| - 1]), Last(b))
  {
    var n := |bs| - 1;
    var b := bs[n];
    if |b| == 1 {
      if n > 0 {
        assert Gap(Last(bs[n - 1]), bs[n][0]);
      }
    } else {
      assert GapFree(b);
      assert !Gap(b[|b| - 1 - 1], b[|b| - 1]);
    }
  }

  lemma Relengthened(init: seq<nat>, bs: seq<seq<nat>>, t: nat)
    requires bs != [] && NonEmpty(bs) && Last(bs[|bs| - 1]) == t && Shortened(bs) == Blocks(init)
    requires var b := bs[|bs| - 1];
             if |b| == 1 then |bs| > 1 ==> Gap(Last(bs[|bs| - 2]), b[0])
             else !Gap(Last(b[..|b| - 1]), Last(b))
    ensures bs == Blocks(init + [t])
  {
    var n := |bs| - 1;
    var b := bs[n];
    assert bs == bs[..n] + [b];
    if |b| == 1 {
      assert b == [t];
      BlockRestored(init, bs[..n], t);
    } else {
      assert b == b[..|b| - 1] + [t];
      BlockLengthened(init, bs[..n], b[..|b| - 1], t);
    }
  }

  /** There is only one such partition, so the chunks are determined by the property alone. */
  lemma {:induction false} GapSplitIsUnique(ts: seq<nat>, bs: seq<seq<nat>>)
    requires IsGapSplit(ts, bs)
    ensures bs == Blocks(ts)
  {
    if ts == [] {
      JoinedIsEmpty(bs);
    } else {
      ShortenedSplits(ts, bs);
      GapSplitIsUnique(ts[..|ts| - 1], Shortened(bs));
      LastStep(ts, bs);
      Relengthened(ts[..|ts| - 1], bs, Last(ts));
      InitLast(ts);
    }
  }

  lemma InitLast(ts: seq<nat>)
    requires ts != []
    ensures ts == ts[..|ts| - 1] + [Last(ts)]
  {
  }

  lemma {:induction false} JoinedAt(bs: seq<seq<nat>>, i: nat, k: nat) returns (p: nat)
    requires i < |bs| && k < |bs[i]|
    ensures p < |Joined(bs)| && Joined(bs)[p] == bs[i][k]
    ensures |Joined(bs[..i])| + k == p
  {
    if i == |bs| - 1 {
      p := |Joined(bs[..i])| + k;
    } else {
      assert bs[..|bs| - 1][..i] == bs[..i];
      p := JoinedAt(bs[..|bs| - 1], i, k);
    }
  }

  lemma {:induction false} JoinedMonotone(bs: seq<seq<nat>>, i: nat, j: nat)
    requires i <= j <= |bs|
    ensures |Joined(bs[..i])| <= |Joined(bs[..j])|
    decreases j - i
  {
    if i < j {
      assert bs[..j][..j - 1] == bs[..j - 1];
      JoinedMonotone(bs, i, j - 1);
    }
  }

  /** In milliseconds: within a chunk no two neighbours are more than an hour apart, and two chunks always are. */
  lemma ChunksAreAnHourApart(ts: seq<nat>, i: nat, k: nat)
    requires i < |Blocks(ts)|
    ensures var b := Blocks(ts)[i];
            && (0 < k < |b| ==> b[k] <= b[k - 1] + 3_600_000)
            && (i > 0 ==> Blocks(ts)[i - 1] != [] && b != [] && b[0] > Last(Blocks(ts)[i - 1]) + 3_600_000)
  {
    BlocksSplit(ts);
    var b := Blocks(ts)[i];
    if 0 < k < |b| {
      assert !Gap(b[k - 1], b[k]);
    }
    if i > 0 {
      assert Gap(Last(Blocks(ts)[i - 1]), b[0]);
    }
  }

  /** On sorted timestamps the chunks are in order and more than the threshold apart. */
  lemma RangesAreSeparated(ts: seq<nat>, i: nat, j: nat)
    requires Sorted(ts) && i < j < |Blocks(ts)|
    ensures var r := Ranges(Blocks(ts)); r[i].0 <= r[i].1 && r[i].1 + GAP_THRESHOLD_MS < r[j].0 <= r[j].1
  {
    var bs := Blocks(ts);
    BlockStartsGrow(ts, i + 1, j);
    assert Last(bs[i]) + GAP_THRESHOLD_MS < bs[i + 1][0] by {
      BlocksSplit(ts);
      assert Gap(Last(bs[i + 1 - 1]), bs[i + 1][0]);
    }
    BlockIsSorted(ts, i, 0, |bs[i]| - 1);
    BlockIsSorted(ts, j, 0, |bs[j]| - 1);
  }

  lemma BlockStartsGrow(ts: seq<nat>, i: nat, j: nat)
    requires Sorted(ts) && i <= j < |Blocks(ts)|
    ensures Blocks(ts)[i][0] <= Blocks(ts)[j][0]
  {
    var bs := Blocks(ts);
    var p := JoinedAt(bs, i, 0);
    var q := JoinedAt(bs, j, 0);
    JoinedMonotone(bs, i, j);
    assert Joined(bs) == ts by { BlocksSplit(ts); }
  }

  lemma BlockIsSorted(ts: seq<nat>, i: nat, k: nat, l: nat)
    requires Sorted(ts) && i < |Blocks(ts)| && k <= l < |Blocks(ts)[i]|
    ensures Blocks(ts)[i][k] <= Blocks(ts)[i][l]
  {
    BlocksSplit(ts);
    var p := JoinedAt(Blocks(ts), i, k);
    var q := JoinedAt(Blocks(ts), i, l);
  }

  lemma {:induction false} BlockOf(bs: seq<seq<nat>>, t: nat) returns (i: nat)
    requires t in Joined(bs)
    ensures i < |bs| && t in bs[i]
  {
    if t in bs[|bs| - 1] {
      i := |bs| - 1;
    } else {
      i := BlockOf(bs[..|bs| - 1], t);
    }
  }

  predicate InRange(r: (nat, nat), t: nat) {
    r.0 <= t <= r.1
  }

  /** Every timestamp lies in the closed range of exactly one chunk. */
  lemma ExactlyOneRange(ts: seq<nat>, t: nat) returns (i: nat)
    requires Sorted(ts) && t in ts
    ensures i < |Ranges(Blocks(ts))|
    ensures forall j | 0 <= j < |Ranges(Blocks(ts))| :: InRange(Ranges(Blocks(ts))[j], t) <==> j == i
  {
    var bs, r := Blocks(ts), Ranges(Blocks(ts));
    BlocksSplit(ts);
    i := BlockOf(bs, t);
    var k :| 0 <= k < |bs[i]| && bs[i][k] == t;
    BlockIsSorted(ts, i, 0, k);
    BlockIsSorted(ts, i, k, |bs[i]| - 1);
    forall j | 0 <= j < |r|
      ensures InRange(r[j], t) <==> j == i
    {
      if j < i {
        RangesAreSeparated(ts, j, i);
      } else if i < j {
        RangesAreSeparated(ts, i, j);
      }
    }
  }
}
