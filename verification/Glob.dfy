/** Wildcard matching of session names: `glob_match` in src/ctl.rs. */
module Glob {
  import opened Collections

  // ----- the language

  /** The pattern with its successive stars replaced by `fills`. */
  function Filled(pattern: string, fills: seq<string>): string
    requires |fills| == Stars(pattern)
  {
    if pattern == "" then ""
    else if pattern[0] == '*' then fills[0] + Filled(pattern[1..], fills[1..])
    else [pattern[0]] + Filled(pattern[1..], fills)
  }

  function Stars(pattern: string): nat {
    if pattern == "" then 0 else (if pattern[0] == '*' then 1 else 0) + Stars(pattern[1..])
  }

  /** `name` is `pattern` with some string put in place of each star. */
  ghost predicate Denotes(pattern: string, name: string) {
    exists fills: seq<string> :: |fills| == Stars(pattern) && Filled(pattern, fills) == name
  }

  // ----- library string operations

  predicate StartsWith(s: string, p: string) {
    p <= s
  }

  predicate OccursAt(s: string, p: string, i: nat) {
    i + |p| <= |s| && s[i..i + |p|] == p
  }

  datatype Position = NotFound | At(i: nat)

  /** `str::find`: the leftmost occurrence. */
  function Find(s: string, p: string): (r: Position)
    ensures r.At? ==> OccursAt(s, p, r.i) && forall j | 0 <= j < r.i :: !OccursAt(s, p, j)
    ensures r.NotFound? ==> forall j: nat :: !OccursAt(s, p, j)
  {
    FindFrom(s, p, 0)
  }

  function FindFrom(s: string, p: string, from: nat): (r: Position)
    requires forall j | 0 <= j < from :: !OccursAt(s, p, j)
    ensures r.At? ==> OccursAt(s, p, r.i) && forall j | 0 <= j < r.i :: !OccursAt(s, p, j)
    ensures r.NotFound? ==> forall j: nat :: !OccursAt(s, p, j)
    decreases |s| - from
  {
    if OccursAt(s, p, from) then At(from)
    else if from >= |s| then NotFound
    else FindFrom(s, p, from + 1)
  }

  /** `pattern.split('*')`. */
  function Split(pattern: string): (parts: seq<string>)
    ensures |parts| == Stars(pattern) + 1
  {
    if pattern == "" then [""]
    else
      var rest := Split(pattern[1..]);
      if pattern[0] == '*' then [""] + rest
      else [[pattern[0]] + rest[0]] + rest[1..]
  }

  // ----- the parts of a split pattern laid end to end with gaps

  /** `parts[0] + fills[0] + parts[1] + ... + parts[last]`. */
  function Interleaved(parts: seq<string>, fills: seq<string>): string
    requires |parts| == |fills| + 1
  {
    if fills == [] then parts[0]
    else parts[0] + fills[0] + Interleaved(parts[1..], fills[1..])
  }

  ghost predicate Fits(parts: seq<string>, name: string)
    requires parts != []
  {
    exists fills: seq<string> :: |fills| + 1 == |parts| && Interleaved(parts, fills) == name
  }

  lemma InterleavedCons(parts: seq<string>, fills: seq<string>)
    requires |parts| == |fills| + 1 && fills != []
    ensures Interleaved(parts, fills) == parts[0] + (fills[0] + Interleaved(parts[1..], fills[1..]))
  {
    Assoc(parts[0], fills[0], Interleaved(parts[1..], fills[1..]));
  }

  lemma InterleavedPrefixed(parts: seq<string>, fills: seq<string>, c: char)
    requires |parts| == |fills| + 1
    ensures Interleaved([[c] + parts[0]] + parts[1..], fills) == [c] + Interleaved(parts, fills)
  {
    var parts' := [[c] + parts[0]] + parts[1..];
    assert parts'[1..] == parts[1..];
    if fills != [] {
      InterleavedCons(parts, fills);
      InterleavedCons(parts', fills);
      Assoc([c], parts[0], fills[0] + Interleaved(parts[1..], fills[1..]));
    }
  }

  lemma FilledStar(rest: seq<string>, fills: seq<string>)
    requires |rest| == |fills| > 0
    ensures Interleaved([""] + rest, fills) == fills[0] + Interleaved(rest, fills[1..])
  {
    InterleavedCons([""] + rest, fills);
    assert ([""] + rest)[1..] == rest;
    assert "" + (fills[0] + Interleaved(rest, fills[1..])) == fills[0] + Interleaved(rest, fills[1..]);
  }

  lemma {:induction false} FilledIsInterleaved(pattern: string, fills: seq<string>)
    requires |fills| == Stars(pattern)
    ensures Filled(pattern, fills) == Interleaved(Split(pattern), fills)
  {
    if pattern != "" {
      if pattern[0] == '*' {
        FilledIsInterleaved(pattern[1..], fills[1..]);
        FilledStar(Split(pattern[1..]), fills);
      } else {
        FilledIsInterleaved(pattern[1..], fills);
        InterleavedPrefixed(Split(pattern[1..]), fills, pattern[0]);
      }
    }
  }

  lemma DenotesIffFits(pattern: string, name: string)
    ensures Denotes(pattern, name) <==> Fits(Split(pattern), name)
  {
    forall fills: seq<string> | |fills| == Stars(pattern)
      ensures Filled(pattern, fills) == Interleaved(Split(pattern), fills)
    {
      FilledIsInterleaved(pattern, fills);
    }
  }

  /** What the loop decides once the first part is off: gaps come before every remaining part. */
  predicate GreedyTail(parts: seq<string>, remaining: string)
    requires parts != []
  {
    if |parts| == 1 then EndsWith(remaining, parts[0])
    else
      match Find(remaining, parts[0])
      case NotFound => false
      case At(pos) => GreedyTail(parts[1..], remaining[pos + |parts[0]|..])
  }

  /** Parts that fit in a suffix also fit when more text stands before them. */
  lemma {:induction false} GreedyTailIsMonotone(parts: seq<string>, pre: string, remaining: string)
    requires parts != [] && GreedyTail(parts, remaining)
    ensures GreedyTail(parts, pre + remaining)
  {
    var all := pre + remaining;
    if |parts| == 1 {
      assert all[|all| - |parts[0]|..] == remaining[|remaining| - |parts[0]|..];
    } else {
      var pos := Find(remaining, parts[0]).i;
      assert all[|pre| + pos..|pre| + pos + |parts[0]|] == remaining[pos..pos + |parts[0]|];
      assert OccursAt(all, parts[0], |pre| + pos);
      var pos' := Find(all, parts[0]).i;
      var cut, cut' := |pre| + pos + |parts[0]|, pos' + |parts[0]|;
      assert all[cut'..] == all[cut'..cut] + remaining[pos + |parts[0]|..];
      GreedyTailIsMonotone(parts[1..], all[cut'..cut], remaining[pos + |parts[0]|..]);
    }
  }

  /** The leftmost occurrence is no later than any other, so it leaves at least as much text. */
  lemma LeftmostLeavesMore(text: string, p: string, i: nat, rest: string) returns (pos: nat, skipped: string)
    requires OccursAt(text, p, i) && text[i + |p|..] == rest
    ensures Find(text, p) == At(pos) && pos + |p| <= |text|
    ensures text[pos + |p|..] == skipped + rest
  {
    pos := Find(text, p).i;
    skipped := text[pos + |p|..i + |p|];
  }

  lemma OccursAfterGap(gap: string, p: string, rest: string)
    ensures OccursAt(gap + (p + rest), p, |gap|)
    ensures (gap + (p + rest))[|gap| + |p|..] == rest
  {
  }

  lemma GreedyTailStep(parts: seq<string>, text: string, pos: nat)
    requires |parts| > 1 && Find(text, parts[0]) == At(pos)
    requires GreedyTail(parts[1..], text[pos + |parts[0]|..])
    ensures GreedyTail(parts, text)
  {
  }

  lemma GreedySkipsTo(parts: seq<string>, text: string, i: nat, rest: string)
    requires |parts| > 1 && GreedyTail(parts[1..], rest)
    requires OccursAt(text, parts[0], i) && text[i + |parts[0]|..] == rest
    ensures GreedyTail(parts, text)
  {
    var pos, skipped := LeftmostLeavesMore(text, parts[0], i, rest);
    GreedyTailIsMonotone(parts[1..], skipped, rest);
    GreedyTailStep(parts, text, pos);
  }

  lemma GreedySkipsGap(parts: seq<string>, gap: string, rest: string)
    requires |parts| > 1 && GreedyTail(parts[1..], rest)
    ensures GreedyTail(parts, gap + (parts[0] + rest))
  {
    OccursAfterGap(gap, parts[0], rest);
    GreedySkipsTo(parts, gap + (parts[0] + rest), |gap|, rest);
  }

  /** Greedy leftmost matching never loses a match. */
  lemma {:induction false} GreedyTailComplete(parts: seq<string>, gap: string, fills: seq<string>)
    requires |parts| == |fills| + 1
    ensures GreedyTail(parts, gap + Interleaved(parts, fills))
  {
    if fills == [] {
      DropPrefix(gap, parts[0]);
    } else {
      InterleavedCons(parts, fills);
      GreedyTailComplete(parts[1..], fills[0], fills[1..]);
      GreedySkipsGap(parts, gap, fills[0] + Interleaved(parts[1..], fills[1..]));
    }
  }

  lemma SplitAtOccurrence(s: string, p: string, i: nat)
    requires OccursAt(s, p, i)
    ensures s == s[..i] + (p + s[i + |p|..])
  {
  }

  /** What greedy matching accepts is an instance of the parts, with the gaps it skipped as fills. */
  lemma {:induction false} GreedyTailSound(parts: seq<string>, remaining: string)
    returns (gap: string, fills: seq<string>)
    requires parts != [] && GreedyTail(parts, remaining)
    ensures |parts| == |fills| + 1 && gap + Interleaved(parts, fills) == remaining
  {
    if |parts| == 1 {
      gap, fills := remaining[..|remaining| - |parts[0]|], [];
    } else {
      var pos := Find(remaining, parts[0]).i;
      var cut := pos + |parts[0]|;
      var gap', fills' := GreedyTailSound(parts[1..], remaining[cut..]);
      gap, fills := remaining[..pos], [gap'] + fills';
      assert fills[0] == gap' && fills[1..] == fills';
      InterleavedCons(parts, fills);
      SplitAtOccurrence(remaining, parts[0], pos);
    }
  }

  lemma FittingStartsGreedy(parts: seq<string>, name: string)
    requires |parts| >= 2 && Fits(parts, name)
    ensures StartsWith(name, parts[0]) && GreedyTail(parts[1..], name[|parts[0]|..])
  {
    var fills: seq<string> :| |fills| + 1 == |parts| && Interleaved(parts, fills) == name;
    var rest := fills[0] + Interleaved(parts[1..], fills[1..]);
    InterleavedCons(parts, fills);
    GreedyTailComplete(parts[1..], fills[0], fills[1..]);
    DropPrefix(parts[0], rest);
  }

  lemma DropPrefix(a: string, b: string)
    ensures a <= a + b && (a + b)[|a|..] == b
  {
  }

  lemma GreedyStartFits(parts: seq<string>, name: string)
    requires |parts| >= 2 && StartsWith(name, parts[0]) && GreedyTail(parts[1..], name[|parts[0]|..])
    ensures Fits(parts, name)
  {
    var gap, tail := GreedyTailSound(parts[1..], name[|parts[0]|..]);
    var fills := [gap] + tail;
    assert fills[0] == gap && fills[1..] == tail;
    InterleavedCons(parts, fills);
    assert Interleaved(parts, fills) == parts[0] + name[|parts[0]|..] == name;
  }

  /** Membership in the language is the anchored first part followed by greedy matching of the rest. */
  lemma DenotesIffGreedy(pattern: string, name: string)
    requires '*' in pattern
    ensures |Split(pattern)| >= 2
    ensures var parts := Split(pattern);
            Denotes(pattern, name)
            <==> StartsWith(name, parts[0]) && GreedyTail(parts[1..], name[|parts[0]|..])
  {
    StarsCountsOccurrences(pattern);
    DenotesIffFits(pattern, name);
    var parts := Split(pattern);
    if Fits(parts, name) {
      FittingStartsGreedy(parts, name);
    }
    if StartsWith(name, parts[0]) && GreedyTail(parts[1..], name[|parts[0]|..]) {
      GreedyStartFits(parts, name);
    }
  }

  lemma DenotesWithoutStars(pattern: string, name: string)
    requires '*' !in pattern
    ensures Denotes(pattern, name) <==> pattern == name
  {
    StarsCountsOccurrences(pattern);
    FilledWithoutStars(pattern);
  }

  lemma {:induction false} FilledWithoutStars(pattern: string)
    requires Stars(pattern) == 0
    ensures Filled(pattern, []) == pattern
  {
    if pattern != "" {
      FilledWithoutStars(pattern[1..]);
      assert pattern == [pattern[0]] + pattern[1..];
    }
  }

  lemma {:induction false} StarsCountsOccurrences(pattern: string)
    ensures Stars(pattern) == 0 <==> '*' !in pattern
  {
    if pattern != "" {
      StarsCountsOccurrences(pattern[1..]);
      assert pattern == [pattern[0]] + pattern[1..];
    }
  }

  /** The final suffix may not overlap the text the prefix has consumed. */
  lemma SuffixAfterPrefix(name: string, prefix: string, suffix: string)
    requires StartsWith(name, prefix)
    ensures EndsWith(name[|prefix|..], suffix)
            <==> EndsWith(name, suffix) && |name| >= |prefix| + |suffix|
  {
    if |name| >= |prefix| + |suffix| {
      assert name[|prefix|..][|name| - |prefix| - |suffix|..] == name[|name| - |suffix|..];
    }
  }

  /** `glob_match`: true exactly when the name is the pattern with some string in place of each star. */
  method GlobMatch(pattern: string, name: string) returns (matches: bool)
    ensures matches <==> Denotes(pattern, name)
  {
    if '*' !in pattern {
      DenotesWithoutStars(pattern, name);
      return pattern == name;
    }
    DenotesIffGreedy(pattern, name);
    var parts := Split(pattern);
    if |parts| == 2 {
      var prefix, suffix := parts[0], parts[1];
      if StartsWith(name, prefix) {
        SuffixAfterPrefix(name, prefix, suffix);
      }
      return StartsWith(name, prefix) && EndsWith(name, suffix) && |name| >= |prefix| + |suffix|;
    }
    matches := MatchParts(parts, name);
  }

  /** The loop over the parts of a pattern with several stars. */
  method MatchParts(parts: seq<string>, name: string) returns (matches: bool)
    requires |parts| >= 2
    ensures matches <==> StartsWith(name, parts[0]) && GreedyTail(parts[1..], name[|parts[0]|..])
  {
    ghost var answer := StartsWith(name, parts[0]) && GreedyTail(parts[1..], name[|parts[0]|..]);
    var remaining := name;
    for i := 0 to |parts|
      invariant i == 0 ==> remaining == name
      invariant 0 < i < |parts| ==> (answer <==> GreedyTail(parts[i..], remaining))
      invariant i == |parts| ==> answer
    {
      var part := parts[i];
      if part == "" {
        EmptyPartIsSkipped(parts, i, name, remaining);
        continue;
      }
      assert 0 < i ==> parts[i..][0] == part && parts[i..][1..] == parts[i + 1..];
      if i == 0 {
        if !StartsWith(remaining, part) {
          return false;
        }
        remaining := remaining[|part|..];
      } else if i == |parts| - 1 {
        if !EndsWith(remaining, part) {
          return false;
        }
      } else {
        var pos := Find(remaining, part);
        if pos.NotFound? {
          return false;
        }
        remaining := remaining[pos.i + |part|..];
      }
    }
    return true;
  }

  /** Skipping an empty part, as the loop does, is what matching it would have done. */
  lemma EmptyPartIsSkipped(parts: seq<string>, i: nat, name: string, remaining: string)
    requires |parts| >= 2 && i < |parts| && parts[i] == ""
    ensures i == 0 ==> StartsWith(name, parts[0]) && name[|parts[0]|..] == name
    ensures 0 < i < |parts| - 1 ==> (GreedyTail(parts[i..], remaining) <==> GreedyTail(parts[i + 1..], remaining))
    ensures i == |parts| - 1 ==> GreedyTail(parts[i..], remaining)
  {
    assert OccursAt(remaining, "", 0);
    if 0 < i < |parts| - 1 {
      assert parts[i..][0] == "" && parts[i..][1..] == parts[i + 1..];
      assert remaining[0 + |""|..] == remaining;
    }
  }
}
