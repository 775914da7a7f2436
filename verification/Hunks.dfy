/** Hunks of a line diff: which lines of a script they show, and what it means to apply
    them as a patch. */
module Hunks {
  import opened EditScript
  import opened Options

  /** `oldStart` and `newStart` are 1-based. */
  datatype Hunk = Hunk(oldStart: nat, newStart: nat, lines: seq<DiffLine>)

  /** The script lines `lo <= k < hi` shown by one hunk. */
  datatype Range = Range(lo: nat, hi: nat)

  // --- Which lines are shown -------------------------------------------------------

  ghost predicate ChangeAt(script: seq<DiffLine>, c: int) {
    0 <= c < |script| && script[c].kind != Context
  }

  /** Some change lies within `context` lines of `k`. */
  ghost predicate Near(script: seq<DiffLine>, k: int, context: nat) {
    exists c :: ChangeAt(script, c) && k - context <= c <= k + context
  }

  ghost predicate Shown(ranges: seq<Range>, k: int) {
    exists r :: 0 <= r < |ranges| && ranges[r].lo <= k < ranges[r].hi
  }

  /** Non-empty, in order, and with at least one hidden line between any two. */
  ghost predicate Separated(ranges: seq<Range>, n: nat) {
    && (forall r :: 0 <= r < |ranges| ==> ranges[r].lo < ranges[r].hi <= n)
    && (forall r, s :: 0 <= r < s < |ranges| ==> ranges[r].hi < ranges[s].lo)
  }

  /** The hunk that shows `range`: its starts count the lines consumed before it. */
  function HunkAt(script: seq<DiffLine>, range: Range): (hunk: Hunk)
    requires range.lo <= range.hi <= |script|
  {
    var before := script[..range.lo];
    Hunk(1 + |OldSide(before)|, 1 + |NewSide(before)|, script[range.lo..range.hi])
  }

  ghost predicate HunksAt(script: seq<DiffLine>, hunks: seq<Hunk>, ranges: seq<Range>)
    requires Separated(ranges, |script|)
  {
    |hunks| == |ranges| && forall r :: 0 <= r < |ranges| ==> hunks[r] == HunkAt(script, ranges[r])
  }

  /** `hunks` shows exactly the script lines within `context` of a change, each once. */
  ghost predicate Grouping(script: seq<DiffLine>, context: nat, hunks: seq<Hunk>, ranges: seq<Range>) {
    && Separated(ranges, |script|)
    && HunksAt(script, hunks, ranges)
    && forall k :: 0 <= k < |script| ==> (Shown(ranges, k) <==> Near(script, k, context))
  }

  /** A script and a context width leave no choice in how to group. */
  lemma GroupingUnique(script: seq<DiffLine>, context: nat,
                       hunks: seq<Hunk>, ranges: seq<Range>, hunks': seq<Hunk>, ranges': seq<Range>)
    requires Grouping(script, context, hunks, ranges)
    requires Grouping(script, context, hunks', ranges')
    ensures hunks == hunks' && ranges == ranges'
  {
    SameRanges(script, context, hunks, ranges, hunks', ranges', |ranges|);
    SameRanges(script, context, hunks', ranges', hunks, ranges, |ranges'|);
  }

  lemma {:induction false} SameRanges(script: seq<DiffLine>, context: nat,
                                      hunks: seq<Hunk>, ranges: seq<Range>, hunks': seq<Hunk>, ranges': seq<Range>, n: nat)
    requires Grouping(script, context, hunks, ranges)
    requires Grouping(script, context, hunks', ranges')
    requires n <= |ranges|
    ensures n <= |ranges'| && ranges[..n] == ranges'[..n]
  {
    hide HunksAt, Near;
    if n > 0 {
      var i := n - 1;
      SameRanges(script, context, hunks, ranges, hunks', ranges', i);
      assert forall r :: 0 <= r < i ==> ranges[r] == ranges[..i][r] == ranges'[..i][r] == ranges'[r];
      ShownFrom(script, context, hunks, ranges, hunks', ranges', i);
      ShownFrom(script, context, hunks', ranges', hunks, ranges, i);
      if ranges[i].hi < ranges'[i].hi {
        NotShownAfter(ranges, |script|, i);
      }
      if ranges'[i].hi < ranges[i].hi {
        NotShownAfter(ranges', |script|, i);
      }
      assert ranges[..n] == ranges[..i] + [ranges[i]] && ranges'[..n] == ranges'[..i] + [ranges'[i]];
    }
  }

  lemma NotShownAfter(ranges: seq<Range>, n: nat, i: nat)
    requires Separated(ranges, n) && i < |ranges|
    ensures !Shown(ranges, ranges[i].hi)
  {
    forall r | 0 <= r < |ranges|
      ensures !(ranges[r].lo <= ranges[i].hi < ranges[r].hi)
    {
      if r < i {
        assert ranges[r].hi < ranges[i].lo;
      } else if i < r {
        assert ranges[i].hi < ranges[r].lo;
      }
    }
  }

  /** If range `i` exists on one side, the other side has one that starts no later. */
  lemma ShownFrom(script: seq<DiffLine>, context: nat,
                  hunks: seq<Hunk>, ranges: seq<Range>, hunks': seq<Hunk>, ranges': seq<Range>, i: nat)
    requires Grouping(script, context, hunks, ranges)
    requires Grouping(script, context, hunks', ranges')
    requires i <= |ranges'|
    requires i <= |ranges| && forall r :: 0 <= r < i ==> ranges[r] == ranges'[r]
    ensures i < |ranges| ==> i < |ranges'| && ranges'[i].lo <= ranges[i].lo
  {
    if i < |ranges| {
      var k := ranges[i].lo;
      assert Shown(ranges, k);
      assert Near(script, k, context);
      var j :| 0 <= j < |ranges'| && ranges'[j].lo <= k < ranges'[j].hi;
      if i < j {
        assert ranges'[i].hi < ranges'[j].lo;
      }
    }
  }

  // --- Patching --------------------------------------------------------------------

  /** Applies hunks to `rest`, the lines after the first `at` of the text. Fails unless every
      context and removed line is found exactly where the hunk says. */
  function PatchFrom(rest: seq<Line>, at: nat, hunks: seq<Hunk>): (patched: Option<seq<Line>>)
    decreases |hunks|
  {
    if hunks == [] then Some(rest)
    else
      var gone := OldSide(hunks[0].lines);
      var p := hunks[0].oldStart - 1 - at;
      var q := p + |gone|;
      if p < 0 || q > |rest| || rest[p..q] != gone then None
      else
        match PatchFrom(rest[q..], at + q, hunks[1..])
        case None => None
        case Some(tail) => Some(rest[..p] + (NewSide(hunks[0].lines) + tail))
  }

  function Patch(lines: seq<Line>, hunks: seq<Hunk>): (patched: Option<seq<Line>>) {
    PatchFrom(lines, 0, hunks)
  }

  lemma {:induction false} ContextOnly(s: seq<DiffLine>)
    requires forall k :: 0 <= k < |s| ==> s[k].kind == Context
    ensures OldSide(s) == NewSide(s)
  {
    if s != [] {
      ContextOnly(s[1..]);
    }
  }

  /** Lines between two hunks, before the first, or after the last, are unchanged. */
  lemma HiddenUnchanged(script: seq<DiffLine>, context: nat, hunks: seq<Hunk>, ranges: seq<Range>, from: nat, to: nat)
    requires Grouping(script, context, hunks, ranges)
    requires from <= to <= |script|
    requires forall k :: from <= k < to ==> !Shown(ranges, k)
    ensures OldSide(script[from..to]) == NewSide(script[from..to])
  {
    forall k | from <= k < to
      ensures script[k].kind == Context
    {
      assert !Near(script, k, context);
      assert !ChangeAt(script, k);
    }
    ContextOnly(script[from..to]);
  }

  function EndBefore(ranges: seq<Range>, r: nat): nat
    requires r <= |ranges|
  {
    if r == 0 then 0 else ranges[r - 1].hi
  }

  lemma GapHidden(ranges: seq<Range>, n: nat, r: nat, k: nat)
    requires Separated(ranges, n) && r <= |ranges|
    requires EndBefore(ranges, r) <= k && (r < |ranges| ==> k < ranges[r].lo)
    ensures !Shown(ranges, k)
  {
    forall s | 0 <= s < |ranges|
      ensures !(ranges[s].lo <= k < ranges[s].hi)
    {
      if s < r - 1 {
        assert ranges[s].hi < ranges[r - 1].lo;
      } else if s > r {
        assert ranges[r].hi < ranges[s].lo;
      }
    }
  }

  lemma SplitAt(script: seq<DiffLine>, i: nat)
    requires i <= |script|
    ensures OldSide(script) == OldSide(script[..i]) + OldSide(script[i..])
    ensures NewSide(script) == NewSide(script[..i]) + NewSide(script[i..])
  {
    assert script == script[..i] + script[i..];
    SidesAppend(script[..i], script[i..]);
  }

  lemma SplitTail(script: seq<DiffLine>, i: nat, j: nat)
    requires i <= j <= |script|
    ensures OldSide(script[i..]) == OldSide(script[i..j]) + OldSide(script[j..])
    ensures NewSide(script[i..]) == NewSide(script[i..j]) + NewSide(script[j..])
  {
    SplitAt(script[i..], j - i);
    assert script[i..][..j - i] == script[i..j] && script[i..][j - i..] == script[j..];
  }

  lemma SplitHead(script: seq<DiffLine>, i: nat, j: nat)
    requires i <= j <= |script|
    ensures OldSide(script[..j]) == OldSide(script[..i]) + OldSide(script[i..j])
    ensures NewSide(script[..j]) == NewSide(script[..i]) + NewSide(script[i..j])
  {
    SplitAt(script[..j], i);
    assert script[..j][..i] == script[..i] && script[..j][i..] == script[i..j];
  }

  /** With the script consumed up to `e`, `hunks` patch the rest. */
  ghost predicate PatchedFrom(script: seq<DiffLine>, hunks: seq<Hunk>, e: nat)
    requires e <= |script|
  {
    PatchFrom(OldSide(script[e..]), |OldSide(script[..e])|, hunks) == Some(NewSide(script[e..]))
  }

  /** From the end of the range before `r` to the next range, or to the end, nothing changes. */
  lemma GapUnchanged(script: seq<DiffLine>, context: nat, hunks: seq<Hunk>, ranges: seq<Range>, r: nat)
    requires Grouping(script, context, hunks, ranges) && r <= |ranges|
    ensures var e, to := EndBefore(ranges, r), if r == |ranges| then |script| else ranges[r].lo;
            e <= to <= |script| && OldSide(script[e..to]) == NewSide(script[e..to])
  {
    var e := EndBefore(ranges, r);
    var to := if r == |ranges| then |script| else ranges[r].lo;
    forall k | e <= k < to
      ensures !Shown(ranges, k)
    {
      GapHidden(ranges, |script|, r, k);
    }
    HiddenUnchanged(script, context, hunks, ranges, e, to);
  }

  lemma PatchedEnd(script: seq<DiffLine>, e: nat)
    requires e <= |script| && OldSide(script[e..|script|]) == NewSide(script[e..|script|])
    ensures PatchedFrom(script, [], e)
  {
    assert script[e..|script|] == script[e..];
  }

  lemma HunksFrom(script: seq<DiffLine>, context: nat, hunks: seq<Hunk>, ranges: seq<Range>, r: nat)
    requires Grouping(script, context, hunks, ranges) && r < |ranges|
    ensures |hunks| == |ranges| && ranges[r].lo <= ranges[r].hi <= |script|
    ensures hunks[r..] == [HunkAt(script, ranges[r])] + hunks[r + 1..]
  {
    hide HunkAt;
    assert hunks[r..] == [hunks[r]] + hunks[r + 1..];
  }

  lemma PatchNext(script: seq<DiffLine>, context: nat, hunks: seq<Hunk>, ranges: seq<Range>, r: nat)
    requires Grouping(script, context, hunks, ranges) && r < |ranges| == |hunks|
    requires ranges[r].hi <= |script| && PatchedFrom(script, hunks[r + 1..], ranges[r].hi)
    ensures EndBefore(ranges, r) <= |script| && PatchedFrom(script, hunks[r..], EndBefore(ranges, r))
  {
    hide PatchedFrom, OldSide, NewSide, HunkAt, Shown, Grouping;
    GapUnchanged(script, context, hunks, ranges, r);
    HunksFrom(script, context, hunks, ranges, r);
    PatchOne(script, EndBefore(ranges, r), ranges[r], hunks[r + 1..]);
  }

  lemma PatchLast(script: seq<DiffLine>, context: nat, hunks: seq<Hunk>, ranges: seq<Range>)
    requires Grouping(script, context, hunks, ranges)
    ensures |hunks| == |ranges| && EndBefore(ranges, |ranges|) <= |script|
    ensures PatchedFrom(script, hunks[|ranges|..], EndBefore(ranges, |ranges|))
  {
    GapUnchanged(script, context, hunks, ranges, |ranges|);
    hide PatchedFrom, OldSide, NewSide, HunkAt, Shown;
    PatchedEnd(script, EndBefore(ranges, |ranges|));
    assert hunks[|ranges|..] == [];
  }

  lemma {:induction false} PatchRest(script: seq<DiffLine>, context: nat, hunks: seq<Hunk>, ranges: seq<Range>, r: nat)
    requires Grouping(script, context, hunks, ranges)
    requires r <= |ranges|
    ensures |hunks| == |ranges| && EndBefore(ranges, r) <= |script|
    ensures PatchedFrom(script, hunks[r..], EndBefore(ranges, r))
    decreases |ranges| - r
  {
    hide PatchedFrom, Grouping;
    if r == |ranges| {
      PatchLast(script, context, hunks, ranges);
    } else {
      PatchRest(script, context, hunks, ranges, r + 1);
      assert EndBefore(ranges, r + 1) == ranges[r].hi;
      PatchNext(script, context, hunks, ranges, r);
    }
  }

  lemma PatchOne(script: seq<DiffLine>, e: nat, range: Range, rest: seq<Hunk>)
    requires e <= range.lo <= range.hi <= |script|
    requires OldSide(script[e..range.lo]) == NewSide(script[e..range.lo])
    requires PatchedFrom(script, rest, range.hi)
    ensures PatchedFrom(script, [HunkAt(script, range)] + rest, e)
  {
    var Range(lo, hi) := range;
    var hunk := HunkAt(script, range);
    SplitTail(script, e, lo);
    SplitTail(script, lo, hi);
    assert |OldSide(script[..lo])| == |OldSide(script[..e])| + |OldSide(script[e..lo])| by {
      SplitHead(script, e, lo);
    }
    assert |OldSide(script[..hi])| == |OldSide(script[..lo])| + |OldSide(hunk.lines)| by {
      SplitHead(script, lo, hi);
    }
    PatchStep(OldSide(script[e..lo]), hunk, OldSide(script[hi..]), |OldSide(script[..e])|, rest, NewSide(script[hi..]));
  }

  lemma PatchStep(gap: seq<Line>, hunk: Hunk, after: seq<Line>, at: nat, rest: seq<Hunk>, tail: seq<Line>)
    requires hunk.oldStart == 1 + at + |gap|
    requires PatchFrom(after, at + |gap| + |OldSide(hunk.lines)|, rest) == Some(tail)
    ensures PatchFrom(gap + (OldSide(hunk.lines) + after), at, [hunk] + rest) == Some(gap + (NewSide(hunk.lines) + tail))
  {
    var gone := OldSide(hunk.lines);
    var all := gap + (gone + after);
    ThreeSlices(gap, gone, after);
    assert ([hunk] + rest)[1..] == rest;
    hide OldSide, NewSide;
  }

  lemma ThreeSlices(x: seq<Line>, y: seq<Line>, z: seq<Line>)
    ensures var all := x + (y + z);
            all[..|x|] == x && all[|x|..|x| + |y|] == y && all[|x| + |y|..] == z
  {
  }

  /** Applied to the old lines, the hunks give exactly the new lines. */
  lemma PatchForward(script: seq<DiffLine>, context: nat, hunks: seq<Hunk>, ranges: seq<Range>)
    requires Grouping(script, context, hunks, ranges)
    ensures Patch(OldSide(script), hunks) == Some(NewSide(script))
  {
    PatchRest(script, context, hunks, ranges, 0);
    assert script[..0] == [] && script[0..] == script && hunks[0..] == hunks;
  }

  // --- Reversing -------------------------------------------------------------------

  function Flip(line: DiffLine): DiffLine {
    match line.kind
    case Context => line
    case Add => line.(kind := Remove)
    case Remove => line.(kind := Add)
  }

  function FlipScript(script: seq<DiffLine>): (flipped: seq<DiffLine>)
    ensures |flipped| == |script|
    ensures forall k :: 0 <= k < |script| ==> flipped[k] == Flip(script[k])
  {
    seq(|script|, k requires 0 <= k < |script| => Flip(script[k]))
  }

  /** The same hunks read from the new text to the old one. */
  function Reverse(hunks: seq<Hunk>): (reversed: seq<Hunk>)
    ensures |reversed| == |hunks|
    ensures forall r :: 0 <= r < |hunks| ==>
                          reversed[r] == Hunk(hunks[r].newStart, hunks[r].oldStart, FlipScript(hunks[r].lines))
  {
    seq(|hunks|, r requires 0 <= r < |hunks| =>
      Hunk(hunks[r].newStart, hunks[r].oldStart, FlipScript(hunks[r].lines)))
  }

  lemma {:induction false} FlipSides(script: seq<DiffLine>)
    ensures OldSide(FlipScript(script)) == NewSide(script)
    ensures NewSide(FlipScript(script)) == OldSide(script)
  {
    if script != [] {
      assert FlipScript(script)[1..] == FlipScript(script[1..]);
      FlipSides(script[1..]);
    }
  }

  lemma FlipGrouping(script: seq<DiffLine>, context: nat, hunks: seq<Hunk>, ranges: seq<Range>)
    requires Grouping(script, context, hunks, ranges)
    ensures Grouping(FlipScript(script), context, Reverse(hunks), ranges)
  {
    var flipped := FlipScript(script);
    forall r | 0 <= r < |ranges|
      ensures Reverse(hunks)[r] == HunkAt(flipped, ranges[r])
    {
      var Range(lo, hi) := ranges[r];
      assert hunks[r] == HunkAt(script, ranges[r]);
      assert flipped[..lo] == FlipScript(script[..lo]);
      FlipSides(script[..lo]);
      assert flipped[lo..hi] == FlipScript(script[lo..hi]);
    }
    forall k | 0 <= k < |script|
      ensures Shown(ranges, k) <==> Near(flipped, k, context)
    {
      assert forall c :: ChangeAt(flipped, c) <==> ChangeAt(script, c);
      assert Near(flipped, k, context) <==> Near(script, k, context);
    }
  }

  /** Applied in reverse to the new lines, the hunks give exactly the old lines. */
  lemma PatchBackward(script: seq<DiffLine>, context: nat, hunks: seq<Hunk>, ranges: seq<Range>)
    requires Grouping(script, context, hunks, ranges)
    ensures Patch(NewSide(script), Reverse(hunks)) == Some(OldSide(script))
  {
    FlipGrouping(script, context, hunks, ranges);
    PatchForward(FlipScript(script), context, Reverse(hunks), ranges);
    FlipSides(script);
  }
}
