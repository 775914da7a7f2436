/** The edit script behind the line diff of src/shared/textDiff.ts, as mathematics: what a
    script is, which one the LCS walk produces, and why no script is shorter. */
module EditScript {

  type Line = string

  datatype Kind = Context | Add | Remove

  datatype DiffLine = DiffLine(kind: Kind, text: Line)

  // --- Scripts ---------------------------------------------------------------------

  function OldText(line: DiffLine): seq<Line> {
    if line.kind == Add then [] else [line.text]
  }

  function NewText(line: DiffLine): seq<Line> {
    if line.kind == Remove then [] else [line.text]
  }

  /** The lines of the old text a script consumes. */
  function OldSide(script: seq<DiffLine>): (lines: seq<Line>) {
    if script == [] then [] else OldText(script[0]) + OldSide(script[1..])
  }

  /** The lines of the new text a script produces. */
  function NewSide(script: seq<DiffLine>): (lines: seq<Line>) {
    if script == [] then [] else NewText(script[0]) + NewSide(script[1..])
  }

  function Changes(script: seq<DiffLine>): (n: nat) {
    if script == [] then 0
    else (if script[0].kind == Context then 0 else 1) + Changes(script[1..])
  }

  function Kept(script: seq<DiffLine>): (n: nat) {
    if script == [] then 0
    else (if script[0].kind == Context then 1 else 0) + Kept(script[1..])
  }

  /** `script` turns `a` into `b`. */
  ghost predicate Transforms(script: seq<DiffLine>, a: seq<Line>, b: seq<Line>) {
    OldSide(script) == a && NewSide(script) == b
  }

  function Keep(lines: seq<Line>): (script: seq<DiffLine>) {
    seq(|lines|, i requires 0 <= i < |lines| => DiffLine(Context, lines[i]))
  }

  lemma {:induction false} OldSideAppend(s: seq<DiffLine>, t: seq<DiffLine>)
    ensures OldSide(s + t) == OldSide(s) + OldSide(t)
  {
    if s == [] {
      assert s + t == t;
    } else {
      assert (s + t)[1..] == s[1..] + t;
      OldSideAppend(s[1..], t);
    }
  }

  lemma {:induction false} NewSideAppend(s: seq<DiffLine>, t: seq<DiffLine>)
    ensures NewSide(s + t) == NewSide(s) + NewSide(t)
  {
    if s == [] {
      assert s + t == t;
    } else {
      assert (s + t)[1..] == s[1..] + t;
      NewSideAppend(s[1..], t);
    }
  }

  lemma SidesAppend(s: seq<DiffLine>, t: seq<DiffLine>)
    ensures OldSide(s + t) == OldSide(s) + OldSide(t)
    ensures NewSide(s + t) == NewSide(s) + NewSide(t)
  {
    OldSideAppend(s, t);
    NewSideAppend(s, t);
  }

  lemma {:induction false} KeptAppend(s: seq<DiffLine>, t: seq<DiffLine>)
    ensures Kept(s + t) == Kept(s) + Kept(t)
  {
    if s == [] {
      assert s + t == t;
    } else {
      assert (s + t)[1..] == s[1..] + t;
      KeptAppend(s[1..], t);
    }
  }

  lemma {:induction false} KeepSides(lines: seq<Line>)
    ensures OldSide(Keep(lines)) == lines && NewSide(Keep(lines)) == lines
    ensures Kept(Keep(lines)) == |lines| && Changes(Keep(lines)) == 0
  {
    if lines != [] {
      assert Keep(lines)[1..] == Keep(lines[1..]);
      KeepSides(lines[1..]);
    }
  }

  /** Old and new lines together are two per kept line and one per change. */
  lemma {:induction false} ScriptSize(s: seq<DiffLine>)
    ensures |OldSide(s)| + |NewSide(s)| == 2 * Kept(s) + Changes(s)
  {
    if s != [] {
      ScriptSize(s[1..]);
    }
  }

  // --- Longest common subsequence --------------------------------------------------

  function Max(x: int, y: int): int {
    if x >= y then x else y
  }

  /** The value the table holds for two suffixes. */
  function Lcs(a: seq<Line>, b: seq<Line>): (n: nat)
    decreases |a| + |b|
  {
    if a == [] || b == [] then 0
    else if a[0] == b[0] then 1 + Lcs(a[1..], b[1..])
    else Max(Lcs(a[1..], b), Lcs(a, b[1..]))
  }

  /** Dropping a leading line costs at most one common line and never gains one. */
  lemma {:induction false} LcsMonotone(a: seq<Line>, b: seq<Line>)
    ensures a != [] ==> Lcs(a[1..], b) <= Lcs(a, b) <= 1 + Lcs(a[1..], b)
    ensures b != [] ==> Lcs(a, b[1..]) <= Lcs(a, b) <= 1 + Lcs(a, b[1..])
    decreases |a| + |b|
  {
    if a != [] && b != [] {
      LcsMonotone(a[1..], b);
      LcsMonotone(a, b[1..]);
      LcsMonotone(a[1..], b[1..]);
    }
  }

  lemma {:induction false} LcsBounded(a: seq<Line>, b: seq<Line>)
    ensures Lcs(a, b) <= |a| && Lcs(a, b) <= |b|
    decreases |a| + |b|
  {
    if a != [] && b != [] {
      LcsBounded(a[1..], b);
      LcsBounded(a, b[1..]);
      LcsBounded(a[1..], b[1..]);
    }
  }

  /** No script keeps more lines than the LCS. */
  lemma {:induction false} KeptAtMostLcs(s: seq<DiffLine>)
    ensures Kept(s) <= Lcs(OldSide(s), NewSide(s))
  {
    if s != [] {
      KeptAtMostLcs(s[1..]);
      var a, b := OldSide(s), NewSide(s);
      LcsMonotone(a, b);
      assert a == OldText(s[0]) + OldSide(s[1..]) && b == NewText(s[0]) + NewSide(s[1..]);
      match s[0].kind
      case Context => assert a[1..] == OldSide(s[1..]) && b[1..] == NewSide(s[1..]);
      case Remove => assert a[1..] == OldSide(s[1..]) && b == NewSide(s[1..]);
      case Add => assert a == OldSide(s[1..]) && b[1..] == NewSide(s[1..]);
    }
  }

  // --- The script of the walk ------------------------------------------------------

  /** The walk over the table of `x` and `y`: keep equal lines, otherwise remove first on
      a tie. */
  function Walk(x: seq<Line>, y: seq<Line>): (script: seq<DiffLine>)
    decreases |x| + |y|
  {
    if x == [] && y == [] then []
    else if x != [] && y != [] && x[0] == y[0] then
      [DiffLine(Context, x[0])] + Walk(x[1..], y[1..])
    else if x != [] && (y == [] || Lcs(x[1..], y) >= Lcs(x, y[1..])) then
      [DiffLine(Remove, x[0])] + Walk(x[1..], y)
    else
      [DiffLine(Add, y[0])] + Walk(x, y[1..])
  }

  lemma {:induction false} WalkCorrect(x: seq<Line>, y: seq<Line>)
    ensures Transforms(Walk(x, y), x, y)
    ensures Kept(Walk(x, y)) == Lcs(x, y)
    decreases |x| + |y|
  {
    if x == [] && y == [] {
    } else if x != [] && y != [] && x[0] == y[0] {
      WalkCorrect(x[1..], y[1..]);
    } else if x != [] && (y == [] || Lcs(x[1..], y) >= Lcs(x, y[1..])) {
      WalkCorrect(x[1..], y);
    } else {
      WalkCorrect(x, y[1..]);
    }
  }

  ghost predicate Canonical(script: seq<DiffLine>) {
    forall k :: 0 <= k < |script| - 1 ==> !(script[k].kind == Add && script[k + 1].kind == Remove)
  }

  /** After an addition was preferred, the table leaves no removal that could follow it. */
  lemma {:induction false} WalkCanonical(x: seq<Line>, y: seq<Line>)
    ensures Canonical(Walk(x, y))
    decreases |x| + |y|
  {
    if x == [] && y == [] {
    } else if x != [] && y != [] && x[0] == y[0] {
      WalkCanonical(x[1..], y[1..]);
    } else if x != [] && (y == [] || Lcs(x[1..], y) >= Lcs(x, y[1..])) {
      WalkCanonical(x[1..], y);
    } else {
      WalkCanonical(x, y[1..]);
      if x != [] {
        LcsMonotone(x[1..], y);
      }
    }
  }

  // --- Trimming --------------------------------------------------------------------

  function CommonPrefix(a: seq<Line>, b: seq<Line>): (n: nat)
    ensures n <= |a| && n <= |b|
  {
    if a != [] && b != [] && a[0] == b[0] then 1 + CommonPrefix(a[1..], b[1..]) else 0
  }

  function CommonSuffix(a: seq<Line>, b: seq<Line>): (n: nat)
    ensures n <= |a| && n <= |b|
  {
    if a != [] && b != [] && a[|a| - 1] == b[|b| - 1] then
      1 + CommonSuffix(a[..|a| - 1], b[..|b| - 1])
    else 0
  }

  /** The common start is shared, and the first lines after it differ. */
  lemma {:induction false} CommonPrefixMaximal(a: seq<Line>, b: seq<Line>)
    ensures var n := CommonPrefix(a, b);
            a[..n] == b[..n] && (n < |a| && n < |b| ==> a[n] != b[n])
  {
    if a != [] && b != [] && a[0] == b[0] {
      CommonPrefixMaximal(a[1..], b[1..]);
      var n := CommonPrefix(a[1..], b[1..]);
      assert a[..n + 1] == [a[0]] + a[1..][..n] && b[..n + 1] == [b[0]] + b[1..][..n];
    }
  }

  ghost predicate LongestEnd(a: seq<Line>, b: seq<Line>, n: nat) {
    && n <= |a| && n <= |b| && a[|a| - n..] == b[|b| - n..]
    && (n < |a| && n < |b| ==> a[|a| - n - 1] != b[|b| - n - 1])
  }

  lemma NoSharedEnd(a: seq<Line>, b: seq<Line>)
    requires a == [] || b == [] || a[|a| - 1] != b[|b| - 1]
    ensures LongestEnd(a, b, 0)
  {
  }

  lemma {:induction false} CommonSuffixMaximal(a: seq<Line>, b: seq<Line>)
    ensures LongestEnd(a, b, CommonSuffix(a, b))
  {
    hide LongestEnd;
    if a != [] && b != [] && a[|a| - 1] == b[|b| - 1] {
      var x, y, last := a[..|a| - 1], b[..|b| - 1], a[|a| - 1];
      var n := CommonSuffix(x, y);
      assert CommonSuffix(a, b) == n + 1;
      CommonSuffixMaximal(x, y);
      hide CommonSuffix;
      assert a == x + [last] && b == y + [last];
      EndGrows(x, y, last, n);
    } else {
      NoSharedEnd(a, b);
    }
  }

  lemma EndGrows(x: seq<Line>, y: seq<Line>, last: Line, n: nat)
    requires LongestEnd(x, y, n)
    ensures LongestEnd(x + [last], y + [last], n + 1)
  {
    EndSnoc(x, last, n);
    EndSnoc(y, last, n);
  }

  lemma EndSnoc(x: seq<Line>, last: Line, n: nat)
    requires n <= |x|
    ensures (x + [last])[|x + [last]| - (n + 1)..] == x[|x| - n..] + [last]
    ensures n < |x| ==> (x + [last])[|x + [last]| - (n + 1) - 1] == x[|x| - n - 1]
  {
  }

  /** The text cut in four: the shared start, what is left of `a` and of `b`, the shared
      end. The end is only looked for after the start. */
  datatype Trim = Trim(start: seq<Line>, oldMid: seq<Line>, newMid: seq<Line>, end: seq<Line>)

  function Trimmed(a: seq<Line>, b: seq<Line>): (t: Trim) {
    var p := CommonPrefix(a, b);
    TrimEnd(a[..p], a[p..], b[p..])
  }

  function TrimEnd(start: seq<Line>, x: seq<Line>, y: seq<Line>): (t: Trim) {
    var s := CommonSuffix(x, y);
    Trim(start, x[..|x| - s], y[..|y| - s], x[|x| - s..])
  }

  lemma TrimmedParts(a: seq<Line>, b: seq<Line>)
    ensures a == Trimmed(a, b).start + (Trimmed(a, b).oldMid + Trimmed(a, b).end)
    ensures b == Trimmed(a, b).start + (Trimmed(a, b).newMid + Trimmed(a, b).end)
  {
    var p := CommonPrefix(a, b);
    CommonPrefixMaximal(a, b);
    hide CommonPrefix, TrimEnd;
    CutAt(a, p);
    CutAt(b, p);
    TrimEndParts(a[..p], a[p..], b[p..]);
    TrimEndStart(a[..p], a[p..], b[p..]);
  }

  lemma CutAt(a: seq<Line>, p: nat)
    requires p <= |a|
    ensures a == a[..p] + a[p..]
  {
  }

  lemma TrimEndStart(start: seq<Line>, x: seq<Line>, y: seq<Line>)
    ensures TrimEnd(start, x, y).start == start
  {
  }

  lemma TrimEndParts(start: seq<Line>, x: seq<Line>, y: seq<Line>)
    ensures x == TrimEnd(start, x, y).oldMid + TrimEnd(start, x, y).end
    ensures y == TrimEnd(start, x, y).newMid + TrimEnd(start, x, y).end
  {
    CommonSuffixMaximal(x, y);
    var s := CommonSuffix(x, y);
    hide CommonSuffix;
    CutEnd(x, s);
    CutEnd(y, s);
  }

  lemma CutEnd(x: seq<Line>, s: nat)
    requires s <= |x|
    ensures x == x[..|x| - s] + x[|x| - s..]
  {
  }

  /** The whole script: shared start, walk of the middles, shared end. */
  function Script(a: seq<Line>, b: seq<Line>): (script: seq<DiffLine>) {
    var t := Trimmed(a, b);
    Keep(t.start) + Walk(t.oldMid, t.newMid) + Keep(t.end)
  }

  lemma {:induction false} LcsSharedStart(shared: seq<Line>, a: seq<Line>, b: seq<Line>)
    ensures Lcs(shared + a, shared + b) == |shared| + Lcs(a, b)
  {
    if shared == [] {
      assert shared + a == a && shared + b == b;
    } else {
      assert (shared + a)[1..] == shared[1..] + a && (shared + b)[1..] == shared[1..] + b;
      LcsSharedStart(shared[1..], a, b);
    }
  }

  lemma {:induction false} LcsSharedLast(a: seq<Line>, b: seq<Line>, last: Line)
    ensures Lcs(a + [last], b + [last]) == Lcs(a, b) + 1
    decreases |a| + |b|
  {
    var a', b' := a + [last], b + [last];
    if a != [] {
      assert a'[1..] == a[1..] + [last];
    } else {
      assert a'[1..] == [];
    }
    if b != [] {
      assert b'[1..] == b[1..] + [last];
    } else {
      assert b'[1..] == [];
    }
    if a != [] {
      LcsSharedLast(a[1..], b, last);
    }
    if b != [] {
      LcsSharedLast(a, b[1..], last);
    }
    if a != [] && b != [] {
      LcsSharedLast(a[1..], b[1..], last);
    }
  }

  lemma {:induction false} LcsSharedEnd(a: seq<Line>, b: seq<Line>, shared: seq<Line>)
    ensures Lcs(a + shared, b + shared) == Lcs(a, b) + |shared|
  {
    if shared == [] {
      assert a + shared == a && b + shared == b;
    } else {
      var n := |shared| - 1;
      LcsSharedEnd(a, b, shared[..n]);
      LcsSharedLast(a + shared[..n], b + shared[..n], shared[n]);
      assert a + shared == (a + shared[..n]) + [shared[n]];
      assert b + shared == (b + shared[..n]) + [shared[n]];
    }
  }

  lemma ThreeParts(before: seq<DiffLine>, walk: seq<DiffLine>, after: seq<DiffLine>)
    ensures OldSide(before + walk + after) == OldSide(before) + (OldSide(walk) + OldSide(after))
    ensures NewSide(before + walk + after) == NewSide(before) + (NewSide(walk) + NewSide(after))
    ensures Kept(before + walk + after) == Kept(before) + Kept(walk) + Kept(after)
  {
    assert before + walk + after == before + (walk + after);
    SidesAppend(walk, after);
    KeptAppend(walk, after);
    SidesAppend(before, walk + after);
    KeptAppend(before, walk + after);
  }

  /** The script turns old into new and keeps exactly an LCS of the two whole texts. */
  lemma ScriptCorrect(a: seq<Line>, b: seq<Line>)
    ensures Transforms(Script(a, b), a, b)
    ensures Kept(Script(a, b)) == Lcs(a, b)
  {
    var t := Trimmed(a, b);
    TrimmedParts(a, b);
    KeepSides(t.start);
    KeepSides(t.end);
    WalkCorrect(t.oldMid, t.newMid);
    var walk := Walk(t.oldMid, t.newMid);
    ThreeParts(Keep(t.start), walk, Keep(t.end));
    LcsSharedStart(t.start, t.oldMid + t.end, t.newMid + t.end);
    LcsSharedEnd(t.oldMid, t.newMid, t.end);
  }

  /** No script turning `a` into `b` has fewer additions and removals. */
  lemma ScriptMinimal(a: seq<Line>, b: seq<Line>, other: seq<DiffLine>)
    requires Transforms(other, a, b)
    ensures Changes(Script(a, b)) <= Changes(other)
  {
    ScriptCorrect(a, b);
    ScriptSize(Script(a, b));
    ScriptSize(other);
    KeptAtMostLcs(other);
  }

  lemma CanonicalAround(before: seq<DiffLine>, walk: seq<DiffLine>, after: seq<DiffLine>)
    requires Canonical(walk)
    requires forall k :: 0 <= k < |before| ==> before[k].kind == Context
    requires forall k :: 0 <= k < |after| ==> after[k].kind == Context
    ensures Canonical(before + walk + after)
  {
    var all := before + walk + after;
    forall k | 0 <= k < |all| - 1
      ensures !(all[k].kind == Add && all[k + 1].kind == Remove)
    {
      if |before| <= k < |before| + |walk| - 1 {
        assert all[k] == walk[k - |before|] && all[k + 1] == walk[k - |before| + 1];
      }
    }
  }

  /** Every run of changes is all removals, then all additions. */
  lemma ScriptCanonical(a: seq<Line>, b: seq<Line>)
    ensures Canonical(Script(a, b))
  {
    var t := Trimmed(a, b);
    var walk := Walk(t.oldMid, t.newMid);
    WalkCanonical(t.oldMid, t.newMid);
    CanonicalAround(Keep(t.start), walk, Keep(t.end));
  }

  /** Trimming leaves nothing to walk exactly when the two texts have the same lines. */
  lemma NothingLeftIffEqual(a: seq<Line>, b: seq<Line>)
    ensures Trimmed(a, b).oldMid == [] == Trimmed(a, b).newMid <==> a == b
  {
    TrimmedParts(a, b);
    if a == b {
      CommonPrefixMaximal(a, b);
      assert CommonPrefix(a, b) == |a|;
    }
  }

  lemma NoChangeIffEqual(a: seq<Line>, b: seq<Line>)
    ensures Changes(Script(a, b)) == 0 <==> a == b
  {
    ScriptCorrect(a, b);
    if Changes(Script(a, b)) == 0 {
      NoChange(Script(a, b));
    }
    if a == b {
      KeepSides(a);
      ScriptMinimal(a, b, Keep(a));
    }
  }

  lemma {:induction false} NoChange(s: seq<DiffLine>)
    requires Changes(s) == 0
    ensures OldSide(s) == NewSide(s)
  {
    if s != [] {
      NoChange(s[1..]);
    }
  }
}
