/** The line diff of src/shared/textDiff.ts: the loops of `diffLines`, each proved against
    the script and hunk specifications of `EditScript` and `Hunks`. */
module TextDiff {
  import opened Text
  import opened Options
  import opened EditScript
  import opened Hunks

  datatype LineDiff = Identical | TooLarge | Changed(hunks: seq<Hunk>)

  datatype Op = Op(kind: Kind, text: Line, oldLine: nat, newLine: nat)

  const MAX_CELLS := 4_000_000

  // --- Lines -----------------------------------------------------------------------

  function Normalized(text: string): string {
    Join(Split(text, "\r\n"), "\n")
  }

  function DropFinalEmpty(lines: seq<Line>): seq<Line> {
    if |lines| > 0 && lines[|lines| - 1] == "" then lines[..|lines| - 1] else lines
  }

  function SplitLines(text: string): (lines: seq<Line>) {
    DropFinalEmpty(Split(Normalized(text), "\n"))
  }

  /** `text` with a newline at the end of its last line. */
  function Terminated(text: string): string {
    if text == "" || EndsLine(text) then text else text + "\n"
  }

  function Unlines(lines: seq<Line>): string {
    if lines == [] then "" else lines[0] + "\n" + Unlines(lines[1..])
  }

  /** The last part is empty exactly when the text is or ends a line, and the lines are the parts
      without it. */
  ghost predicate PartsOf(parts: seq<string>, text: string) {
    && |parts| >= 1
    && (parts[|parts| - 1] == "" <==> text == "" || EndsLine(text))
    && (EndsLine(text) ==> |parts| >= 2)
    && Unlines(DropFinalEmpty(parts)) == Terminated(text)
  }

  lemma {:induction false} SplitLast(text: string)
    ensures PartsOf(Split(text, "\n"), text)
  {
    if text == "" {
      NoParts();
    } else {
      hide PartsOf, Split;
      SplitLast(text[1..]);
      SplitHead(text);
      if text[0] == '\n' {
        SplitLastNewline(Split(text[1..], "\n"), text);
      } else if text[1..] == "" {
        OneCharacter(text);
      } else {
        SplitLastOther(text, Split(text[1..], "\n"));
      }
    }
  }

  lemma NoParts()
    ensures PartsOf(Split("", "\n"), "")
  {
  }

  lemma OneCharacter(text: string)
    requires |text| == 1 && text[0] != '\n'
    ensures PartsOf(Split(text, "\n"), text)
  {
    SplitHead(text);
    assert text[1..] == "" && Split("", "\n") == [""];
    hide Split;
    assert [[text[0]] + ""] + [] == [text];
    assert Unlines([text]) == text + "\n" + Unlines([text][1..]);
  }

  lemma SplitHead(text: string)
    requires text != ""
    ensures var rest := Split(text[1..], "\n");
            Split(text, "\n") == if text[0] == '\n' then [""] + rest else [[text[0]] + rest[0]] + rest[1..]
    ensures text == [text[0]] + text[1..]
  {
    SplitStep(text, "\n");
    StartsNewline(text);
    SameStart([text[0]], text);
    hide *;
  }

  lemma StartsNewline(text: string)
    requires text != ""
    ensures "\n" <= text <==> text[0] == '\n'
  {
    assert text[..1] == [text[0]];
  }

  lemma SplitLastNewline(rest: seq<Line>, text: string)
    requires text != "" && text[0] == '\n' && PartsOf(rest, text[1..])
    ensures PartsOf([""] + rest, text)
  {
    assert DropFinalEmpty([""] + rest) == [""] + DropFinalEmpty(rest);
    assert ([""] + DropFinalEmpty(rest))[1..] == DropFinalEmpty(rest);
    assert text == "\n" + text[1..];
  }

  lemma FirstLonger(c: char, rest: seq<Line>)
    requires |rest| >= 1 && (|rest| == 1 ==> rest[0] != "")
    ensures var kept := DropFinalEmpty(rest);
            && |kept| >= 1
            && DropFinalEmpty([[c] + rest[0]] + rest[1..]) == [[c] + kept[0]] + kept[1..]
  {
    var kept := DropFinalEmpty(rest);
    assert kept[0] == rest[0];
    assert DropFinalEmpty([[c] + rest[0]] + rest[1..]) == [[c] + rest[0]] + kept[1..];
  }

  lemma UnlinesLonger(c: char, lines: seq<Line>)
    requires |lines| >= 1
    ensures Unlines([[c] + lines[0]] + lines[1..]) == [c] + Unlines(lines)
  {
    var first, tail := lines[0], Unlines(lines[1..]);
    assert ([[c] + first] + lines[1..])[1..] == lines[1..];
    assert ([c] + first) + "\n" + tail == [c] + (first + "\n" + tail);
  }

  lemma TerminatedLonger(text: string)
    requires |text| >= 2
    ensures Terminated(text) == [text[0]] + Terminated(text[1..]) && (EndsLine(text) <==> EndsLine(text[1..]))
  {
    assert text == [text[0]] + text[1..] && text[|text| - 1] == text[1..][|text| - 2];
  }

  lemma SplitLastOther(text: string, rest: seq<Line>)
    requires |text| >= 2 && text[0] != '\n' && PartsOf(rest, text[1..])
    ensures PartsOf([[text[0]] + rest[0]] + rest[1..], text)
  {
    TerminatedLonger(text);
    hide Unlines, Terminated, EndsLine, DropFinalEmpty;
    FirstLonger(text[0], rest);
    UnlinesLonger(text[0], DropFinalEmpty(rest));
  }

  lemma {:induction false} SplitTerminated(text: string)
    ensures Split(text + "\n", "\n") == Split(text, "\n") + [""]
  {
    if text != "" {
      SplitTerminated(text[1..]);
      assert (text + "\n")[1..] == text[1..] + "\n";
      assert "\n" <= text <==> text[0] == '\n';
      assert "\n" <= text + "\n" <==> text[0] == '\n';
    }
  }

  /** Two texts have the same lines exactly when they agree after CRLF is read as LF and a
      missing final newline is added. */
  lemma SameLines(x: string, y: string)
    ensures SplitLines(x) == SplitLines(y) <==> Terminated(Normalized(x)) == Terminated(Normalized(y))
  {
    var u, v := Normalized(x), Normalized(y);
    SplitLast(u);
    SplitLast(v);
    TerminatedLines(u);
    TerminatedLines(v);
  }

  lemma TerminatedLines(u: string)
    ensures DropFinalEmpty(Split(Terminated(u), "\n")) == DropFinalEmpty(Split(u, "\n"))
  {
    SplitLast(u);
    if Terminated(u) != u {
      SplitTerminated(u);
    }
  }

  // --- What the lines of a text are -------------------------------------------------

  lemma StartsCrLf(text: string)
    ensures "\r\n" <= text <==> |text| >= 2 && text[0] == '\r' && text[1] == '\n'
  {
    if |text| >= 2 {
      assert text[..2] == [text[0], text[1]];
    }
  }

  lemma NormalizedStep(text: string)
    ensures text == "" ==> Normalized(text) == ""
    ensures text != "" && !("\r\n" <= text) ==> Normalized(text) == [text[0]] + Normalized(text[1..])
    ensures "\r\n" <= text ==> |text| >= 2 && Normalized(text) == "\n" + Normalized(text[2..])
  {
    SplitStep(text, "\r\n");
    StartsCrLf(text);
    hide Split, Join;
    if "\r\n" <= text {
      JoinCons("", Split(text[2..], "\r\n"), "\n");
    } else if |text| >= 2 {
      JoinPrepend(text[0], Split(text[1..], "\r\n"), "\n");
    } else {
      SplitStep("", "\r\n");
      JoinOne(text, "\n");
      JoinOne("", "\n");
      assert |text| == 1 ==> text[1..] == "" && text == [text[0]] + "";
    }
  }

  /** Only CRLF is read as LF: a line keeps everything before its end. */
  lemma {:induction false} NormalizedLine(line: string, crlf: bool, rest: string)
    requires IsLine(TextLine(line, crlf))
    ensures Normalized(line + End(crlf) + rest) == line + "\n" + Normalized(rest)
  {
    var text := line + End(crlf) + rest;
    NormalizedStep(text);
    StartsCrLf(text);
    hide Normalized;
    if line == "" {
      EndOnly(crlf, rest);
    } else {
      assert text[1..] == line[1..] + End(crlf) + rest && text[0] == line[0];
      SecondCharacter(line, crlf, rest);
      NormalizedLine(line[1..], crlf, rest);
      assert line == [line[0]] + line[1..];
    }
  }

  lemma EndOnly(crlf: bool, rest: string)
    ensures var text := "" + End(crlf) + rest;
            if crlf then |text| >= 2 && text[0] == '\r' && text[1] == '\n' && text[2..] == rest
            else text[0] == '\n' && text[1..] == rest
    ensures "" + "\n" + rest == ['\n'] + rest
  {
  }

  lemma SecondCharacter(line: string, crlf: bool, rest: string)
    requires IsLine(TextLine(line, crlf)) && line != ""
    ensures var text := line + End(crlf) + rest;
            |text| >= 2 && !(text[0] == '\r' && text[1] == '\n')
  {
    var text := line + End(crlf) + rest;
    assert text[0] == line[0] && text[1] == if |line| > 1 then line[1] else End(crlf)[0];
  }

  lemma {:induction false} NormalizedRest(last: string)
    requires '\n' !in last
    ensures Normalized(last) == last
  {
    NormalizedStep(last);
    StartsCrLf(last);
    hide Normalized;
    if last != "" {
      assert |last| >= 2 ==> last[1] in last;
      NormalizedRest(last[1..]);
      assert last == [last[0]] + last[1..];
    }
  }

  lemma {:induction false} PartsOfLines(lines: seq<TextLine>, last: string)
    requires AreLines(lines, last)
    ensures Split(Normalized(Printed(lines) + last), "\n") == Texts(lines) + [last]
  {
    if lines == [] {
      assert Printed(lines) + last == last;
      NormalizedRest(last);
      SplitNowhere(last);
    } else {
      var line, rest := lines[0], lines[1..];
      PartsOfLines(rest, last);
      PrintedCons(lines, last);
      TextsCons(lines, last);
      hide Normalized, Split, Printed, Texts;
      NormalizedLine(line.text, line.crlf, Printed(rest) + last);
      SplitLine(line.text, Normalized(Printed(rest) + last));
    }
  }

  /** The lines of a text are the lines it is written in, however each of them ends, and what
      follows the last end if that is not empty. */
  lemma SplitLinesExact(lines: seq<TextLine>, last: string)
    requires AreLines(lines, last)
    ensures SplitLines(Printed(lines) + last) == Texts(lines) + if last == "" then [] else [last]
  {
    PartsOfLines(lines, last);
    var parts := Texts(lines) + [last];
    assert parts[..|parts| - 1] == Texts(lines) == Texts(lines) + [];
  }

  /** Line ends make no difference, nor does the last one. */
  lemma LineEndsIgnored(lines: seq<TextLine>, others: seq<TextLine>, last: TextLine)
    requires AreLines(lines, "") && AreLines(others, "") && Texts(lines) == Texts(others)
    requires IsLine(last) && last.text != ""
    ensures SplitLines(Printed(lines)) == SplitLines(Printed(others))
    ensures SplitLines(Printed(lines) + last.text) == SplitLines(Printed(lines + [last]))
  {
    SplitLinesExact(lines, "");
    SplitLinesExact(others, "");
    SplitLinesExact(lines, last.text);
    SplitLinesExact(lines + [last], "");
    assert Printed(lines) + "" == Printed(lines) && Printed(others) + "" == Printed(others);
    assert Printed(lines + [last]) + "" == Printed(lines + [last]);
    assert Texts(lines + [last]) == Texts(lines) + [last.text];
  }

  // --- Trimming --------------------------------------------------------------------

  method SkipCommonStart(a: seq<Line>, b: seq<Line>) returns (start: nat)
    ensures start == CommonPrefix(a, b)
  {
    start := 0;
    while start < |a| && start < |b| && a[start] == b[start]
      invariant start <= |a| && start <= |b|
      invariant CommonPrefix(a, b) == start + CommonPrefix(a[start..], b[start..])
    {
      assert a[start..][1..] == a[start + 1..] && b[start..][1..] == b[start + 1..];
      start := start + 1;
    }
  }

  method SkipCommonEnd(a: seq<Line>, b: seq<Line>, start: nat) returns (endA: nat, endB: nat)
    requires start <= |a| && start <= |b|
    ensures start <= endA <= |a| && start <= endB <= |b|
    ensures |a| - endA == |b| - endB == CommonSuffix(a[start..], b[start..])
  {
    hide CommonSuffix;
    endA, endB := |a|, |b|;
    assert a[start..endA] == a[start..] && b[start..endB] == b[start..];
    while endA > start && endB > start && a[endA - 1] == b[endB - 1]
      invariant start <= endA <= |a| && start <= endB <= |b| && |a| - endA == |b| - endB
      invariant CommonSuffix(a[start..], b[start..]) == |a| - endA + CommonSuffix(a[start..endA], b[start..endB])
    {
      SuffixStep(a, b, start, endA - 1, endB - 1);
      endA, endB := endA - 1, endB - 1;
    }
    SuffixDone(a[start..endA], b[start..endB]);
  }

  lemma SuffixStep(a: seq<Line>, b: seq<Line>, start: nat, i: nat, j: nat)
    requires start <= i < |a| && start <= j < |b| && a[i] == b[j]
    ensures CommonSuffix(a[start..i + 1], b[start..j + 1]) == 1 + CommonSuffix(a[start..i], b[start..j])
  {
    var x, y := a[start..i + 1], b[start..j + 1];
    assert x[..|x| - 1] == a[start..i] && y[..|y| - 1] == b[start..j];
  }

  lemma SuffixDone(x: seq<Line>, y: seq<Line>)
    requires x == [] || y == [] || x[|x| - 1] != y[|y| - 1]
    ensures CommonSuffix(x, y) == 0
  {
  }

  lemma TrimmedAt(a: seq<Line>, b: seq<Line>, start: nat, endA: nat, endB: nat)
    requires start <= endA <= |a| && start <= endB <= |b|
    requires start == CommonPrefix(a, b)
    requires |a| - endA == |b| - endB == CommonSuffix(a[start..], b[start..])
    ensures Trimmed(a, b) == Trim(a[..start], a[start..endA], b[start..endB], a[endA..])
  {
    hide CommonPrefix, CommonSuffix;
    CutSlices(a, start, endA);
    CutSlices(b, start, endB);
  }

  lemma CutSlices(a: seq<Line>, start: nat, end: nat)
    requires start <= end <= |a|
    ensures a[start..][..end - start] == a[start..end] && a[start..][end - start..] == a[end..]
  {
  }

  // --- The table -------------------------------------------------------------------

  /** Index of row `i`, column `j` in the flat table. */
  function Cell(i: nat, j: nat, width: nat): nat {
    i * width + j
  }

  lemma CellInRange(i: nat, j: nat, rows: nat, width: nat)
    requires i < rows && j < width
    ensures Cell(i, j, width) < rows * width
  {
    assert i * width + width <= rows * width by {
      assert (i + 1) * width <= rows * width;
    }
  }

  lemma CellsDiffer(i: nat, j: nat, i': nat, j': nat, width: nat)
    requires j < width && j' < width && (i, j) != (i', j')
    ensures Cell(i, j, width) != Cell(i', j', width)
  {
    if i < i' {
      assert (i + 1) * width <= i' * width;
    } else if i' < i {
      assert (i' + 1) * width <= i * width;
    }
  }

  /** What a `Uint32Array` stores. */
  function ToUint32(v: nat): nat {
    v % 0x1_0000_0000
  }

  lemma LcsStep(x: seq<Line>, y: seq<Line>, i: nat, j: nat)
    requires i < |x| && j < |y|
    ensures Lcs(x[i..], y[j..]) ==
            if x[i] == y[j] then 1 + Lcs(x[i + 1..], y[j + 1..])
            else Max(Lcs(x[i + 1..], y[j..]), Lcs(x[i..], y[j + 1..]))
  {
    assert x[i..][1..] == x[i + 1..] && y[j..][1..] == y[j + 1..];
  }

  /** Under the cell cap no table value reaches 32 bits. */
  lemma LcsFitsUint32(x: seq<Line>, y: seq<Line>, i: nat, j: nat)
    requires (|x| + 1) * (|y| + 1) <= MAX_CELLS
    requires i <= |x| && j <= |y|
    ensures ToUint32(Lcs(x[i..], y[j..])) == Lcs(x[i..], y[j..]) < 4_000_000 < 0x1_0000_0000
  {
    LcsBounded(x[i..], y[j..]);
    assert |x| + 1 <= (|x| + 1) * (|y| + 1);
  }

  ghost predicate TableCell(lcs: array<nat>, x: seq<Line>, y: seq<Line>, i: nat, j: nat)
    reads lcs
  {
    && i <= |x| && j <= |y|
    && Cell(i, j, |y| + 1) < lcs.Length
    && lcs[Cell(i, j, |y| + 1)] == Lcs(x[i..], y[j..])
  }

  /** The cells filled before `(i, j)`: the zero row and column, then rows from the bottom
      up, each from the right. */
  ghost predicate FilledDownTo(lcs: array<nat>, x: seq<Line>, y: seq<Line>, i: nat, j: nat)
    reads lcs
  {
    forall i', j' :: 0 <= i' <= |x| && 0 <= j' <= |y| && (i' > i || j' == |y| || (i' == i && j' >= j)) ==>
                       TableCell(lcs, x, y, i', j')
  }

  method FillCell(lcs: array<nat>, x: seq<Line>, y: seq<Line>, i: nat, j: nat)
    requires (|x| + 1) * (|y| + 1) == lcs.Length <= MAX_CELLS
    requires i < |x| && j < |y|
    requires FilledDownTo(lcs, x, y, i, j + 1)
    modifies lcs
    ensures FilledDownTo(lcs, x, y, i, j)
  {
    var width := |y| + 1;
    LcsStep(x, y, i, j);
    LcsFitsUint32(x, y, i, j);
    CellInRange(i, j, |x| + 1, width);
    assert TableCell(lcs, x, y, i + 1, j + 1) && TableCell(lcs, x, y, i + 1, j) && TableCell(lcs, x, y, i, j + 1);
    lcs[Cell(i, j, width)] := ToUint32(
      if x[i] == y[j] then lcs[Cell(i + 1, j + 1, width)] + 1
      else Max(lcs[Cell(i + 1, j, width)], lcs[Cell(i, j + 1, width)]));
    forall i', j' | 0 <= i' <= |x| && 0 <= j' <= |y| && (i' > i || j' == |y| || (i' == i && j' >= j))
      ensures TableCell(lcs, x, y, i', j')
    {
      if (i', j') != (i, j) {
        CellsDiffer(i, j, i', j', width);
        assert old(TableCell(lcs, x, y, i', j'));
      }
    }
  }

  method FillTable(x: seq<Line>, y: seq<Line>) returns (lcs: array<nat>)
    requires (|x| + 1) * (|y| + 1) <= MAX_CELLS
    ensures fresh(lcs) && lcs.Length == (|x| + 1) * (|y| + 1)
    ensures FilledDownTo(lcs, x, y, 0, 0)
  {
    var n, m := |x|, |y|;
    lcs := new nat[(n + 1) * (m + 1)](_ => 0);
    forall i, j | 0 <= i <= n && 0 <= j <= m && (i == n || j == m)
      ensures TableCell(lcs, x, y, i, j)
    {
      CellInRange(i, j, n + 1, m + 1);
    }
    var i := n;
    while i > 0
      invariant 0 <= i <= n
      invariant FilledDownTo(lcs, x, y, i, 0)
    {
      i := i - 1;
      var j := m;
      while j > 0
        invariant 0 <= j <= m
        invariant FilledDownTo(lcs, x, y, i, j)
      {
        j := j - 1;
        FillCell(lcs, x, y, i, j);
      }
    }
  }

  // --- The ops ---------------------------------------------------------------------

  function Plain(op: Op): DiffLine {
    DiffLine(op.kind, op.text)
  }

  function Plains(ops: seq<Op>): (script: seq<DiffLine>)
    ensures |script| == |ops|
    ensures forall k :: 0 <= k < |ops| ==> script[k] == Plain(ops[k])
  {
    seq(|ops|, k requires 0 <= k < |ops| => Plain(ops[k]))
  }

  /** Op `k` carries the 1-based old and new line it stands at. */
  ghost predicate NumberedAt(op: Op, before: seq<DiffLine>) {
    op.oldLine == 1 + |OldSide(before)| && op.newLine == 1 + |NewSide(before)|
  }

  ghost predicate Numbered(ops: seq<Op>) {
    forall k :: 0 <= k < |ops| ==> NumberedAt(ops[k], Plains(ops)[..k])
  }

  /** The ops produced so far: their script, and how much of each text they consumed. */
  ghost predicate Produced(ops: seq<Op>, script: seq<DiffLine>, oldLines: nat, newLines: nat) {
    && Plains(ops) == script
    && Numbered(ops)
    && |OldSide(script)| == oldLines && |NewSide(script)| == newLines
  }

  lemma PushOp(ops: seq<Op>, script: seq<DiffLine>, oldLines: nat, newLines: nat, kind: Kind, text: Line)
    requires Produced(ops, script, oldLines, newLines)
    ensures Produced(ops + [Op(kind, text, oldLines + 1, newLines + 1)], script + [DiffLine(kind, text)],
                     oldLines + (if kind == Add then 0 else 1), newLines + (if kind == Remove then 0 else 1))
  {
    var ops' := ops + [Op(kind, text, oldLines + 1, newLines + 1)];
    assert Plains(ops') == script + [DiffLine(kind, text)];
    forall k | 0 <= k < |ops'|
      ensures NumberedAt(ops'[k], Plains(ops')[..k])
    {
      assert Plains(ops')[..k] == script[..k];
      assert script[..|ops|] == script;
    }
    SidesAppend(script, [DiffLine(kind, text)]);
    assert OldSide([DiffLine(kind, text)]) == OldText(DiffLine(kind, text));
    assert NewSide([DiffLine(kind, text)]) == NewText(DiffLine(kind, text));
  }

  /** One step of the walk, as an equation on what is left of the two texts. */
  lemma WalkStep(x: seq<Line>, y: seq<Line>, i: nat, j: nat)
    requires i <= |x| && j <= |y| && (i < |x| || j < |y|)
    ensures Walk(x[i..], y[j..]) ==
            if i < |x| && j < |y| && x[i] == y[j] then [DiffLine(Context, x[i])] + Walk(x[i + 1..], y[j + 1..])
            else if i < |x| && (j == |y| || Lcs(x[i + 1..], y[j..]) >= Lcs(x[i..], y[j + 1..])) then
              [DiffLine(Remove, x[i])] + Walk(x[i + 1..], y[j..])
            else [DiffLine(Add, y[j])] + Walk(x[i..], y[j + 1..])
  {
    assert i < |x| ==> x[i..][1..] == x[i + 1..];
    assert j < |y| ==> y[j..][1..] == y[j + 1..];
  }

  method PushKept(ops: seq<Op>, lines: seq<Line>, oldFrom: nat, newFrom: nat, ghost script: seq<DiffLine>)
    returns (ops': seq<Op>)
    requires Produced(ops, script, oldFrom, newFrom)
    ensures Produced(ops', script + Keep(lines), oldFrom + |lines|, newFrom + |lines|)
  {
    hide OldSide, NewSide, Numbered, Plains;
    ops' := ops;
    assert script + Keep(lines[..0]) == script;
    for k := 0 to |lines|
      invariant Produced(ops', script + Keep(lines[..k]), oldFrom + k, newFrom + k)
    {
      PushOp(ops', script + Keep(lines[..k]), oldFrom + k, newFrom + k, Context, lines[k]);
      assert script + Keep(lines[..k + 1]) == script + Keep(lines[..k]) + [DiffLine(Context, lines[k])];
      ops' := ops' + [Op(Context, lines[k], oldFrom + k + 1, newFrom + k + 1)];
    }
    assert lines[..|lines|] == lines;
  }

  method WalkTable(ops: seq<Op>, start: nat, x: seq<Line>, y: seq<Line>, lcs: array<nat>, ghost script: seq<DiffLine>)
    returns (ops': seq<Op>)
    requires Produced(ops, script, start, start)
    requires FilledDownTo(lcs, x, y, 0, 0)
    ensures Produced(ops', script + Walk(x, y), start + |x|, start + |y|)
  {
    hide Walk, Lcs, Numbered, Plains, OldSide, NewSide;
    var n, m := |x|, |y|;
    var width := m + 1;
    var i, j := 0, 0;
    ops' := ops;
    ghost var done := script;
    assert x[0..] == x && y[0..] == y;
    while i < n || j < m
      invariant i <= n && j <= m
      invariant Produced(ops', done, start + i, start + j)
      invariant done + Walk(x[i..], y[j..]) == script + Walk(x, y)
      decreases n - i + m - j
    {
      WalkStep(x, y, i, j);
      assert i < n ==> TableCell(lcs, x, y, i + 1, j);
      assert j < m ==> TableCell(lcs, x, y, i, j + 1);
      ghost var before, i0, j0 := ops', i, j;
      if i < n && j < m && x[i] == y[j] {
        ops' := ops' + [Op(Context, x[i], start + i + 1, start + j + 1)];
        i, j := i + 1, j + 1;
      } else if i < n && (j == m || lcs[Cell(i + 1, j, width)] >= lcs[Cell(i, j + 1, width)]) {
        // `Walk` goes this way too when both neighbours are equal.
        ops' := ops' + [Op(Remove, x[i], start + i + 1, start + j + 1)];
        i := i + 1;
      } else {
        ops' := ops' + [Op(Add, y[j], start + i + 1, start + j + 1)];
        j := j + 1;
      }
      ghost var line := Plain(ops'[|before|]);
      PushOp(before, done, start + i0, start + j0, line.kind, line.text);
      Reassociate(done, line, Walk(x[i..], y[j..]));
      done := done + [line];
    }
    assert Walk(x[i..], y[j..]) == [] by {
      WalkDone(x[i..], y[j..]);
    }
    assert done + [] == done;
  }

  lemma WalkDone(x: seq<Line>, y: seq<Line>)
    requires x == [] && y == []
    ensures Walk(x, y) == []
  {
  }

  lemma Reassociate(done: seq<DiffLine>, line: DiffLine, rest: seq<DiffLine>)
    ensures done + ([line] + rest) == (done + [line]) + rest
  {
  }

  // --- Hunks -----------------------------------------------------------------------

  method CopyOps(ops: seq<Op>, from: nat, to: nat) returns (lines: seq<DiffLine>)
    requires from <= to <= |ops|
    ensures lines == Plains(ops)[from..to]
  {
    lines := [];
    for c := from to to
      invariant lines == Plains(ops)[from..c]
    {
      lines := lines + [DiffLine(ops[c].kind, ops[c].text)];
    }
  }

  /** The unchanged lines after the last change of a hunk. */
  method CopyTrailing(ops: seq<Op>, lastChange: nat, context: nat) returns (lines: seq<DiffLine>, ghost to: nat)
    requires lastChange < |ops|
    requires forall c :: lastChange < c < |ops| && c <= lastChange + context ==> ops[c].kind == Context
    ensures lastChange < to <= |ops| && (to == |ops| || to == lastChange + context + 1) && to <= lastChange + context + 1
    ensures lines == Plains(ops)[lastChange + 1..to]
  {
    lines := [];
    var c := lastChange + 1;
    while c < |ops| && c <= lastChange + context
      invariant lastChange < c <= |ops| && c <= lastChange + context + 1
      invariant lines == Plains(ops)[lastChange + 1..c]
    {
      lines := lines + [DiffLine(Context, ops[c].text)];
      c := c + 1;
    }
    to := c;
  }

  /** Range `r` shows change `c` with everything around it, except that the last range may
      still end at the last change. */
  ghost predicate Shows(n: nat, context: nat, ranges: seq<Range>, c: int, r: int) {
    && 0 <= r < |ranges|
    && ranges[r].lo <= Max(0, c - context) && c < ranges[r].hi
    && (r < |ranges| - 1 ==> c + context + 1 <= ranges[r].hi || ranges[r].hi == n)
  }

  /** Everything the ranges show is near a change. */
  ghost predicate OnlyNear(script: seq<DiffLine>, context: nat, ranges: seq<Range>) {
    forall r, i :: 0 <= r < |ranges| && ranges[r].lo <= i < ranges[r].hi ==> Near(script, i, context)
  }

  /** The ranges show every change before `k`, the last of them being `lastChange`. */
  ghost predicate AllShown(script: seq<DiffLine>, context: nat, k: nat, ranges: seq<Range>, lastChange: int) {
    && (forall c :: ChangeAt(script, c) && c < k ==> exists r :: Shows(|script|, context, ranges, c, r))
    && (forall c :: ChangeAt(script, c) && c < k ==> ranges != [] && c <= lastChange)
    && (ranges != [] ==> ChangeAt(script, lastChange) && lastChange < k && Shows(|script|, context, ranges, lastChange, |ranges| - 1))
  }

  /** The last range still ends at the last change. */
  ghost predicate OpenAt(ranges: seq<Range>, lastChange: int) {
    ranges != [] ==> ranges[|ranges| - 1].hi == lastChange + 1
  }

  ghost predicate Grouped(script: seq<DiffLine>, context: nat, k: nat, hunks: seq<Hunk>, ranges: seq<Range>, lastChange: int) {
    && k <= |script|
    && Separated(ranges, |script|)
    && HunksAt(script, hunks, ranges)
    && OnlyNear(script, context, ranges)
    && AllShown(script, context, k, ranges, lastChange)
    && OpenAt(ranges, lastChange)
  }

  function WithLast<T>(xs: seq<T>, x: T): seq<T>
    requires xs != []
  {
    xs[..|xs| - 1] + [x]
  }

  /** The last range grown to `hi`, and its hunk with the lines in between. */
  function GrownRanges(ranges: seq<Range>, hi: nat): seq<Range>
    requires ranges != []
  {
    WithLast(ranges, ranges[|ranges| - 1].(hi := hi))
  }

  function GrownHunks(hunks: seq<Hunk>, lines: seq<DiffLine>): seq<Hunk>
    requires hunks != []
  {
    var last := hunks[|hunks| - 1];
    WithLast(hunks, last.(lines := last.lines + lines))
  }

  lemma GrowHunks(script: seq<DiffLine>, hunks: seq<Hunk>, ranges: seq<Range>, hi: nat)
    requires Separated(ranges, |script|) && HunksAt(script, hunks, ranges) && ranges != []
    requires ranges[|ranges| - 1].hi <= hi <= |script|
    ensures Separated(GrownRanges(ranges, hi), |script|)
    ensures HunksAt(script, GrownHunks(hunks, script[ranges[|ranges| - 1].hi..hi]), GrownRanges(ranges, hi))
  {
    var last := |ranges| - 1;
    var Range(lo, mid) := ranges[last];
    assert hunks[last] == HunkAt(script, ranges[last]);
    assert script[lo..hi] == script[lo..mid] + script[mid..hi];
  }

  lemma GrowNear(script: seq<DiffLine>, context: nat, ranges: seq<Range>, hi: nat)
    requires OnlyNear(script, context, ranges) && ranges != []
    requires forall i :: ranges[|ranges| - 1].hi <= i < hi ==> Near(script, i, context)
    ensures OnlyNear(script, context, GrownRanges(ranges, hi))
  {
    var grown := GrownRanges(ranges, hi);
    forall r, i | 0 <= r < |grown| && grown[r].lo <= i < grown[r].hi
      ensures Near(script, i, context)
    {
      assert ranges[r].lo == grown[r].lo;
      assert i < ranges[r].hi || ranges[|ranges| - 1].hi <= i < hi;
    }
  }

  /** A change close to the previous one joins the last hunk. */
  lemma JoinLast(script: seq<DiffLine>, context: nat, k: nat, ranges: seq<Range>, lastChange: int)
    requires AllShown(script, context, k, ranges, lastChange) && OpenAt(ranges, lastChange)
    requires ChangeAt(script, k) && ranges != []
    ensures AllShown(script, context, k + 1, GrownRanges(ranges, k + 1), k)
  {
    var grown := GrownRanges(ranges, k + 1);
    var n, last := |script|, |ranges| - 1;
    assert Shows(n, context, grown, k, last);
    forall c | ChangeAt(script, c) && c < k
      ensures exists r :: Shows(n, context, grown, c, r)
    {
      var r :| Shows(n, context, ranges, c, r);
      assert Shows(n, context, grown, c, r);
    }
  }

  lemma BetweenChangesNear(script: seq<DiffLine>, context: nat, lastChange: int, k: int)
    requires ChangeAt(script, lastChange) && ChangeAt(script, k)
    requires Max(0, k - context) <= lastChange + context + 1
    ensures forall i :: lastChange < i <= k ==> Near(script, i, context)
  {
    forall i | lastChange < i <= k
      ensures Near(script, i, context)
    {
      assert i <= lastChange + context || k - context <= i;
    }
  }

  lemma Extend(script: seq<DiffLine>, context: nat, k: nat, hunks: seq<Hunk>, ranges: seq<Range>, lastChange: int)
    requires Grouped(script, context, k, hunks, ranges, lastChange)
    requires ChangeAt(script, k) && ranges != [] && Max(0, k - context) <= lastChange + context + 1
    ensures Grouped(script, context, k + 1,
                    GrownHunks(hunks, script[lastChange + 1..k + 1]), GrownRanges(ranges, k + 1), k)
  {
    hide OnlyNear, HunkAt, Near, Shows;
    assert Separated(GrownRanges(ranges, k + 1), |script|)
      && HunksAt(script, GrownHunks(hunks, script[lastChange + 1..k + 1]), GrownRanges(ranges, k + 1)) by {
      GrowHunks(script, hunks, ranges, k + 1);
    }
    assert OnlyNear(script, context, GrownRanges(ranges, k + 1)) by {
      BetweenChangesNear(script, context, lastChange, k);
      GrowNear(script, context, ranges, k + 1);
    }
    JoinLast(script, context, k, ranges, lastChange);
  }

  /** Change `c` is shown with everything within `context` of it. */
  ghost predicate FullyShown(n: nat, context: nat, ranges: seq<Range>, c: int) {
    exists r :: 0 <= r < |ranges| && ranges[r].lo <= Max(0, c - context) && c < ranges[r].hi
                && (c + context + 1 <= ranges[r].hi || ranges[r].hi == n)
  }

  /** The grouping loop's state when every hunk so far is complete. */
  ghost predicate Finished(script: seq<DiffLine>, context: nat, k: nat, hunks: seq<Hunk>, ranges: seq<Range>) {
    && Separated(ranges, |script|)
    && HunksAt(script, hunks, ranges)
    && OnlyNear(script, context, ranges)
    && forall c :: ChangeAt(script, c) && c < k ==> FullyShown(|script|, context, ranges, c)
  }

  /** The last hunk gets its trailing context and is finished. */
  lemma Finish(script: seq<DiffLine>, context: nat, k: nat, hunks: seq<Hunk>, ranges: seq<Range>, lastChange: int, to: nat)
    requires Grouped(script, context, k, hunks, ranges, lastChange)
    requires ranges != []
    requires lastChange < to <= |script| && to <= lastChange + context + 1
    requires to == |script| || to == lastChange + context + 1
    ensures Finished(script, context, k, GrownHunks(hunks, script[lastChange + 1..to]), GrownRanges(ranges, to))
    ensures forall r :: 0 <= r < |ranges| ==> GrownRanges(ranges, to)[r].hi <= to
  {
    hide OnlyNear, HunkAt, Near, Shows;
    assert Separated(GrownRanges(ranges, to), |script|)
      && HunksAt(script, GrownHunks(hunks, script[lastChange + 1..to]), GrownRanges(ranges, to)) by {
      GrowHunks(script, hunks, ranges, to);
    }
    assert OnlyNear(script, context, GrownRanges(ranges, to)) by {
      TrailingNear(script, context, lastChange, to);
      GrowNear(script, context, ranges, to);
    }
    forall c | ChangeAt(script, c) && c < k
      ensures FullyShown(|script|, context, GrownRanges(ranges, to), c)
    {
      FinishedShows(script, context, k, ranges, lastChange, to, c);
    }
  }

  lemma TrailingNear(script: seq<DiffLine>, context: nat, lastChange: int, to: nat)
    requires ChangeAt(script, lastChange) && to <= lastChange + context + 1
    ensures forall i :: lastChange < i < to ==> Near(script, i, context)
  {
  }

  /** A finished range shows all of its changes' surroundings. */
  lemma FinishedShows(script: seq<DiffLine>, context: nat, k: nat, ranges: seq<Range>, lastChange: int, to: nat, c: int)
    requires AllShown(script, context, k, ranges, lastChange) && OpenAt(ranges, lastChange) && ranges != []
    requires lastChange < to && (to == |script| || to == lastChange + context + 1)
    requires ChangeAt(script, c) && c < k
    ensures FullyShown(|script|, context, GrownRanges(ranges, to), c)
  {
    var r :| Shows(|script|, context, ranges, c, r);
    var grown := GrownRanges(ranges, to);
    assert grown[r].lo == ranges[r].lo;
    assert c < grown[r].hi && (c + context + 1 <= grown[r].hi || grown[r].hi == |script|);
  }

  lemma Start(script: seq<DiffLine>, context: nat, k: nat, hunks: seq<Hunk>, ranges: seq<Range>)
    requires ChangeAt(script, k) && Finished(script, context, k, hunks, ranges)
    requires forall r :: 0 <= r < |ranges| ==> ranges[r].hi < k - context
    ensures var range := Range(Max(0, k - context), k + 1);
            Grouped(script, context, k + 1, hunks + [HunkAt(script, range)], ranges + [range], k)
  {
    hide Near, Shows, FullyShown, HunkAt;
    var range := Range(Max(0, k - context), k + 1);
    assert AllShown(script, context, k + 1, ranges + [range], k) by {
      StartShown(script, context, k, ranges);
    }
    assert OnlyNear(script, context, ranges + [range]) by {
      StartNear(script, context, k, ranges);
    }
  }

  lemma StartShown(script: seq<DiffLine>, context: nat, k: nat, ranges: seq<Range>)
    requires ChangeAt(script, k)
    requires forall c :: ChangeAt(script, c) && c < k ==> FullyShown(|script|, context, ranges, c)
    ensures AllShown(script, context, k + 1, ranges + [Range(Max(0, k - context), k + 1)], k)
  {
    var n, ranges' := |script|, ranges + [Range(Max(0, k - context), k + 1)];
    assert Shows(n, context, ranges', k, |ranges|);
    forall c | ChangeAt(script, c) && c < k
      ensures exists r :: Shows(n, context, ranges', c, r)
    {
      assert FullyShown(n, context, ranges, c);
      var r :| 0 <= r < |ranges| && ranges[r].lo <= Max(0, c - context) && c < ranges[r].hi
               && (c + context + 1 <= ranges[r].hi || ranges[r].hi == n);
      assert Shows(n, context, ranges', c, r);
    }
  }

  lemma StartNear(script: seq<DiffLine>, context: nat, k: nat, ranges: seq<Range>)
    requires ChangeAt(script, k) && OnlyNear(script, context, ranges)
    ensures OnlyNear(script, context, ranges + [Range(Max(0, k - context), k + 1)])
  {
    var ranges' := ranges + [Range(Max(0, k - context), k + 1)];
    forall r, i | 0 <= r < |ranges'| && ranges'[r].lo <= i < ranges'[r].hi
      ensures Near(script, i, context)
    {
      if r == |ranges| {
        assert k - context <= i <= k;
      } else {
        assert ranges[r] == ranges'[r];
      }
    }
  }

  lemma Skip(script: seq<DiffLine>, context: nat, k: nat, hunks: seq<Hunk>, ranges: seq<Range>, lastChange: int)
    requires Grouped(script, context, k, hunks, ranges, lastChange) && k < |script| && !ChangeAt(script, k)
    ensures Grouped(script, context, k + 1, hunks, ranges, lastChange)
  {
    assert forall c :: ChangeAt(script, c) && c < k + 1 ==> c < k;
  }

  lemma FinishedGrouping(script: seq<DiffLine>, context: nat, hunks: seq<Hunk>, ranges: seq<Range>)
    requires Finished(script, context, |script|, hunks, ranges)
    ensures Grouping(script, context, hunks, ranges)
  {
    forall k | 0 <= k < |script|
      ensures Shown(ranges, k) <==> Near(script, k, context)
    {
      if Near(script, k, context) {
        var c :| ChangeAt(script, c) && k - context <= c <= k + context;
        assert FullyShown(|script|, context, ranges, c);
      }
    }
  }

  /** Completes the current hunk, if there is one, with the context after its last change. */
  method FinishCurrent(ops: seq<Op>, context: nat, ghost k: nat, hunks: seq<Hunk>, ghost ranges: seq<Range>, lastChange: int)
    returns (hunks': seq<Hunk>, ghost ranges': seq<Range>)
    requires Grouped(Plains(ops), context, k, hunks, ranges, lastChange)
    requires hunks != [] ==> k == |ops| || lastChange + context < k
    ensures Finished(Plains(ops), context, k, hunks', ranges')
    ensures ranges == [] ==> ranges' == []
    ensures forall r :: 0 <= r < |ranges'| ==> ranges'[r].hi <= lastChange + context + 1
  {
    hunks', ranges' := hunks, ranges;
    if hunks != [] {
      forall c | lastChange < c < |ops| && c <= lastChange + context
        ensures ops[c].kind == Context
      {
        assert !(c < k && ChangeAt(Plains(ops), c));
      }
      var lines, to := CopyTrailing(ops, lastChange, context);
      Finish(Plains(ops), context, k, hunks, ranges, lastChange, to);
      hunks', ranges' := GrownHunks(hunks, lines), GrownRanges(ranges, to);
    }
  }

  /** Adds the change at `k` to the current hunk, or starts the next one. */
  method AddChange(ops: seq<Op>, context: nat, k: nat, hunks: seq<Hunk>, ghost ranges: seq<Range>, lastChange: int)
    returns (hunks': seq<Hunk>, ghost ranges': seq<Range>)
    requires Numbered(ops) && ChangeAt(Plains(ops), k)
    requires Grouped(Plains(ops), context, k, hunks, ranges, lastChange)
    ensures Grouped(Plains(ops), context, k + 1, hunks', ranges', k)
  {
    hide OldSide, NewSide, OnlyNear, FullyShown, Near, Shows;
    ghost var script := Plains(ops);
    var from := Max(0, k - context);
    if hunks != [] && from <= lastChange + context + 1 {
      Extend(script, context, k, hunks, ranges, lastChange);
      var lines := CopyOps(ops, lastChange + 1, k + 1);
      hunks', ranges' := GrownHunks(hunks, lines), GrownRanges(ranges, k + 1);
    } else {
      hunks', ranges' := FinishCurrent(ops, context, k, hunks, ranges, lastChange);
      Start(script, context, k, hunks', ranges');
      var lines := CopyOps(ops, from, k + 1);
      hunks' := hunks' + [Hunk(ops[from].oldLine, ops[from].newLine, lines)];
      ranges' := ranges' + [Range(from, k + 1)];
    }
  }

  method GroupHunks(ops: seq<Op>, context: nat) returns (hunks: seq<Hunk>, ghost ranges: seq<Range>)
    requires Numbered(ops)
    ensures Grouping(Plains(ops), context, hunks, ranges)
  {
    ghost var script := Plains(ops);
    hunks, ranges := [], [];
    var lastChange := -1;  // only read once there is a hunk
    for k := 0 to |ops|
      invariant Grouped(script, context, k, hunks, ranges, lastChange)
    {
      if ops[k].kind == Context {
        Skip(script, context, k, hunks, ranges, lastChange);
      } else {
        hunks, ranges := AddChange(ops, context, k, hunks, ranges, lastChange);
        lastChange := k;
      }
    }
    hunks, ranges := FinishCurrent(ops, context, |ops|, hunks, ranges, lastChange);
    FinishedGrouping(script, context, hunks, ranges);
  }

  // --- The whole diff --------------------------------------------------------------

  /** `hunks` turn `a` into `b` and back, and show exactly what is near a change of the
      shortest script. */
  ghost predicate IsDiff(a: seq<Line>, b: seq<Line>, context: nat, hunks: seq<Hunk>) {
    && (exists ranges :: Grouping(Script(a, b), context, hunks, ranges))
    && Patch(a, hunks) == Some(b)
    && Patch(b, Reverse(hunks)) == Some(a)
  }

  lemma GroupingIsDiff(a: seq<Line>, b: seq<Line>, context: nat, hunks: seq<Hunk>, ranges: seq<Range>)
    requires Grouping(Script(a, b), context, hunks, ranges)
    ensures IsDiff(a, b, context, hunks)
  {
    ScriptCorrect(a, b);
    PatchForward(Script(a, b), context, hunks, ranges);
    PatchBackward(Script(a, b), context, hunks, ranges);
  }

  /** The diff of two different lists of lines, trimmed to `start`, `endA` and `endB`. */
  method DiffTrimmed(a: seq<Line>, b: seq<Line>, start: nat, endA: nat, endB: nat, context: nat) returns (hunks: seq<Hunk>)
    requires start <= endA <= |a| && start <= endB <= |b| && |a| - endA == |b| - endB
    requires Trimmed(a, b) == Trim(a[..start], a[start..endA], b[start..endB], a[endA..])
    requires (|a[start..endA]| + 1) * (|b[start..endB]| + 1) <= MAX_CELLS
    ensures IsDiff(a, b, context, hunks)
  {
    var x, y := a[start..endA], b[start..endB];
    PartsOfScript(a, b, start, endA, endB);
    hide *;
    var ops := ScriptOps(a[..start], x, y, a[endA..]);
    ghost var ranges;
    hunks, ranges := GroupHunks(ops, context);
    GroupingIsDiff(a, b, context, hunks, ranges);
  }

  /** The numbered ops of a script: what is shared at the start, the walk, and the shared end. */
  method ScriptOps(head: seq<Line>, x: seq<Line>, y: seq<Line>, tail: seq<Line>) returns (ops: seq<Op>)
    requires (|x| + 1) * (|y| + 1) <= MAX_CELLS
    ensures Plains(ops) == [] + Keep(head) + Walk(x, y) + Keep(tail) && Numbered(ops)
  {
    NothingProduced();
    hide *;
    var lcs := FillTable(x, y);
    ops := PushKept([], head, 0, 0, []);
    ops := WalkTable(ops, |head|, x, y, lcs, [] + Keep(head));
    ops := PushKept(ops, tail, |head| + |x|, |head| + |y|, [] + Keep(head) + Walk(x, y));
    ProducedScript(ops, [] + Keep(head) + Walk(x, y) + Keep(tail), |head| + |x| + |tail|, |head| + |y| + |tail|);
  }

  lemma PartsOfScript(a: seq<Line>, b: seq<Line>, start: nat, endA: nat, endB: nat)
    requires start <= endA <= |a| && start <= endB <= |b|
    requires Trimmed(a, b) == Trim(a[..start], a[start..endA], b[start..endB], a[endA..])
    ensures Script(a, b) == [] + Keep(a[..start]) + Walk(a[start..endA], b[start..endB]) + Keep(a[endA..])
  {
    hide Trimmed, Keep, Walk;
    assert [] + Keep(a[..start]) == Keep(a[..start]);
  }

  lemma NothingProduced()
    ensures Produced([], [], 0, 0)
  {
  }

  lemma ProducedScript(ops: seq<Op>, script: seq<DiffLine>, oldLines: nat, newLines: nat)
    requires Produced(ops, script, oldLines, newLines)
    ensures Plains(ops) == script && Numbered(ops)
  {
  }

  method DiffOf(a: seq<Line>, b: seq<Line>, context: nat) returns (r: LineDiff)
    ensures r == Identical <==> a == b
    ensures r == TooLarge <==>
              a != b && (|Trimmed(a, b).oldMid| + 1) * (|Trimmed(a, b).newMid| + 1) > 4_000_000
    ensures r.Changed? ==> IsDiff(a, b, context, r.hunks)
  {
    var start := SkipCommonStart(a, b);
    var endA, endB := SkipCommonEnd(a, b, start);
    TrimmedAt(a, b, start, endA, endB);
    NothingLeftIffEqual(a, b);
    ghost var t := Trimmed(a, b);
    assert |t.oldMid| == endA - start && |t.newMid| == endB - start;
    assert |a[start..endA]| == endA - start && |b[start..endB]| == endB - start;
    hide Trimmed, CommonPrefix, CommonSuffix, IsDiff;
    if start == endA && start == endB {
      return Identical;
    }
    if (endA - start + 1) * (endB - start + 1) > MAX_CELLS {
      return TooLarge;
    }
    var hunks := DiffTrimmed(a, b, start, endA, endB, context);
    r := Changed(hunks);
  }

  method DiffLines(oldText: string, newText: string, context: nat := 3) returns (r: LineDiff)
    ensures r == Identical <==> SplitLines(oldText) == SplitLines(newText)
    ensures r == Identical <==> Terminated(Normalized(oldText)) == Terminated(Normalized(newText))
    ensures r == TooLarge <==>
              var t := Trimmed(SplitLines(oldText), SplitLines(newText));
              r != Identical && (|t.oldMid| + 1) * (|t.newMid| + 1) > 4_000_000
    ensures r.Changed? ==> IsDiff(SplitLines(oldText), SplitLines(newText), context, r.hunks)
  {
    SameLines(oldText, newText);
    r := DiffOf(SplitLines(oldText), SplitLines(newText), context);
  }
}
