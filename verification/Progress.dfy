/** Build progress estimation: `BuildProgressTracker` of src/modules/actions/progress.ts. */
module Progress {
  import opened Options
  import opened Text

  datatype Phase = Preparing | Pulling | Building | Deploying | Starting

  function Rank(phase: Phase): nat {
    match phase
    case Preparing => 0
    case Pulling => 1
    case Building => 2
    case Deploying => 3
    case Starting => 4
  }

  /** A step number as JavaScript reads it: too many digits make it infinite. */
  datatype StepNumber = Finite(n: nat) | Infinite

  /** What the regular expressions find in a trimmed line. */
  datatype LineMarks = LineMarks(
    git: bool, dockerBuild: bool, step: Option<(StepNumber, StepNumber)>, deploying: bool, starting: bool)

  /** The trimming of lines and the regular expressions, which stay abstract. */
  datatype Grammar = Grammar(trim: string -> string, marks: string -> LineMarks)

  datatype Entry = Entry(buffer: string, phase: Phase, progress: real)

  const NEW_ENTRY := Entry("", Preparing, 0.0)
  const PROGRESS_CAP_WHILE_RUNNING := 0.95

  datatype Update = Update(phase: Phase, progress: real)

  // --- Lines ------------------------------------------------------------------------

  function Last<T>(lines: seq<T>): T
    requires lines != []
  {
    lines[|lines| - 1]
  }

  function Init<T>(lines: seq<T>): seq<T>
    requires lines != []
  {
    lines[..|lines| - 1]
  }

  function StripCr(line: string): string {
    if line != "" && Last(line) == '\r' then line[..|line| - 1] else line
  }

  function StripAll(lines: seq<string>): (r: seq<string>)
    ensures |r| == |lines| && forall i :: 0 <= i < |lines| ==> r[i] == StripCr(lines[i])
  {
    seq(|lines|, i requires 0 <= i < |lines| => StripCr(lines[i]))
  }

  /** `text.split(/\r?\n/)`: every newline ends a line, and a carriage return right before it
      goes with it. */
  function SplitCrLf(text: string): (lines: seq<string>)
    ensures |lines| >= 1
  {
    var parts := Split(text, "\n");
    StripAll(Init(parts)) + [Last(parts)]
  }

  // --- One line ---------------------------------------------------------------------

  function Ratio(current: nat, total: nat): real
    requires total > 0
  {
    var ratio := current as real / total as real;
    if ratio <= PROGRESS_CAP_WHILE_RUNNING then ratio else PROGRESS_CAP_WHILE_RUNNING
  }

  function CommandPhase(phase: Phase, m: LineMarks): Phase {
    if phase == Preparing && m.git then Pulling
    else if phase in {Preparing, Pulling} && m.dockerBuild then Building
    else phase
  }

  predicate CountsAsStep(m: LineMarks) {
    m.step.Some? && m.step.value.0.Finite? && m.step.value.1.Finite? && m.step.value.1.n > 0
  }

  function StepPhase(phase: Phase, m: LineMarks): Phase {
    if CountsAsStep(m) && phase in {Preparing, Pulling} then Building else phase
  }

  function LifecyclePhase(phase: Phase, m: LineMarks): Phase {
    if m.starting then Starting
    else if m.deploying && phase != Starting then Deploying
    else phase
  }

  function AfterLine(e: Entry, m: LineMarks): Entry {
    var phase := LifecyclePhase(StepPhase(CommandPhase(e.phase, m), m), m);
    var progress :=
      if CountsAsStep(m) && Ratio(m.step.value.0.n, m.step.value.1.n) > e.progress
      then Ratio(m.step.value.0.n, m.step.value.1.n) else e.progress;
    Entry(e.buffer, phase, progress)
  }

  function AfterRawLine(e: Entry, raw: string, g: Grammar): Entry {
    var line := g.trim(raw);
    if line == "" then e else AfterLine(e, g.marks(line))
  }

  function AfterLines(e: Entry, lines: seq<string>, g: Grammar): Entry
    decreases |lines|
  {
    if lines == [] then e else AfterLines(AfterRawLine(e, lines[0], g), lines[1..], g)
  }

  function Consumed(e: Entry, chunk: string, g: Grammar): Entry {
    var lines := SplitCrLf(e.buffer + chunk);
    AfterLines(e, Init(lines), g).(buffer := Last(lines))
  }

  // --- What one line does -----------------------------------------------------------

  /** A line says the action is at least in this phase. A git command that starts the pull says
      nothing about a build. */
  predicate Says(phase: Phase, m: LineMarks, said: Phase) {
    match said
    case Preparing => false
    case Pulling => m.git
    case Building => (m.dockerBuild && !(m.git && phase == Preparing)) || StepOf(m).Some?
    case Deploying => m.deploying
    case Starting => m.starting
  }

  /** The finished part of the build steps, if the line is about one. */
  function StepOf(m: LineMarks): Option<real> {
    match m.step
    case Some((Finite(n), Finite(total))) => if total > 0 then Some(n as real / total as real) else None
    case _ => None
  }

  /** The phase is the furthest of the one before and those the line speaks of; the progress is the
      larger of the one before and the finished steps, which count up to 0.95. */
  lemma LineMeans(e: Entry, m: LineMarks)
    ensures var e' := AfterLine(e, m);
            && e'.buffer == e.buffer
            && (e'.phase == e.phase || Says(e.phase, m, e'.phase)) && Rank(e.phase) <= Rank(e'.phase)
            && (forall said :: Says(e.phase, m, said) ==> Rank(said) <= Rank(e'.phase))
            && match StepOf(m) {
                 case None => e'.progress == e.progress
                 case Some(done) =>
                   && (done <= e.progress ==> e'.progress == e.progress)
                   && (e.progress < done <= 0.95 ==> e'.progress == done)
                   && (done > 0.95 ==> e'.progress == if e.progress < 0.95 then 0.95 else e.progress)
               }
  {
  }

  /** A carriage return is dropped from the end of a line, and nothing else of it. */
  lemma {:induction false} SplitCrLfExact(lines: seq<TextLine>, last: string)
    requires AreLines(lines, last)
    ensures SplitCrLf(Printed(lines) + last) == Texts(lines) + [last]
  {
    if lines == [] {
      assert Printed(lines) + last == last;
      SplitNowhere(last);
    } else {
      var line, rest := lines[0], Printed(lines[1..]) + last;
      SplitCrLfExact(lines[1..], last);
      PrintedCons(lines, last);
      TextsCons(lines, last);
      StripEnd(line, rest);
      hide Printed, StripCr, SplitCrLf, Split, Texts;
      var ended := line.text + if line.crlf then "\r" else "";
      SplitLine(ended, rest);
      SplitCrLfCons(ended, rest);
    }
  }

  lemma StripEnd(line: TextLine, rest: string)
    requires IsLine(line)
    ensures var ended := line.text + if line.crlf then "\r" else "";
            '\n' !in ended && StripCr(ended) == line.text && ended + "\n" + rest == line.text + End(line.crlf) + rest
  {
    assert line.text + "" == line.text;
    if line.crlf {
      assert End(true) == "\r" + "\n";
    }
  }

  lemma SplitCrLfCons(ended: string, rest: string)
    requires Split(ended + "\n" + rest, "\n") == [ended] + Split(rest, "\n")
    ensures SplitCrLf(ended + "\n" + rest) == [StripCr(ended)] + SplitCrLf(rest)
  {
    var parts := Split(rest, "\n");
    hide Split, StripCr;
    assert Init([ended] + parts) == [ended] + Init(parts) && Last([ended] + parts) == Last(parts);
    assert StripAll([ended] + Init(parts)) == [StripCr(ended)] + StripAll(Init(parts));
  }

  /** A line moves the estimate once it has ended, as its marks say; a blank one doesn't, and what
      follows waits for its end. */
  lemma ConsumeLine(phase: Phase, progress: real, line: TextLine, last: string, g: Grammar)
    requires AreLines([line], last)
    ensures var e := Entry("", phase, progress);
            Consumed(e, Printed([line]) + last, g)
            == (if g.trim(line.text) == "" then e else AfterLine(e, g.marks(g.trim(line.text)))).(buffer := last)
    ensures Consumed(Entry("", phase, progress), last, g) == Entry(last, phase, progress)
  {
    var e := Entry("", phase, progress);
    SplitCrLfExact([line], last);
    SplitCrLfExact([], last);
    assert "" + (Printed([line]) + last) == Printed([line]) + last;
    assert "" + last == last == Printed([]) + last;
    hide SplitCrLf, Printed;
    assert Init(Texts([line]) + [last]) == [line.text];
    assert Init(Texts([]) + [last]) == [];
    assert AfterLines(e, [line.text], g) == AfterRawLine(e, line.text, g);
  }

  // --- Independence of chunking -----------------------------------------------------

  function Push(c: char, lines: seq<string>): seq<string>
    requires lines != []
  {
    [[c] + lines[0]] + lines[1..]
  }

  lemma SplitPush(c: char, text: string)
    requires c != '\n'
    ensures Split([c] + text, "\n") == Push(c, Split(text, "\n"))
  {
    var all := [c] + text;
    assert all[0] == c && all[1..] == text;
    assert all[0] != "\n"[0];
  }

  lemma SplitNewline(text: string)
    ensures Split("\n" + text, "\n") == [""] + Split(text, "\n")
  {
    assert ("\n" + text)[1..] == text;
  }

  /** The lines when `more` follows: only the last line is split again. */
  function Continued(lines: seq<string>, more: string): seq<string>
    requires lines != []
  {
    Init(lines) + Split(Last(lines) + more, "\n")
  }

  lemma PushContinued(c: char, lines: seq<string>, more: string)
    requires lines != [] && c != '\n'
    ensures Push(c, Continued(lines, more)) == Continued(Push(c, lines), more)
  {
    hide Split;
    var pushed := Push(c, lines);
    if |lines| == 1 {
      SplitPush(c, lines[0] + more);
      assert Last(pushed) + more == [c] + (lines[0] + more);
      assert Continued(lines, more) == Split(lines[0] + more, "\n");
      assert Continued(pushed, more) == Split([c] + (lines[0] + more), "\n");
    } else {
      assert Last(pushed) == Last(lines);
      assert Init(pushed) == Push(c, Init(lines));
    }
  }

  lemma {:induction false} SplitMore(text: string, more: string)
    ensures Split(text + more, "\n") == Continued(Split(text, "\n"), more)
  {
    if text == "" {
      assert text + more == more;
    } else {
      var c, rest := text[0], text[1..];
      SplitMore(rest, more);
      assert text == [c] + rest && text + more == [c] + (rest + more);
      hide Split;
      if c == '\n' {
        SplitNewline(rest);
        SplitNewline(rest + more);
      } else {
        SplitPush(c, rest);
        SplitPush(c, rest + more);
        PushContinued(c, Split(rest, "\n"), more);
      }
    }
  }

  lemma {:induction false} LinesAppend(e: Entry, xs: seq<string>, ys: seq<string>, g: Grammar)
    ensures AfterLines(e, xs + ys, g) == AfterLines(AfterLines(e, xs, g), ys, g)
    decreases |xs|
  {
    if xs == [] {
      assert xs + ys == ys;
    } else {
      assert (xs + ys)[1..] == xs[1..] + ys;
      LinesAppend(AfterRawLine(e, xs[0], g), xs[1..], ys, g);
    }
  }

  lemma {:induction false} LinesIgnoreBuffer(e: Entry, lines: seq<string>, buffer: string, g: Grammar)
    ensures AfterLines(e.(buffer := buffer), lines, g) == AfterLines(e, lines, g).(buffer := buffer)
    decreases |lines|
  {
    if lines != [] {
      LinesIgnoreBuffer(AfterRawLine(e, lines[0], g), lines[1..], buffer, g);
    }
  }

  /** Two chunks are like one, even when a carriage return and its newline arrive apart. */
  lemma ConsumeTwice(e: Entry, x: string, y: string, g: Grammar)
    ensures Consumed(Consumed(e, x, g), y, g) == Consumed(e, x + y, g)
  {
    var parts := Split(e.buffer + x, "\n");
    var more := Split(Last(parts) + y, "\n");
    SplitMore(e.buffer + x, y);
    assert e.buffer + (x + y) == e.buffer + x + y;
    hide Split, StripCr, AfterLines, SplitCrLf;
    var xs, ys := StripAll(Init(parts)), StripAll(Init(more));
    ConsumedLines(e, x, parts, g);
    ConsumedLines(Consumed(e, x, g), y, more, g);
    ConsumedLines(e, x + y, Init(parts) + more, g);
    hide Consumed;
    JoinedLines(parts, more);
    LinesIgnoreBuffer(AfterLines(e, xs, g), ys, Last(parts), g);
    LinesAppend(e, xs, ys, g);
  }

  lemma JoinedLines(parts: seq<string>, more: seq<string>)
    requires parts != [] && more != []
    ensures StripAll(Init(Init(parts) + more)) == StripAll(Init(parts)) + StripAll(Init(more))
    ensures Last(Init(parts) + more) == Last(more)
  {
    hide StripCr;
    assert Init(Init(parts) + more) == Init(parts) + Init(more);
  }

  lemma ConsumedLines(e: Entry, chunk: string, parts: seq<string>, g: Grammar)
    requires parts == Split(e.buffer + chunk, "\n")
    ensures Consumed(e, chunk, g) == AfterLines(e, StripAll(Init(parts)), g).(buffer := Last(parts))
  {
    var lines := SplitCrLf(e.buffer + chunk);
    assert Init(lines) == StripAll(Init(parts)) && Last(lines) == Last(parts);
  }

  function ConsumedAll(e: Entry, chunks: seq<string>, g: Grammar): Entry
    decreases |chunks|
  {
    if chunks == [] then e else ConsumedAll(Consumed(e, chunks[0], g), chunks[1..], g)
  }

  lemma {:induction false} ConsumeTogether(e: Entry, chunks: seq<string>, g: Grammar)
    requires chunks != []
    ensures ConsumedAll(e, chunks, g) == Consumed(e, Concat(chunks), g)
    decreases |chunks|
  {
    if |chunks| == 1 {
      assert Concat(chunks) == chunks[0];
    } else {
      ConsumeTogether(Consumed(e, chunks[0], g), chunks[1..], g);
      ConsumeTwice(e, chunks[0], Concat(chunks[1..]), g);
    }
  }

  /** However the output of an action is cut into chunks, the estimate ends up the same. */
  lemma ChunkingIrrelevant(chunks: seq<string>, others: seq<string>, g: Grammar)
    requires Concat(chunks) == Concat(others)
    ensures ConsumedAll(NEW_ENTRY, chunks, g) == ConsumedAll(NEW_ENTRY, others, g)
  {
    assert Consumed(NEW_ENTRY, "", g) == NEW_ENTRY;
    if chunks != [] {
      ConsumeTogether(NEW_ENTRY, chunks, g);
    }
    if others != [] {
      ConsumeTogether(NEW_ENTRY, others, g);
    }
  }

  // --- Estimates only grow ----------------------------------------------------------

  predicate Grows(e: Entry, e': Entry) {
    && Rank(e.phase) <= Rank(e'.phase)
    && e.progress <= e'.progress
    && (e.progress <= PROGRESS_CAP_WHILE_RUNNING ==> e'.progress <= PROGRESS_CAP_WHILE_RUNNING)
  }

  lemma {:induction false} LinesGrow(e: Entry, lines: seq<string>, g: Grammar)
    ensures Grows(e, AfterLines(e, lines, g))
    decreases |lines|
  {
    if lines != [] {
      LinesGrow(AfterRawLine(e, lines[0], g), lines[1..], g);
    }
  }

  /** Phase and progress never go down, and output alone never takes progress past the cap. */
  lemma ConsumeGrows(e: Entry, chunk: string, g: Grammar)
    ensures Grows(e, Consumed(e, chunk, g))
  {
    LinesGrow(e, Init(SplitCrLf(e.buffer + chunk)), g);
  }

  predicate SameEstimate(e: Entry, e': Entry) {
    e.phase == e'.phase && e.progress == e'.progress
  }

  lemma GrowsSame(e: Entry, e': Entry, e'': Entry)
    requires Grows(e, e') && Grows(e', e'')
    ensures SameEstimate(e, e'') <==> SameEstimate(e, e') && SameEstimate(e', e'')
  {
  }

  // --- The tracker ------------------------------------------------------------------

  function EntryOf(entries: map<string, Entry>, key: string): Entry {
    if key in entries then entries[key] else NEW_ENTRY
  }

  /** `applyLine`: the entry after one non-empty trimmed line, and whether it changed. */
  method ApplyLine(entry: Entry, m: LineMarks) returns (entry': Entry, changed: bool)
    ensures entry' == AfterLine(entry, m)
    ensures entry'.phase == entry.phase || Says(entry.phase, m, entry'.phase)
    ensures changed <==> !SameEstimate(entry, entry')
  {
    LineMeans(entry, m);
    entry', changed := entry, false;
    if entry'.phase == Preparing && m.git {
      entry', changed := entry'.(phase := Pulling), true;
    } else if (entry'.phase == Preparing || entry'.phase == Pulling) && m.dockerBuild {
      entry', changed := entry'.(phase := Building), true;
    }
    if m.step.Some? {
      var (current, total) := m.step.value;
      if current.Finite? && total.Finite? && total.n > 0 {
        if entry'.phase == Preparing || entry'.phase == Pulling {
          entry', changed := entry'.(phase := Building), true;
        }
        var ratio := Ratio(current.n, total.n);
        if ratio > entry'.progress {
          entry', changed := entry'.(progress := ratio), true;
        }
      }
    }
    if entry'.phase != Starting && m.deploying {
      if entry'.phase != Deploying {
        changed := true;
      }
      entry' := entry'.(phase := Deploying);
    }
    if m.starting && entry'.phase != Starting {
      entry', changed := entry'.(phase := Starting), true;
    }
  }

  method ApplyLines(entry: Entry, lines: seq<string>, g: Grammar) returns (entry': Entry, changed: bool)
    ensures entry' == AfterLines(entry, lines, g)
    ensures changed <==> !SameEstimate(entry, entry')
  {
    entry', changed := entry, false;
    assert lines[0..] == lines;
    for k := 0 to |lines|
      invariant Grows(entry, entry')
      invariant AfterLines(entry, lines, g) == AfterLines(entry', lines[k..], g)
      invariant changed <==> !SameEstimate(entry, entry')
    {
      assert lines[k..][1..] == lines[k + 1..];
      var line := g.trim(lines[k]);
      if line != "" {
        var next, moved := ApplyLine(entry', g.marks(line));
        GrowsSame(entry, entry', next);
        entry', changed := next, changed || moved;
      }
    }
  }

  class BuildProgressTracker {
    var entries: map<string, Entry>
    const grammar: Grammar

    constructor (grammar: Grammar)
      ensures entries == map[] && this.grammar == grammar
    {
      this.grammar := grammar;
      entries := map[];
    }

    /** Returns an update exactly when this chunk moved the estimate. */
    method Consume(key: string, chunk: string) returns (update: Option<Update>)
      modifies this
      ensures entries == old(entries)[key := Consumed(EntryOf(old(entries), key), chunk, grammar)]
      ensures EntryOf(old(entries), key) == if key in old(entries) then old(entries)[key] else Entry("", Preparing, 0.0)
      ensures update == if SameEstimate(EntryOf(old(entries), key), entries[key]) then None
                        else Some(Update(entries[key].phase, entries[key].progress))
    {
      hide AfterLines, SplitCrLf, StripAll, Split;
      var entry := EntryOf(entries, key);
      var lines := SplitCrLf(entry.buffer + chunk);
      var changed;
      entry, changed := ApplyLines(entry, Init(lines), grammar);
      var buffer := Last(lines);
      entry := entry.(buffer := buffer);
      entries := entries[key := entry];
      update := if changed then Some(Update(entry.phase, entry.progress)) else None;
    }

    /** Sets progress to 1 if `ok`; otherwise the key keeps the entry it had. */
    method Finish(key: string, ok: bool) returns (update: Update)
      modifies this
      ensures var e := EntryOf(old(entries), key);
              && entries == old(entries)[key := if ok then e.(progress := 1.0) else e]
              && update == Update(e.phase, if ok then 1.0 else e.progress)
    {
      var entry := EntryOf(entries, key);
      if ok {
        entry := entry.(progress := 1.0);
      }
      entries := entries[key := entry];
      update := Update(entry.phase, entry.progress);
    }

    method Reset(key: string)
      modifies this
      ensures entries == old(entries) - {key}
    {
      entries := entries - {key};
    }
  }
}
