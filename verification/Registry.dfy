/** The output side of `ActionRegistry` (src/modules/actions/registry.ts): raw output is
    queued, cut at newlines, masked, numbered, kept in a bounded window and logged.
    Every action carries a ghost history of its whole output, which the bounded state is
    proved to be a view of. */
module Registry {
  import opened Text
  import opened Options
  import opened SecretMask
  import opened Masking
  import opened OutputEvents

  const MAX_LOG_LENGTH := 262_144
  const MAX_MEMORY_CHUNK_BYTES := 262_144
  const PARTIAL_LINE_HOLD_MS := 1_000

  datatype Status = Running | Succeeded | Failed

  datatype ActionRecord = ActionRecord(id: nat, key: string, status: Status, log: string)

  /** `stream` is whether the log file could be opened and is not closed yet. */
  datatype OutputState = OutputState(
    next: nat, chunks: seq<Chunk>, chunkBytes: nat,
    pending: string, pendingSince: int, timer: bool,
    secrets: seq<string>, stream: bool)

  /** Everything an action was ever given and emitted: the raw output, and the raw text of
      each emitted chunk. `forced` is whether a partial line was ever sent before the end. */
  datatype History = History(key: string, secrets: seq<string>, logged: bool, raw: string, cuts: seq<string>, forced: bool)

  /** All chunks ever emitted. */
  function Emitted(h: History): seq<string> {
    MaskEach(h.cuts, h.secrets)
  }

  function TrimLog(log: string): string {
    if |log| <= MAX_LOG_LENGTH then log else log[|log| - MAX_LOG_LENGTH..]
  }

  /** The end of the output that a record keeps. */
  ghost predicate IsLogOf(log: string, all: string) {
    if |all| <= 262_144 then log == all else |log| == 262_144 && log == all[|all| - 262_144..]
  }

  lemma TrimIsLog(all: string)
    ensures IsLogOf(TrimLog(all), all)
  {
  }

  lemma CutTwice(x: string, k: nat, j: nat)
    requires k + j <= |x|
    ensures |x[k..]| == |x| - k && x[k..][j..] == x[k + j..]
  {
  }

  lemma LongLog(kept: string, all: string)
    requires |all| >= 262_144
    ensures IsLogOf(kept, all) <==> |kept| == 262_144 && kept == all[|all| - 262_144..]
  {
  }

  lemma LogOfEnd(all: string, k: nat, kept: string)
    requires k + 262_144 <= |all| && IsLogOf(kept, all[k..])
    ensures IsLogOf(kept, all)
  {
    hide IsLogOf;
    CutTwice(all, k, |all| - k - 262_144);
    LongLog(kept, all[k..]);
    LongLog(kept, all);
  }

  lemma LogUnique(all: string, kept: string, kept': string)
    requires IsLogOf(kept, all) && IsLogOf(kept', all)
    ensures kept == kept'
  {
  }

  lemma TrimmedThenMore(log: string, more: string)
    requires |log| > MAX_LOG_LENGTH
    ensures TrimLog(log) + more == (log + more)[|log| - MAX_LOG_LENGTH..]
  {
  }

  /** Trimming as output arrives keeps the end of the whole output, as trimming once would. */
  lemma TrimLogAppend(log: string, more: string)
    ensures TrimLog(TrimLog(log) + more) == TrimLog(log + more)
    ensures IsLogOf(TrimLog(TrimLog(log) + more), log + more)
  {
    var kept := TrimLog(TrimLog(log) + more);
    TrimIsLog(log + more);
    TrimIsLog(TrimLog(log) + more);
    if |log| > MAX_LOG_LENGTH {
      TrimmedThenMore(log, more);
      hide TrimLog, IsLogOf;
      LogOfEnd(log + more, |log| - MAX_LOG_LENGTH, kept);
      LogUnique(log + more, kept, TrimLog(log + more));
    } else {
      hide IsLogOf;
    }
  }

  // --- The window -------------------------------------------------------------------

  function Bytes(chunks: seq<Chunk>): nat {
    if chunks == [] then 0 else |chunks[0].data| + Bytes(chunks[1..])
  }

  lemma {:induction false} BytesSnoc(chunks: seq<Chunk>, c: Chunk)
    ensures Bytes(chunks + [c]) == Bytes(chunks) + |c.data|
  {
    if chunks == [] {
      assert chunks + [c] == [c];
    } else {
      assert (chunks + [c])[1..] == chunks[1..] + [c];
      BytesSnoc(chunks[1..], c);
    }
  }

  function FirstSeq(s: OutputState): nat {
    if |s.chunks| > 0 then s.chunks[0].seqNo else s.next
  }

  /** The window is the newest chunks, numbered without a gap up to `next`, within the memory
      cap unless a single chunk is larger, and never shorter than the cap requires. */
  ghost predicate WindowOf(s: OutputState, all: seq<string>) {
    && s.next == |all|
    && FirstSeq(s) <= |all|
    && s.chunks == Numbered(all, FirstSeq(s))
    && (s.next > 0 ==> |s.chunks| > 0)
    && s.chunkBytes == Bytes(s.chunks)
    && (s.chunkBytes <= MAX_MEMORY_CHUNK_BYTES || |s.chunks| == 1)
    && (FirstSeq(s) > 0 ==> s.chunkBytes + |all[FirstSeq(s) - 1]| > MAX_MEMORY_CHUNK_BYTES)
  }

  /** Nothing appended is lost or repeated: it was emitted, or it is pending. */
  ghost predicate Conserved(s: OutputState, h: History) {
    Concat(h.cuts) + s.pending == h.raw
  }

  /** A timer is set exactly when there is pending output for it to flush. */
  predicate Armed(s: OutputState) {
    s.timer <==> s.pending != ""
  }

  ghost predicate OutputOf(s: OutputState, h: History, log: string) {
    && WindowOf(s, Emitted(h))
    && Conserved(s, h)
    && s.secrets == h.secrets
    && log == TrimLog(Concat(Emitted(h)))
  }

  /** While running, every chunk ends a line unless a partial line was forced out; the last
      chunk of a finished action may not. */
  ghost predicate CutsAllowed(h: History, running: bool) {
    !h.forced ==> CutAtNewlines(h.cuts) && (running ==> forall i :: 0 <= i < |h.cuts| ==> EndsLine(h.cuts[i]))
  }

  function LastNewline(text: string): (k: int)
    ensures -1 <= k < |text|
    ensures k >= 0 ==> text[k] == '\n'
    ensures forall i :: k < i < |text| ==> text[i] != '\n'
  {
    if text == "" then -1
    else if text[|text| - 1] == '\n' then |text| - 1
    else LastNewline(text[..|text| - 1])
  }

  /** A chunk of raw text moves from pending to emitted. */
  function Cut(h: History, text: string, forced: bool): History {
    h.(cuts := h.cuts + [text], forced := h.forced || forced)
  }

  lemma EmittedCut(h: History, text: string, forced: bool)
    ensures Emitted(Cut(h, text, forced)) == Emitted(h) + [MaskAll(text, h.secrets)]
    ensures Concat(Cut(h, text, forced).cuts) == Concat(h.cuts) + text
    ensures Concat(Emitted(Cut(h, text, forced))) == Concat(Emitted(h)) + MaskAll(text, h.secrets)
  {
    ConcatSnoc(h.cuts, text);
    assert Emitted(Cut(h, text, forced)) == Emitted(h) + [MaskAll(text, h.secrets)];
    ConcatSnoc(Emitted(h), MaskAll(text, h.secrets));
  }

  /** Pushes a chunk and evicts the oldest ones past the memory cap. */
  method PushChunk(s: OutputState, data: string, ghost all: seq<string>) returns (s': OutputState)
    requires WindowOf(s, all)
    ensures WindowOf(s', all + [data])
    ensures s' == s.(next := s'.next, chunks := s'.chunks, chunkBytes := s'.chunkBytes)
  {
    var chunk := Chunk(s.next, data);
    var chunks, bytes := s.chunks + [chunk], s.chunkBytes + |data|;
    BytesSnoc(s.chunks, chunk);
    ghost var all' := all + [data];
    ghost var first := FirstSeq(s);
    NumberedSnoc(all, data, first);
    hide Numbered, Bytes;
    while bytes > MAX_MEMORY_CHUNK_BYTES && |chunks| > 1
      invariant |chunks| == |all'| - first > 0
      invariant chunks == Numbered(all', first)
      invariant bytes == Bytes(chunks)
      invariant first > 0 ==> bytes + |all'[first - 1]| > MAX_MEMORY_CHUNK_BYTES
    {
      EvictOne(all', first);
      bytes := bytes - |chunks[0].data|;
      chunks := chunks[1..];
      first := first + 1;
    }
    s' := s.(next := s.next + 1, chunks := chunks, chunkBytes := bytes);
    NumberedFirst(all', first);
  }

  lemma NumberedSnoc(all: seq<string>, data: string, first: nat)
    requires first <= |all|
    ensures Numbered(all + [data], first) == Numbered(all, first) + [Chunk(|all|, data)]
    ensures first > 0 ==> (all + [data])[first - 1] == all[first - 1]
  {
    var chunks := Numbered(all, first) + [Chunk(|all|, data)];
    assert |Numbered(all + [data], first)| == |chunks|;
    forall i | 0 <= i < |chunks|
      ensures chunks[i] == Chunk(first + i, (all + [data])[first + i])
    {
    }
    hide Numbered;
  }

  lemma NumberedFirst(all: seq<string>, first: nat)
    requires first < |all|
    ensures |Numbered(all, first)| == |all| - first && Numbered(all, first)[0] == Chunk(first, all[first])
  {
  }

  lemma EvictOne(all: seq<string>, first: nat)
    requires first < |all|
    ensures var chunks := Numbered(all, first);
            && |chunks| == |all| - first && chunks[0] == Chunk(first, all[first])
            && chunks[1..] == Numbered(all, first + 1)
            && Bytes(chunks) == |all[first]| + Bytes(chunks[1..])
  {
    NumberedFirst(all, first);
    NumberedCons(all, first);
    var chunks, rest := Numbered(all, first), Numbered(all, first + 1);
    assert chunks == [chunks[0]] + rest && ([chunks[0]] + rest)[1..] == rest;
    hide Numbered;
  }

  function FilterFrom(chunks: seq<Chunk>, fromSeq: nat): seq<Chunk> {
    if chunks == [] then []
    else (if chunks[0].seqNo >= fromSeq then [chunks[0]] else []) + FilterFrom(chunks[1..], fromSeq)
  }

  lemma FilterCons(c: Chunk, rest: seq<Chunk>, fromSeq: nat)
    ensures FilterFrom([c] + rest, fromSeq) == (if c.seqNo >= fromSeq then [c] else []) + FilterFrom(rest, fromSeq)
  {
    assert ([c] + rest)[1..] == rest;
  }

  lemma NumberedCons(all: seq<string>, first: nat)
    requires first < |all|
    ensures Numbered(all, first) == [Chunk(first, all[first])] + Numbered(all, first + 1)
  {
    var rest := Numbered(all, first + 1);
    var chunks := [Chunk(first, all[first])] + rest;
    assert |Numbered(all, first)| == |chunks|;
    forall i | 0 <= i < |chunks|
      ensures chunks[i] == Chunk(first + i, all[first + i])
    {
      if i > 0 {
        assert chunks[i] == rest[i - 1];
      }
    }
    hide Numbered;
  }

  lemma {:induction false} FilterNumbered(all: seq<string>, first: nat, fromSeq: nat)
    requires first <= |all|
    ensures FilterFrom(Numbered(all, first), fromSeq) == Numbered(all, if fromSeq >= first then fromSeq else first)
    decreases |all| - first
  {
    hide FilterFrom, Numbered;
    if first < |all| {
      FilterNumbered(all, first + 1, fromSeq);
      NumberedCons(all, first);
      FilterCons(Chunk(first, all[first]), Numbered(all, first + 1), fromSeq);
    } else {
      FilterNothing(all, fromSeq);
    }
  }

  lemma FilterNothing(all: seq<string>, fromSeq: nat)
    ensures FilterFrom(Numbered(all, |all|), fromSeq) == [] == Numbered(all, if fromSeq >= |all| then fromSeq else |all|)
  {
  }

  // --- Flushing ---------------------------------------------------------------------

  datatype Decision = Nothing | Hold | Emit(text: string, rest: string, forced: bool)

  /** What a flush does with the pending text: up to the last newline goes out, a partial
      line waits for a while, and at the end everything goes out. */
  function Decide(pending: string, held: int, final: bool): (d: Decision)
    ensures d.Emit? ==> d.text != "" && d.text + d.rest == pending
    ensures d.Emit? && !d.forced && !final ==> EndsLine(d.text)
    ensures final ==> !d.Hold? && (d.Emit? ==> d.rest == "")
    ensures d.Nothing? <==> pending == ""
    ensures d.Emit? && d.forced <==> pending != "" && !final && held >= PARTIAL_LINE_HOLD_MS && '\n' !in pending
    ensures d.Hold? <==> pending != "" && !final && held < PARTIAL_LINE_HOLD_MS && '\n' !in pending
    ensures d.Emit? ==> '\n' !in d.rest
  {
    if pending == "" then Nothing
    else if final then Emit(pending, "", false)
    else
      var k := LastNewline(pending);
      if k < 0 then
        if held < PARTIAL_LINE_HOLD_MS then Hold else Emit(pending, "", true)
      else Emit(pending[..k + 1], pending[k + 1..], false)
  }

  function FlushedHistory(h: History, pending: string, held: int, final: bool): History {
    match Decide(pending, held, final)
    case Emit(text, _, forced) => Cut(h, text, forced)
    case _ => h
  }

  /** What attached clients are sent when the history grows from `h` to `h'`. */
  ghost function Sent(h: History, h': History): Option<OutputEvent> {
    if |h.cuts| < |h'.cuts| then Some(Live(Emitted(h'), |h.cuts|)) else None
  }

  lemma SentLive(h: History, text: string, forced: bool)
    ensures Sent(h, Cut(h, text, forced))
         == Some(OutputEvent([Chunk(|Emitted(h)|, MaskAll(text, h.secrets))], None, |Emitted(h)| + 1, false))
  {
    EmittedCut(h, text, forced);
  }

  /** When the output still pending after a flush began to wait. */
  ghost function Since(s: OutputState, now: int, final: bool): int {
    match Decide(s.pending, now - s.pendingSince, final)
    case Emit(_, rest, _) => if rest != "" then now else s.pendingSince
    case _ => s.pendingSince
  }

  /** After a flush the bounded output, the record's log and the log file are those of the history
      that `Decide` leaves. */
  method FlushOutput(s: OutputState, ghost h: History, log: string, file: Option<string>, final: bool, now: int)
    returns (s': OutputState, log': string, file': Option<string>, sent: Option<OutputEvent>)
    requires OutputOf(s, h, log)
    requires s.stream ==> file == Some(Concat(Emitted(h)))
    ensures sent == Sent(h, FlushedHistory(h, s.pending, now - s.pendingSince, final))
    ensures s'.pendingSince == Since(s, now, final)
    ensures var h' := FlushedHistory(h, s.pending, now - s.pendingSince, final);
            OutputOf(s', h', log') && file' == if s.stream then Some(Concat(Emitted(h'))) else file
    ensures s'.stream == s.stream && (final ==> s'.pending == "") && Armed(s')
  {
    hide OutputOf, WindowOf, Emitted, Concat, Numbered, Bytes, TrimLog, MaskAll, Live, Cut;
    s', log', file', sent := s.(timer := false), log, file, None;
    OutputIgnores(s, s', h, log);
    var decision := Decide(s.pending, now - s.pendingSince, final);
    match decision
    case Nothing =>
    case Hold =>
      s' := s'.(timer := true);
      OutputIgnores(s, s', h, log);
    case Emit(text, rest, forced) =>
      s' := s'.(pending := rest);
      if rest != "" {
        s' := s'.(pendingSince := now, timer := true);
      }
      OutputCut(s, s', h, log, text);
      s', log', file', sent := EmitText(s', h, log, file, text, forced);
  }

  lemma OutputIgnores(s: OutputState, s': OutputState, h: History, log: string)
    requires OutputOf(s, h, log) && s' == s.(timer := s'.timer)
    ensures OutputOf(s', h, log)
  {
    hide Emitted, Concat, TrimLog;
    WindowIgnores(s, s', Emitted(h));
  }

  /** What is left of the pending text when `text` is taken from it. */
  lemma OutputCut(s: OutputState, s': OutputState, h: History, log: string, text: string)
    requires OutputOf(s, h, log) && s.pending == text + s'.pending
    requires s' == s.(pending := s'.pending, pendingSince := s'.pendingSince, timer := s'.timer)
    ensures WindowOf(s', Emitted(h)) && s'.secrets == h.secrets && log == TrimLog(Concat(Emitted(h)))
    ensures (Concat(h.cuts) + text) + s'.pending == h.raw
  {
    hide Emitted, Concat, TrimLog, WindowOf;
    WindowIgnores(s, s', Emitted(h));
    Regrouped(Concat(h.cuts), text, s'.pending);
  }

  lemma Regrouped(x: string, y: string, z: string)
    ensures x + (y + z) == (x + y) + z
  {
  }

  method EmitText(s: OutputState, ghost h: History, log: string, file: Option<string>, text: string, ghost forced: bool)
    returns (s': OutputState, log': string, file': Option<string>, sent: Option<OutputEvent>)
    requires WindowOf(s, Emitted(h)) && s.secrets == h.secrets && log == TrimLog(Concat(Emitted(h)))
    requires (Concat(h.cuts) + text) + s.pending == h.raw
    requires s.stream ==> file == Some(Concat(Emitted(h)))
    ensures OutputOf(s', Cut(h, text, forced), log')
    ensures file' == if s.stream then Some(Concat(Emitted(Cut(h, text, forced)))) else file
    ensures s' == s.(next := s'.next, chunks := s'.chunks, chunkBytes := s'.chunkBytes)
    ensures sent == Sent(h, Cut(h, text, forced))
  {
    SentLive(h, text, forced);
    assert s.next == |Emitted(h)|;
    hide WindowOf, Emitted, Concat, MaskAll, Live;
    var data := MaskAll(text, s.secrets);
    EmittedCut(h, text, forced);
    TrimLogAppend(Concat(Emitted(h)), data);
    hide TrimLog;
    s' := PushChunk(s, data, Emitted(h));
    log' := TrimLog(log + data);
    file' := if s.stream then Some(file.value + data) else file;
    sent := Some(OutputEvent([Chunk(s.next, data)], None, s.next + 1, false));
  }

  lemma WindowIgnores(s: OutputState, s': OutputState, all: seq<string>)
    requires WindowOf(s, all)
    requires s'.next == s.next && s'.chunks == s.chunks && s'.chunkBytes == s.chunkBytes
    ensures WindowOf(s', all)
  {
  }

  lemma FlushedCuts(h: History, pending: string, held: int, final: bool)
    requires CutsAllowed(h, true)
    ensures CutsAllowed(FlushedHistory(h, pending, held, final), !final)
  {
  }

  // --- The whole registry -----------------------------------------------------------

  /** The registry's maps: slots, in-memory output, log files on disk, and the ghost history
      of every action ever started. */
  datatype State = State(
    actions: map<string, ActionRecord>, outputs: map<nat, OutputState>, files: map<nat, string>,
    histories: map<nat, History>)

  function File(st: State, id: nat): Option<string> {
    if id in st.files then Some(st.files[id]) else None
  }

  /** The slot action `id` was started in still holds its record. */
  ghost predicate Owned(st: State, id: nat) {
    && id in st.histories
    && st.histories[id].key in st.actions
    && st.actions[st.histories[id].key].id == id
  }

  ghost predicate IsRunning(st: State, id: nat) {
    Owned(st, id) && st.actions[st.histories[id].key].status == Running
  }

  ghost predicate SlotOk(st: State, key: string) {
    key in st.actions ==>
      var r := st.actions[key];
      && r.key == key && r.id in st.histories && st.histories[r.id].key == key
      && (r.status == Running ==> r.id in st.outputs)
  }

  /** The bounded state of a current action is a view of its history. */
  ghost predicate ViewOf(s: OutputState, h: History, r: ActionRecord, file: Option<string>) {
    && OutputOf(s, h, r.log)
    && Armed(s)
    && (r.status != Running ==> s.pending == "" && !s.stream)
    && (r.status == Running ==> s.stream == h.logged && (h.logged ==> file.Some?))
  }

  ghost predicate OutputOk(st: State, id: nat) {
    id in st.outputs ==>
      Owned(st, id) && ViewOf(st.outputs[id], st.histories[id], st.actions[st.histories[id].key], File(st, id))
  }

  ghost predicate HistoryFits(h: History, running: bool, file: Option<string>) {
    && CutsAllowed(h, running)
    && (!running ==> Concat(h.cuts) == h.raw)
    && (file.Some? ==> h.logged && file.value == Concat(Emitted(h)))
  }

  ghost predicate HistoryOk(st: State, id: nat) {
    if id in st.histories then HistoryFits(st.histories[id], IsRunning(st, id), File(st, id)) else id !in st.files
  }

  ghost predicate Consistent(st: State) {
    && (forall key :: SlotOk(st, key))
    && (forall id :: OutputOk(st, id))
    && (forall id :: HistoryOk(st, id))
  }

  /** A free slot taken by a fresh action. */
  function Started(st: State, key: string, id: nat, secrets: seq<string>, logOpen: bool): State {
    State(
      st.actions[key := ActionRecord(id, key, Running, "")],
      (if key in st.actions then st.outputs - {st.actions[key].id} else st.outputs)
      [id := OutputState(0, [], 0, "", 0, false, secrets, logOpen)],
      if logOpen then st.files[id := ""] else st.files,
      st.histories[id := History(key, secrets, logOpen, "", [], false)])
  }

  lemma NewOutput(key: string, id: nat, secrets: seq<string>, logOpen: bool)
    ensures var h, file := History(key, secrets, logOpen, "", [], false), if logOpen then Some("") else None;
            && ViewOf(OutputState(0, [], 0, "", 0, false, secrets, logOpen), h, ActionRecord(id, key, Running, ""), file)
            && HistoryFits(h, true, file)
  {
  }

  lemma StartedConsistent(st: State, key: string, id: nat, secrets: seq<string>, logOpen: bool)
    requires Consistent(st) && id !in st.histories
    requires key in st.actions ==> st.actions[key].status != Running
    ensures Consistent(Started(st, key, id, secrets, logOpen))
  {
    hide ViewOf, HistoryFits;
    var st' := Started(st, key, id, secrets, logOpen);
    NewOutput(key, id, secrets, logOpen);
    assert HistoryOk(st, id) && SlotOk(st, key);
    forall k
      ensures SlotOk(st', k)
    {
      assert SlotOk(st, k);
    }
    forall i
      ensures OutputOk(st', i)
    {
      assert OutputOk(st, i);
    }
    forall i
      ensures HistoryOk(st', i)
    {
      assert HistoryOk(st, i);
      assert i != id && i in st.histories ==> (IsRunning(st', i) <==> IsRunning(st, i));
    }
  }

  /** One action's record, output state, history and log file replaced. */
  function Updated(st: State, id: nat, s: OutputState, h: History, r: ActionRecord, file: Option<string>): State {
    State(
      st.actions[h.key := r], st.outputs[id := s],
      if file.Some? then st.files[id := file.value] else st.files, st.histories[id := h])
  }

  lemma UpdatedConsistent(st: State, id: nat, s: OutputState, h: History, r: ActionRecord, file: Option<string>)
    requires Consistent(st) && Owned(st, id)
    requires h.key == r.key == st.histories[id].key && r.id == id
    requires ViewOf(s, h, r, file) && HistoryFits(h, r.status == Running, file)
    requires file.None? ==> id !in st.files
    ensures Consistent(Updated(st, id, s, h, r, file))
  {
    hide ViewOf, HistoryFits;
    var st' := Updated(st, id, s, h, r, file);
    forall k
      ensures SlotOk(st', k)
    {
      assert SlotOk(st, k);
    }
    forall i
      ensures OutputOk(st', i)
    {
      assert OutputOk(st, i);
    }
    forall i
      ensures HistoryOk(st', i)
    {
      assert HistoryOk(st, i);
      assert i != id && i in st.histories ==> (IsRunning(st', i) <==> IsRunning(st, i));
    }
  }

  function AddRaw(h: History, message: string): History {
    h.(raw := h.raw + message)
  }

  /** Output waits from the moment the oldest of it arrived. */
  ghost function Queued(s: OutputState, message: string, now: int): OutputState {
    s.(pending := s.pending + message, pendingSince := if s.pending == "" then now else s.pendingSince, timer := true)
  }

  ghost function HistoryOf(histories: map<nat, History>, id: nat): History {
    if id in histories then histories[id] else History("", [], false, "", [], false)
  }

  lemma FlushedKey(h: History, pending: string, held: int, final: bool)
    ensures FlushedHistory(h, pending, held, final).key == h.key
  {
  }

  lemma FinalIgnoresHeld(h: History, pending: string, held: int)
    ensures FlushedHistory(h, pending, held, true) == FlushedHistory(h, pending, 0, true)
  {
  }

  lemma ViewParts(s: OutputState, h: History, r: ActionRecord, file: Option<string>)
    requires ViewOf(s, h, r, file) && HistoryFits(h, r.status == Running, file)
    ensures OutputOf(s, h, r.log)
    ensures s.stream ==> file == Some(Concat(Emitted(h)))
  {
  }

  lemma FlushedView(s: OutputState, h: History, r: ActionRecord, file: Option<string>,
                    s': OutputState, log': string, file': Option<string>, held: int)
    requires ViewOf(s, h, r, file) && HistoryFits(h, r.status == Running, file)
    requires var h' := FlushedHistory(h, s.pending, held, false);
             OutputOf(s', h', log') && file' == if s.stream then Some(Concat(Emitted(h'))) else file
    requires s'.stream == s.stream && Armed(s')
    ensures var h' := FlushedHistory(h, s.pending, held, false);
            && (r.status != Running ==> h' == h)
            && ViewOf(s', h', r.(log := log'), file') && HistoryFits(h', r.status == Running, file')
  {
    hide WindowOf, Emitted;
    if r.status == Running {
      FlushedCuts(h, s.pending, held, false);
    }
  }

  lemma FinishedView(s: OutputState, h: History, r: ActionRecord, file: Option<string>,
                     s': OutputState, log': string, file': Option<string>, held: int, ok: bool)
    requires CutsAllowed(h, true) && (file.Some? ==> h.logged)
    requires s.stream == h.logged && (!h.logged ==> file.None?)
    requires var h' := FlushedHistory(h, s.pending, held, true);
             OutputOf(s', h', log') && file' == if s.stream then Some(Concat(Emitted(h'))) else file
    requires s'.pending == "" && Armed(s')
    ensures var h' := FlushedHistory(h, s.pending, held, true);
            var r' := r.(status := if ok then Succeeded else Failed, log := log');
            ViewOf(s'.(stream := false), h', r', file') && HistoryFits(h', false, file')
  {
    hide WindowOf, Emitted, Concat;
    var h' := FlushedHistory(h, s.pending, held, true);
    WindowIgnores(s', s'.(stream := false), Emitted(h'));
    FlushedCuts(h, s.pending, held, true);
  }

  /** The output an action without streamed output ends with is queued as its only output. */
  function LastOutput(s: OutputState, output: Option<string>): string {
    if s.next == 0 && s.pending == "" && output.Some? then output.value else ""
  }

  method FlushRecord(s: OutputState, ghost h: History, record: ActionRecord, file: Option<string>, now: int)
    returns (s': OutputState, r': ActionRecord, file': Option<string>, sent: Option<OutputEvent>)
    requires ViewOf(s, h, record, file) && HistoryFits(h, record.status == Running, file)
    ensures r' == record.(log := r'.log)
    ensures var h' := FlushedHistory(h, s.pending, now - s.pendingSince, false);
            ViewOf(s', h', r', file') && HistoryFits(h', r'.status == Running, file')
            && sent == Sent(h, h') && s'.pendingSince == Since(s, now, false)
    ensures file'.Some? <==> file.Some?
  {
    hide Decide, Emitted, WindowOf, OutputOf, Concat, FlushedHistory, Sent, Since, ViewOf, HistoryFits, Armed;
    ViewParts(s, h, record, file);
    var log';
    s', log', file', sent := FlushOutput(s, h, record.log, file, false, now);
    FlushedView(s, h, record, file, s', log', file', now - s.pendingSince);
    r' := record.(log := log');
  }

  method FinishOutput(s: OutputState, ghost h: History, record: ActionRecord, file: Option<string>,
                      ok: bool, output: Option<string>, now: int)
    returns (s': OutputState, r': ActionRecord, file': Option<string>, ghost h': History, sent: Option<OutputEvent>)
    requires ViewOf(s, h, record, file) && record.status == Running && HistoryFits(h, true, file)
    ensures r' == record.(status := if ok then Succeeded else Failed, log := r'.log)
    ensures h' == FlushedHistory(AddRaw(h, LastOutput(s, output)), s.pending + LastOutput(s, output), 0, true) && h'.key == h.key
    ensures ViewOf(s', h', r', file') && HistoryFits(h', false, file')
    ensures file'.Some? <==> file.Some?
    ensures sent == Sent(h, h')
  {
    var last := LastOutput(s, output);
    var queued := s.(pending := s.pending + last);
    ghost var h1, held := AddRaw(h, last), now - queued.pendingSince;
    LastOutputView(s, h, record, file, queued, last);
    hide Decide, Emitted, WindowOf, OutputOf, Concat, FlushedHistory;
    var log';
    s', log', file', sent := FlushOutput(queued, h1, record.log, file, true, now);
    FinishedView(queued, h1, record, file, s', log', file', held, ok);
    FinalIgnoresHeld(h1, queued.pending, held);
    FlushedKey(h1, queued.pending, held, true);
    s' := s'.(stream := false);
    r' := record.(status := if ok then Succeeded else Failed, log := log');
    h' := FlushedHistory(h1, queued.pending, held, true);
  }

  lemma RemovedConsistent(st: State, id: nat)
    requires Consistent(st) && !IsRunning(st, id)
    ensures Consistent(st.(files := st.files - {id}))
  {
    hide OutputOf, CutsAllowed;
    var st' := st.(files := st.files - {id});
    forall k
      ensures SlotOk(st', k)
    {
      assert SlotOk(st, k);
    }
    forall i
      ensures OutputOk(st', i)
    {
      assert OutputOk(st, i);
    }
    forall i
      ensures HistoryOk(st', i)
    {
      assert HistoryOk(st, i);
      assert IsRunning(st', i) <==> IsRunning(st, i);
    }
  }

  lemma WindowReplay(s: OutputState, all: seq<string>, fromSeq: nat)
    requires WindowOf(s, all) && fromSeq >= FirstSeq(s)
    ensures FilterFrom(s.chunks, fromSeq) == Numbered(all, fromSeq)
  {
    FilterNumbered(all, FirstSeq(s), fromSeq);
  }

  /** All that is pending, and the final output if nothing was streamed, becomes the last chunk. */
  ghost function FinishedHistory(h: History, outputs: map<nat, OutputState>, id: nat, output: Option<string>): History {
    if id !in outputs then h
    else
      var last := LastOutput(outputs[id], output);
      FlushedHistory(AddRaw(h, last), outputs[id].pending + last, 0, true)
  }

  lemma LastOutputView(s: OutputState, h: History, r: ActionRecord, file: Option<string>, s': OutputState, last: string)
    requires ViewOf(s, h, r, file) && r.status == Running && HistoryFits(h, true, file)
    requires s' == s.(pending := s.pending + last)
    requires last != "" ==> s.pending == ""
    ensures var h' := AddRaw(h, last);
            && OutputOf(s', h', r.log)
            && (s'.stream ==> file == Some(Concat(Emitted(h'))))
  {
    hide WindowOf, Concat, TrimLog;
    SameEmitted(h, AddRaw(h, last));
    hide Emitted;
    WindowIgnores(s, s', Emitted(h));
    Regrouped(Concat(h.cuts), s.pending, last);
  }

  lemma AppendedView(s: OutputState, h: History, r: ActionRecord, file: Option<string>, s': OutputState, message: string)
    requires ViewOf(s, h, r, file) && r.status == Running && HistoryFits(h, true, file)
    requires s' == s.(pending := s.pending + message, pendingSince := s'.pendingSince, timer := true) && message != ""
    ensures var h' := AddRaw(h, message);
            ViewOf(s', h', r, file) && HistoryFits(h', true, file)
  {
    hide WindowOf, Concat, TrimLog;
    var h' := AddRaw(h, message);
    SameEmitted(h, h');
    hide Emitted;
    WindowIgnores(s, s', Emitted(h));
    Regrouped(Concat(h.cuts), s.pending, message);
  }

  // --- Calls ------------------------------------------------------------------------

  datatype Call =
    | Start(key: string, id: nat, secrets: seq<string>, logOpen: bool)
    | Queue(key: string, message: string, now: int)
    | FlushTimer(key: string, id: nat, now: int)
    | End(key: string, ok: bool, output: Option<string>, now: int)
    | DeleteLog(id: nat)

  predicate SlotRuns(st: State, key: string) {
    key in st.actions && st.actions[key].status == Running
  }

  /** Action `id` has history `h` and, but for its log, record `r`; nothing else changed. The
      output state and the logs are whatever that history makes them. */
  ghost predicate OnlyAction(st: State, id: nat, h: History, r: ActionRecord, st': State) {
    && id in st'.outputs && h.key in st'.actions && st'.files.Keys == st.files.Keys
    && st' == Updated(st, id, st'.outputs[id], h, r.(log := st'.actions[h.key].log), File(st', id))
  }

  /** Every change a call of the registry can make. */
  ghost predicate Called(st: State, call: Call, st': State) {
    && Consistent(st')
    && match call
       case Start(key, id, secrets, logOpen) =>
         id !in st.histories && st' == if SlotRuns(st, key) then st else Started(st, key, id, secrets, logOpen)
       case Queue(key, message, now) =>
         if !SlotRuns(st, key) || message == "" then st' == st
         else
           var id := st.actions[key].id;
           && id in st.outputs && id in st.histories
           && st' == QueuedState(st, id, message, now)
       case FlushTimer(key, id, now) =>
         && id in st.histories && st.histories[id].key == key
         && if id !in st.outputs then st' == st
            else
              var s, h := st.outputs[id], st.histories[id];
              && key in st.actions
              && OnlyAction(st, id, FlushedHistory(h, s.pending, now - s.pendingSince, false), st.actions[key], st')
              && st'.outputs[id].pendingSince == Since(s, now, false)
       case End(key, ok, output, now) =>
         if !SlotRuns(st, key) then st' == st
         else
           var r := st.actions[key];
           && r.id in st.histories
           && OnlyAction(st, r.id, FinishedHistory(st.histories[r.id], st.outputs, r.id, output),
                         r.(status := if ok then Succeeded else Failed), st')
       case DeleteLog(id) => !IsRunning(st, id) && st' == st.(files := st.files - {id})
  }

  /** What a change of the registry sends to the clients attached to action `id`. */
  ghost function SentTo(st: State, st': State, id: nat): Option<OutputEvent> {
    if id in st.histories && id in st'.histories then Sent(st.histories[id], st'.histories[id]) else None
  }

  lemma UpdatedIsOnly(st: State, id: nat, s: OutputState, h: History, r: ActionRecord, file: Option<string>)
    requires file.Some? <==> id in st.files
    ensures OnlyAction(st, id, h, r, Updated(st, id, s, h, r, file))
  {
  }

  /** The state after a call that queues output. */
  ghost function QueuedState(st: State, id: nat, message: string, now: int): State
    requires id in st.outputs && id in st.histories
  {
    State(st.actions, st.outputs[id := Queued(st.outputs[id], message, now)], st.files,
          st.histories[id := AddRaw(st.histories[id], message)])
  }

  lemma QueueIsCalled(st: State, key: string, message: string, now: int)
    requires Consistent(st)
    ensures !SlotRuns(st, key) || message == "" ==> Called(st, Queue(key, message, now), st)
    ensures SlotRuns(st, key) && message != "" ==>
              var id := st.actions[key].id;
              && id in st.outputs && id in st.histories
              && Consistent(QueuedState(st, id, message, now))
              && Called(st, Queue(key, message, now), QueuedState(st, id, message, now))
  {
    if SlotRuns(st, key) && message != "" {
      var r := st.actions[key];
      assert SlotOk(st, key);
      assert OutputOk(st, r.id) && HistoryOk(st, r.id);
      var s, h, file := st.outputs[r.id], st.histories[r.id], File(st, r.id);
      hide Consistent;
      AppendedView(s, h, r, file, Queued(s, message, now), message);
      hide ViewOf, HistoryFits;
      UpdatedConsistent(st, r.id, Queued(s, message, now), AddRaw(h, message), r, file);
      UpdatedQueued(st, r, message, now);
    }
  }

  lemma UpdatedQueued(st: State, r: ActionRecord, message: string, now: int)
    requires r.id in st.outputs && r.id in st.histories && st.histories[r.id].key in st.actions
    requires st.actions[st.histories[r.id].key] == r
    ensures Updated(st, r.id, Queued(st.outputs[r.id], message, now), AddRaw(st.histories[r.id], message), r, File(st, r.id))
         == QueuedState(st, r.id, message, now)
  {
  }

  lemma FlushIsCalled(st: State, key: string, id: nat, now: int, s': OutputState, r': ActionRecord, file': Option<string>)
    requires id in st.outputs && id in st.histories && st.histories[id].key == key && key in st.actions
    requires r' == st.actions[key].(log := r'.log) && (file'.Some? <==> id in st.files)
    requires s'.pendingSince == Since(st.outputs[id], now, false)
    ensures var h' := FlushedHistory(st.histories[id], st.outputs[id].pending, now - st.outputs[id].pendingSince, false);
            var st' := Updated(st, id, s', h', r', file');
            && (Consistent(st') ==> Called(st, FlushTimer(key, id, now), st'))
            && SentTo(st, st', id) == Sent(st.histories[id], h')
  {
    var h' := FlushedHistory(st.histories[id], st.outputs[id].pending, now - st.outputs[id].pendingSince, false);
    FlushedKey(st.histories[id], st.outputs[id].pending, now - st.outputs[id].pendingSince, false);
    UpdatedIsOnly(st, id, s', h', r', file');
    hide Consistent, OnlyAction, FlushedHistory, Since, Sent;
  }

  lemma NoFlush(st: State, key: string, id: nat, now: int)
    requires Consistent(st) && id in st.histories && st.histories[id].key == key && id !in st.outputs
    ensures Called(st, FlushTimer(key, id, now), st) && SentTo(st, st, id) == None
  {
    hide Consistent;
  }

  lemma OutputFacts(st: State, id: nat)
    requires Consistent(st) && id in st.outputs
    ensures Owned(st, id)
    ensures var r := st.actions[st.histories[id].key];
            && r.key == st.histories[id].key
            && ViewOf(st.outputs[id], st.histories[id], r, File(st, id))
            && HistoryFits(st.histories[id], r.status == Running, File(st, id))
  {
    assert OutputOk(st, id) && HistoryOk(st, id) && SlotOk(st, st.histories[id].key);
    hide Consistent, ViewOf, HistoryFits;
  }

  class ActionRegistry {
    var actions: map<string, ActionRecord>
    var outputs: map<nat, OutputState>
    var files: map<nat, string>
    ghost var histories: map<nat, History>

    ghost function Snapshot(): State
      reads this
    {
      State(actions, outputs, files, histories)
    }

    ghost predicate Valid()
      reads this
    {
      Consistent(Snapshot())
    }

    constructor ()
      ensures Valid() && Snapshot() == State(map[], map[], map[], map[])
    {
      actions, outputs, files := map[], map[], map[];
      histories := map[];
    }

    /** Starts an action in a free slot; the previous run's in-memory output is dropped.
        `id` is a fresh random id, `logOpen` whether its log file could be opened. */
    method TryStart(key: string, id: nat, secrets: seq<string>, logOpen: bool) returns (started: bool)
      requires Valid() && id !in histories
      modifies this
      ensures Valid()
      ensures started <==> !old(key in actions && actions[key].status == Running)
      ensures Snapshot() == if started then Started(old(Snapshot()), key, id, secrets, logOpen) else old(Snapshot())
      ensures Called(old(Snapshot()), Start(key, id, secrets, logOpen), Snapshot())
    {
      hide Consistent;
      if key in actions && actions[key].status == Running {
        return false;
      }
      StartedConsistent(Snapshot(), key, id, secrets, logOpen);
      if key in actions {
        outputs := outputs - {actions[key].id};
      }
      actions := actions[key := ActionRecord(id, key, Running, "")];
      if logOpen {
        files := files[id := ""];
      }
      outputs := outputs[id := OutputState(0, [], 0, "", 0, false, secrets, logOpen)];
      histories := histories[id := History(key, secrets, logOpen, "", [], false)];
      started := true;
    }

    /** Adds to what the slot's action was given, all of it pending; without a running action in
        the slot, or without text, nothing changes. */
    method Append(key: string, message: string, now: int)
      requires Valid()
      modifies this
      ensures Valid()
      ensures Called(old(Snapshot()), Queue(key, message, now), Snapshot())
    {
      hide Consistent, Called, ViewOf, HistoryFits;
      QueueIsCalled(Snapshot(), key, message, now);
      if key !in actions || actions[key].status != Running || message == "" {
        return;
      }
      var id := actions[key].id;
      var s := outputs[id];
      var since := s.pendingSince;
      if s.pending == "" {
        since := now;
      }
      outputs := outputs[id := s.(pending := s.pending + message, pendingSince := since, timer := true)];
      histories := histories[id := AddRaw(histories[id], message)];
    }

    /** Writes back one action's record, output state and log file. */
    method Store(id: nat, s: OutputState, ghost h: History, r: ActionRecord, file: Option<string>)
      requires Valid() && Owned(Snapshot(), id)
      requires h.key == r.key == histories[id].key && r.id == id
      requires ViewOf(s, h, r, file) && HistoryFits(h, r.status == Running, file)
      requires file.None? ==> id !in files
      modifies this
      ensures Valid()
      ensures Snapshot() == Updated(old(Snapshot()), id, s, h, r, file)
    {
      UpdatedConsistent(Snapshot(), id, s, h, r, file);
      hide Consistent, Owned, ViewOf, HistoryFits;
      actions, outputs := actions[r.key := r], outputs[id := s];
      if file.Some? {
        files := files[id := file.value];
      }
      histories := histories[id := h];
    }

    /** What a flush leaves action `id` with; nothing is written back yet. */
    method Flushed(key: string, id: nat, now: int)
      returns (s': OutputState, r': ActionRecord, file': Option<string>, sent: Option<OutputEvent>)
      requires Valid() && id in outputs && id in histories && histories[id].key == key
      ensures Owned(Snapshot(), id) && key in actions && actions[key].key == key && actions[key].id == id
      ensures r' == actions[key].(log := r'.log)
      ensures var h' := FlushedHistory(histories[id], outputs[id].pending, now - outputs[id].pendingSince, false);
              ViewOf(s', h', r', file') && HistoryFits(h', r'.status == Running, file')
              && sent == Sent(histories[id], h') && s'.pendingSince == Since(outputs[id], now, false)
      ensures file'.Some? <==> id in files
    {
      hide Consistent, ViewOf, HistoryFits, FlushedHistory, Sent, Since, OutputOk, HistoryOk, SlotOk;
      OutputFacts(Snapshot(), id);
      var file := if id in files then Some(files[id]) else None;
      s', r', file', sent := FlushRecord(outputs[id], histories[id], actions[key], file, now);
    }

    /** A flush timer of action `id`, started in slot `key`, fires. `sent` goes to the clients
        attached to the action. */
    method Flush(key: string, id: nat, now: int) returns (sent: Option<OutputEvent>)
      requires Valid() && id in histories && histories[id].key == key
      modifies this
      ensures Valid()
      ensures sent == SentTo(old(Snapshot()), Snapshot(), id)
      ensures Called(old(Snapshot()), FlushTimer(key, id, now), Snapshot())
    {
      hide Consistent, ViewOf, HistoryFits, FlushedHistory, Sent, Since, Owned, Called, SentTo, Updated;
      if id !in outputs {
        NoFlush(Snapshot(), key, id, now);
        return None;
      }
      var s', r', file';
      s', r', file', sent := Flushed(key, id, now);
      ghost var h' := FlushedHistory(histories[id], outputs[id].pending, now - outputs[id].pendingSince, false);
      FlushedKey(histories[id], outputs[id].pending, now - outputs[id].pendingSince, false);
      FlushIsCalled(Snapshot(), key, id, now, s', r', file');
      Store(id, s', h', r', file');
    }

    /** What finishing leaves the running action in slot `key` with. */
    method Finished(key: string, ok: bool, output: Option<string>, now: int)
      returns (s': OutputState, r': ActionRecord, file': Option<string>, ghost h': History, sent: Option<OutputEvent>)
      requires Valid() && key in actions && actions[key].status == Running
      ensures Owned(Snapshot(), actions[key].id) && h'.key == key && actions[key].key == key
      ensures r' == actions[key].(status := if ok then Succeeded else Failed, log := r'.log)
      ensures h' == FinishedHistory(HistoryOf(histories, actions[key].id), outputs, actions[key].id, output)
      ensures ViewOf(s', h', r', file') && HistoryFits(h', false, file')
      ensures file'.Some? <==> actions[key].id in files
      ensures actions[key].id in outputs
              && sent == Sent(HistoryOf(histories, actions[key].id), h')
    {
      var id := actions[key].id;
      assert SlotOk(Snapshot(), key) && OutputOk(Snapshot(), id) && HistoryOk(Snapshot(), id);
      hide Consistent, ViewOf, HistoryFits;
      var file := if id in files then Some(files[id]) else None;
      s', r', file', h', sent := FinishOutput(outputs[id], histories[id], actions[key], file, ok, output, now);
    }

    /** Ends the running action in slot `key`, whoever started it: all pending output goes
        out, and an action that streamed nothing logs its final output. */
    method Finish(key: string, ok: bool, output: Option<string>, now: int) returns (sent: Option<OutputEvent>)
      requires Valid()
      modifies this
      ensures Valid()
      ensures !old(SlotRuns(Snapshot(), key)) ==> sent == None
      ensures old(SlotRuns(Snapshot(), key)) ==> sent == SentTo(old(Snapshot()), Snapshot(), old(actions[key].id))
      ensures Called(old(Snapshot()), End(key, ok, output, now), Snapshot())
    {
      if key !in actions || actions[key].status != Running {
        return None;
      }
      var s', r', file';
      ghost var h';
      s', r', file', h', sent := Finished(key, ok, output, now);
      assert SlotOk(Snapshot(), key);
      UpdatedIsOnly(Snapshot(), actions[key].id, s', h', r', file');
      hide Consistent, ViewOf, HistoryFits, FinishedHistory, Sent, OnlyAction;
      Store(actions[key].id, s', h', r', file');
    }

    /** Retention or a user deletes the log file of an action that is not running. */
    method RemoveLog(id: nat)
      requires Valid() && !IsRunning(Snapshot(), id)
      modifies this`files
      ensures Valid() && files == old(files) - {id}
      ensures Called(old(Snapshot()), DeleteLog(id), Snapshot())
    {
      RemovedConsistent(Snapshot(), id);
      files := files - {id};
    }

    /** Finds a record by its action's id, exactly when a slot still holds it. */
    method GetById(id: nat) returns (record: Option<ActionRecord>)
      requires Valid()
      ensures record.Some? <==> Owned(Snapshot(), id)
      ensures record.Some? ==> record.value == actions[histories[id].key]
    {
      assert forall key :: SlotOk(Snapshot(), key);
      if key :| key in actions && actions[key].id == id {
        assert SlotOk(Snapshot(), key);
        return Some(actions[key]);
      }
      return None;
    }

    /** Computes from the window, the log file and the slots what `ReplayOf` says in terms of
        everything ever emitted. */
    method Replay(id: nat, fromSeq: nat) returns (r: Option<OutputEvent>)
      requires Valid()
      ensures r == ReplayOf(Snapshot(), id, fromSeq)
    {
      var record := GetById(id);
      var done := record.None? || record.value.status != Running;
      assert OutputOk(Snapshot(), id) && HistoryOk(Snapshot(), id);
      if id in outputs {
        var s := outputs[id];
        var first := if |s.chunks| > 0 then s.chunks[0].seqNo else s.next;
        if fromSeq >= first {
          WindowReplay(s, Emitted(histories[id]), fromSeq);
          return Some(OutputEvent(FilterFrom(s.chunks, fromSeq), None, s.next, done));
        }
      }
      if id !in files && record.None? {
        return None;
      }
      var text := if id in files then files[id] else "";
      return Some(OutputEvent([], Some(text), if id in outputs then outputs[id].next else 0, done));
    }
  }

  /** What the registry promises an attaching client, in terms of the whole output: what is
      missing, if that is still in memory, or everything, if the log file still exists. */
  ghost function ReplayOf(st: State, id: nat, fromSeq: nat): Option<OutputEvent> {
    var all := Emitted(HistoryOf(st.histories, id));
    var done := !IsRunning(st, id);
    if id in st.outputs && (fromSeq >= FirstSeq(st.outputs[id]) || id in st.files) then
      Some(Reply(all, FirstSeq(st.outputs[id]), fromSeq, done))
    else if id in st.outputs then Some(OutputEvent([], Some(""), |all|, done))
    else if id in st.files then Some(OutputEvent([], Some(Concat(all)), 0, done))
    else if Owned(st, id) then Some(OutputEvent([], Some(""), 0, done))
    else None
  }

  /** A running action is replayed whole, as the chunks asked for or as everything, exactly when
      those chunks are in memory or its log could be opened. */
  lemma RunningReplay(st: State, id: nat, fromSeq: nat)
    requires Consistent(st) && IsRunning(st, id)
    ensures id in st.outputs && FirstSeq(st.outputs[id]) <= |Emitted(st.histories[id])|
    ensures ReplayOf(st, id, fromSeq) == Some(Reply(Emitted(st.histories[id]), FirstSeq(st.outputs[id]), fromSeq, false))
            <==> fromSeq >= FirstSeq(st.outputs[id]) || st.histories[id].logged
  {
    var h := st.histories[id];
    assert SlotOk(st, h.key) && OutputOk(st, id) && HistoryOk(st, id);
    if fromSeq < FirstSeq(st.outputs[id]) {
      EvictedSomething(st.outputs[id], Emitted(h));
    }
  }

  /** Every answer to a replay. With the chunks asked for in memory it is those chunks; otherwise it
      is the log file, or nothing if there is none; and it says whether the action has ended. */
  lemma ReplayMeans(st: State, id: nat, fromSeq: nat)
    requires Consistent(st)
    ensures ReplayOf(st, id, fromSeq) == None <==> id !in st.outputs && id !in st.files && !Owned(st, id)
    ensures ReplayOf(st, id, fromSeq).Some? ==>
              var r := ReplayOf(st, id, fromSeq).value;
              && (r.done <==> !IsRunning(st, id))
              && (r.reset.None? <==> id in st.outputs && fromSeq >= FirstSeq(st.outputs[id]))
              && (r.reset.Some? ==> r.chunks == [] && r.reset.value == if id in st.files then st.files[id] else "")
              && (id !in st.outputs ==> r.nextSeq == 0)
              && (id in st.outputs ==>
                    && id in st.histories && r.nextSeq == |Emitted(st.histories[id])|
                    && (r.reset.None? ==>
                          && |r.chunks| == (if fromSeq <= r.nextSeq then r.nextSeq - fromSeq else 0)
                          && forall i :: 0 <= i < |r.chunks| ==>
                               r.chunks[i] == Chunk(fromSeq + i, Emitted(st.histories[id])[fromSeq + i])))
  {
    assert OutputOk(st, id) && HistoryOk(st, id);
    hide Consistent, WindowOf, Concat, TrimLog, CutsAllowed, Emitted;
  }

  lemma EvictedSomething(s: OutputState, all: seq<string>)
    requires WindowOf(s, all) && FirstSeq(s) > 0
    ensures Concat(all) != ""
  {
    var f := FirstSeq(s);
    ConcatAppend(all[..f - 1], all[f - 1..]);
    assert all[..f - 1] + all[f - 1..] == all;
    BytesOfNumbered(all, f);
    hide Numbered, Bytes;
    assert all[f - 1..][1..] == all[f..];
  }

  lemma {:induction false} BytesOfNumbered(all: seq<string>, from: nat)
    requires from <= |all|
    ensures Bytes(Numbered(all, from)) == |Concat(all[from..])|
    decreases |all| - from
  {
    if from < |all| {
      NumberedCons(all, from);
      BytesOfNumbered(all, from + 1);
      hide Numbered;
      var c, rest := Chunk(from, all[from]), Numbered(all, from + 1);
      assert ([c] + rest)[1..] == rest && all[from..][1..] == all[from + 1..];
    }
  }

  /** What a client attaching to action `id` is sent; about an unknown action, that it is over. */
  ghost function AttachReply(st: State, id: nat, fromSeq: nat): OutputEvent {
    match ReplayOf(st, id, fromSeq)
    case Some(event) => event
    case None => OutputEvent([], Some(""), 0, true)
  }

  // --- Masking the whole output -----------------------------------------------------

  /** The raw output as it is masked: cut by cut, and what is pending. */
  function Parts(h: History, pending: string): seq<string> {
    h.cuts + if pending == "" then [] else [pending]
  }

  lemma PartsMasked(h: History, pending: string, secrets: seq<string>)
    ensures Concat(Parts(h, pending)) == Concat(h.cuts) + pending
    ensures Concat(MaskEach(Parts(h, pending), secrets)) == Concat(MaskEach(h.cuts, secrets)) + MaskAll(pending, secrets)
  {
    hide MaskAll;
    if pending == "" {
      MaskEmpty(secrets);
      assert Parts(h, pending) == h.cuts;
    } else {
      ConcatSnoc(h.cuts, pending);
      ConcatSnoc(MaskEach(h.cuts, secrets), MaskAll(pending, secrets));
      hide Concat;
      assert MaskEach(Parts(h, pending), secrets) == MaskEach(h.cuts, secrets) + [MaskAll(pending, secrets)];
    }
  }

  /** What was emitted so far, followed by the mask of the pending text, is the mask of
      everything appended, as long as no cut fell inside a secret. */
  lemma EmittedIsMasked(st: State, id: nat)
    requires Consistent(st) && id in st.outputs && id in st.histories
    requires var h := st.histories[id];
             NonEmpty(h.secrets) && Unsplit(Parts(h, st.outputs[id].pending), h.secrets)
    ensures var h := st.histories[id];
            Concat(Emitted(h)) + MaskAll(st.outputs[id].pending, h.secrets) == MaskAll(h.raw, h.secrets)
  {
    var h, s := st.histories[id], st.outputs[id];
    assert OutputOk(st, id);
    PartsMasked(h, s.pending, h.secrets);
    MaskCommutesUnsplit(Parts(h, s.pending), h.secrets);
  }

  /** The output emitted and pending, as the first `k` secrets would mask it, is the mask of
      everything appended. */
  ghost predicate MaskedUpTo(h: History, pending: string, k: nat)
    requires k <= |h.secrets|
  {
    var secrets := h.secrets[..k];
    Concat(MaskEach(h.cuts, secrets)) + MaskAll(pending, secrets) == MaskAll(h.raw, secrets)
  }

  /** It is so for every secret of the list in turn if no cut fell inside a secret, and only then
      if no secret begins with `*`. With one secret that is what the clients were sent. */
  lemma EmittedIsMaskedIff(st: State, id: nat)
    requires Consistent(st) && id in st.outputs && id in st.histories && NonEmpty(st.histories[id].secrets)
    ensures var h, s := st.histories[id], st.outputs[id];
            var unsplit := Unsplit(Parts(h, s.pending), h.secrets);
            && (unsplit ==> forall k :: 0 <= k <= |h.secrets| ==> MaskedUpTo(h, s.pending, k))
            && (NoneStarred(h.secrets) ==> ((forall k :: 0 <= k <= |h.secrets| ==> MaskedUpTo(h, s.pending, k)) <==> unsplit))
            && (NoneStarred(h.secrets) && |h.secrets| == 1 ==>
                  (Concat(Emitted(h)) + MaskAll(s.pending, h.secrets) == MaskAll(h.raw, h.secrets) <==> unsplit))
  {
    var h, s := st.histories[id], st.outputs[id];
    var parts := Parts(h, s.pending);
    assert OutputOk(st, id);
    PartsMasked(h, s.pending, h.secrets);
    MaskCommutesIff(parts, h.secrets);
    hide Unsplit, Parts, MaskAll;
    forall k | 0 <= k <= |h.secrets|
      ensures MaskedUpTo(h, s.pending, k) <==> CommutesAt(parts, h.secrets, k)
    {
      PartsMasked(h, s.pending, h.secrets[..k]);
    }
  }

  /** No secret without a newline is split unless a partial line was forced out. */
  lemma UnforcedUnsplit(st: State, id: nat)
    requires Consistent(st) && id in st.outputs && id in st.histories
    requires Printable(st.histories[id].secrets) && !st.histories[id].forced
    ensures var h := st.histories[id];
            NonEmpty(h.secrets) && Unsplit(Parts(h, st.outputs[id].pending), h.secrets)
  {
    var h, s := st.histories[id], st.outputs[id];
    assert OutputOk(st, id) && HistoryOk(st, id);
    var parts := Parts(h, s.pending);
    assert CutAtNewlines(parts);
    LinesUnsplit(parts, h.secrets);
  }

  lemma HalvesUnmasked()
    ensures MaskAll("sec", ["secret"]) == "sec" && MaskAll("ret\n", ["secret"]) == "ret\n"
    ensures MaskAll("secret\n", ["secret"]) == "***\n"
  {
    assert [] + ["secret"] == ["secret"];
    ReplaceShort("sec", "secret");
    ReplaceShort("ret\n", "secret");
    assert "secret" <= "secret\n" && "secret\n"[6..] == "\n";
    assert Replace("secret\n", "secret") == MASK + Replace("\n", "secret");
    ReplaceShort("\n", "secret");
    hide Replace, MaskAll;
    MaskSnoc("sec", [], "secret");
    MaskSnoc("ret\n", [], "secret");
    MaskSnoc("secret\n", [], "secret");
    MaskNone("sec");
    MaskNone("ret\n");
    MaskNone("secret\n");
  }

  lemma DecideHalves()
    ensures Decide("sec", PARTIAL_LINE_HOLD_MS, false) == Emit("sec", "", true)
    ensures Decide("ret\n", 0, false) == Emit("ret\n", "", false)
  {
  }

  /** A partial line forced out in the middle of a secret leaks it: half of it is appended and
      held for a second, then the rest arrives. */
  lemma HeldPartLeaks(h: History)
    requires h.secrets == ["secret"] && h.cuts == [] && h.raw == "" && !h.forced
    ensures var end := FlushedHistory(AddRaw(HalfHistory(h), "ret\n"), "ret\n", 0, false);
            && HalfHistory(h).forced && end.secrets == h.secrets
            && Concat(Emitted(end)) == end.raw == "secret\n" && MaskAll(end.raw, end.secrets) == "***\n"
  {
    hide Decide, Emitted, Concat, MaskAll;
    DecideHalves();
    HalvesUnmasked();
    var h1, h2 := AddRaw(h, "sec"), AddRaw(HalfHistory(h), "ret\n");
    EmittedCut(h1, "sec", true);
    EmittedCut(h2, "ret\n", false);
    SameEmitted(h, h1);
    SameEmitted(HalfHistory(h), h2);
    assert Concat(Emitted(h)) == "" by {
      NoneEmitted(h);
    }
    assert "" + "sec" + "ret\n" == "secret\n";
  }

  lemma SameEmitted(h: History, h': History)
    requires h'.cuts == h.cuts && h'.secrets == h.secrets
    ensures Emitted(h') == Emitted(h)
  {
  }

  lemma NoneEmitted(h: History)
    requires h.cuts == []
    ensures Emitted(h) == [] && Concat(Emitted(h)) == ""
  {
  }

  /** Action `id` runs in slot `key`, with history `h` and this output pending since `since`. */
  ghost predicate Pending(st: State, key: string, id: nat, h: History, pending: string, since: int) {
    && SlotRuns(st, key) && st.actions[key].id == id && id in st.outputs && id in st.histories
    && st.histories[id] == h && h.key == key
    && st.outputs[id].pending == pending && (pending != "" ==> st.outputs[id].pendingSince == since)
  }

  lemma QueueLeaves(st: State, st': State, key: string, id: nat, h: History, message: string, now: int)
    requires Called(st, Queue(key, message, now), st') && Pending(st, key, id, h, "", now) && message != ""
    ensures Pending(st', key, id, AddRaw(h, message), message, now)
  {
    hide Consistent;
  }

  lemma NothingPending(st: State, id: nat)
    requires Consistent(st) && id in st.outputs && id in st.histories
    requires Concat(st.histories[id].cuts) == st.histories[id].raw
    ensures st.outputs[id].pending == ""
  {
    assert OutputOk(st, id);
    var pending, raw := st.outputs[id].pending, st.histories[id].raw;
    assert raw + pending == raw;
    assert |raw| + |pending| == |raw|;
  }

  /** A flush that emits all that is pending. */
  lemma FlushLeaves(st: State, st': State, key: string, id: nat, h: History, message: string, since: int, now: int, forced: bool)
    requires Called(st, FlushTimer(key, id, now), st') && Pending(st, key, id, h, message, since) && message != ""
    requires Concat(h.cuts) + message == h.raw
    requires Decide(message, now - since, false) == Emit(message, "", forced)
    ensures var h' := FlushedHistory(h, message, now - since, false);
            Pending(st', key, id, h', "", now) && Concat(h'.cuts) == h'.raw
  {
    EmittedCut(h, message, forced);
    hide Decide, Emitted, Consistent, Concat;
    assert st'.histories[id] == FlushedHistory(h, message, now - since, false);
    NothingPending(st', id);
  }

  /** The same on the registry itself. */
  method HeldPartRun() returns (r: ActionRegistry)
    ensures r.Valid() && 0 in r.histories && r.histories[0].secrets == ["secret"]
    ensures Concat(Emitted(r.histories[0])) == r.histories[0].raw == "secret\n"
  {
    hide Called, Consistent, Emitted, Decide, Concat, FlushedHistory;
    r := new ActionRegistry();
    var _ := r.TryStart("project", 0, ["secret"], true);
    ghost var s0 := r.Snapshot();
    ghost var h := s0.histories[0];
    assert Pending(s0, "project", 0, h, "", 0);
    r.Append("project", "sec", 0);
    ghost var s1 := r.Snapshot();
    QueueLeaves(s0, s1, "project", 0, h, "sec", 0);
    var _ := r.Flush("project", 0, PARTIAL_LINE_HOLD_MS);
    ghost var s2 := r.Snapshot();
    r.Append("project", "ret\n", PARTIAL_LINE_HOLD_MS);
    ghost var s3 := r.Snapshot();
    HalfSent(s1, s2, s3, h);
    var _ := r.Flush("project", 0, PARTIAL_LINE_HOLD_MS);
    RestSent(s3, r.Snapshot(), h);
  }

  /** The history once the first half was forced out. */
  function HalfHistory(h: History): History {
    FlushedHistory(AddRaw(h, "sec"), "sec", PARTIAL_LINE_HOLD_MS, false)
  }

  lemma HalfSent(s1: State, s2: State, s3: State, h: History)
    requires Pending(s1, "project", 0, AddRaw(h, "sec"), "sec", 0)
    requires h.cuts == [] && h.raw == ""
    requires Called(s1, FlushTimer("project", 0, PARTIAL_LINE_HOLD_MS), s2)
    requires Called(s2, Queue("project", "ret\n", PARTIAL_LINE_HOLD_MS), s3)
    ensures Pending(s3, "project", 0, AddRaw(HalfHistory(h), "ret\n"), "ret\n", PARTIAL_LINE_HOLD_MS)
    ensures Concat(HalfHistory(h).cuts) == HalfHistory(h).raw
  {
    assert Decide("sec", PARTIAL_LINE_HOLD_MS, false) == Emit("sec", "", true);
    assert Concat([]) + "sec" == "sec";
    hide Called, Decide, Concat, Pending;
    FlushLeaves(s1, s2, "project", 0, AddRaw(h, "sec"), "sec", 0, PARTIAL_LINE_HOLD_MS, true);
    QueueLeaves(s2, s3, "project", 0, HalfHistory(h), "ret\n", PARTIAL_LINE_HOLD_MS);
  }

  lemma RestSent(s3: State, s4: State, h: History)
    requires Pending(s3, "project", 0, AddRaw(HalfHistory(h), "ret\n"), "ret\n", PARTIAL_LINE_HOLD_MS)
    requires Concat(HalfHistory(h).cuts) == HalfHistory(h).raw
    requires h.secrets == ["secret"] && h.cuts == [] && h.raw == "" && !h.forced
    requires Called(s3, FlushTimer("project", 0, PARTIAL_LINE_HOLD_MS), s4)
    ensures 0 in s4.histories && s4.histories[0].secrets == h.secrets
    ensures Concat(Emitted(s4.histories[0])) == s4.histories[0].raw == "secret\n"
  {
    assert Decide("ret\n", 0, false) == Emit("ret\n", "", false);
    HeldPartLeaks(h);
    hide Called, Emitted, Decide, Concat;
    FlushLeaves(s3, s4, "project", 0, AddRaw(HalfHistory(h), "ret\n"), "ret\n", PARTIAL_LINE_HOLD_MS, PARTIAL_LINE_HOLD_MS, false);
  }

  /** The chunks in memory are the newest ones, one number apart up to `next - 1`; they are within
      the cap unless there is a single one, and the chunk before them wouldn't fit. */
  ghost predicate NewestChunks(s: OutputState, all: seq<string>) {
    && s.next == |all| && |s.chunks| <= s.next && (s.next > 0 ==> |s.chunks| > 0)
    && (forall i :: 0 <= i < |s.chunks| ==>
          s.chunks[i] == Chunk(s.next - |s.chunks| + i, all[s.next - |s.chunks| + i]))
    && s.chunkBytes == |Concat(all[s.next - |s.chunks|..])|
    && (s.chunkBytes <= 262_144 || |s.chunks| == 1)
    && (|s.chunks| < s.next ==> s.chunkBytes + |all[s.next - |s.chunks| - 1]| > 262_144)
  }

  lemma WindowIsNewest(s: OutputState, all: seq<string>)
    requires WindowOf(s, all)
    ensures NewestChunks(s, all)
  {
    BytesOfNumbered(all, FirstSeq(s));
    hide Bytes, Concat;
  }

  /** In every consistent state the chunks in memory are the newest of everything emitted, the
      record's log is its last 262144 characters, and nothing pending is left without a timer. */
  lemma OutputWindow(st: State, id: nat)
    requires Consistent(st) && id in st.outputs
    ensures Owned(st, id) && NewestChunks(st.outputs[id], Emitted(st.histories[id]))
    ensures IsLogOf(st.actions[st.histories[id].key].log, Concat(Emitted(st.histories[id])))
    ensures st.outputs[id].pending != "" ==> st.outputs[id].timer && IsRunning(st, id)
  {
    assert OutputOk(st, id);
    TrimIsLog(Concat(Emitted(st.histories[id])));
    hide Consistent, WindowOf, Emitted, Concat, TrimLog, IsLogOf;
    WindowIsNewest(st.outputs[id], Emitted(st.histories[id]));
  }

  /** The log file, while it exists, holds everything emitted, and the record's log is its end. */
  lemma RecordLogIsFileEnd(st: State, id: nat)
    requires Consistent(st) && id in st.outputs && id in st.files
    ensures Owned(st, id) && IsLogOf(st.actions[st.histories[id].key].log, st.files[id])
    ensures st.files[id] == Concat(Emitted(st.histories[id]))
  {
    assert OutputOk(st, id) && HistoryOk(st, id);
    TrimIsLog(Concat(Emitted(st.histories[id])));
  }

  // --- What the calls do ------------------------------------------------------------

  /** Output queued for a running action is pending after what was pending before, with a timer
      to flush it, and has waited since the oldest of it came. */
  lemma QueueMeans(st: State, st': State, key: string, message: string, now: int)
    requires Called(st, Queue(key, message, now), st') && SlotRuns(st, key) && message != ""
    ensures var id := st.actions[key].id;
            && id in st.outputs && id in st'.outputs && id in st.histories && id in st'.histories
            && var s, s' := st.outputs[id], st'.outputs[id];
            && s'.pending == s.pending + message && s'.timer
            && s'.pendingSince == (if s.pending == "" then now else s.pendingSince)
            && st'.histories[id].raw == st.histories[id].raw + message
            && st'.histories[id].cuts == st.histories[id].cuts
            && st'.actions == st.actions && st'.files == st.files
  {
    hide Consistent;
  }

  lemma SamePending(emitted: string, pending: string, pending': string)
    requires emitted + pending == emitted + pending'
    ensures pending == pending'
  {
    assert (emitted + pending)[|emitted|..] == pending && (emitted + pending')[|emitted|..] == pending';
  }

  /** The output state after a flush: its history is the one decided on, and it holds the rest. */
  lemma FlushLeavesRest(st: State, st': State, key: string, id: nat, now: int)
    requires Consistent(st) && Called(st, FlushTimer(key, id, now), st') && id in st.outputs
    ensures id in st'.outputs && id in st.histories && id in st'.histories
    ensures var s, s', h, h' := st.outputs[id], st'.outputs[id], st.histories[id], st'.histories[id];
            && h' == FlushedHistory(h, s.pending, now - s.pendingSince, false)
            && s'.pendingSince == Since(s, now, false) && (s'.timer <==> s'.pending != "")
            && s'.pending == match Decide(s.pending, now - s.pendingSince, false) {
                 case Emit(_, rest, _) => rest
                 case _ => s.pending
               }
  {
    var s, h := st.outputs[id], st.histories[id];
    assert OutputOk(st, id) && OutputOk(st', id);
    hide Consistent, Emitted, WindowOf, TrimLog;
    var s' := st'.outputs[id];
    match Decide(s.pending, now - s.pendingSince, false)
    case Emit(text, rest, forced) =>
      EmittedCut(h, text, forced);
      hide Concat, Decide;
      Regrouped(Concat(h.cuts), text, rest);
      SamePending(Concat(h.cuts) + text, rest, s'.pending);
    case _ =>
      hide Concat, Decide;
      SamePending(Concat(h.cuts), s.pending, s'.pending);
  }

  lemma LastNewlineAt(pending: string, text: string, rest: string)
    requires EndsLine(text) && text + rest == pending && '\n' !in rest
    ensures exists k :: 0 <= k < |pending| && pending[k] == '\n' && '\n' !in pending[k + 1..]
                     && text == pending[..k + 1] && rest == pending[k + 1..]
  {
    var k := |text| - 1;
    assert pending[..k + 1] == text && pending[k + 1..] == rest && pending[k] == text[k];
  }

  /** A flush emits what is pending up to its last newline; without a newline it waits until a
      second has passed and then emits all. */
  lemma FlushMeans(st: State, st': State, key: string, id: nat, now: int)
    requires Consistent(st) && Called(st, FlushTimer(key, id, now), st') && id in st.outputs
    ensures id in st'.outputs && id in st.histories && id in st'.histories
    ensures var s, s', h, h' := st.outputs[id], st'.outputs[id], st.histories[id], st'.histories[id];
            && h'.raw == h.raw && (s'.timer <==> s'.pending != "")
            && ('\n' in s.pending ==>
                  exists k :: 0 <= k < |s.pending| && s.pending[k] == '\n' && '\n' !in s.pending[k + 1..]
                           && h'.cuts == h.cuts + [s.pending[..k + 1]] && s'.pending == s.pending[k + 1..]
                           && s'.pendingSince == if s'.pending == "" then s.pendingSince else now)
            && ('\n' !in s.pending ==>
                  if s.pending == "" || now - s.pendingSince < 1_000 then h' == h && s'.pending == s.pending
                  else h'.cuts == h.cuts + [s.pending] && s'.pending == "" && h'.forced)
  {
    FlushLeavesRest(st, st', key, id, now);
    hide Consistent, Called;
    var s, s', h, h' := st.outputs[id], st'.outputs[id], st.histories[id], st'.histories[id];
    if '\n' in s.pending {
      var d := Decide(s.pending, now - s.pendingSince, false);
      LastNewlineAt(s.pending, d.text, d.rest);
    }
  }

  /** Ending an action emits everything pending, or its only output, as one last chunk, and nothing
      it was given is left. */
  lemma EndMeans(st: State, st': State, key: string, ok: bool, output: Option<string>, now: int)
    requires Consistent(st) && Called(st, End(key, ok, output, now), st') && SlotRuns(st, key)
    ensures var id := st.actions[key].id;
            && id in st.outputs && id in st'.outputs && id in st.histories && id in st'.histories && key in st'.actions
            && var s, s', h, h' := st.outputs[id], st'.outputs[id], st.histories[id], st'.histories[id];
            var last := if s.next == 0 && s.pending == "" && output.Some? then output.value else "";
            && st'.actions[key].id == id && st'.actions[key].status == (if ok then Succeeded else Failed)
            && h'.raw == h.raw + last && Concat(h'.cuts) == h'.raw
            && h'.cuts == h.cuts + (if s.pending + last == "" then [] else [s.pending + last])
            && s'.pending == "" && !s'.timer && !s'.stream
  {
    var id := st.actions[key].id;
    assert SlotOk(st, key) && OutputOk(st', id) && HistoryOk(st', id);
    hide Consistent, WindowOf, Emitted, Concat, TrimLog;
    assert !IsRunning(st', id);
  }
}
