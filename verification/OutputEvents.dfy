/** The `action:output` events between server and client (src/modules/actions/registry.ts,
    client/src/api/types.ts). */
module OutputEvents {
  import opened Text
  import opened Options

  datatype Chunk = Chunk(seqNo: nat, data: string)

  /** `reset` replaces everything before it. */
  datatype OutputEvent = OutputEvent(chunks: seq<Chunk>, reset: Option<string>, nextSeq: nat, done: bool)

  /** The chunks of an action from number `from` on. */
  function Numbered(all: seq<string>, from: nat): (chunks: seq<Chunk>)
    ensures |chunks| == if from <= |all| then |all| - from else 0
    ensures forall i :: 0 <= i < |chunks| ==> chunks[i] == Chunk(from + i, all[from + i])
  {
    if from <= |all| then seq(|all| - from, i requires 0 <= i < |all| - from => Chunk(from + i, all[from + i]))
    else []
  }

  /** What a client attaching at `fromSeq` gets, when the chunks from `first` on are in memory
      and the log file holds all of them. */
  function Reply(all: seq<string>, first: nat, fromSeq: nat, done: bool): OutputEvent {
    if fromSeq >= first then OutputEvent(Numbered(all, fromSeq), None, |all|, done)
    else OutputEvent([], Some(Concat(all)), |all|, done)
  }

  /** What attached clients get when chunk `k` is emitted. */
  function Live(all: seq<string>, k: nat): OutputEvent
    requires k < |all|
  {
    OutputEvent([Chunk(k, all[k])], None, k + 1, false)
  }
}
