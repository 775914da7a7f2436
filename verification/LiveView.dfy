/** A client following an action's output: client/src/hooks/useActionOutput.ts against the
    server of src/modules/actions/registry.ts and src/transports/socket/manager.ts. */
module LiveView {
  import opened Text
  import opened Options
  import opened OutputEvents

  // --- The handler ------------------------------------------------------------------

  datatype View = View(nextSeq: nat, text: string, done: bool)

  /** The chunks of an event the view doesn't have yet, and the number after them. */
  function TakeNew(next: nat, chunks: seq<Chunk>): (string, nat)
    decreases |chunks|
  {
    if chunks == [] then ("", next)
    else if chunks[0].seqNo < next then TakeNew(next, chunks[1..])
    else
      var (text, next') := TakeNew(chunks[0].seqNo + 1, chunks[1..]);
      (chunks[0].data + text, next')
  }

  lemma TakeNewStep(next: nat, chunk: Chunk, rest: seq<Chunk>)
    ensures TakeNew(next, [chunk] + rest)
         == if chunk.seqNo < next then TakeNew(next, rest)
            else (chunk.data + TakeNew(chunk.seqNo + 1, rest).0, TakeNew(chunk.seqNo + 1, rest).1)
  {
    assert ([chunk] + rest)[1..] == rest;
  }

  function Handled(v: View, e: OutputEvent): View {
    var start := if e.reset.Some? then View(e.nextSeq, e.reset.value, v.done) else v;
    var (appended, next) := TakeNew(start.nextSeq, e.chunks);
    View(next, start.text + appended, v.done || e.done)
  }

  class ActionOutputView {
    var nextSeq: nat
    var text: string
    var done: bool

    function Snapshot(): View
      reads this
    {
      View(nextSeq, text, done)
    }

    constructor ()
      ensures Snapshot() == View(0, "", false)
    {
      nextSeq, text, done := 0, "", false;
    }

    /** The `action:output` handler. */
    method Handle(event: OutputEvent)
      modifies this
      ensures Snapshot() == Handled(old(Snapshot()), event)
    {
      var base := text;
      if event.reset.Some? {
        base := event.reset.value;
        nextSeq := event.nextSeq;
      }
      ghost var start := nextSeq;
      var appended := "";
      assert event.chunks[0..] == event.chunks;
      for k := 0 to |event.chunks|
        invariant done == old(done) && text == old(text)
        invariant TakeNew(start, event.chunks).0 == appended + TakeNew(nextSeq, event.chunks[k..]).0
        invariant TakeNew(start, event.chunks).1 == TakeNew(nextSeq, event.chunks[k..]).1
      {
        var chunk := event.chunks[k];
        assert event.chunks[k..] == [chunk] + event.chunks[k + 1..];
        TakeNewStep(nextSeq, chunk, event.chunks[k + 1..]);
        if chunk.seqNo >= nextSeq {
          appended := appended + chunk.data;
          nextSeq := chunk.seqNo + 1;
        }
      }
      text := base + appended;
      done := done || event.done;
    }
  }

  // --- The system -------------------------------------------------------------------

  datatype Request = Attach(fromSeq: nat) | Detach

  /** One action, one connection, one view. `all` is every chunk emitted, `first` the oldest
      still in memory; `logged` is whether its log file is there; `dropped` is whether a newer
      action took the slot, so only that file is left. `requests` and `events` are the two
      directions of the connection, in order. For the proof only: `live` counts the queued
      events sent before the drop, `base` is the chunk the view's text begins with, and
      `restored` is whether the view's last event answered for a dropped action. */
  datatype System = System(
    all: seq<string>, first: nat, finished: bool, dropped: bool, logged: bool,
    joined: bool, connected: bool, requests: seq<Request>, events: seq<OutputEvent>, live: nat,
    view: View, base: nat, restored: bool)

  /** An action just started, whose log file could be opened or not. */
  function NewAction(logged: bool): System {
    System([], 0, false, false, logged, false, false, [], [], 0, View(0, "", false), 0, false)
  }

  datatype Step =
    | EmitChunk(data: string)
    | EvictUpTo(first: nat)
    | FinishAction
    | DropOutput
    | RemoveLog
    | Connect
    | Disconnect
    | Reattach
    | ServerReceives
    | ClientReceives

  /** The answer to an attach: what is missing, or the whole log, or nothing if that is gone. */
  function Answer(s: System, fromSeq: nat): OutputEvent {
    if s.dropped then OutputEvent([], Some(if s.logged then Concat(s.all) else ""), 0, true)
    else if fromSeq >= s.first || s.logged then Reply(s.all, s.first, fromSeq, s.finished)
    else OutputEvent([], Some(""), |s.all|, s.finished)
  }

  predicate Enabled(s: System, step: Step) {
    match step
    case EmitChunk(_) => !s.finished
    case EvictUpTo(first) => s.first <= first < |s.all|
    case FinishAction => !s.finished
    case DropOutput => s.finished
    case RemoveLog => s.finished
    case Connect => !s.connected
    case Disconnect => s.connected
    case Reattach => s.connected
    case ServerReceives => s.requests != []
    case ClientReceives => s.events != []
  }

  function Perform(s: System, step: Step): System
    requires Enabled(s, step)
  {
    match step
    case EmitChunk(data) =>
      var all := s.all + [data];
      s.(all := all, events := if s.joined then s.events + [Live(all, |s.all|)] else s.events,
          live := if s.joined then s.live + 1 else s.live)
    case EvictUpTo(first) => s.(first := first)
    case FinishAction => s.(finished := true)
    case DropOutput => s.(dropped := true)
    case RemoveLog => s.(logged := false)
    case Connect => s.(connected := true, requests := [Attach(s.view.nextSeq)])
    case Disconnect => s.(connected := false, joined := false, requests := [], events := [], live := 0)
    case Reattach => s.(requests := s.requests + [Detach, Attach(s.view.nextSeq)])
    case ServerReceives =>
      (match s.requests[0]
       case Detach => s.(joined := false, requests := s.requests[1..])
       case Attach(from) => s.(joined := true, requests := s.requests[1..], events := s.events + [Answer(s, from)],
                                live := if s.dropped then s.live else s.live + 1))
    case ClientReceives =>
      var e := s.events[0];
      s.(view := Handled(s.view, e), base := BaseAfter(s.all, s.base, e), events := s.events[1..],
          live := if s.live > 0 then s.live - 1 else 0, restored := s.live == 0)
  }

  /** The chunk the view's text begins with after the event: 0 after a reset to the whole log,
      the next one after a reset to nothing. */
  function BaseAfter(all: seq<string>, base: nat, e: OutputEvent): nat {
    if e.reset.None? then base
    else if e.nextSeq <= |all| && e.reset.value == Concat(all[..e.nextSeq]) then 0
    else e.nextSeq
  }

  function RunFrom(s: System, steps: seq<Step>): (r: Option<System>)
    decreases |steps|
  {
    if steps == [] then Some(s)
    else if Enabled(s, steps[0]) then RunFrom(Perform(s, steps[0]), steps[1..])
    else None
  }

  // --- What the queue still holds ---------------------------------------------------

  /** The number of the first chunk an event without `reset` carries. */
  function Lo(e: OutputEvent): nat {
    if e.chunks == [] then e.nextSeq else e.chunks[0].seqNo
  }

  /** The event tells the truth about the output, or, once the log is gone, nothing. */
  ghost predicate Truthful(all: seq<string>, logged: bool, e: OutputEvent) {
    && e.nextSeq <= |all|
    && match e.reset {
         case Some(text) => e.chunks == [] && (text == Concat(all[..e.nextSeq]) || (!logged && text == ""))
         case None => Lo(e) <= e.nextSeq && e.chunks == Numbered(all[..e.nextSeq], Lo(e))
       }
  }

  predicate IsRestore(s: System, e: OutputEvent) {
    && s.dropped && e.chunks == [] && e.nextSeq == 0 && e.done
    && (e.reset == Some(Concat(s.all)) || (!s.logged && e.reset == Some("")))
  }

  /** A view at `n` can take the event without missing a chunk or going back. */
  predicate Fits(n: nat, e: OutputEvent) {
    if e.reset.Some? then n <= e.nextSeq else Lo(e) <= n
  }

  function After(n: nat, e: OutputEvent): nat {
    if n >= e.nextSeq then n else e.nextSeq
  }

  function EndOf(n: nat, events: seq<OutputEvent>): nat
    decreases |events|
  {
    if events == [] then n else EndOf(After(n, events[0]), events[1..])
  }

  ghost predicate Gapless(all: seq<string>, logged: bool, n: nat, events: seq<OutputEvent>)
    decreases |events|
  {
    events == [] ||
    (Truthful(all, logged, events[0]) && Fits(n, events[0]) && Gapless(all, logged, After(n, events[0]), events[1..]))
  }

  lemma {:induction false} QueueSnoc(all: seq<string>, logged: bool, n: nat, events: seq<OutputEvent>, e: OutputEvent)
    requires Gapless(all, logged, n, events) && Truthful(all, logged, e) && Fits(EndOf(n, events), e)
    ensures Gapless(all, logged, n, events + [e])
    ensures EndOf(n, events + [e]) == After(EndOf(n, events), e)
    decreases |events|
  {
    if events == [] {
      assert events + [e] == [e];
    } else {
      assert (events + [e])[1..] == events[1..] + [e];
      QueueSnoc(all, logged, After(n, events[0]), events[1..], e);
    }
  }

  lemma {:induction false} QueueEnd(all: seq<string>, logged: bool, n: nat, events: seq<OutputEvent>)
    requires n <= |all| && Gapless(all, logged, n, events)
    ensures n <= EndOf(n, events) <= |all|
    decreases |events|
  {
    if events != [] {
      QueueEnd(all, logged, After(n, events[0]), events[1..]);
    }
  }

  /** More output makes no queued event false, and neither does losing the log. */
  lemma {:induction false} QueueGrows(all: seq<string>, logged: bool, more: seq<string>, logged': bool, n: nat, events: seq<OutputEvent>)
    requires Gapless(all, logged, n, events) && (logged' ==> logged)
    ensures Gapless(all + more, logged', n, events)
    decreases |events|
  {
    if events != [] {
      var e := events[0];
      assert (all + more)[..e.nextSeq] == all[..e.nextSeq];
      QueueGrows(all, logged, more, logged', After(n, e), events[1..]);
    }
  }

  lemma {:induction false} TakeNumbered(p: seq<string>, lo: nat, n: nat)
    requires lo <= n && lo <= |p|
    ensures TakeNew(n, Numbered(p, lo)) == if n <= |p| then (Concat(p[n..]), |p|) else ("", n)
    decreases |p| - lo
  {
    if lo < |p| {
      assert Numbered(p, lo)[1..] == Numbered(p, lo + 1);
      TakeNumbered(p, lo + 1, if lo < n then n else n + 1);
      if lo == n {
        assert p[n..][1..] == p[n + 1..];
      }
    } else if n == |p| {
      assert p[n..] == [];
    }
  }

  /** The view's text is the chunks from `base` up to the next one it expects. */
  ghost predicate Shows(all: seq<string>, base: nat, v: View) {
    base <= v.nextSeq <= |all| && v.text == Concat(all[base..v.nextSeq])
  }

  /** Handling an event that fits leaves exactly the output before `After`, from the base on. */
  lemma HandleFits(all: seq<string>, logged: bool, base: nat, v: View, e: OutputEvent)
    requires Shows(all, base, v) && Truthful(all, logged, e) && Fits(v.nextSeq, e)
    ensures var v' := Handled(v, e);
            && Shows(all, BaseAfter(all, base, e), v')
            && v'.nextSeq == After(v.nextSeq, e) && v'.done == (v.done || e.done)
    ensures e.reset.None? ==> BaseAfter(all, base, e) == base
    ensures logged && e.reset.Some? ==> BaseAfter(all, base, e) == 0
  {
    if e.reset.None? {
      var p := all[..e.nextSeq];
      var n := v.nextSeq;
      TakeNumbered(p, Lo(e), n);
      if n <= |p| {
        ConcatAppend(all[base..n], p[n..]);
        assert all[base..n] + p[n..] == all[base..|p|];
      }
    } else {
      assert all[e.nextSeq..e.nextSeq] == [] && all[0..e.nextSeq] == all[..e.nextSeq];
    }
  }

  lemma AnswerFits(s: System, fromSeq: nat, n: nat)
    requires !s.dropped && fromSeq <= n <= |s.all| && s.first <= |s.all|
    ensures var e := Answer(s, fromSeq);
            && Truthful(s.all, s.logged, e) && Fits(n, e) && After(n, e) == |s.all| == e.nextSeq
            && (e.done ==> s.finished)
  {
    assert s.all[..|s.all|] == s.all;
  }

  lemma LiveFits(all: seq<string>, logged: bool, data: string)
    ensures var all' := all + [data];
            var e := Live(all', |all|);
            Truthful(all', logged, e) && Fits(|all|, e) && After(|all|, e) == |all'| && !e.done
  {
    var all' := all + [data];
    assert all'[..|all'|] == all';
    assert Numbered(all', |all|) == [Chunk(|all|, data)];
  }

  // --- The invariant ----------------------------------------------------------------

  ghost predicate Honest(s: System, e: OutputEvent) {
    e.done ==> s.finished && e.nextSeq == |s.all|
  }

  /** What the view shows, and what the events still queued for it will make of it. */
  ghost predicate ViewOk(s: System)
    requires s.live <= |s.events|
  {
    if s.restored then
      && s.dropped && s.live == 0 && s.view.nextSeq == 0
      && (s.view.text == Concat(s.all) || (!s.logged && s.view.text == ""))
    else
      && Shows(s.all, s.base, s.view)
      && (s.logged ==> s.base == 0)
      && Gapless(s.all, s.logged, s.view.nextSeq, s.events[..s.live])
      && (s.joined && s.live == |s.events| ==> EndOf(s.view.nextSeq, s.events) == |s.all|)
      && (s.view.done ==> s.finished && s.view.nextSeq == |s.all|)
  }

  ghost predicate QueueOk(s: System)
    requires s.live <= |s.events|
  {
    && (s.live < |s.events| ==> s.dropped)
    && (forall i :: 0 <= i < s.live ==> Honest(s, s.events[i]))
    && (forall i :: s.live <= i < |s.events| ==> IsRestore(s, s.events[i]))
  }

  ghost predicate Inv(s: System)
  {
    && s.first <= |s.all|
    && (s.dropped ==> s.finished)
    && (!s.connected ==> !s.joined && s.requests == [] && s.events == [])
    && s.live <= |s.events|
    && QueueOk(s)
    && ViewOk(s)
    && (!s.dropped ==> forall i :: 0 <= i < |s.requests| && s.requests[i].Attach? ==> s.requests[i].fromSeq <= s.view.nextSeq)
  }

  lemma EmitKeeps(s: System, data: string)
    requires Inv(s) && Enabled(s, EmitChunk(data))
    ensures Inv(Perform(s, EmitChunk(data)))
  {
    var s' := Perform(s, EmitChunk(data));
    var n := s.view.nextSeq;
    assert s.events[..s.live] == s.events;
    assert s'.all[s.base..n] == s.all[s.base..n];
    QueueGrows(s.all, s.logged, [data], s.logged, n, s.events);
    LiveFits(s.all, s.logged, data);
    if s.joined {
      QueueSnoc(s'.all, s.logged, n, s.events, Live(s'.all, |s.all|));
    }
    assert s'.events[..s'.live] == s'.events;
  }

  lemma RemoveLogKeeps(s: System)
    requires Inv(s) && s.finished
    ensures Inv(Perform(s, RemoveLog))
  {
    if !s.restored {
      QueueGrows(s.all, s.logged, [], false, s.view.nextSeq, s.events[..s.live]);
      assert s.all + [] == s.all;
    }
  }

  /** The answer goes to the end of a queue of events sent before any drop. */
  lemma AnswerQueued(s: System, fromSeq: nat)
    requires Inv(s) && !s.dropped && fromSeq <= s.view.nextSeq <= |s.all|
    ensures s.live == |s.events|
    ensures var e := Answer(s, fromSeq);
            && Gapless(s.all, s.logged, s.view.nextSeq, s.events + [e])
            && EndOf(s.view.nextSeq, s.events + [e]) == |s.all| && Honest(s, e)
  {
    var n, e := s.view.nextSeq, Answer(s, fromSeq);
    assert s.events[..s.live] == s.events;
    QueueEnd(s.all, s.logged, n, s.events);
    AnswerFits(s, fromSeq, EndOf(n, s.events));
    hide Answer, Truthful, Fits, After, Lo, Gapless, EndOf;
    QueueSnoc(s.all, s.logged, n, s.events, e);
  }

  lemma AttachKeeps(s: System)
    requires Inv(s) && s.requests != [] && s.requests[0].Attach? && !s.dropped
    ensures Inv(Perform(s, ServerReceives))
  {
    hide Answer, Gapless, EndOf, Shows, IsRestore;
    var s', e := Perform(s, ServerReceives), Answer(s, s.requests[0].fromSeq);
    ShownInside(s.all, s.base, s.view);
    AnswerQueued(s, s.requests[0].fromSeq);
    assert s'.events[..s'.live] == s.events + [e];
  }

  lemma RestoreKeeps(s: System)
    requires Inv(s) && s.requests != [] && s.requests[0].Attach? && s.dropped
    ensures Inv(Perform(s, ServerReceives))
  {
    hide Gapless, EndOf, Shows;
    assert Perform(s, ServerReceives).events[..s.live] == s.events[..s.live];
  }

  /** What is left of the queue once its first event is handled. */
  lemma QueueTail(s: System)
    requires 0 < s.live <= |s.events| && Gapless(s.all, s.logged, s.view.nextSeq, s.events[..s.live])
    ensures Truthful(s.all, s.logged, s.events[0]) && Fits(s.view.nextSeq, s.events[0])
    ensures Gapless(s.all, s.logged, After(s.view.nextSeq, s.events[0]), s.events[1..][..s.live - 1])
    ensures s.live == |s.events| ==>
              EndOf(After(s.view.nextSeq, s.events[0]), s.events[1..]) == EndOf(s.view.nextSeq, s.events)
  {
    assert s.events[..s.live][1..] == s.events[1..][..s.live - 1] && s.events[..s.live][0] == s.events[0];
    hide Truthful, Fits, After;
  }

  lemma ReceiveLiveKeeps(s: System)
    requires Inv(s) && s.live > 0
    ensures Inv(Perform(s, ClientReceives))
  {
    hide Handled, BaseAfter, Shows, Truthful, Fits, Lo, Gapless, EndOf, After;
    var e := s.events[0];
    QueueTail(s);
    HandleFits(s.all, s.logged, s.base, s.view, e);
    assert Honest(s, e);
    AfterEnd(s.view.nextSeq, e);
    ShownInside(s.all, s.base, s.view);
    ShownInside(s.all, BaseAfter(s.all, s.base, e), Handled(s.view, e));
    QueueStays(s);
    hide QueueOk;
  }

  lemma QueueStays(s: System)
    requires Inv(s) && s.live > 0
    ensures QueueOk(Perform(s, ClientReceives))
  {
    hide ViewOk, Handled, BaseAfter;
    var s' := Perform(s, ClientReceives);
    forall i | 0 <= i < |s'.events|
      ensures if i < s'.live then Honest(s', s'.events[i]) else IsRestore(s', s'.events[i])
    {
      assert s'.events[i] == s.events[i + 1];
    }
  }

  lemma ShownInside(all: seq<string>, base: nat, v: View)
    requires Shows(all, base, v)
    ensures v.nextSeq <= |all|
  {
  }

  lemma AfterEnd(n: nat, e: OutputEvent)
    ensures After(n, e) >= n && (n <= e.nextSeq ==> After(n, e) == e.nextSeq)
  {
  }

  lemma ReceiveRestoreKeeps(s: System)
    requires Inv(s) && s.live == 0 && s.events != []
    ensures Inv(Perform(s, ClientReceives))
  {
    hide Shows, Gapless, EndOf, BaseAfter;
    assert IsRestore(s, s.events[0]);
  }

  lemma DisconnectKeeps(s: System)
    requires Inv(s) && s.connected
    ensures Inv(Perform(s, Disconnect))
  {
    hide IsRestore, Honest, Shows;
  }

  /** What happens to the action alone. */
  lemma ActionKeeps(s: System, step: Step)
    requires Inv(s) && Enabled(s, step) && (step.EvictUpTo? || step.FinishAction? || step.DropOutput?)
    ensures Inv(Perform(s, step))
  {
    hide Gapless, EndOf, Shows;
    assert forall i :: 0 <= i < |s.events| ==> IsRestore(s, s.events[i]) ==> IsRestore(Perform(s, step), s.events[i]);
  }

  /** The client asks for something. */
  lemma AskKeeps(s: System, step: Step)
    requires Inv(s) && Enabled(s, step) && (step.Connect? || step.Reattach?)
    ensures Inv(Perform(s, step))
  {
    hide Gapless, EndOf, Shows;
  }

  lemma DetachKeeps(s: System)
    requires Inv(s) && s.requests != [] && s.requests[0].Detach?
    ensures Inv(Perform(s, ServerReceives))
  {
    hide Gapless, EndOf, Shows;
  }

  lemma StepKeeps(s: System, step: Step)
    requires Inv(s) && Enabled(s, step)
    ensures Inv(Perform(s, step))
  {
    assert s.live <= |s.events|;
    hide Inv, Perform;
    match step
    case EmitChunk(data) => EmitKeeps(s, data);
    case EvictUpTo(_) | FinishAction | DropOutput => ActionKeeps(s, step);
    case RemoveLog => RemoveLogKeeps(s);
    case Connect | Reattach => AskKeeps(s, step);
    case Disconnect => DisconnectKeeps(s);
    case ServerReceives =>
      if s.requests[0].Detach? {
        DetachKeeps(s);
      } else if s.dropped {
        RestoreKeeps(s);
      } else {
        AttachKeeps(s);
      }
    case ClientReceives =>
      if s.live > 0 {
        ReceiveLiveKeeps(s);
      } else {
        ReceiveRestoreKeeps(s);
      }
  }

  lemma {:induction false} RunKeeps(s: System, steps: seq<Step>)
    requires Inv(s)
    ensures RunFrom(s, steps).Some? ==> Inv(RunFrom(s, steps).value)
    decreases |steps|
  {
    if steps != [] && Enabled(s, steps[0]) {
      StepKeeps(s, steps[0]);
      RunKeeps(Perform(s, steps[0]), steps[1..]);
    }
  }

  /** In every reachable state the view holds a run of chunks: no gap, no duplicate, resets
      included. Those of an action still in memory are the ones from `base` to before `nextSeq`,
      and `base` is 0 while the log file is there. */
  lemma ViewIsPrefix(logged: bool, steps: seq<Step>)
    ensures RunFrom(NewAction(logged), steps).Some? ==>
              var s := RunFrom(NewAction(logged), steps).value;
              && (!s.dropped ==> s.base <= s.view.nextSeq <= |s.all| && s.view.text == Concat(s.all[s.base..s.view.nextSeq]))
              && (exists m: nat, n: nat :: m <= n <= |s.all| && s.view.text == Concat(s.all[m..n]))
              && (s.logged ==>
                    && (!s.dropped ==> s.view.text == Concat(s.all[..s.view.nextSeq]))
                    && (exists n :: 0 <= n <= |s.all| && s.view.text == Concat(s.all[..n])))
  {
    RunKeeps(NewAction(logged), steps);
    if RunFrom(NewAction(logged), steps).Some? {
      var s := RunFrom(NewAction(logged), steps).value;
      assert s.all[..|s.all|] == s.all;
      assert s.all[0..|s.all|] == s.all && s.all[0..0] == [];
      if !s.restored && s.logged {
        assert s.all[0..s.view.nextSeq] == s.all[..s.view.nextSeq];
      }
    }
  }

  /** A view with nothing left to receive shows everything from its base on, and one told by the
      server that the action is done does too. */
  lemma ViewCatchesUp(logged: bool, steps: seq<Step>)
    ensures RunFrom(NewAction(logged), steps).Some? ==>
              var s := RunFrom(NewAction(logged), steps).value;
              (s.joined && s.events == []) || s.view.done ==>
                && (!s.dropped ==> s.base <= |s.all| && s.view.text == Concat(s.all[s.base..]))
                && (s.logged ==> s.view.text == Concat(s.all))
                && (s.view.done ==> s.finished)
  {
    RunKeeps(NewAction(logged), steps);
    if RunFrom(NewAction(logged), steps).Some? {
      var s := RunFrom(NewAction(logged), steps).value;
      assert s.all[0..|s.all|] == s.all;
    }
  }

  /** A view that connects again asks for what it doesn't have and, while that is in memory, is sent
      exactly that. */
  lemma ReconnectSendsMissing(s: System)
    requires !s.dropped && s.first <= s.view.nextSeq <= |s.all|
    ensures !s.connected ==> Perform(s, Connect).requests == [Attach(s.view.nextSeq)]
    ensures s.connected ==> Perform(s, Reattach).requests == s.requests + [Detach, Attach(s.view.nextSeq)]
    ensures var e := Answer(s, s.view.nextSeq);
            && e.reset.None? && e.nextSeq == |s.all| && |e.chunks| == |s.all| - s.view.nextSeq
            && forall i :: 0 <= i < |e.chunks| ==> e.chunks[i] == Chunk(s.view.nextSeq + i, s.all[s.view.nextSeq + i])
  {
  }

  /** A view that attaches to an action that has ended is told so. */
  lemma AttachTellsDone(s: System)
    requires Inv(s) && s.finished && s.requests != [] && s.requests[0].Attach? && s.events == []
    ensures var s' := Perform(s, ServerReceives);
            s'.events != [] && Perform(s', ClientReceives).view.done
  {
    hide Inv;
  }

  lemma RunCons(s: System, step: Step, rest: seq<Step>)
    requires Enabled(s, step)
    ensures RunFrom(s, [step] + rest) == RunFrom(Perform(s, step), rest)
  {
    hide Perform, Enabled;
    assert ([step] + rest)[1..] == rest;
  }

  /** Without a log file a view that attaches after an eviction misses what was evicted. */
  lemma LostLogCutsView(x: string, y: string)
    ensures var steps := [EmitChunk(x)] + ([EmitChunk(y)] + ([EvictUpTo(1)] + ([Connect] + ([ServerReceives] + ([ClientReceives] + [])))));
            var end := RunFrom(NewAction(false), steps);
            && end.Some? && end.value.joined && end.value.events == [] && !end.value.dropped
            && end.value.all == [x] + [y] && end.value.view == View(2, "", false)
  {
    hide RunFrom;
    var s0 := NewAction(false);
    var s2 := Perform(Perform(s0, EmitChunk(x)), EmitChunk(y));
    var s4 := Perform(Perform(s2, EvictUpTo(1)), Connect);
    var s5 := s4.(joined := true, requests := [], events := [OutputEvent([], Some(""), 2, false)], live := 1);
    assert [] + [x] == [x];
    assert Perform(s4, ServerReceives) == s5;
    RunNone(Perform(s5, ClientReceives));
    RunCons(s5, ClientReceives, []);
    RunCons(s4, ServerReceives, [ClientReceives] + []);
    RunCons(Perform(s2, EvictUpTo(1)), Connect, [ServerReceives] + ([ClientReceives] + []));
    RunCons(s2, EvictUpTo(1), [Connect] + ([ServerReceives] + ([ClientReceives] + [])));
    RunCons(Perform(s0, EmitChunk(x)), EmitChunk(y), [EvictUpTo(1)] + ([Connect] + ([ServerReceives] + ([ClientReceives] + []))));
    RunCons(s0, EmitChunk(x), [EmitChunk(y)] + ([EvictUpTo(1)] + ([Connect] + ([ServerReceives] + ([ClientReceives] + [])))));
  }

  lemma RunNone(s: System)
    ensures RunFrom(s, []) == Some(s)
  {
  }
}
