/** The registry is the server that the live view is proved against: every run of the registry
    with a client attached to one of its actions is a run of `LiveView`, so what is proved there
    holds of the registry's own masked output. */
module Serving {
  import opened Text
  import opened Options
  import opened OutputEvents
  import opened SecretMask
  import opened Masking
  import opened Registry
  import LiveView

  /** The server side of `v` is action `id` of the registry. */
  ghost predicate Serves(st: State, id: nat, v: LiveView.System) {
    && id in st.histories
    && v.all == Emitted(st.histories[id])
    && v.logged == (id in st.files)
    && v.finished == !IsRunning(st, id)
    && v.dropped == (id !in st.outputs)
    && (id in st.outputs ==> v.first == FirstSeq(st.outputs[id]))
  }

  // --- The window moves forward -----------------------------------------------------

  /** Bytes of the chunks from number `from` on. */
  ghost function Size(all: seq<string>, from: nat): nat {
    Bytes(Numbered(all, from))
  }

  lemma SizeStep(all: seq<string>, i: nat)
    requires i < |all|
    ensures Size(all, i) == |all[i]| + Size(all, i + 1)
  {
    NumberedCons(all, i);
    var c, rest := Chunk(i, all[i]), Numbered(all, i + 1);
    assert ([c] + rest)[1..] == rest;
  }

  lemma {:induction false} SizeGrows(all: seq<string>, i: nat, j: nat)
    requires i <= j <= |all|
    ensures Size(all, i) >= Size(all, j)
    decreases j - i
  {
    hide Size;
    if i < j {
      SizeStep(all, i);
      SizeGrows(all, i + 1, j);
    }
  }

  lemma {:induction false} SizeSnoc(all: seq<string>, data: string, i: nat)
    requires i <= |all|
    ensures Size(all + [data], i) == Size(all, i) + |data|
    decreases |all| - i
  {
    if i < |all| {
      SizeStep(all + [data], i);
      SizeStep(all, i);
      SizeSnoc(all, data, i + 1);
    } else {
      SizeStep(all + [data], i);
      assert Numbered(all, i) == [] && Numbered(all + [data], i + 1) == [];
    }
  }

  /** What is in memory only depends on the output, not on how it got there. */
  lemma WindowUnique(s: OutputState, s': OutputState, all: seq<string>)
    requires WindowOf(s, all) && WindowOf(s', all)
    ensures s.chunks == s'.chunks
  {
    if FirstSeq(s) < FirstSeq(s') {
      SmallerWindow(s, s', all);
    } else if FirstSeq(s') < FirstSeq(s) {
      SmallerWindow(s', s, all);
    }
  }

  lemma SmallerWindow(s: OutputState, s': OutputState, all: seq<string>)
    requires WindowOf(s, all) && WindowOf(s', all)
    ensures FirstSeq(s) >= FirstSeq(s')
  {
    var f, f' := FirstSeq(s), FirstSeq(s');
    if f < f' {
      SizeStep(all, f' - 1);
      SizeGrows(all, f, f' - 1);
    }
  }

  lemma WindowSize(s: OutputState, all: seq<string>)
    requires WindowOf(s, all)
    ensures s.next == |all| && FirstSeq(s) <= |all| && s.chunkBytes == Size(all, FirstSeq(s))
    ensures |s.chunks| == |all| - FirstSeq(s) && (all != [] ==> s.chunks != [])
  {
  }

  /** A new chunk only ever evicts from the old end. */
  lemma WindowAdvances(s: OutputState, s': OutputState, all: seq<string>, data: string)
    requires WindowOf(s, all) && WindowOf(s', all + [data])
    ensures FirstSeq(s) <= FirstSeq(s') <= |all|
  {
    WindowSize(s, all);
    WindowSize(s', all + [data]);
    hide Numbered, Bytes, Size, FirstSeq;
    var f, f' := FirstSeq(s), FirstSeq(s');
    if f' < f {
      SizeStep(all, f - 1);
      SizeSnoc(all, data, f');
      SizeGrows(all, f', f - 1);
    }
  }

  // --- What a call does to one action -----------------------------------------------

  /** A flush emits at most one chunk and rewrites nothing. */
  ghost predicate OneCut(h: History, h': History) {
    h'.key == h.key && h'.secrets == h.secrets && h.cuts <= h'.cuts && |h'.cuts| <= |h.cuts| + 1
  }

  /** All that a call can do to action `id`. */
  ghost predicate Moved(st: State, st': State, id: nat) {
    && id in st.histories && id in st'.histories && OneCut(st.histories[id], st'.histories[id])
    && (id in st'.outputs ==> id in st.outputs)
    && (IsRunning(st', id) ==> IsRunning(st, id))
    && (id in st'.files ==> id in st.files)
    && (IsRunning(st, id) ==> id in st'.outputs)
    && (!IsRunning(st, id) ==> st'.histories[id].cuts == st.histories[id].cuts)
    && (IsRunning(st', id) && id in st.files ==> id in st'.files)
  }

  lemma FlushCuts(h: History, pending: string, held: int, final: bool)
    ensures OneCut(h, FlushedHistory(h, pending, held, final))
    ensures pending == "" ==> FlushedHistory(h, pending, held, final) == h
  {
    hide Decide;
    assert Decide(pending, held, final).Nothing? <==> pending == "";
  }

  lemma OthersMoved(st: State, changed: nat, h: History, r: ActionRecord, st': State, id: nat)
    requires Consistent(st) && Owned(st, changed) && h.key == st.histories[changed].key && r.id == changed
    requires OnlyAction(st, changed, h, r, st') && id in st.histories && id != changed
    ensures Moved(st, st', id)
  {
    assert SlotOk(st, st.histories[id].key);
    hide Consistent, SlotOk;
  }

  lemma StartMoved(st: State, key: string, newId: nat, secrets: seq<string>, logOpen: bool, id: nat)
    requires Consistent(st) && newId !in st.histories && !SlotRuns(st, key) && id in st.histories
    ensures Moved(st, Started(st, key, newId, secrets, logOpen), id)
  {
    assert SlotOk(st, key) && SlotOk(st, st.histories[id].key);
    hide Consistent;
  }

  lemma QueueMoved(st: State, key: string, message: string, now: int, st': State, id: nat)
    requires Consistent(st) && Called(st, Queue(key, message, now), st') && id in st.histories
    ensures Moved(st, st', id)
  {
    assert SlotOk(st, st.histories[id].key) && SlotOk(st, key);
    hide Consistent;
  }

  lemma NothingLeft(st: State, id: nat)
    requires Consistent(st) && id in st.outputs
    ensures Owned(st, id) && (!IsRunning(st, id) ==> st.outputs[id].pending == "")
  {
    assert OutputOk(st, id);
    hide Consistent, OutputOf;
  }

  lemma FlushedMoved(st: State, key: string, id: nat, now: int, st': State)
    requires Consistent(st) && Called(st, FlushTimer(key, id, now), st') && id in st.outputs
    ensures Moved(st, st', id)
  {
    var s, h := st.outputs[id], st.histories[id];
    NothingLeft(st, id);
    FlushCuts(h, s.pending, now - s.pendingSince, false);
    hide Consistent, FlushedHistory;
  }

  lemma FlushMoved(st: State, key: string, flushed: nat, now: int, st': State, id: nat)
    requires Consistent(st) && Called(st, FlushTimer(key, flushed, now), st') && id in st.histories
    ensures Moved(st, st', id)
  {
    if flushed !in st.outputs {
      StillMoved(st, st', id);
    } else if flushed == id {
      FlushedMoved(st, key, id, now, st');
    } else {
      var s, h := st.outputs[flushed], st.histories[flushed];
      NothingLeft(st, flushed);
      FlushCuts(h, s.pending, now - s.pendingSince, false);
      hide Consistent, FlushedHistory, Moved, OnlyAction;
      OthersMoved(st, flushed, FlushedHistory(h, s.pending, now - s.pendingSince, false), st.actions[key], st', id);
    }
  }

  lemma EndMoved(st: State, key: string, ok: bool, output: Option<string>, now: int, st': State, id: nat)
    requires Consistent(st) && Called(st, End(key, ok, output, now), st') && id in st.histories
    ensures Moved(st, st', id)
  {
    assert SlotOk(st, st.histories[id].key) && SlotOk(st, key);
    if SlotRuns(st, key) {
      var r := st.actions[key];
      var last := LastOutput(st.outputs[r.id], output);
      hide Consistent, LastOutput;
      FlushCuts(AddRaw(st.histories[r.id], last), st.outputs[r.id].pending + last, 0, true);
      if r.id != id {
        OthersMoved(st, r.id, FinishedHistory(st.histories[r.id], st.outputs, r.id, output),
                    r.(status := if ok then Succeeded else Failed), st', id);
      }
    }
  }

  lemma CallMoved(st: State, call: Call, st': State, id: nat)
    requires Consistent(st) && Called(st, call, st') && id in st.histories
    ensures Moved(st, st', id)
  {
    assert SlotOk(st, st.histories[id].key);
    hide Moved, Consistent;
    match call
    case Start(key, newId, secrets, logOpen) =>
      if !SlotRuns(st, key) {
        StartMoved(st, key, newId, secrets, logOpen, id);
      } else {
        StillMoved(st, st, id);
      }
    case Queue(key, message, now) => QueueMoved(st, key, message, now, st', id);
    case FlushTimer(key, flushed, now) => FlushMoved(st, key, flushed, now, st', id);
    case End(key, ok, output, now) => EndMoved(st, key, ok, output, now, st', id);
    case DeleteLog(_) => StillMoved(st, st', id);
  }

  lemma StillMoved(st: State, st': State, id: nat)
    requires Consistent(st) && id in st.histories
    requires st' == st || exists gone :: !IsRunning(st, gone) && st' == st.(files := st.files - {gone})
    ensures Moved(st, st', id)
  {
    assert SlotOk(st, st.histories[id].key);
  }

  // --- The same as steps of the view's server ---------------------------------------

  lemma OneCutEmits(h: History, h': History)
    requires OneCut(h, h')
    ensures |Emitted(h)| == |h.cuts| && |Emitted(h')| == |h'.cuts|
    ensures |h.cuts| < |h'.cuts| ==> Emitted(h') == Emitted(h) + [Emitted(h')[|h.cuts|]]
    ensures |h'.cuts| == |h.cuts| ==> Emitted(h') == Emitted(h)
  {
    hide MaskAll;
    assert forall i :: 0 <= i < |h.cuts| ==> h'.cuts[i] == h.cuts[i];
    assert forall i :: 0 <= i < |h.cuts| ==> Emitted(h')[i] == Emitted(h)[i];
  }

  function If(condition: bool, step: LiveView.Step): seq<LiveView.Step> {
    if condition then [step] else []
  }

  lemma RunIf(v: LiveView.System, condition: bool, step: LiveView.Step, rest: seq<LiveView.Step>)
    requires condition ==> LiveView.Enabled(v, step)
    ensures LiveView.RunFrom(v, If(condition, step) + rest)
         == LiveView.RunFrom(if condition then LiveView.Perform(v, step) else v, rest)
  {
    if condition {
      LiveView.RunCons(v, step, rest);
    } else {
      assert If(condition, step) + rest == rest;
    }
  }

  /** What the end of an action, of its place in memory and of its log are to a view. */
  function EndSteps(ends: bool, drops: bool, removes: bool): seq<LiveView.Step> {
    If(ends, LiveView.FinishAction) + (If(drops, LiveView.DropOutput) + (If(removes, LiveView.RemoveLog) + []))
  }

  lemma EndsFollow(v: LiveView.System, ends: bool, drops: bool, removes: bool)
    requires (ends ==> !v.finished) && (drops || removes ==> v.finished || ends)
    ensures LiveView.RunFrom(v, EndSteps(ends, drops, removes))
         == Some(v.(finished := v.finished || ends, dropped := v.dropped || drops, logged := v.logged && !removes))
  {
    hide If, LiveView.RunFrom;
    var v1 := v.(finished := v.finished || ends);
    var v2 := v1.(dropped := v.dropped || drops);
    var v3 := v2.(logged := v.logged && !removes);
    RunIf(v, ends, LiveView.FinishAction, If(drops, LiveView.DropOutput) + (If(removes, LiveView.RemoveLog) + []));
    RunIf(v1, drops, LiveView.DropOutput, If(removes, LiveView.RemoveLog) + []);
    RunIf(v2, removes, LiveView.RemoveLog, []);
    LiveView.RunNone(v3);
  }

  /** The view's server with the registry's output, and what it sent queued for an attached view. */
  ghost function Pushed(v: LiveView.System, all: seq<string>, first: nat, sent: Option<OutputEvent>): LiveView.System {
    v.(all := all, first := first,
       events := v.events + (if v.joined && sent.Some? then [sent.value] else []),
       live := v.live + if v.joined && sent.Some? then 1 else 0)
  }

  /** A new chunk and the evictions it causes. */
  lemma ChunkFollows(v: LiveView.System, data: string, first: nat, rest: seq<LiveView.Step>)
    requires !v.finished && v.first <= first <= |v.all|
    ensures LiveView.RunFrom(v, [LiveView.EmitChunk(data)] + ([LiveView.EvictUpTo(first)] + rest))
         == LiveView.RunFrom(Pushed(v, v.all + [data], first, Some(Live(v.all + [data], |v.all|))), rest)
  {
    hide LiveView.RunFrom, Live;
    var pushed := LiveView.Perform(v, LiveView.EmitChunk(data));
    assert v.events + [] == v.events;
    LiveView.RunCons(v, LiveView.EmitChunk(data), [LiveView.EvictUpTo(first)] + rest);
    LiveView.RunCons(pushed, LiveView.EvictUpTo(first), rest);
  }

  /** What a change of the registry is to the clients of action `id`. */
  ghost function StepsOf(st: State, st': State, id: nat): seq<LiveView.Step>
    requires Moved(st, st', id)
  {
    var h, h' := st.histories[id], st'.histories[id];
    var ends := EndStepsOf(st, st', id);
    if |h.cuts| < |h'.cuts| then
      OneCutEmits(h, h');
      [LiveView.EmitChunk(Emitted(h')[|h.cuts|])] + ([LiveView.EvictUpTo(FirstSeq(st'.outputs[id]))] + ends)
    else ends
  }

  /** The view's server after those chunks. */
  ghost function Sending(st: State, st': State, id: nat, v: LiveView.System): LiveView.System
    requires id in st'.histories
  {
    Pushed(v, Emitted(st'.histories[id]), if id in st'.outputs then FirstSeq(st'.outputs[id]) else v.first, SentTo(st, st', id))
  }

  ghost function Followed(st: State, st': State, id: nat, v: LiveView.System): LiveView.System
    requires id in st'.histories
  {
    Sending(st, st', id, v).(finished := !IsRunning(st', id), dropped := id !in st'.outputs, logged := id in st'.files)
  }

  ghost function EndStepsOf(st: State, st': State, id: nat): seq<LiveView.Step> {
    EndSteps(IsRunning(st, id) && !IsRunning(st', id), id in st.outputs && id !in st'.outputs,
             id in st.files && id !in st'.files)
  }

  lemma FlushFollows(v: LiveView.System, h: History, h': History, s: OutputState, s': OutputState, rest: seq<LiveView.Step>)
    requires OneCut(h, h') && WindowOf(s, Emitted(h)) && WindowOf(s', Emitted(h'))
    requires v.all == Emitted(h) && v.first == FirstSeq(s) && !v.finished && |h.cuts| < |h'.cuts| == |Emitted(h')|
    ensures LiveView.RunFrom(v, [LiveView.EmitChunk(Emitted(h')[|h.cuts|])] + ([LiveView.EvictUpTo(FirstSeq(s'))] + rest))
         == LiveView.RunFrom(Pushed(v, Emitted(h'), FirstSeq(s'), Sent(h, h')), rest)
  {
    OneCutEmits(h, h');
    hide Emitted, WindowOf, LiveView.RunFrom, FirstSeq, Numbered, Pushed;
    var data := Emitted(h')[|h.cuts|];
    WindowAdvances(s, s', v.all, data);
    ChunkFollows(v, data, FirstSeq(s'), rest);
  }

  lemma SameFirst(v: LiveView.System, s: OutputState, s': OutputState)
    requires WindowOf(s, v.all) && WindowOf(s', v.all) && v.first == FirstSeq(s)
    ensures Pushed(v, v.all, FirstSeq(s'), None) == v
  {
    WindowUnique(s, s', v.all);
    assert v.events + [] == v.events;
  }

  lemma CutFollows(st: State, st': State, id: nat, v: LiveView.System, rest: seq<LiveView.Step>)
    requires Consistent(st) && Consistent(st') && Moved(st, st', id) && Serves(st, id, v)
    requires |st.histories[id].cuts| < |st'.histories[id].cuts|
    ensures id in st'.outputs && |Emitted(st'.histories[id])| == |st'.histories[id].cuts|
    ensures var h, h' := st.histories[id], st'.histories[id];
            var first := FirstSeq(st'.outputs[id]);
            LiveView.RunFrom(v, [LiveView.EmitChunk(Emitted(h')[|h.cuts|])] + ([LiveView.EvictUpTo(first)] + rest))
            == LiveView.RunFrom(Pushed(v, Emitted(h'), first, Sent(h, h')), rest)
  {
    var h, h' := st.histories[id], st'.histories[id];
    assert OutputOk(st, id) && OutputOk(st', id);
    OneCutEmits(h, h');
    hide Consistent, OutputOk, IsRunning, WindowOf, Emitted, FirstSeq, LiveView.RunFrom;
    FlushFollows(v, h, h', st.outputs[id], st'.outputs[id], rest);
  }

  lemma NoCutFollows(st: State, st': State, id: nat, v: LiveView.System)
    requires Consistent(st) && Consistent(st') && Moved(st, st', id) && Serves(st, id, v)
    requires |st.histories[id].cuts| == |st'.histories[id].cuts|
    ensures Pushed(v, Emitted(st'.histories[id]), if id in st'.outputs then FirstSeq(st'.outputs[id]) else v.first,
                   SentTo(st, st', id)) == v
  {
    assert OutputOk(st, id) && OutputOk(st', id);
    OneCutEmits(st.histories[id], st'.histories[id]);
    hide Consistent, OutputOk, IsRunning, WindowOf, Emitted, FirstSeq;
    if id in st'.outputs {
      SameFirst(v, st.outputs[id], st'.outputs[id]);
    } else {
      assert v.events + [] == v.events;
    }
  }

  lemma EndsReach(st: State, st': State, id: nat, v: LiveView.System)
    requires Moved(st, st', id) && Serves(st, id, v)
    ensures LiveView.RunFrom(Sending(st, st', id, v), EndStepsOf(st, st', id)) == Some(Followed(st, st', id, v))
  {
    hide Emitted, FirstSeq, LiveView.RunFrom, EndSteps, IsRunning, SentTo, OneCut;
    EndsFollow(Sending(st, st', id, v), IsRunning(st, id) && !IsRunning(st', id), id in st.outputs && id !in st'.outputs,
               id in st.files && id !in st'.files);
  }

  lemma FollowedServes(st: State, st': State, id: nat, v: LiveView.System)
    requires Moved(st, st', id) && Serves(st, id, v)
    ensures Serves(st', id, Followed(st, st', id, v))
  {
    hide Emitted, FirstSeq, IsRunning, SentTo, OneCut;
  }

  /** Every change of the registry is steps of the view's server, and the events queued for an
      attached view are the ones the registry sent. */
  lemma ChangeServes(st: State, st': State, id: nat, v: LiveView.System)
    requires Consistent(st) && Consistent(st') && Moved(st, st', id) && Serves(st, id, v)
    ensures LiveView.RunFrom(v, StepsOf(st, st', id)) == Some(Followed(st, st', id, v))
    ensures Serves(st', id, Followed(st, st', id, v))
  {
    EndsReach(st, st', id, v);
    FollowedServes(st, st', id, v);
    hide Consistent, Emitted, FirstSeq, LiveView.RunFrom, EndStepsOf, IsRunning, Sent, Serves, Followed, Pushed;
    if |st.histories[id].cuts| < |st'.histories[id].cuts| {
      CutFollows(st, st', id, v, EndStepsOf(st, st', id));
    } else {
      NoCutFollows(st, st', id, v);
    }
  }

  /** The registry answers an attaching client as the view's server does, whatever it asks for. */
  lemma ReplayServes(st: State, id: nat, fromSeq: nat, v: LiveView.System)
    requires Consistent(st) && Serves(st, id, v)
    ensures AttachReply(st, id, fromSeq) == LiveView.Answer(v, fromSeq)
  {
    assert SlotOk(st, st.histories[id].key) && OutputOk(st, id);
    hide Consistent, CutsAllowed, Emitted;
  }

  // --- The registry and a client ----------------------------------------------------

  /** The connection of a client following one action, and its view. */
  datatype Client = Client(
    joined: bool, connected: bool, requests: seq<LiveView.Request>, events: seq<OutputEvent>, view: LiveView.View)

  const NO_CLIENT := Client(false, false, [], [], LiveView.View(0, "", false))

  datatype World = World(st: State, client: Client)

  datatype Move = Server(call: Call) | Connect | Disconnect | Reattach | ServerReceives | ClientReceives

  function Received(client: Client, answer: OutputEvent): Client
    requires client.requests != []
  {
    match client.requests[0]
    case Detach => client.(joined := false, requests := client.requests[1..])
    case Attach(_) => client.(joined := true, requests := client.requests[1..], events := client.events + [answer])
  }

  /** What the client's side of a move is; `sent` goes to it if it is attached. */
  ghost predicate ClientMoves(st: State, id: nat, c: Client, move: Move, sent: Option<OutputEvent>, c': Client) {
    match move
    case Server(_) => c' == c.(events := c.events + if c.joined && sent.Some? then [sent.value] else [])
    case Connect => !c.connected && c' == c.(connected := true, requests := [LiveView.Attach(c.view.nextSeq)])
    case Disconnect => c.connected && c' == c.(connected := false, joined := false, requests := [], events := [])
    case Reattach =>
      c.connected && c' == c.(requests := c.requests + [LiveView.Detach, LiveView.Attach(c.view.nextSeq)])
    case ServerReceives =>
      && c.requests != []
      && c' == Received(c, if c.requests[0].Attach? then AttachReply(st, id, c.requests[0].fromSeq) else OutputEvent([], None, 0, false))
    case ClientReceives =>
      c.events != [] && c' == c.(view := LiveView.Handled(c.view, c.events[0]), events := c.events[1..])
  }

  ghost predicate Moves(id: nat, w: World, move: Move, w': World) {
    && (if move.Server? then Called(w.st, move.call, w'.st) else w'.st == w.st)
    && ClientMoves(w.st, id, w.client, move, SentTo(w.st, w'.st, id), w'.client)
  }

  /** The view's system is the registry's action `id` and the client. */
  ghost predicate Shown(w: World, id: nat, v: LiveView.System) {
    && Consistent(w.st) && Serves(w.st, id, v)
    && w.client == Client(v.joined, v.connected, v.requests, v.events, v.view)
  }

  /** A move is these steps of the view's system. */
  ghost function StepsOfMove(id: nat, w: World, move: Move, w': World): seq<LiveView.Step>
    requires move.Server? ==> Moved(w.st, w'.st, id)
  {
    match move
    case Server(_) => StepsOf(w.st, w'.st, id)
    case Connect => [LiveView.Connect] + []
    case Disconnect => [LiveView.Disconnect] + []
    case Reattach => [LiveView.Reattach] + []
    case ServerReceives => [LiveView.ServerReceives] + []
    case ClientReceives => [LiveView.ClientReceives] + []
  }

  lemma ClientMoveShown(id: nat, w: World, move: Move, w': World, v: LiveView.System, step: LiveView.Step)
    requires Moves(id, w, move, w') && Shown(w, id, v) && !move.Server?
    requires StepsOfMove(id, w, move, w') == [step] + []
    ensures LiveView.Enabled(v, step) && Shown(w', id, LiveView.Perform(v, step))
  {
    assert step == ([step] + [])[0];
    if move.ServerReceives? && v.requests[0].Attach? {
      ReplayServes(w.st, id, v.requests[0].fromSeq, v);
    }
    hide Consistent, AttachReply, LiveView.Answer, LiveView.Handled, LiveView.BaseAfter, Emitted, IsRunning, FirstSeq;
  }

  ghost function SecretsOf(st: State, id: nat): seq<string> {
    if id in st.histories then st.histories[id].secrets else []
  }

  lemma ServerMoveShown(id: nat, w: World, call: Call, w': World, v: LiveView.System)
    requires Moves(id, w, Server(call), w') && Shown(w, id, v)
    ensures Moved(w.st, w'.st, id) && SecretsOf(w'.st, id) == SecretsOf(w.st, id)
    ensures LiveView.RunFrom(v, StepsOf(w.st, w'.st, id)) == Some(Followed(w.st, w'.st, id, v))
    ensures Shown(w', id, Followed(w.st, w'.st, id, v))
  {
    CallMoved(w.st, call, w'.st, id);
    assert Consistent(w'.st) && OneCut(w.st.histories[id], w'.st.histories[id]);
    hide Called, Consistent, Moved, Serves, LiveView.RunFrom, StepsOf, SentTo, IsRunning, FirstSeq, Emitted;
    ChangeServes(w.st, w'.st, id, v);
  }

  lemma MoveShown(id: nat, w: World, move: Move, w': World, v: LiveView.System) returns (steps: seq<LiveView.Step>)
    requires Moves(id, w, move, w') && Shown(w, id, v)
    ensures LiveView.RunFrom(v, steps).Some? && Shown(w', id, LiveView.RunFrom(v, steps).value)
    ensures SecretsOf(w'.st, id) == SecretsOf(w.st, id)
  {
    assert !move.Server? ==> w'.st == w.st;
    hide Moves, Shown, LiveView.RunFrom, LiveView.Perform, LiveView.Enabled, StepsOf, Moved, SecretsOf;
    if move.Server? {
      ServerMoveShown(id, w, move.call, w', v);
      steps := StepsOf(w.st, w'.st, id);
    } else {
      steps := StepsOfMove(id, w, move, w');
      var step := steps[0];
      assert steps == [step] + [];
      ClientMoveShown(id, w, move, w', v, step);
      LiveView.RunCons(v, step, []);
      LiveView.RunNone(LiveView.Perform(v, step));
    }
  }

  /** A run from the moment action `id` was started: the worlds it goes through. */
  ghost predicate Run(id: nat, worlds: seq<World>, moves: seq<Move>) {
    |worlds| == |moves| + 1 && forall i :: 0 <= i < |moves| ==> Moves(id, worlds[i], moves[i], worlds[i + 1])
  }

  ghost predicate Begins(w: World, key: string, id: nat, secrets: seq<string>, logOpen: bool) {
    exists st :: Consistent(st) && id !in st.histories && !SlotRuns(st, key)
              && w == World(Started(st, key, id, secrets, logOpen), NO_CLIENT)
  }

  lemma BeginShown(w: World, key: string, id: nat, secrets: seq<string>, logOpen: bool)
    requires Begins(w, key, id, secrets, logOpen)
    ensures Shown(w, id, LiveView.NewAction(logOpen)) && SecretsOf(w.st, id) == secrets
  {
    var st :| Consistent(st) && id !in st.histories && !SlotRuns(st, key)
              && w == World(Started(st, key, id, secrets, logOpen), NO_CLIENT);
    StartedConsistent(st, key, id, secrets, logOpen);
    assert HistoryOk(st, id);
    hide Consistent;
  }

  lemma RunsAppend(v: LiveView.System, xs: seq<LiveView.Step>, ys: seq<LiveView.Step>)
    requires LiveView.RunFrom(v, xs).Some?
    ensures LiveView.RunFrom(v, xs + ys) == LiveView.RunFrom(LiveView.RunFrom(v, xs).value, ys)
    decreases |xs|
  {
    hide LiveView.Perform, LiveView.Enabled;
    if xs == [] {
      assert xs + ys == ys;
    } else {
      assert (xs + ys)[1..] == xs[1..] + ys;
      RunsAppend(LiveView.Perform(v, xs[0]), xs[1..], ys);
    }
  }

  /** Every run of the registry with a client is a run of the view's system. */
  lemma {:induction false} RunIsShown(key: string, id: nat, secrets: seq<string>, logOpen: bool, worlds: seq<World>, moves: seq<Move>)
    returns (steps: seq<LiveView.Step>)
    requires Run(id, worlds, moves) && Begins(worlds[0], key, id, secrets, logOpen)
    ensures LiveView.RunFrom(LiveView.NewAction(logOpen), steps).Some?
    ensures Shown(worlds[|moves|], id, LiveView.RunFrom(LiveView.NewAction(logOpen), steps).value)
    ensures SecretsOf(worlds[|moves|].st, id) == secrets
    decreases |moves|
  {
    hide Moves, Shown, Begins, LiveView.RunFrom, SecretsOf;
    if moves == [] {
      BeginShown(worlds[0], key, id, secrets, logOpen);
      LiveView.RunNone(LiveView.NewAction(logOpen));
      steps := [];
    } else {
      var n := |moves| - 1;
      assert moves[..n] + [moves[n]] == moves;
      var before := RunIsShown(key, id, secrets, logOpen, worlds[..n + 1], moves[..n]);
      var v := LiveView.RunFrom(LiveView.NewAction(logOpen), before).value;
      assert Moves(id, worlds[n], moves[n], worlds[n + 1]);
      var more := MoveShown(id, worlds[n], moves[n], worlds[n + 1], v);
      RunsAppend(LiveView.NewAction(logOpen), before, more);
      steps := before + more;
    }
  }

  /** In every run of the registry the view of a current action holds its masked chunks up to
      `nextSeq`, without a gap or a duplicate, from some chunk on; from the first one on while the
      log file is there. Then a view with nothing left to receive, or one told that the action is
      done, shows everything. */
  lemma RegistryViewIsPrefix(key: string, id: nat, secrets: seq<string>, logOpen: bool, worlds: seq<World>, moves: seq<Move>)
    requires Run(id, worlds, moves) && Begins(worlds[0], key, id, secrets, logOpen)
    ensures var w := worlds[|moves|];
            id in w.st.histories && w.st.histories[id].secrets == secrets &&
            var all, c := Emitted(w.st.histories[id]), w.client;
            && (exists m: nat, n: nat :: m <= n <= |all| && c.view.text == Concat(all[m..n]))
            && (id in w.st.outputs ==>
                  exists base: nat :: base <= c.view.nextSeq <= |all| && c.view.text == Concat(all[base..c.view.nextSeq]))
            && (id in w.st.files ==> exists n :: 0 <= n <= |all| && c.view.text == Concat(all[..n]))
            && (id in w.st.files && id in w.st.outputs ==> c.view.text == Concat(all[..c.view.nextSeq]))
            && (id in w.st.files && ((c.joined && c.events == []) || c.view.done) ==> c.view.text == Concat(all))
  {
    var steps := RunIsShown(key, id, secrets, logOpen, worlds, moves);
    LiveView.ViewIsPrefix(logOpen, steps);
    LiveView.ViewCatchesUp(logOpen, steps);
    hide LiveView.RunFrom, Emitted, Run, Begins, Consistent;
    var v := LiveView.RunFrom(LiveView.NewAction(logOpen), steps).value;
    assert Serves(worlds[|moves|].st, id, v);
  }

  lemma ContainsIn(x: string, part: string, y: string, s: string)
    requires Contains(part, s)
    ensures Contains(x + part + y, s)
  {
    var i: nat :| OccursAt(part, s, i);
    assert (x + part + y)[|x| + i..|x| + i + |s|] == part[i..i + |s|];
    assert OccursAt(x + part + y, s, |x| + i);
  }

  lemma Slices(all: seq<string>, i: nat, j: nat)
    requires i <= j <= |all|
    ensures all[..i] + all[i..j] == all[..j] && all[..j] + all[j..] == all
  {
  }

  lemma SegmentOf(all: seq<string>, i: nat, j: nat)
    requires i <= j <= |all|
    ensures Concat(all) == Concat(all[..i]) + Concat(all[i..j]) + Concat(all[j..])
  {
    Slices(all, i, j);
    hide *;
    ConcatAppend(all[..i], all[i..j]);
    ConcatAppend(all[..j], all[j..]);
  }

  /** What isn't in the whole masked output isn't in the part a view shows. */
  lemma SegmentHides(all: seq<string>, i: nat, j: nat, rest: string, whole: string, s: string)
    requires i <= j <= |all| && Concat(all) + rest == whole && !Contains(whole, s)
    ensures !Contains(Concat(all[i..j]), s)
  {
    hide Concat, Contains;
    SegmentOf(all, i, j);
    var x, part, y := Concat(all[..i]), Concat(all[i..j]), Concat(all[j..]);
    assert x + part + y + rest == x + part + (y + rest);
    if Contains(part, s) {
      ContainsIn(x, part, y + rest, s);
    }
  }

  /** The output of the action not emitted yet. */
  ghost function PendingOf(st: State, id: nat): string {
    if id in st.outputs then st.outputs[id].pending else ""
  }

  /** No output of the action was cut inside a secret. */
  ghost predicate CutWell(st: State, id: nat) {
    && id in st.histories && NonEmpty(st.histories[id].secrets)
    && Unsplit(Parts(st.histories[id], PendingOf(st, id)), st.histories[id].secrets)
  }

  lemma WholeMasked(st: State, id: nat)
    requires Consistent(st) && CutWell(st, id)
    ensures var h := st.histories[id];
            && Concat(Emitted(h)) + MaskAll(PendingOf(st, id), h.secrets) == MaskAll(h.raw, h.secrets)
            && (!IsRunning(st, id) ==> Concat(Emitted(h)) == MaskAll(h.raw, h.secrets))
  {
    var h := st.histories[id];
    assert OutputOk(st, id) && HistoryOk(st, id) && SlotOk(st, h.key);
    MaskEmpty(h.secrets);
    hide Consistent, WindowOf, Unsplit, Parts, Concat, MaskAll, CutsAllowed;
    PartsMasked(h, PendingOf(st, id), h.secrets);
    MaskCommutesUnsplit(Parts(h, PendingOf(st, id)), h.secrets);
    assert Concat(h.cuts) + PendingOf(st, id) == h.raw;
    assert !IsRunning(st, id) ==> PendingOf(st, id) == "";
  }

  /** From appended text to the browser: unless an output was cut inside a secret, no view in any
      run ever shows a safe secret; and one that has everything of a finished action shows the
      mask of everything the action was given, while its log is there. */
  lemma ViewShowsNoSecret(key: string, id: nat, secrets: seq<string>, logOpen: bool, worlds: seq<World>, moves: seq<Move>)
    requires Run(id, worlds, moves) && Begins(worlds[0], key, id, secrets, logOpen) && CutWell(worlds[|moves|].st, id)
    ensures var w := worlds[|moves|];
            var h, c := w.st.histories[id], w.client;
            && (forall s :: s in secrets && Safe(s) ==> !Contains(c.view.text, s))
            && (id in w.st.files && !IsRunning(w.st, id) && ((c.joined && c.events == []) || c.view.done) ==>
                  c.view.text == MaskAll(h.raw, secrets))
  {
    hide Contains, Safe, MaskAll, Emitted, LiveView.RunFrom, Begins, Moves, Consistent, Concat, IsRunning;
    var w := worlds[|moves|];
    var h, c := w.st.histories[id], w.client;
    var _ := RunIsShown(key, id, secrets, logOpen, worlds, moves);
    RegistryViewIsPrefix(key, id, secrets, logOpen, worlds, moves);
    WholeMasked(w.st, id);
    MaskComplete(h.raw, h.secrets);
    var all := Emitted(h);
    var m: nat, n: nat :| m <= n <= |all| && c.view.text == Concat(all[m..n]);
    forall s | s in secrets && Safe(s)
      ensures !Contains(c.view.text, s)
    {
      SegmentHides(all, m, n, MaskAll(PendingOf(w.st, id), h.secrets), MaskAll(h.raw, h.secrets), s);
    }
  }
}
