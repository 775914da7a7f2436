/** Automatic deploys: the one-deep "newest wins" queue of src/modules/automation/autoDeploy.ts,
    per project, with the action slot of src/modules/actions/registry.ts that drives it. */
module AutoDeploy {
  import opened Options

  datatype Commit = Commit(sha: string, message: Option<string>, author: Option<string>, at: Option<string>)

  datatype Source = Auto | Webhook

  /** A queued deploy. `ticket` is the identity of the queue entry, which the deferred callback
      compares; `request` (proof only) is the number of the request it came from. */
  datatype Entry = Entry(ticket: nat, commit: Commit, source: Source, request: nat)

  /** What starts a project's automatic deploys. */
  datatype Trigger = ByPoller | ByWebhook | ByHand

  /** `hookFailing` and `checkedAt` are what the poller keeps about the project: whether its hook
      is marked failing, and when it was last polled. */
  datatype ProjectRow = ProjectRow(
    hasRepo: bool, paused: bool, trigger: Trigger, hookFailing: bool, checkedAt: Option<int>,
    lastCommit: Option<Commit>, pendingSha: Option<string>)

  /** One project: its row, whether an action holds its repo slot, its entry in the pending map,
      and the immediates scheduled with the entry each captured. Then, for the proof: every
      commit requested, the numbers of the requests started, whether the newest request was
      dropped, and the last commit recorded before the first start. */
  datatype Project = Project(
    row: Option<ProjectRow>, running: bool, pending: Option<Entry>, immediates: multiset<Entry>, nextTicket: nat,
    requests: seq<Commit>, starts: seq<nat>, dropped: bool, baseline: Option<Commit>)

  datatype Outcome = Started | Queued

  // --- The functions of the module --------------------------------------------------

  function SetPendingSha(row: Option<ProjectRow>, sha: Option<string>): Option<ProjectRow> {
    match row
    case None => None
    case Some(r) => Some(r.(pendingSha := sha))
  }

  /** `start`, then `recordCommit`, or the queue. */
  function Requested(p: Project, commit: Commit, source: Source, request: nat): Project {
    if !p.running then
      p.(running := true, pending := None, starts := p.starts + [request],
         row := match p.row {
           case None => None
           case Some(r) => Some(r.(lastCommit := Some(commit), pendingSha := None))
         })
    else
      p.(pending := Some(Entry(p.nextTicket, commit, source, request)), nextTicket := p.nextTicket + 1,
         row := SetPendingSha(p.row, Some(commit.sha)))
  }

  function Cleared(p: Project): Project {
    if p.pending.None? then p
    else p.(pending := None, dropped := true, row := SetPendingSha(p.row, None))
  }

  /** The slot's action ends: the finish listener schedules the queued entry, if any. */
  function SlotFreed(p: Project): Project {
    p.(running := false,
       immediates := match p.pending {
         case None => p.immediates
         case Some(entry) => p.immediates + multiset{entry}
       })
  }

  /** A scheduled immediate runs with the entry it captured. */
  function ImmediateRan(p: Project, entry: Entry): Project {
    var p' := p.(immediates := p.immediates - multiset{entry});
    if p'.pending != Some(entry) then p'
    else if p'.row.None? || p'.row.value.paused || p'.row.value.trigger == ByHand then Cleared(p')
    else Requested(p', entry.commit, entry.source, entry.request)
  }

  // --- Steps ------------------------------------------------------------------------

  datatype Step =
    | RequestDeploy(commit: Commit, source: Source)
    | OtherActionStarts
    | SlotFinishes
    | ImmediateRuns(entry: Entry)
    | ClearPending
    | SetPaused(paused: bool)
    | SetTrigger(trigger: Trigger)
    | PollerChecked(hookFailing: bool, at: Option<int>)
    | DeleteProject
    | Restart

  predicate Enabled(p: Project, step: Step) {
    match step
    case OtherActionStarts => !p.running
    case SlotFinishes => p.running
    case ImmediateRuns(entry) => entry in p.immediates
    case _ => true
  }

  function Perform(p: Project, step: Step): Project
    requires Enabled(p, step)
  {
    match step
    case RequestDeploy(commit, source) =>
      Requested(p.(requests := p.requests + [commit], dropped := false), commit, source, |p.requests|)
    case OtherActionStarts => p.(running := true)
    case SlotFinishes => SlotFreed(p)
    case ImmediateRuns(entry) => ImmediateRan(p, entry)
    case ClearPending => Cleared(p)
    case SetPaused(paused) =>
      (match p.row case None => p case Some(r) => p.(row := Some(r.(paused := paused))))
    case SetTrigger(trigger) =>
      (match p.row case None => p case Some(r) => p.(row := Some(r.(trigger := trigger))))
    case PollerChecked(hookFailing, at) =>
      (match p.row case None => p case Some(r) => p.(row := Some(r.(hookFailing := hookFailing, checkedAt := at))))
    case DeleteProject => p.(row := None)
    // The process dies; at boot its actions are marked interrupted and stale markers cleared.
    case Restart =>
      p.(running := false, pending := None, immediates := multiset{}, dropped := p.dropped || p.pending.Some?,
         row := SetPendingSha(p.row, None))
  }

  function NewProject(row: ProjectRow): Project {
    Project(Some(row.(pendingSha := None)), false, None, multiset{}, 0, [], [], false, row.lastCommit)
  }

  function RunFrom(p: Project, steps: seq<Step>): (r: Option<Project>)
    decreases |steps|
  {
    if steps == [] then Some(p)
    else if Enabled(p, steps[0]) then RunFrom(Perform(p, steps[0]), steps[1..])
    else None
  }

  // --- The invariant ----------------------------------------------------------------

  ghost predicate NoLostWakeup(p: Project) {
    p.pending.Some? ==> p.running || p.pending.value in p.immediates
  }

  ghost predicate MirrorsQueue(p: Project) {
    p.row.Some? ==>
      p.row.value.pendingSha == match p.pending { case None => None case Some(entry) => Some(entry.commit.sha) }
  }

  /** A queue entry is a request still to start; its ticket identifies it. */
  ghost predicate EntriesOk(p: Project) {
    && (p.pending.Some? ==> p.pending.value.ticket < p.nextTicket)
    && (forall e :: e in p.immediates ==> e.ticket < p.nextTicket)
    && (forall e :: e in p.immediates && p.pending.Some? && e.ticket == p.pending.value.ticket ==> e == p.pending.value)
  }

  ghost predicate NewestWins(p: Project) {
    && (forall i, j :: 0 <= i < j < |p.starts| ==> p.starts[i] < p.starts[j])
    && (forall i :: 0 <= i < |p.starts| ==> p.starts[i] < |p.requests|)
    && (p.pending.Some? ==>
          && p.pending.value.request == |p.requests| - 1
          && p.pending.value.commit == p.requests[|p.requests| - 1]
          && (forall i :: 0 <= i < |p.starts| ==> p.starts[i] < p.pending.value.request))
    && (p.pending.None? && !p.dropped && p.requests != [] ==>
          p.starts != [] && p.starts[|p.starts| - 1] == |p.requests| - 1)
  }

  /** The commit of the last deploy started, or what was recorded before the first one. */
  ghost function LastStarted(p: Project): Option<Commit>
    requires NewestWins(p)
  {
    if p.starts == [] then p.baseline else Some(p.requests[p.starts[|p.starts| - 1]])
  }

  ghost predicate Inv(p: Project) {
    && NoLostWakeup(p) && MirrorsQueue(p) && EntriesOk(p) && NewestWins(p)
    && (p.row.Some? ==> p.row.value.lastCommit == LastStarted(p))
  }

  lemma RequestKeeps(p: Project, commit: Commit, source: Source)
    requires Inv(p)
    ensures Inv(Perform(p, RequestDeploy(commit, source)))
  {
  }

  lemma DiscardKeeps(p: Project, entry: Entry)
    requires Inv(p) && entry in p.immediates && p.pending != Some(entry)
    ensures Inv(p.(immediates := p.immediates - multiset{entry}))
  {
    var p' := p.(immediates := p.immediates - multiset{entry});
    assert p.pending.Some? && p.pending.value in p.immediates ==> p.pending.value in p'.immediates;
    assert NewestWins(p');
    hide NewestWins;
  }

  lemma WokenQueue(p': Project, entry: Entry, p: Project)
    requires EntriesOk(p) && NoLostWakeup(p) && MirrorsQueue(p) && p.pending == Some(entry)
    requires p' == p.(immediates := p'.immediates) && forall e :: e in p'.immediates ==> e in p.immediates
    ensures var r := Requested(p', entry.commit, entry.source, entry.request);
            EntriesOk(r) && NoLostWakeup(r) && MirrorsQueue(r)
  {
  }

  lemma WokenStarts(p': Project, entry: Entry, p: Project)
    requires NewestWins(p) && p.pending == Some(entry) && p' == p.(immediates := p'.immediates)
    requires p.row.Some? ==> p.row.value.lastCommit == LastStarted(p)
    ensures var r := Requested(p', entry.commit, entry.source, entry.request);
            NewestWins(r) && (r.row.Some? ==> r.row.value.lastCommit == LastStarted(r))
  {
  }

  /** Running the captured entry with the slot free starts it; with the slot taken it is queued
      again under a new ticket. */
  lemma WakeKeeps(p: Project, entry: Entry)
    requires Inv(p) && entry in p.immediates && p.pending == Some(entry)
    ensures var p' := p.(immediates := p.immediates - multiset{entry});
            Inv(Requested(p', entry.commit, entry.source, entry.request))
  {
    var p' := p.(immediates := p.immediates - multiset{entry});
    var r := Requested(p', entry.commit, entry.source, entry.request);
    assert forall e :: e in p'.immediates ==> e in p.immediates;
    WokenQueue(p', entry, p);
    WokenStarts(p', entry, p);
    hide EntriesOk, NoLostWakeup, NewestWins, LastStarted, Requested, MirrorsQueue;
  }

  lemma DropKeeps(p: Project, entry: Entry)
    requires Inv(p) && entry in p.immediates && p.pending == Some(entry)
    ensures Inv(Cleared(p.(immediates := p.immediates - multiset{entry})))
  {
    var p' := p.(immediates := p.immediates - multiset{entry});
    assert forall e :: e in p'.immediates ==> e in p.immediates;
    assert NewestWins(Cleared(p'));
    hide NewestWins;
  }

  lemma ImmediateKeeps(p: Project, entry: Entry)
    requires Inv(p) && entry in p.immediates
    ensures Inv(Perform(p, ImmediateRuns(entry)))
  {
    hide Inv, Requested, Cleared;
    if p.pending != Some(entry) {
      DiscardKeeps(p, entry);
    } else {
      WakeKeeps(p, entry);
      DropKeeps(p, entry);
    }
  }

  lemma FinishKeeps(p: Project)
    requires Inv(p) && p.running
    ensures Inv(Perform(p, SlotFinishes))
  {
    assert NewestWins(SlotFreed(p));
    hide NewestWins;
  }

  lemma RestartKeeps(p: Project)
    requires Inv(p)
    ensures Inv(Perform(p, Restart))
  {
    assert NewestWins(Perform(p, Restart));
    hide NewestWins;
  }

  lemma ClearKeeps(p: Project)
    requires Inv(p)
    ensures Inv(Cleared(p))
  {
    assert NewestWins(Cleared(p));
    hide NewestWins;
  }

  /** The queue and the deploys started don't depend on the project's settings, and an action
      that only takes the slot starts no deploy. */
  lemma OtherKeeps(p: Project, step: Step)
    requires Inv(p) && Enabled(p, step)
    requires step.OtherActionStarts? || step.SetPaused? || step.SetTrigger? || step.PollerChecked? || step.DeleteProject?
    ensures Inv(Perform(p, step))
  {
    SameStarts(p, Perform(p, step));
    hide NewestWins, EntriesOk, LastStarted;
  }

  lemma SameStarts(p: Project, p': Project)
    requires NewestWins(p) && EntriesOk(p)
    requires p' == p.(row := p'.row, running := p'.running)
    ensures NewestWins(p') && EntriesOk(p') && LastStarted(p') == LastStarted(p)
  {
  }

  lemma StepKeeps(p: Project, step: Step)
    requires Inv(p) && Enabled(p, step)
    ensures Inv(Perform(p, step))
  {
    hide Inv, Requested, Cleared, SlotFreed, ImmediateRan;
    match step
    case RequestDeploy(commit, source) => RequestKeeps(p, commit, source);
    case ImmediateRuns(entry) => ImmediateKeeps(p, entry);
    case SlotFinishes => FinishKeeps(p);
    case ClearPending => ClearKeeps(p);
    case Restart => RestartKeeps(p);
    case _ => OtherKeeps(p, step);
  }

  lemma {:induction false} RunKeeps(p: Project, steps: seq<Step>)
    requires Inv(p)
    ensures RunFrom(p, steps).Some? ==> Inv(RunFrom(p, steps).value)
    decreases |steps|
  {
    hide Inv;
    if steps != [] && Enabled(p, steps[0]) {
      StepKeeps(p, steps[0]);
      RunKeeps(Perform(p, steps[0]), steps[1..]);
    }
  }

  // --- What every run keeps ---------------------------------------------------------

  /** In every reachable state a queued commit has a running action that will wake it, or an
      immediate that captured exactly the queued entry, and the database shows the queue. */
  lemma QueueIsWatched(row: ProjectRow, steps: seq<Step>)
    ensures RunFrom(NewProject(row), steps).Some? ==>
              var p := RunFrom(NewProject(row), steps).value;
              NoLostWakeup(p) && MirrorsQueue(p)
  {
    RunKeeps(NewProject(row), steps);
  }

  ghost function StartedCommits(p: Project): seq<Commit>
    requires NewestWins(p)
  {
    seq(|p.starts|, i requires 0 <= i < |p.starts| => p.requests[p.starts[i]])
  }

  /** `xs` is `ys` with some elements left out. */
  ghost predicate Subsequence<T>(xs: seq<T>, ys: seq<T>) {
    exists at: seq<nat> ::
      && |at| == |xs|
      && (forall i, j :: 0 <= i < j < |at| ==> at[i] < at[j])
      && (forall i :: 0 <= i < |at| ==> at[i] < |ys| && ys[at[i]] == xs[i])
  }

  /** The deploys started are a subsequence of the requests; what is queued is the newest
      request; and when nothing is queued or was dropped, the newest request was started. The
      recorded commit is the last one started. */
  lemma NewestCommitWins(row: ProjectRow, steps: seq<Step>)
    ensures RunFrom(NewProject(row), steps).Some? ==>
              var p := RunFrom(NewProject(row), steps).value;
              && NewestWins(p)
              && Subsequence(StartedCommits(p), p.requests)
              && (p.pending.Some? ==> p.requests != [] && p.pending.value.commit == p.requests[|p.requests| - 1])
              && (p.pending.None? && !p.dropped && p.requests != [] ==>
                    p.starts != [] && StartedCommits(p)[|p.starts| - 1] == p.requests[|p.requests| - 1])
              && (p.row.Some? ==> p.row.value.lastCommit == LastStarted(p))
  {
    RunKeeps(NewProject(row), steps);
    if RunFrom(NewProject(row), steps).Some? {
      var p := RunFrom(NewProject(row), steps).value;
      assert NewestWins(p);
      var at := p.starts;
      assert |at| == |StartedCommits(p)|;
    }
  }

  // --- What becomes of a queued deploy ----------------------------------------------

  /** The project is still there to be deployed automatically. */
  predicate Deployable(row: Option<ProjectRow>) {
    row.Some? && !row.value.paused && row.value.trigger != ByHand
  }

  /** The immediate that captured the queued entry starts exactly that deploy, if the slot is free
      and the project is still deployed automatically; queues it again if the slot is taken; and
      otherwise drops it. Any other immediate does nothing. */
  lemma ImmediateMeans(p: Project, entry: Entry)
    requires entry in p.immediates
    ensures var q := Perform(p, ImmediateRuns(entry));
            && q.immediates == p.immediates - multiset{entry} && q.requests == p.requests && q.baseline == p.baseline
            && (p.pending != Some(entry) ==> q == p.(immediates := q.immediates))
            && (p.pending == Some(entry) && Deployable(p.row) && !p.running ==>
                  && q.running && q.starts == p.starts + [entry.request] && q.pending == None && q.dropped == p.dropped
                  && q.row == Some(p.row.value.(lastCommit := Some(entry.commit), pendingSha := None)))
            && (p.pending == Some(entry) && Deployable(p.row) && p.running ==>
                  && q.running && q.starts == p.starts && q.dropped == p.dropped
                  && q.pending == Some(Entry(p.nextTicket, entry.commit, entry.source, entry.request))
                  && q.row == Some(p.row.value.(pendingSha := Some(entry.commit.sha))))
            && (p.pending == Some(entry) && !Deployable(p.row) ==>
                  && q.running == p.running && q.starts == p.starts && q.pending == None && q.dropped
                  && (p.row.Some? ==> q.row == Some(p.row.value.(pendingSha := None))) && (p.row.None? ==> q.row.None?))
  {
  }

  /** So a queued deploy is never stuck: with the slot free its immediate is there, and running it
      starts the newest request and records its commit. */
  lemma QueuedStartsNext(row: ProjectRow, steps: seq<Step>)
    ensures RunFrom(NewProject(row), steps).Some? ==>
              var p := RunFrom(NewProject(row), steps).value;
              p.pending.Some? && !p.running && Deployable(p.row) ==>
                var step := ImmediateRuns(p.pending.value);
                && p.requests != [] && Enabled(p, step)
                && var q := Perform(p, step);
                && q.running && q.pending == None && q.starts == p.starts + [|p.requests| - 1] && q.dropped == p.dropped
                && q.row.Some? && q.row.value.lastCommit == Some(p.requests[|p.requests| - 1])
  {
    RunKeeps(NewProject(row), steps);
    if RunFrom(NewProject(row), steps).Some? {
      var p := RunFrom(NewProject(row), steps).value;
      if p.pending.Some? && !p.running {
        ImmediateMeans(p, p.pending.value);
      }
    }
  }

  /** The queue is dropped on purpose, by a restart, or because the project isn't deployed
      automatically any more. */
  predicate Drops(p: Project, step: Step) {
    p.pending.Some? &&
    match step
    case ClearPending => true
    case Restart => true
    case ImmediateRuns(entry) => p.pending == Some(entry) && !Deployable(p.row)
    case _ => false
  }

  lemma DroppedOnlyBy(p: Project, step: Step)
    requires Enabled(p, step)
    ensures Perform(p, step).dropped <==> Drops(p, step) || (p.dropped && !step.RequestDeploy?)
  {
    if step.ImmediateRuns? {
      ImmediateMeans(p, step.entry);
    }
  }

  function DropsIn(p: Project, steps: seq<Step>): bool
    decreases |steps|
  {
    steps != [] && Enabled(p, steps[0]) && (Drops(p, steps[0]) || DropsIn(Perform(p, steps[0]), steps[1..]))
  }

  lemma {:induction false} NeverDropped(p: Project, steps: seq<Step>)
    requires !p.dropped && !DropsIn(p, steps)
    ensures RunFrom(p, steps).Some? ==> !RunFrom(p, steps).value.dropped
    decreases |steps|
  {
    hide Drops, Perform;
    if steps != [] && Enabled(p, steps[0]) {
      DroppedOnlyBy(p, steps[0]);
      NeverDropped(Perform(p, steps[0]), steps[1..]);
    }
  }

  /** In a run that drops nothing the newest request was started, or is queued still. */
  lemma NewestStartedOrQueued(row: ProjectRow, steps: seq<Step>)
    requires !DropsIn(NewProject(row), steps)
    ensures RunFrom(NewProject(row), steps).Some? ==>
              var p := RunFrom(NewProject(row), steps).value;
              p.requests != [] ==>
                if p.pending.Some? then p.pending.value.commit == p.requests[|p.requests| - 1]
                else p.starts != [] && p.starts[|p.starts| - 1] == |p.requests| - 1
  {
    RunKeeps(NewProject(row), steps);
    NeverDropped(NewProject(row), steps);
  }

  // --- What a restart loses ---------------------------------------------------------

  const WEBHOOK_SAFETY_INTERVAL_MS := 1_800_000

  /** The poller's settings: whether it polls on its own, and whether it also checks projects
      deployed by webhook. */
  datatype PollerConfig = PollerConfig(enabled: bool, safetyCheck: bool)

  /** A pass at `now` looks at the project. */
  predicate Selected(row: ProjectRow, config: PollerConfig, now: int) {
    && row.hasRepo && !row.paused
    && (row.trigger == ByPoller
        || (config.safetyCheck && row.trigger == ByWebhook
            && (row.hookFailing || row.checkedAt.None? || row.checkedAt.value < now - WEBHOOK_SAFETY_INTERVAL_MS)))
  }

  datatype PollOutcome = NotPolled | NoBranch | StoresBaseline | Deploys | UpToDate

  /** The poller's own pass at `now`, when `head` is the newest commit of the branch it watches. */
  function Polled(row: ProjectRow, config: PollerConfig, now: int, head: Option<string>): PollOutcome {
    if !config.enabled || !Selected(row, config, now) then NotPolled
    else if head.None? then NoBranch
    else if row.lastCommit.None? then StoresBaseline
    else if row.lastCommit.value.sha != head.value then Deploys
    else UpToDate
  }

  /** The settings let some pass look at the project, sooner or later. */
  predicate Reachable(row: ProjectRow, config: PollerConfig) {
    && config.enabled && row.hasRepo && !row.paused
    && (row.trigger == ByPoller || (config.safetyCheck && row.trigger == ByWebhook))
  }

  /** The last deploy started was of another commit, or else one was recorded before the first. */
  ghost predicate OtherRecorded(p: Project, sha: string)
    requires NewestWins(p)
  {
    LastStarted(p).Some? && LastStarted(p).value.sha != sha
  }

  /** A restart loses a queued commit. A pass that finds it at the head of the watched branch
      deploys it exactly when the poller runs and looks at the project then, and some other commit
      was the last one recorded. */
  lemma RestartVisibleIff(row: ProjectRow, steps: seq<Step>, config: PollerConfig, now: int)
    ensures RunFrom(NewProject(row), steps).Some? ==>
              var p := RunFrom(NewProject(row), steps).value;
              p.pending.Some? && p.row.Some? ==>
                var sha := p.pending.value.commit.sha;
                && NewestWins(p)
                && (Polled(Perform(p, Restart).row.value, config, now, Some(sha)) == Deploys <==>
                    && config.enabled && p.row.value.hasRepo && !p.row.value.paused
                    && (p.row.value.trigger == ByPoller
                        || (config.safetyCheck && p.row.value.trigger == ByWebhook
                            && (p.row.value.hookFailing || p.row.value.checkedAt.None?
                                || p.row.value.checkedAt.value < now - 1_800_000)))
                    && OtherRecorded(p, sha))
  {
    RunKeeps(NewProject(row), steps);
  }

  /** So some later pass deploys it exactly when the project's and the poller's settings let one
      look at the project, and some other commit was the last one recorded. */
  lemma RestartVisibleLaterIff(row: ProjectRow, steps: seq<Step>, config: PollerConfig, from: int)
    ensures RunFrom(NewProject(row), steps).Some? ==>
              var p := RunFrom(NewProject(row), steps).value;
              p.pending.Some? && p.row.Some? ==>
                var sha := p.pending.value.commit.sha;
                && NewestWins(p)
                && ((exists now :: from <= now && Polled(Perform(p, Restart).row.value, config, now, Some(sha)) == Deploys)
                    <==> Reachable(p.row.value, config) && OtherRecorded(p, sha))
  {
    RunKeeps(NewProject(row), steps);
    if RunFrom(NewProject(row), steps).Some? {
      var p := RunFrom(NewProject(row), steps).value;
      if p.pending.Some? && p.row.Some? {
        var r := Perform(p, Restart).row.value;
        var checked := if r.checkedAt.Some? then r.checkedAt.value else from;
        var later := (if checked > from then checked else from) + WEBHOOK_SAFETY_INTERVAL_MS + 1;
        assert Reachable(r, config) ==> Selected(r, config, later);
        assert Reachable(r, config) && OtherRecorded(p, p.pending.value.commit.sha) ==>
                 Polled(r, config, later, Some(p.pending.value.commit.sha)) == Deploys;
      }
    }
  }

  /** A commit is requested while another action holds the slot, and then the process dies. */
  lemma QueuedThenRestarted(row: ProjectRow, commit: Commit, source: Source) returns (end: Project)
    ensures RunFrom(NewProject(row), [OtherActionStarts, RequestDeploy(commit, source), Restart]) == Some(end)
    ensures end.row == Some(row.(pendingSha := None)) && end.pending.None? && end.starts == []
  {
    var p0 := NewProject(row);
    var steps := [OtherActionStarts, RequestDeploy(commit, source), Restart];
    var p1 := Perform(p0, OtherActionStarts);
    var p2 := Perform(p1, RequestDeploy(commit, source));
    assert steps[1..] == [RequestDeploy(commit, source), Restart] && steps[1..][1..] == [Restart];
    end := Perform(p2, Restart);
    assert RunFrom(p2, [Restart]) == RunFrom(end, [Restart][1..]);
  }

  /** So a project that never recorded a commit loses one queued before a restart: the poller
      takes it as its baseline. */
  lemma FirstCommitCanBeLost(commit: Commit, config: PollerConfig, now: int)
    ensures var row := ProjectRow(true, false, ByPoller, false, None, None, None);
            var p := RunFrom(NewProject(row), [OtherActionStarts, RequestDeploy(commit, Auto), Restart]);
            && p.Some? && p.value.row.Some? && p.value.pending.None? && p.value.starts == []
            && Polled(p.value.row.value, config, now, Some(commit.sha)) == if config.enabled then StoresBaseline else NotPolled
  {
    var _ := QueuedThenRestarted(ProjectRow(true, false, ByPoller, false, None, None, None), commit, Auto);
  }

  /** A project deployed by webhook loses it although another commit was recorded, if the safety
      check is off; and so does any project while the poller is off. */
  lemma UnpolledCommitIsLost(commit: Commit, other: Commit, enabled: bool, trigger: Trigger, now: int)
    requires trigger == ByWebhook || !enabled
    ensures var row := ProjectRow(true, false, trigger, false, None, Some(other), None);
            var p := RunFrom(NewProject(row), [OtherActionStarts, RequestDeploy(commit, if trigger == ByWebhook then Webhook else Auto), Restart]);
            && p.Some? && p.value.row.Some? && p.value.pending.None? && p.value.starts == []
            && p.value.row.value.lastCommit == Some(other)
            && Polled(p.value.row.value, PollerConfig(enabled, false), now, Some(commit.sha)) == NotPolled
  {
    var _ := QueuedThenRestarted(ProjectRow(true, false, trigger, false, None, Some(other), None), commit,
                                   if trigger == ByWebhook then Webhook else Auto);
  }

  // --- The module -------------------------------------------------------------------

  /** The module's state for one project. */
  class ProjectQueue {
    var row: Option<ProjectRow>
    var running: bool
    var pending: Option<Entry>
    var immediates: multiset<Entry>
    // Identity of queue entries, and the record of the run.
    var nextTicket: nat
    var requests: seq<Commit>
    var starts: seq<nat>
    var dropped: bool
    var baseline: Option<Commit>

    ghost function Snapshot(): Project
      reads this
    {
      Project(row, running, pending, immediates, nextTicket, requests, starts, dropped, baseline)
    }

    constructor (row: ProjectRow)
      ensures Snapshot() == NewProject(row) && Inv(Snapshot())
    {
      this.row := Some(row.(pendingSha := None));
      running, pending, immediates := false, None, multiset{};
      nextTicket, requests, starts, dropped, baseline := 0, [], [], false, row.lastCommit;
    }

    method RecordCommit(commit: Commit)
      modifies this`row
      ensures row == match old(row) { case None => None case Some(r) => Some(r.(lastCommit := Some(commit), pendingSha := None)) }
    {
      if row.Some? {
        row := Some(row.value.(lastCommit := Some(commit), pendingSha := None));
      }
    }

    /** `requestAutoDeploy` for request number `request`. */
    method StartOrQueue(commit: Commit, source: Source, request: nat) returns (outcome: Outcome)
      modifies this
      ensures Snapshot() == Requested(old(Snapshot()), commit, source, request)
      ensures outcome == if old(running) then Queued else Started
    {
      if !running {
        running, starts := true, starts + [request];
        pending := None;
        RecordCommit(commit);
        return Started;
      }
      pending := Some(Entry(nextTicket, commit, source, request));
      nextTicket := nextTicket + 1;
      row := SetPendingSha(row, Some(commit.sha));
      return Queued;
    }

    method RequestAutoDeploy(commit: Commit, source: Source) returns (outcome: Outcome)
      requires Inv(Snapshot())
      modifies this
      ensures Snapshot() == Perform(old(Snapshot()), RequestDeploy(commit, source)) && Inv(Snapshot())
      ensures outcome == if old(running) then Queued else Started
      ensures requests == old(requests) + [commit] && running && immediates == old(immediates) && !dropped
      ensures outcome == Started ==>
                && pending == None && starts == old(starts) + [|old(requests)|]
                && (row.Some? ==> row.value.lastCommit == Some(commit) && row.value.pendingSha == None)
      ensures outcome == Queued ==>
                && pending == Some(Entry(old(nextTicket), commit, source, |old(requests)|)) && starts == old(starts)
                && (row.Some? ==> old(row).Some? && row.value == old(row).value.(pendingSha := Some(commit.sha)))
    {
      StepKeeps(Snapshot(), RequestDeploy(commit, source));
      hide Inv;
      requests, dropped := requests + [commit], false;
      outcome := StartOrQueue(commit, source, |requests| - 1);
    }

    method ClearPendingAutoDeploy()
      modifies this
      ensures Snapshot() == Cleared(old(Snapshot()))
    {
      if pending.None? {
        return;
      }
      pending, dropped := None, true;
      row := SetPendingSha(row, None);
    }

    /** The registry finishes the slot's action and calls the finish listener. */
    method OnFinish()
      requires Inv(Snapshot()) && running
      modifies this
      ensures Snapshot() == Perform(old(Snapshot()), SlotFinishes) && Inv(Snapshot())
      ensures !running && pending == old(pending) && starts == old(starts) && row == old(row)
      ensures immediates == old(immediates) + if pending.Some? then multiset{pending.value} else multiset{}
    {
      StepKeeps(Snapshot(), SlotFinishes);
      hide Inv;
      running := false;
      if pending.Some? {
        immediates := immediates + multiset{pending.value};
      }
    }

    /** An immediate scheduled by `OnFinish` runs. */
    method RunImmediate(queued: Entry)
      requires Inv(Snapshot()) && queued in immediates
      modifies this
      ensures Snapshot() == Perform(old(Snapshot()), ImmediateRuns(queued)) && Inv(Snapshot())
      ensures old(pending) != Some(queued) ==> pending == old(pending) && starts == old(starts) && row == old(row)
      ensures old(pending) == Some(queued) && old(Deployable(row)) && !old(running) ==>
                && running && starts == old(starts) + [queued.request] && pending == None && dropped == old(dropped)
                && row == Some(old(row).value.(lastCommit := Some(queued.commit), pendingSha := None))
      ensures old(pending) == Some(queued) && old(Deployable(row)) && old(running) ==>
                && starts == old(starts) && pending.Some? && dropped == old(dropped)
                && pending.value == Entry(old(nextTicket), queued.commit, queued.source, queued.request)
      ensures old(pending) == Some(queued) && !old(Deployable(row)) ==>
                running == old(running) && starts == old(starts) && pending == None && dropped
    {
      ImmediateMeans(Snapshot(), queued);
      StepKeeps(Snapshot(), ImmediateRuns(queued));
      hide Inv;
      immediates := immediates - multiset{queued};
      if pending != Some(queued) {
        return;
      }
      if row.None? || row.value.paused || row.value.trigger == ByHand {
        ClearPendingAutoDeploy();
        return;
      }
      var _ := StartOrQueue(queued.commit, queued.source, queued.request);
    }
  }
}
