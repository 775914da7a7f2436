/** Overlapping health probes: the ticket and commit transactions of
    src/modules/deployments/health.ts, run by any number of processes on one project, with the
    pause of src/modules/projects/operations.ts. */
module Health {
  import opened Options

  datatype Status = Unknown | Up | Down

  datatype Result = ProbeUp | ProbeDown

  /** `target` is the URL made of the project's domain and endpoint, if it has both. */
  datatype Row = Row(target: Option<string>, paused: bool, status: Status, incident: Option<string>, ticket: nat)

  /** The project's row and its incident events in the outbox. */
  datatype Store = Store(row: Option<Row>, enqueued: set<string>, cancelled: set<string>)

  /** A probe in flight: the URL it fetches and its ticket. */
  datatype Probe = Probe(url: string, ticket: nat)

  // --- The transactions -------------------------------------------------------------

  function HealthCheckUrl(row: Row): Option<string> {
    if row.paused then None else row.target
  }

  /** The ticket the next probe gets. */
  function NextTicket(row: Row, now: nat): nat {
    if now > row.ticket + 1 then now else row.ticket + 1
  }

  function TicketTaken(s: Store, now: nat): (Store, Option<nat>) {
    match s.row
    case None => (s, None)
    case Some(row) =>
      var ticket := NextTicket(row, now);
      (s.(row := Some(row.(ticket := ticket))), Some(ticket))
  }

  /** The commit transaction goes through. */
  predicate Accepts(s: Store, probe: Probe) {
    s.row.Some? && HealthCheckUrl(s.row.value) == Some(probe.url) && s.row.value.ticket == probe.ticket
  }

  /** `key` is the fresh key a new incident would get. */
  function Committed(s: Store, probe: Probe, result: Result, key: string): Store {
    if !Accepts(s, probe) then s
    else
      var row := s.row.value;
      match result
      case ProbeDown =>
        if row.status != Down then
          Store(Some(row.(status := Down, incident := Some(key))), s.enqueued + {key}, s.cancelled)
        else s.(row := Some(row.(status := Down)))
      case ProbeUp =>
        match row.incident
        case Some(open) => Store(Some(row.(status := Up, incident := None)), s.enqueued, s.cancelled + {open})
        case None => s.(row := Some(row.(status := Up)))
  }

  // --- The system -------------------------------------------------------------------

  /** The store, the probes in flight by process, and for the proof every ticket issued and
      committed, whether a pause ever happened, how many open incidents were overwritten,
      whether the project was down from the start, without an incident, and is so still, and the
      last result accepted, unless a pause followed it. */
  datatype System = System(
    store: Store, probes: map<int, Probe>, issued: seq<nat>, committed: seq<nat>, everPaused: bool, orphans: nat,
    inherited: bool, last: Option<Result>)

  datatype Step =
    | BeginProbe(process: int, url: string, now: nat)
    | CommitProbe(process: int, result: Result, key: string)
    | Crash(process: int)
    | Retarget(target: Option<string>)
    | Pause
    | Resume
    | DeleteProject

  predicate Enabled(s: System, step: Step) {
    match step
    case BeginProbe(process, _, _) => process !in s.probes
    case CommitProbe(process, _, key) => process in s.probes && key !in s.store.enqueued
    case Crash(process) => process in s.probes
    case _ => true
  }

  /** The commit opens an incident while another one is still recorded. */
  predicate Overwrites(s: Store, probe: Probe, result: Result) {
    Accepts(s, probe) && result == ProbeDown && s.row.value.status != Down && s.row.value.incident.Some?
  }

  function WithRow(s: System, row: Row): System {
    s.(store := s.store.(row := Some(row)))
  }

  function Perform(s: System, step: Step): System
    requires Enabled(s, step)
  {
    match step
    case BeginProbe(process, url, now) =>
      (var (store, ticket) := TicketTaken(s.store, now);
       match ticket
       case None => s
       case Some(t) => s.(store := store, probes := s.probes[process := Probe(url, t)], issued := s.issued + [t]))
    case CommitProbe(process, result, key) =>
      (var probe := s.probes[process];
       s.(store := Committed(s.store, probe, result, key), probes := s.probes - {process},
          committed := if Accepts(s.store, probe) then s.committed + [probe.ticket] else s.committed,
          orphans := if Overwrites(s.store, probe, result) then s.orphans + 1 else s.orphans,
          inherited := s.inherited && !(Accepts(s.store, probe) && result == ProbeUp),
          last := if Accepts(s.store, probe) then Some(result) else s.last))
    case Crash(process) => s.(probes := s.probes - {process})
    case Retarget(target) =>
      (match s.store.row case None => s case Some(row) => WithRow(s, row.(target := target)))
    case Pause =>
      (match s.store.row case None => s case Some(row) => WithRow(s, row.(paused := true, status := Unknown)).(everPaused := true, inherited := false, last := None))
    case Resume =>
      (match s.store.row case None => s case Some(row) => WithRow(s, row.(paused := false)))
    case DeleteProject => s.(store := s.store.(row := None))
  }

  /** The project as it is when its incidents begin to be recorded: none yet, any status. */
  function NewSystem(target: Option<string>, status: Status, ticket: nat): System {
    System(Store(Some(Row(target, false, status, None, ticket)), {}, {}), map[], [], [], false, 0, status == Down, None)
  }

  function RunFrom(s: System, steps: seq<Step>): (r: Option<System>)
    decreases |steps|
  {
    if steps == [] then Some(s)
    else if Enabled(s, steps[0]) then RunFrom(Perform(s, steps[0]), steps[1..])
    else None
  }

  // --- Tickets ----------------------------------------------------------------------

  ghost predicate Increasing(xs: seq<nat>) {
    forall i, j :: 0 <= i < j < |xs| ==> xs[i] < xs[j]
  }

  ghost predicate TicketsOk(s: System) {
    && Increasing(s.issued)
    && Increasing(s.committed)
    && (forall t :: t in s.committed ==> t in s.issued)
    && (forall p :: p in s.probes ==> s.probes[p].ticket in s.issued && s.probes[p].ticket !in s.committed)
    && (forall p, q :: p in s.probes && q in s.probes && p != q ==> s.probes[p].ticket != s.probes[q].ticket)
    && (s.store.row.Some? ==>
          (s.issued != [] ==> s.issued[|s.issued| - 1] == s.store.row.value.ticket)
          && forall t :: t in s.issued ==> t <= s.store.row.value.ticket)
  }

  lemma IncreasingSnoc(xs: seq<nat>, x: nat)
    requires Increasing(xs) && forall t :: t in xs ==> t < x
    ensures Increasing(xs + [x])
  {
    forall i, j | 0 <= i < j < |xs + [x]|
      ensures (xs + [x])[i] < (xs + [x])[j]
    {
      if j == |xs| {
        assert xs[i] in xs;
      }
    }
  }

  lemma BeginTickets(s: System, process: int, url: string, now: nat)
    requires TicketsOk(s) && Enabled(s, BeginProbe(process, url, now))
    ensures TicketsOk(Perform(s, BeginProbe(process, url, now)))
  {
    if s.store.row.Some? {
      var t := NextTicket(s.store.row.value, now);
      IncreasingSnoc(s.issued, t);
      assert forall x :: x in s.issued + [t] <==> x in s.issued || x == t;
      hide Increasing;
    }
  }

  lemma CommitTickets(s: System, process: int, result: Result, key: string)
    requires TicketsOk(s) && Enabled(s, CommitProbe(process, result, key))
    ensures TicketsOk(Perform(s, CommitProbe(process, result, key)))
  {
    var probe := s.probes[process];
    if Accepts(s.store, probe) {
      forall t | t in s.committed
        ensures t < probe.ticket
      {
        assert t in s.issued && t != probe.ticket;
      }
      IncreasingSnoc(s.committed, probe.ticket);
      assert forall x :: x in s.committed + [probe.ticket] <==> x in s.committed || x == probe.ticket;
    }
    hide Increasing;
  }

  // --- Incidents --------------------------------------------------------------------

  /** Incident events enqueued and not cancelled. */
  function Open(s: Store): set<string> {
    s.enqueued - s.cancelled
  }

  function IncidentOf(s: Store): Option<string> {
    match s.row
    case None => None
    case Some(row) => row.incident
  }

  /** A pause forgot the status of a project that was down. */
  predicate PausedDown(row: Row) {
    row.status == Unknown && row.incident.Some?
  }

  /** A project is down and no incident was opened for it. */
  predicate SilentDown(row: Row) {
    row.status == Down && row.incident.None?
  }

  ghost predicate IncidentsOk(s: System) {
    && s.store.cancelled <= s.store.enqueued
    && (s.store.row.Some? ==>
          && (s.store.row.value.incident.Some? ==> s.store.row.value.incident.value in Open(s.store))
          && |Open(s.store)| == s.orphans + (if s.store.row.value.incident.Some? then 1 else 0)
          && (s.inherited <==> SilentDown(s.store.row.value))
          && (s.store.row.value.status == Up ==> s.store.row.value.incident.None?)
          && (PausedDown(s.store.row.value) ==> s.everPaused)
          && (s.orphans > 0 ==> s.everPaused))
  }

  lemma OpenedIncident(s: Store, probe: Probe, key: string)
    requires Accepts(s, probe) && s.row.value.status != Down && key !in s.enqueued && s.cancelled <= s.enqueued
    ensures Open(Committed(s, probe, ProbeDown, key)) == Open(s) + {key}
    ensures |Open(s) + {key}| == |Open(s)| + 1
  {
  }

  lemma ClosedIncident(s: Store, probe: Probe, key: string)
    requires Accepts(s, probe) && s.row.value.incident.Some? && s.row.value.incident.value in Open(s)
    ensures Open(Committed(s, probe, ProbeUp, key)) == Open(s) - {s.row.value.incident.value}
    ensures |Open(s) - {s.row.value.incident.value}| == |Open(s)| - 1
  {
  }

  lemma OpenKeeps(s: System, process: int, key: string)
    requires IncidentsOk(s) && Enabled(s, CommitProbe(process, ProbeDown, key))
    requires Accepts(s.store, s.probes[process]) && s.store.row.value.status != Down
    ensures IncidentsOk(Perform(s, CommitProbe(process, ProbeDown, key)))
  {
    OpenedIncident(s.store, s.probes[process], key);
  }

  lemma CloseKeeps(s: System, process: int, key: string)
    requires IncidentsOk(s) && Enabled(s, CommitProbe(process, ProbeUp, key))
    requires Accepts(s.store, s.probes[process]) && s.store.row.value.incident.Some?
    ensures IncidentsOk(Perform(s, CommitProbe(process, ProbeUp, key)))
  {
    ClosedIncident(s.store, s.probes[process], key);
  }

  /** Every other commit leaves the events alone. */
  lemma QuietKeeps(s: System, process: int, result: Result, key: string)
    requires IncidentsOk(s) && Enabled(s, CommitProbe(process, result, key))
    requires Accepts(s.store, s.probes[process]) ==>
               if result == ProbeDown then s.store.row.value.status == Down else s.store.row.value.incident.None?
    ensures IncidentsOk(Perform(s, CommitProbe(process, result, key)))
  {
    assert Open(Perform(s, CommitProbe(process, result, key)).store) == Open(s.store);
    hide Open;
  }

  lemma CommitIncidents(s: System, process: int, result: Result, key: string)
    requires IncidentsOk(s) && Enabled(s, CommitProbe(process, result, key))
    ensures IncidentsOk(Perform(s, CommitProbe(process, result, key)))
  {
    hide IncidentsOk, Perform;
    var accepted := Accepts(s.store, s.probes[process]);
    if accepted && result == ProbeDown && s.store.row.value.status != Down {
      OpenKeeps(s, process, key);
    } else if accepted && result == ProbeUp && s.store.row.value.incident.Some? {
      CloseKeeps(s, process, key);
    } else {
      QuietKeeps(s, process, result, key);
    }
  }

  ghost predicate Inv(s: System) {
    TicketsOk(s) && IncidentsOk(s)
  }

  lemma StepKeeps(s: System, step: Step)
    requires Inv(s) && Enabled(s, step)
    ensures Inv(Perform(s, step))
  {
    match step
    case BeginProbe(process, url, now) => BeginTickets(s, process, url, now);
    case CommitProbe(process, result, key) =>
      CommitTickets(s, process, result, key);
      CommitIncidents(s, process, result, key);
    case _ =>
  }

  lemma {:induction false} RunKeeps(s: System, steps: seq<Step>)
    requires Inv(s)
    ensures RunFrom(s, steps).Some? ==> Inv(RunFrom(s, steps).value)
    decreases |steps|
  {
    hide Inv;
    if steps != [] && Enabled(s, steps[0]) {
      StepKeeps(s, steps[0]);
      RunKeeps(Perform(s, steps[0]), steps[1..]);
    }
  }

  // --- What every run keeps ---------------------------------------------------------

  /** Tickets strictly increase over all processes, and so do committed ones. A probe whose
      result would be accepted holds the newest ticket, newer than anything committed. */
  lemma OnlyNewestCommits(target: Option<string>, status: Status, ticket: nat, steps: seq<Step>)
    ensures RunFrom(NewSystem(target, status, ticket), steps).Some? ==>
              var s := RunFrom(NewSystem(target, status, ticket), steps).value;
              && Increasing(s.issued) && Increasing(s.committed)
              && (forall t :: t in s.committed ==> t in s.issued)
              && (forall p :: p in s.probes && Accepts(s.store, s.probes[p]) ==>
                    && (forall t :: t in s.issued ==> t <= s.probes[p].ticket)
                    && (forall t :: t in s.committed ==> t < s.probes[p].ticket))
  {
    RunKeeps(NewSystem(target, status, ticket), steps);
    if RunFrom(NewSystem(target, status, ticket), steps).Some? {
      var s := RunFrom(NewSystem(target, status, ticket), steps).value;
      assert TicketsOk(s);
      forall p, t | p in s.probes && Accepts(s.store, s.probes[p]) && t in s.committed
        ensures t < s.probes[p].ticket
      {
        assert t in s.issued && t != s.probes[p].ticket;
      }
    }
  }

  /** In every run, pauses included, the open incident events are the recorded one plus those
      overwritten. A project that is up has no incident, and one has an incident exactly when it
      is down, unless a pause forgot that it was, or it was down before incidents were recorded and
      was neither found up nor paused since. A run without a pause forgets and overwrites none. */
  lemma IncidentsCounted(target: Option<string>, status: Status, ticket: nat, steps: seq<Step>)
    ensures RunFrom(NewSystem(target, status, ticket), steps).Some? ==>
              var s := RunFrom(NewSystem(target, status, ticket), steps).value;
              s.store.row.Some? ==>
                var row := s.store.row.value;
                && |Open(s.store)| == s.orphans + (if row.incident.Some? then 1 else 0)
                && (row.status == Up ==> row.incident.None?)
                && ((row.incident.Some? <==> row.status == Down) <==> !PausedDown(row) && !SilentDown(row))
                && (!s.everPaused ==> s.orphans == 0 && !PausedDown(row))
                && (SilentDown(row) <==> s.inherited) && (s.inherited ==> status == Down)
  {
    RunKeeps(NewSystem(target, status, ticket), steps);
    if status != Down {
      NeverInherited(NewSystem(target, status, ticket), steps);
    }
  }

  lemma {:induction false} NeverInherited(s: System, steps: seq<Step>)
    requires !s.inherited
    ensures RunFrom(s, steps).Some? ==> !RunFrom(s, steps).value.inherited
    decreases |steps|
  {
    if steps != [] && Enabled(s, steps[0]) {
      NeverInherited(Perform(s, steps[0]), steps[1..]);
    }
  }

  /** The status after a run from status `start`. */
  ghost predicate StatusOk(s: System, start: Status) {
    s.store.row.Some? ==>
      s.store.row.value.status == match s.last {
        case Some(ProbeUp) => Up
        case Some(ProbeDown) => Down
        case None => if s.everPaused then Unknown else start
      }
  }

  lemma {:induction false} StatusKept(s: System, start: Status, steps: seq<Step>)
    requires StatusOk(s, start)
    ensures RunFrom(s, steps).Some? ==> StatusOk(RunFrom(s, steps).value, start)
    decreases |steps|
  {
    if steps != [] && Enabled(s, steps[0]) {
      StatusKept(Perform(s, steps[0]), start, steps[1..]);
    }
  }

  /** In every run the status is that of the last result accepted; unknown if a pause followed it,
      or came without one; and the one at the start before either. */
  lemma StatusIsLastResult(target: Option<string>, status: Status, ticket: nat, steps: seq<Step>)
    ensures RunFrom(NewSystem(target, status, ticket), steps).Some? ==>
              StatusOk(RunFrom(NewSystem(target, status, ticket), steps).value, status)
  {
    StatusKept(NewSystem(target, status, ticket), status, steps);
  }

  ghost predicate OneIncident(s: Store) {
    Open(s) == match IncidentOf(s) { case None => {} case Some(key) => {key} }
  }

  /** Where the open events are just the recorded incident, a probe's commit keeps it so exactly
      when it doesn't open an incident over a recorded one. */
  lemma CommitKeepsOneIff(s: Store, probe: Probe, result: Result, key: string)
    requires s.cancelled <= s.enqueued && key !in s.enqueued && OneIncident(s)
    ensures OneIncident(Committed(s, probe, result, key)) <==> !Overwrites(s, probe, result)
  {
    if Accepts(s, probe) {
      if result == ProbeDown && s.row.value.status != Down {
        OpenedIncident(s, probe, key);
        assert key !in Open(s);
        if s.row.value.incident.Some? {
          assert s.row.value.incident.value in Open(s) + {key};
        }
      } else if result == ProbeUp && s.row.value.incident.Some? {
        ClosedIncident(s, probe, key);
      }
    }
  }

  /** A probe that finds the project down, while no probe of this process is in flight. */
  function FailedProbe(url: string, now: nat, key: string): seq<Step> {
    [BeginProbe(1, url, now), CommitProbe(1, ProbeDown, key)]
  }

  lemma FailedProbeRun(s: System, url: string, now: nat, key: string, row: Row, rest: seq<Step>) returns (s': System)
    requires s.store.row == Some(row) && HealthCheckUrl(row) == Some(url) && row.status != Down && now == row.ticket + 1
    requires 1 !in s.probes && key !in s.store.enqueued
    ensures RunFrom(s, FailedProbe(url, now, key) + rest) == RunFrom(s', rest)
    ensures s'.store == Store(Some(Row(row.target, false, Down, Some(key), now)), s.store.enqueued + {key}, s.store.cancelled)
    ensures 1 !in s'.probes
  {
    RunPair(s, BeginProbe(1, url, now), CommitProbe(1, ProbeDown, key), rest);
    s' := Perform(Perform(s, BeginProbe(1, url, now)), CommitProbe(1, ProbeDown, key));
  }

  lemma PauseResumeRun(s: System, row: Row, rest: seq<Step>) returns (s': System)
    requires s.store.row == Some(row)
    ensures RunFrom(s, [Pause, Resume] + rest) == RunFrom(s', rest)
    ensures s'.store == s.store.(row := Some(row.(paused := false, status := Unknown))) && s'.probes == s.probes
  {
    RunPair(s, Pause, Resume, rest);
    s' := Perform(Perform(s, Pause), Resume);
  }

  /** A pause forgets that the project was down but not its incident: the next failed probe
      opens a second incident, and the first event is never cancelled. */
  lemma PauseOrphansIncident(url: string)
    ensures var steps := FailedProbe(url, 1, "a") + ([Pause, Resume] + (FailedProbe(url, 2, "b") + []));
            var end := RunFrom(NewSystem(Some(url), Unknown, 0), steps);
            end.Some? && Open(end.value.store) == {"a", "b"} && IncidentOf(end.value.store) == Some("b")
  {
    hide Perform, FailedProbe;
    var s0 := NewSystem(Some(url), Unknown, 0);
    var last := FailedProbe(url, 2, "b") + [];
    var s1 := FailedProbeRun(s0, url, 1, "a", s0.store.row.value, [Pause, Resume] + last);
    var s2 := PauseResumeRun(s1, s1.store.row.value, last);
    assert "b" !in {"a"} by {
      assert "b"[0] != "a"[0];
    }
    var s3 := FailedProbeRun(s2, url, 2, "b", s2.store.row.value, []);
  }

  /** Between the two it has an incident while it isn't down. */
  lemma PauseForgetsDown(url: string)
    ensures var steps := FailedProbe(url, 1, "a") + ([Pause] + []);
            var end := RunFrom(NewSystem(Some(url), Unknown, 0), steps);
            end.Some? && end.value.store.row.Some? && PausedDown(end.value.store.row.value)
  {
    hide FailedProbe;
    var s0 := NewSystem(Some(url), Unknown, 0);
    var s1 := FailedProbeRun(s0, url, 1, "a", s0.store.row.value, [Pause] + []);
    RunCons(s1, Pause, []);
  }

  /** A failed probe of a project that was down already opens no incident for it. */
  lemma DownStaysSilent(url: string)
    ensures var steps := FailedProbe(url, 1, "a") + [];
            var end := RunFrom(NewSystem(Some(url), Down, 0), steps);
            end.Some? && end.value.store.row.Some? && SilentDown(end.value.store.row.value) && Open(end.value.store) == {}
  {
    var s0 := NewSystem(Some(url), Down, 0);
    var s1 := Perform(s0, BeginProbe(1, url, 1));
    RunPair(s0, BeginProbe(1, url, 1), CommitProbe(1, ProbeDown, "a"), []);
  }

  lemma RunPair(s: System, step: Step, step': Step, rest: seq<Step>)
    requires Enabled(s, step) && Enabled(Perform(s, step), step')
    ensures RunFrom(s, [step, step'] + rest) == RunFrom(Perform(Perform(s, step), step'), rest)
  {
    hide Perform, Enabled;
    assert [step, step'] + rest == [step] + ([step'] + rest);
    RunCons(s, step, [step'] + rest);
    RunCons(Perform(s, step), step', rest);
  }

  lemma RunCons(s: System, step: Step, rest: seq<Step>)
    requires Enabled(s, step)
    ensures RunFrom(s, [step] + rest) == RunFrom(Perform(s, step), rest)
  {
    hide Perform;
    assert ([step] + rest)[1..] == rest;
  }

  // --- The checker ------------------------------------------------------------------

  /** The database that processes share. */
  class ProjectStore {
    var store: Store

    constructor (row: Row)
      ensures store == Store(Some(row), {}, {})
    {
      store := Store(Some(row), {}, {});
    }

    method TakeTicket(now: nat) returns (ticket: Option<nat>)
      modifies this
      ensures (store, ticket) == TicketTaken(old(store), now)
      ensures ticket.Some? <==> old(store).row.Some?
      ensures ticket.Some? ==>
                && ticket.value >= now && ticket.value > old(store).row.value.ticket
                && (ticket.value == now || ticket.value == old(store).row.value.ticket + 1)
                && store == old(store).(row := Some(old(store).row.value.(ticket := ticket.value)))
    {
      if store.row.None? {
        return None;
      }
      var current := store.row.value.ticket;
      var t := if now > current + 1 then now else current + 1;
      store := store.(row := Some(store.row.value.(ticket := t)));
      return Some(t);
    }

    /** Applies a probe result, and says whether it did. */
    method CommitResult(url: string, started: nat, result: Result, key: string) returns (applied: bool)
      modifies this
      ensures store == Committed(old(store), Probe(url, started), result, key)
      ensures applied <==> old(store).row.Some? && !old(store).row.value.paused
                           && old(store).row.value.target == Some(url) && old(store).row.value.ticket == started
      ensures !applied ==> store == old(store)
      ensures applied ==>
                var row := old(store).row.value;
                && store.row.Some? && store.row.value.status == (if result == ProbeUp then Up else Down)
                && store.row.value.target == row.target && store.row.value.paused == row.paused
                && store.row.value.ticket == row.ticket
                && store.row.value.incident == (if result == ProbeUp then None
                                                else if row.status == Down then row.incident else Some(key))
                && store.enqueued == old(store).enqueued + (if result == ProbeDown && row.status != Down then {key} else {})
                && store.cancelled == old(store).cancelled
                                      + (if result == ProbeUp && row.incident.Some? then {row.incident.value} else {})
    {
      if store.row.None? {
        return false;
      }
      var current := store.row.value;
      if HealthCheckUrl(current) != Some(url) || current.ticket != started {
        return false;
      }
      var incident, status := current.incident, if result == ProbeUp then Up else Down;
      if result == ProbeDown && current.status != Down {
        incident := Some(key);
        store := store.(enqueued := store.enqueued + {key});
      } else if result == ProbeUp && incident.Some? {
        store := store.(cancelled := store.cancelled + {incident.value});
        incident := None;
      }
      store := store.(row := Some(current.(status := status, incident := incident)));
      return true;
    }
  }

  /** One process's checker: at most one probe of the project in flight. */
  class HealthChecker {
    const db: ProjectStore
    var probe: Option<Probe>

    constructor (db: ProjectStore)
      ensures this.db == db && probe == None
    {
      this.db := db;
      probe := None;
    }

    /** `checkOnce` up to the HTTP request. */
    method Begin(now: nat)
      modifies this, db
      ensures old(probe).Some? || old(db.store).row.None? || old(db.store).row.value.paused
              || old(db.store).row.value.target.None? ==>
                probe == old(probe) && db.store == old(db.store)
      ensures old(probe).None? && old(db.store).row.Some? && !old(db.store).row.value.paused
              && old(db.store).row.value.target.Some? ==>
                && db.store == TicketTaken(old(db.store), now).0
                && probe == Some(Probe(old(db.store).row.value.target.value, db.store.row.value.ticket))
    {
      if probe.Some? || db.store.row.None? {
        return;
      }
      var url := HealthCheckUrl(db.store.row.value);
      if url.None? {
        return;
      }
      var started := db.TakeTicket(now);
      if started.Some? {
        probe := Some(Probe(url.value, started.value));
      }
    }

    /** `checkOnce` after the HTTP request. */
    method Complete(result: Result, key: string) returns (applied: bool)
      requires probe.Some?
      modifies this, db
      ensures probe == None && db.store == Committed(old(db.store), old(probe).value, result, key)
      ensures applied <==> Accepts(old(db.store), old(probe).value)
    {
      applied := db.CommitResult(probe.value.url, probe.value.ticket, result, key);
      probe := None;
    }
  }
}
