/** Schema migrations run by several processes at once: src/migrations/index.ts. Every process
    runs a release whose list is a prefix of the same append-only list. */
module Migrations {
  import opened Options

  /** Ordered by id; ids are positive. */
  ghost predicate IsMigrationList(ids: seq<nat>) {
    (forall i :: 0 <= i < |ids| ==> ids[i] > 0) && forall i, j :: 0 <= i < j < |ids| ==> ids[i] < ids[j]
  }

  /** The largest id, or 0. */
  function Latest(ids: seq<nat>): (max: nat) {
    if ids == [] then 0
    else
      var max := Latest(ids[..|ids| - 1]);
      if ids[|ids| - 1] > max then ids[|ids| - 1] else max
  }

  /** The migrations with `from < id <= to`, in order. */
  function Between(ids: seq<nat>, from: nat, to: nat): (between: seq<nat>) {
    if ids == [] then []
    else
      Between(ids[..|ids| - 1], from, to) + if from < ids[|ids| - 1] <= to then [ids[|ids| - 1]] else []
  }

  lemma {:induction false} LatestIsLast(ids: seq<nat>)
    requires IsMigrationList(ids)
    ensures Latest(ids) == if ids == [] then 0 else ids[|ids| - 1]
  {
    if ids != [] {
      LatestIsLast(ids[..|ids| - 1]);
    }
  }

  lemma {:induction false} BetweenEmpty(ids: seq<nat>, from: nat)
    ensures Between(ids, from, from) == []
  {
    if ids != [] {
      BetweenEmpty(ids[..|ids| - 1], from);
    }
  }

  /** With everything up to the migration before `k` applied, the next one missing is `k`. */
  lemma {:induction false} BetweenNext(ids: seq<nat>, from: nat, version: nat, k: nat)
    requires IsMigrationList(ids) && k < |ids|
    requires from <= version < ids[k] && (k > 0 ==> ids[k - 1] <= version)
    ensures Between(ids, from, ids[k]) == Between(ids, from, version) + [ids[k]]
  {
    var n := |ids| - 1;
    var init, last := ids[..n], ids[n];
    if k < n {
      BetweenNext(init, from, version, k);
    } else {
      BetweenSame(init, from, version, ids[k]);
    }
  }

  lemma {:induction false} BetweenSame(ids: seq<nat>, from: nat, version: nat, to: nat)
    requires forall i :: 0 <= i < |ids| ==> ids[i] <= version
    requires version <= to
    ensures Between(ids, from, version) == Between(ids, from, to)
  {
    if ids != [] {
      BetweenSame(ids[..|ids| - 1], from, version, to);
    }
  }

  // --- Any number of processes ------------------------------------------------------

  /** A process running the first `count` migrations, about to start transaction `at`. */
  datatype Runner = Runner(count: nat, at: nat)

  /** The database, the runners under way, and for the proof the version at the start and the
      ids applied since. `completed` is the largest code version a runner has finished with. */
  datatype System = System(version: nat, runners: map<int, Runner>, initial: nat, applied: seq<nat>, completed: nat)

  datatype Step = Begin(process: int, count: nat) | Transaction(process: int) | Complete(process: int) | Crash(process: int)

  predicate Enabled(ids: seq<nat>, s: System, step: Step) {
    match step
    case Begin(process, count) => process !in s.runners && count <= |ids|
    case Transaction(process) =>
      process in s.runners && s.runners[process].at < s.runners[process].count <= |ids|
    case Complete(process) => process in s.runners && s.runners[process].at >= s.runners[process].count && s.runners[process].count <= |ids|
    case Crash(process) => process in s.runners
  }

  function Larger(x: nat, y: nat): nat {
    if x >= y then x else y
  }

  /** A transaction is atomic: a crash, or a migration that throws, leaves no trace of it. */
  function Perform(ids: seq<nat>, s: System, step: Step): System
    requires Enabled(ids, s, step)
  {
    match step
    case Begin(process, count) =>
      // An older release touches nothing a newer one has migrated.
      if s.version > Latest(ids[..count]) then s.(completed := Larger(s.completed, Latest(ids[..count])))
      else s.(runners := s.runners[process := Runner(count, 0)])
    case Transaction(process) =>
      var r := s.runners[process];
      var id := ids[r.at];
      var s' := s.(runners := s.runners[process := r.(at := r.at + 1)]);
      if s.version >= id then s' else s'.(version := id, applied := s.applied + [id])
    case Complete(process) =>
      s.(runners := s.runners - {process}, completed := Larger(s.completed, Latest(ids[..s.runners[process].count])))
    case Crash(process) => s.(runners := s.runners - {process})
  }

  function RunFrom(ids: seq<nat>, s: System, steps: seq<Step>): (r: Option<System>)
    decreases |steps|
  {
    if steps == [] then Some(s)
    else if Enabled(ids, s, steps[0]) then RunFrom(ids, Perform(ids, s, steps[0]), steps[1..])
    else None
  }

  function Start(version: nat): System {
    System(version, map[], version, [], 0)
  }

  ghost predicate RunnerOk(ids: seq<nat>, s: System, r: Runner) {
    r.at <= r.count <= |ids| && (r.at > 0 ==> ids[r.at - 1] <= s.version)
  }

  ghost predicate Inv(ids: seq<nat>, s: System) {
    && s.initial <= s.version
    && s.applied == Between(ids, s.initial, s.version)
    && s.completed <= s.version
    && (s.version == s.initial || s.version in ids)
    && forall p :: p in s.runners ==> RunnerOk(ids, s, s.runners[p])
  }

  lemma TransactionKeeps(ids: seq<nat>, s: System, process: int)
    requires IsMigrationList(ids) && Inv(ids, s) && Enabled(ids, s, Transaction(process))
    ensures Inv(ids, Perform(ids, s, Transaction(process))) && s.version <= Perform(ids, s, Transaction(process)).version
  {
    var r := s.runners[process];
    assert RunnerOk(ids, s, r);
    if s.version < ids[r.at] {
      BetweenNext(ids, s.initial, s.version, r.at);
    }
    hide Between, IsMigrationList;
  }

  lemma CompleteKeeps(ids: seq<nat>, s: System, process: int)
    requires IsMigrationList(ids) && Inv(ids, s) && Enabled(ids, s, Complete(process))
    ensures Inv(ids, Perform(ids, s, Complete(process)))
  {
    var r := s.runners[process];
    assert RunnerOk(ids, s, r);
    LatestIsLast(ids[..r.count]);
    hide Between, Latest, IsMigrationList;
  }

  lemma BeginKeeps(ids: seq<nat>, s: System, process: int, count: nat)
    requires Inv(ids, s) && Enabled(ids, s, Begin(process, count))
    ensures Inv(ids, Perform(ids, s, Begin(process, count)))
  {
    hide Between, Latest;
  }

  lemma StepKeeps(ids: seq<nat>, s: System, step: Step)
    requires IsMigrationList(ids) && Inv(ids, s) && Enabled(ids, s, step)
    ensures Inv(ids, Perform(ids, s, step)) && s.version <= Perform(ids, s, step).version
    ensures Perform(ids, s, step).initial == s.initial
  {
    hide Between, Latest, IsMigrationList;
    match step
    case Begin(process, count) => BeginKeeps(ids, s, process, count);
    case Transaction(process) => TransactionKeeps(ids, s, process);
    case Complete(process) => CompleteKeeps(ids, s, process);
    case Crash(_) =>
  }

  lemma {:induction false} RunKeeps(ids: seq<nat>, s: System, steps: seq<Step>)
    requires IsMigrationList(ids) && Inv(ids, s)
    ensures RunFrom(ids, s, steps).Some? ==>
              var s' := RunFrom(ids, s, steps).value;
              Inv(ids, s') && s.version <= s'.version && s'.initial == s.initial
    decreases |steps|
  {
    hide Inv;
    if steps != [] && Enabled(ids, s, steps[0]) {
      StepKeeps(ids, s, steps[0]);
      RunKeeps(ids, Perform(ids, s, steps[0]), steps[1..]);
    }
  }

  lemma IncreasingSnoc(xs: seq<nat>, x: nat)
    requires forall i, j :: 0 <= i < j < |xs| ==> xs[i] < xs[j]
    requires forall y :: y in xs ==> y < x
    ensures forall i, j :: 0 <= i < j < |xs + [x]| ==> (xs + [x])[i] < (xs + [x])[j]
  {
    assert forall i :: 0 <= i < |xs| ==> xs[i] in xs;
  }

  lemma {:induction false} BetweenOnce(ids: seq<nat>, from: nat, to: nat)
    requires IsMigrationList(ids)
    ensures var b := Between(ids, from, to);
            && (forall i, j :: 0 <= i < j < |b| ==> b[i] < b[j])
            && (forall id :: id in b <==> id in ids && from < id <= to)
  {
    if ids != [] {
      var init, last := ids[..|ids| - 1], ids[|ids| - 1];
      var b := Between(init, from, to);
      BetweenOnce(init, from, to);
      assert Between(ids, from, to) == b + if from < last <= to then [last] else [];
      assert forall id :: id in ids <==> id in init || id == last;
      assert forall id :: id in init ==> id < last;
      hide Between, IsMigrationList;
      IncreasingSnoc(b, last);
    }
  }

  /** However many processes race, crash and restart, with the same or an older release: each
      migration newer than the initial version is applied at most once, in order and without
      gaps, up to the current version; the version never goes down; and once a runner has
      completed, it is at least that runner's latest. */
  lemma MigrationsApplyOnce(ids: seq<nat>, version: nat, steps: seq<Step>)
    requires IsMigrationList(ids)
    ensures RunFrom(ids, Start(version), steps).Some? ==>
              var s := RunFrom(ids, Start(version), steps).value;
              && version <= s.version && s.completed <= s.version
              && (forall i, j :: 0 <= i < j < |s.applied| ==> s.applied[i] < s.applied[j])
              && (forall id :: id in s.applied <==> id in ids && version < id <= s.version)
  {
    BetweenEmpty(ids, version);
    RunKeeps(ids, Start(version), steps);
    if RunFrom(ids, Start(version), steps).Some? {
      BetweenOnce(ids, version, RunFrom(ids, Start(version), steps).value.version);
    }
  }

  // --- A runner gets through --------------------------------------------------------

  lemma CompleteFacts(ids: seq<nat>, s: System, process: int, i: nat)
    requires IsMigrationList(ids) && Inv(ids, s) && Enabled(ids, s, Complete(process)) && i < s.runners[process].count
    ensures ids[i] <= s.version && (ids[i] > s.initial ==> ids[i] in s.applied)
    ensures ids[i] <= Perform(ids, s, Complete(process)).completed
  {
    var r := s.runners[process];
    assert RunnerOk(ids, s, r);
    LatestIsLast(ids[..r.count]);
    BetweenOnce(ids, s.initial, s.version);
    hide Between, Latest;
    assert ids[..r.count][r.count - 1] == ids[r.count - 1] && ids[i] <= ids[r.count - 1] && ids[i] in ids;
  }

  /** Whenever a runner completes, after whatever others did meanwhile, the version has reached
      every migration of its release, and those newer than the initial version were applied. */
  lemma CompletedReachesLatest(ids: seq<nat>, version: nat, steps: seq<Step>, process: int)
    requires IsMigrationList(ids)
    ensures RunFrom(ids, Start(version), steps).Some? ==>
              var s := RunFrom(ids, Start(version), steps).value;
              Enabled(ids, s, Complete(process)) ==>
                && process !in Perform(ids, s, Complete(process)).runners
                && forall i :: 0 <= i < s.runners[process].count ==>
                     && ids[i] <= s.version && (ids[i] > version ==> ids[i] in s.applied)
                     && ids[i] <= Perform(ids, s, Complete(process)).completed
  {
    BetweenEmpty(ids, version);
    RunKeeps(ids, Start(version), steps);
    hide Inv, IsMigrationList, RunFrom, Latest;
    if RunFrom(ids, Start(version), steps).Some? {
      var s := RunFrom(ids, Start(version), steps).value;
      if Enabled(ids, s, Complete(process)) {
        forall i | 0 <= i < s.runners[process].count
          ensures ids[i] <= s.version && (ids[i] > version ==> ids[i] in s.applied)
          ensures ids[i] <= Perform(ids, s, Complete(process)).completed
        {
          CompleteFacts(ids, s, process, i);
        }
      }
    }
  }

  function Transactions(process: int, n: nat): seq<Step> {
    if n == 0 then [] else [Transaction(process)] + Transactions(process, n - 1)
  }

  /** A runner that is not interrupted gets through its remaining transactions. */
  lemma {:induction false} RunsThrough(ids: seq<nat>, s: System, process: int, n: nat)
    requires process in s.runners && s.runners[process].at + n == s.runners[process].count <= |ids|
    ensures RunFrom(ids, s, Transactions(process, n)).Some?
    ensures var s' := RunFrom(ids, s, Transactions(process, n)).value;
            && process in s'.runners && s'.runners[process] == Runner(s.runners[process].count, s.runners[process].count)
            && Enabled(ids, s', Complete(process))
    decreases n
  {
    if n > 0 {
      var steps := Transactions(process, n);
      assert steps[0] == Transaction(process) && steps[1..] == Transactions(process, n - 1);
      RunsThrough(ids, Perform(ids, s, Transaction(process)), process, n - 1);
    }
  }

  /** A process that starts with a database its release is not older than, and is not interrupted,
      leaves the version at least at its latest migration. */
  lemma BeginRunsThrough(ids: seq<nat>, s: System, process: int, count: nat)
    requires IsMigrationList(ids) && Inv(ids, s) && process !in s.runners && count <= |ids|
    requires s.version <= if count == 0 then 0 else ids[count - 1]
    ensures Enabled(ids, s, Begin(process, count))
    ensures var begun := Perform(ids, s, Begin(process, count));
            && RunFrom(ids, begun, Transactions(process, count)).Some?
            && var end := RunFrom(ids, begun, Transactions(process, count)).value;
            Enabled(ids, end, Complete(process)) && (count > 0 ==> end.version >= ids[count - 1])
  {
    LatestIsLast(ids[..count]);
    var begun := Perform(ids, s, Begin(process, count));
    StepKeeps(ids, s, Begin(process, count));
    RunsThrough(ids, begun, process, count);
    RunKeeps(ids, begun, Transactions(process, count));
    var end := RunFrom(ids, begun, Transactions(process, count)).value;
    assert RunnerOk(ids, end, end.runners[process]);
    hide Inv, RunFrom, Latest;
  }

  // --- One process ------------------------------------------------------------------

  class Database {
    var userVersion: nat
    var applied: seq<nat>

    constructor (version: nat)
      ensures userVersion == version && applied == []
    {
      userVersion, applied := version, [];
    }
  }

  /** `runMigrations` with no other process at work. */
  method RunMigrations(db: Database, ids: seq<nat>)
    requires IsMigrationList(ids)
    modifies db
    ensures db.userVersion == Larger(old(db.userVersion), Latest(ids))
    ensures db.applied == old(db.applied) + Between(ids, old(db.userVersion), db.userVersion)
  {
    var latest := Latest(ids);
    LatestIsLast(ids);
    ghost var initial := db.userVersion;
    BetweenEmpty(ids, initial);
    if db.userVersion > latest {
      return;
    }
    for k := 0 to |ids|
      invariant initial <= db.userVersion && (db.userVersion == initial || db.userVersion <= latest)
      invariant k > 0 ==> ids[k - 1] <= db.userVersion
      invariant db.applied == old(db.applied) + Between(ids, initial, db.userVersion)
    {
      if db.userVersion < ids[k] {
        BetweenNext(ids, initial, db.userVersion, k);
        db.applied := db.applied + [ids[k]];
        db.userVersion := ids[k];
      }
    }
  }
}
