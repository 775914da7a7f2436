/** Deployment history and rollback targets: src/modules/deployments/history.ts. A project's
    rows are a sequence in id order; every query and update there is by project. */
module History {
  import opened Options

  const RETENTION_LIMIT := 20

  datatype Status = Active | Failed | Superseded

  /** What a rollback restores. */
  datatype Revision = Revision(commitSha: Option<string>, composeFileName: Option<string>, effectiveCompose: Option<string>)

  datatype Row = Row(
    id: nat, revision: Revision, branch: Option<string>, sourceCompose: Option<string>, status: Status,
    triggeredBy: string, blockedReason: Option<string>, rolledBackAt: Option<nat>, healthFailedAt: Option<nat>)

  datatype Input = Input(revision: Revision, branch: Option<string>, sourceCompose: Option<string>, triggeredBy: string)

  // --- Rollback targets -------------------------------------------------------------

  predicate Recorded(revision: Revision) {
    revision.commitSha.Some? && revision.composeFileName.Some? && revision.effectiveCompose.Some?
  }

  predicate IsRestorable(row: Row) {
    row.status != Failed && Recorded(row.revision)
  }

  /** The newest active row. */
  function ActiveRow(rows: seq<Row>): (row: Option<Row>) {
    if rows == [] then None
    else
      var last := rows[|rows| - 1];
      if last.status == Active then Some(last) else ActiveRow(rows[..|rows| - 1])
  }

  function RunningRevision(rows: seq<Row>): Option<Revision> {
    match ActiveRow(rows)
    case None => None
    case Some(row) => Some(row.revision)
  }

  /** A default rollback may restore this row while `running` runs. */
  predicate Candidate(row: Row, running: Option<Revision>) {
    row.status == Superseded && row.rolledBackAt.None? && IsRestorable(row) && running != Some(row.revision)
  }

  /** The newest candidate. */
  function Target(rows: seq<Row>, running: Option<Revision>): (row: Option<Row>) {
    if rows == [] then None
    else
      var last := rows[|rows| - 1];
      if Candidate(last, running) then Some(last) else Target(rows[..|rows| - 1], running)
  }

  /** The default rollback target. */
  function Resolve(rows: seq<Row>): (row: Option<Row>) {
    Target(rows, RunningRevision(rows))
  }

  datatype Resolution = Restore(row: Row) | NotFound | NotRestorable | AlreadyRunning

  function FindRow(rows: seq<Row>, id: nat): (row: Option<Row>) {
    if rows == [] then None else if rows[0].id == id then Some(rows[0]) else FindRow(rows[1..], id)
  }

  /** The rollback target when a deployment is picked. */
  function ResolvePicked(rows: seq<Row>, id: nat): (r: Resolution) {
    match FindRow(rows, id)
    case None => NotFound
    case Some(row) =>
      if !IsRestorable(row) then NotRestorable
      else if RunningRevision(rows) == Some(row.revision) then AlreadyRunning
      else Restore(row)
  }

  // --- Updates ----------------------------------------------------------------------

  /** Active rows become superseded, marked when a rollback moves away from them. */
  function Supersede(rows: seq<Row>, rollbackAt: Option<nat>): (r: seq<Row>)
    ensures |r| == |rows|
    ensures forall i :: 0 <= i < |rows| ==> r[i] == Superseding(rows[i], rollbackAt)
  {
    seq(|rows|, i requires 0 <= i < |rows| => Superseding(rows[i], rollbackAt))
  }

  function Superseding(row: Row, rollbackAt: Option<nat>): Row {
    if row.status != Active then row
    else if rollbackAt.Some? then row.(status := Superseded, rolledBackAt := rollbackAt)
    else row.(status := Superseded)
  }

  function NewRow(id: nat, input: Input): Row {
    Row(id, input.revision, input.branch, input.sourceCompose, Active, input.triggeredBy, None, None, None)
  }

  /** A failed attempt records no compose bodies. */
  function FailedRow(id: nat, input: Input, reason: string): Row {
    Row(id, input.revision.(effectiveCompose := None), input.branch, None, Failed, input.triggeredBy, Some(reason), None, None)
  }

  /** Of the rows past the budget, the running one and the default rollback target stay. */
  function KeepProtected(rows: seq<Row>, target: Option<nat>): (r: seq<Row>) {
    if rows == [] then []
    else
      var last := rows[|rows| - 1];
      KeepProtected(rows[..|rows| - 1], target)
      + if last.status == Active || target == Some(last.id) then [last] else []
  }

  function TargetId(rows: seq<Row>): Option<nat> {
    match Resolve(rows)
    case None => None
    case Some(row) => Some(row.id)
  }

  function OldRows(rows: seq<Row>): (k: nat)
    ensures k <= |rows|
  {
    if |rows| <= RETENTION_LIMIT then 0 else |rows| - RETENTION_LIMIT
  }

  function Prune(rows: seq<Row>): (r: seq<Row>) {
    var k := OldRows(rows);
    KeepProtected(rows[..k], TargetId(rows)) + rows[k..]
  }

  function Succeeded(rows: seq<Row>, id: nat, input: Input, rollbackAt: Option<nat>): seq<Row> {
    Supersede(rows, rollbackAt) + [NewRow(id, input)]
  }

  function AfterSuccess(rows: seq<Row>, id: nat, input: Input, rollbackAt: Option<nat>): (r: seq<Row>) {
    Prune(Succeeded(rows, id, input, rollbackAt))
  }

  function AfterFailure(rows: seq<Row>, id: nat, input: Input, reason: string): (r: seq<Row>) {
    Prune(rows + [FailedRow(id, input, reason)])
  }

  // --- Well-formed tables -----------------------------------------------------------

  function ActiveCount(rows: seq<Row>): nat {
    if rows == [] then 0
    else ActiveCount(rows[..|rows| - 1]) + if rows[|rows| - 1].status == Active then 1 else 0
  }

  ghost predicate Ascending(rows: seq<Row>) {
    forall i, j :: 0 <= i < j < |rows| ==> rows[i].id < rows[j].id
  }

  /** Ids ascend below `next`, at most one row is active, and only failed rows are newer. */
  ghost predicate WellFormed(rows: seq<Row>, next: nat) {
    && Ascending(rows)
    && (forall r :: r in rows ==> r.id < next)
    && ActiveCount(rows) <= 1
    && (forall r, s :: r in rows && s in rows && r.status == Active && r.id < s.id ==> s.status == Failed)
  }

  // --- Concatenation ----------------------------------------------------------------

  lemma {:induction false} TargetAppend(xs: seq<Row>, ys: seq<Row>, running: Option<Revision>)
    ensures Target(xs + ys, running) == if Target(ys, running).Some? then Target(ys, running) else Target(xs, running)
  {
    if ys == [] {
      assert xs + ys == xs;
    } else {
      assert (xs + ys)[..|xs + ys| - 1] == xs + ys[..|ys| - 1];
      TargetAppend(xs, ys[..|ys| - 1], running);
    }
  }

  lemma {:induction false} ActiveAppend(xs: seq<Row>, ys: seq<Row>)
    ensures ActiveRow(xs + ys) == if ActiveRow(ys).Some? then ActiveRow(ys) else ActiveRow(xs)
    ensures ActiveCount(xs + ys) == ActiveCount(xs) + ActiveCount(ys)
  {
    if ys == [] {
      assert xs + ys == xs;
    } else {
      assert (xs + ys)[..|xs + ys| - 1] == xs + ys[..|ys| - 1];
      ActiveAppend(xs, ys[..|ys| - 1]);
    }
  }

  // --- Pruning ----------------------------------------------------------------------

  lemma {:induction false} ProtectedActive(rows: seq<Row>, target: Option<nat>)
    ensures ActiveRow(KeepProtected(rows, target)) == ActiveRow(rows)
    ensures ActiveCount(KeepProtected(rows, target)) == ActiveCount(rows)
  {
    if rows != [] {
      var init, last := rows[..|rows| - 1], rows[|rows| - 1];
      ProtectedActive(init, target);
      ActiveAppend(KeepProtected(init, target), [last]);
      assert KeepProtected(init, target) + [] == KeepProtected(init, target);
    }
  }

  lemma {:induction false} ProtectedTarget(rows: seq<Row>, running: Option<Revision>, target: Option<nat>)
    requires Target(rows, running).Some? ==> target == Some(Target(rows, running).value.id)
    ensures Target(KeepProtected(rows, target), running) == Target(rows, running)
  {
    if rows != [] {
      var init, last := rows[..|rows| - 1], rows[|rows| - 1];
      var kept := KeepProtected(init, target);
      TargetAppend(kept, [last], running);
      assert kept + [] == kept;
      if Candidate(last, running) {
        assert target == Some(last.id);
      } else {
        ProtectedTarget(init, running, target);
      }
    }
  }

  /** Pruning never changes the running row or the default rollback target. */
  lemma PruneKeeps(rows: seq<Row>)
    ensures ActiveRow(Prune(rows)) == ActiveRow(rows)
    ensures ActiveCount(Prune(rows)) == ActiveCount(rows)
    ensures Resolve(Prune(rows)) == Resolve(rows)
  {
    var k := OldRows(rows);
    var older, recent, target := rows[..k], rows[k..], TargetId(rows);
    assert rows == older + recent;
    ActiveAppend(older, recent);
    ActiveAppend(KeepProtected(older, target), recent);
    ProtectedActive(older, target);
    var running := RunningRevision(rows);
    TargetAppend(older, recent, running);
    TargetAppend(KeepProtected(older, target), recent, running);
    if Target(recent, running).None? {
      ProtectedTarget(older, running, target);
    }
  }

  function IdCount(rows: seq<Row>, id: Option<nat>): nat {
    if rows == [] then 0
    else IdCount(rows[..|rows| - 1], id) + if id == Some(rows[|rows| - 1].id) then 1 else 0
  }

  lemma {:induction false} IdOnce(rows: seq<Row>, id: Option<nat>)
    requires Ascending(rows)
    ensures IdCount(rows, id) <= 1
    ensures IdCount(rows, id) > 0 ==> exists r :: r in rows && id == Some(r.id)
  {
    if rows != [] {
      var init, last := rows[..|rows| - 1], rows[|rows| - 1];
      IdOnce(init, id);
      assert forall r :: r in init ==> r in rows && r.id < last.id;
      assert last in rows;
    }
  }

  lemma {:induction false} ProtectedSize(rows: seq<Row>, target: Option<nat>)
    ensures |KeepProtected(rows, target)| <= ActiveCount(rows) + IdCount(rows, target)
  {
    if rows != [] {
      ProtectedSize(rows[..|rows| - 1], target);
    }
  }

  lemma {:induction false} ProtectedRows(rows: seq<Row>, target: Option<nat>)
    ensures forall r :: r in KeepProtected(rows, target) ==> r in rows
    ensures Ascending(rows) ==> Ascending(KeepProtected(rows, target))
  {
    if rows != [] {
      var init, last := rows[..|rows| - 1], rows[|rows| - 1];
      var kept := KeepProtected(init, target);
      ProtectedRows(init, target);
      assert last in rows && forall r :: r in init ==> r in rows;
      if Ascending(rows) {
        AscendingEnds(init, last, kept);
      }
    }
  }

  lemma AscendingEnds(init: seq<Row>, last: Row, kept: seq<Row>)
    requires Ascending(init + [last]) && Ascending(kept)
    requires forall r :: r in kept ==> r in init
    ensures Ascending(kept + [last])
  {
    forall r | r in init
      ensures r.id < last.id
    {
      var i :| 0 <= i < |init| && init[i] == r;
      assert (init + [last])[i] == r && (init + [last])[|init|] == last;
    }
    forall i, j | 0 <= i < j < |kept + [last]|
      ensures (kept + [last])[i].id < (kept + [last])[j].id
    {
      if j == |kept| {
        assert kept[i] in kept;
      }
    }
  }

  /** A pruned table stays well-formed and within the budget plus the two protected rows. */
  lemma PruneBounds(rows: seq<Row>, next: nat)
    requires WellFormed(rows, next)
    ensures WellFormed(Prune(rows), next)
    ensures |Prune(rows)| <= RETENTION_LIMIT + 2
  {
    var k := OldRows(rows);
    var older, recent, target := rows[..k], rows[k..], TargetId(rows);
    assert rows == older + recent;
    PruneKeeps(rows);
    ActiveAppend(older, recent);
    ProtectedSize(older, target);
    IdOnce(older, target);
    ProtectedRows(older, target);
    JoinAscending(older, recent, KeepProtected(older, target));
    assert forall r :: r in Prune(rows) ==> r in rows;
  }

  lemma JoinAscending(older: seq<Row>, recent: seq<Row>, kept: seq<Row>)
    requires Ascending(older + recent) && Ascending(kept)
    requires forall r :: r in kept ==> r in older
    ensures Ascending(kept + recent)
  {
    forall r, j | r in older && 0 <= j < |recent|
      ensures r.id < recent[j].id
    {
      var i :| 0 <= i < |older| && older[i] == r;
      assert (older + recent)[i] == r && (older + recent)[|older| + j] == recent[j];
    }
    forall i, j | 0 <= i < j < |kept + recent|
      ensures (kept + recent)[i].id < (kept + recent)[j].id
    {
      if j < |kept| {
      } else if i < |kept| {
        assert kept[i] in kept;
      } else {
        assert (older + recent)[|older| + i - |kept|] == recent[i - |kept|];
        assert (older + recent)[|older| + j - |kept|] == recent[j - |kept|];
      }
    }
  }

  // --- Recording --------------------------------------------------------------------

  lemma {:induction false} SupersededNoneActive(rows: seq<Row>, rollbackAt: Option<nat>)
    ensures ActiveCount(Supersede(rows, rollbackAt)) == 0
    ensures ActiveRow(Supersede(rows, rollbackAt)) == None
  {
    if rows != [] {
      var n := |rows| - 1;
      assert Supersede(rows, rollbackAt)[..n] == Supersede(rows[..n], rollbackAt);
      SupersededNoneActive(rows[..n], rollbackAt);
    }
  }

  lemma AscendingSnoc(rows: seq<Row>, row: Row)
    requires Ascending(rows) && forall r :: r in rows ==> r.id < row.id
    ensures Ascending(rows + [row])
  {
    forall i, j | 0 <= i < j < |rows + [row]|
      ensures (rows + [row])[i].id < (rows + [row])[j].id
    {
      if j == |rows| {
        assert rows[i] in rows;
      }
    }
  }

  lemma SnocWellFormed(rows: seq<Row>, row: Row, next: nat)
    requires WellFormed(rows, next) && next <= row.id
    requires row.status == Failed || (row.status == Active && ActiveCount(rows) == 0)
    ensures WellFormed(rows + [row], row.id + 1)
  {
    AscendingSnoc(rows, row);
    hide Ascending;
    ActiveAppend(rows, [row]);
    assert ActiveCount([row]) <= 1 && (row.status == Failed ==> ActiveCount([row]) == 0) by {
      assert [row][..0] == [];
    }
    if row.status == Active {
      NoneActive(rows);
    }
    hide ActiveCount;
    forall r, s | r in rows + [row] && s in rows + [row] && r.status == Active && r.id < s.id
      ensures s.status == Failed
    {
      assert r in rows || r == row;
      assert s in rows || s == row;
    }
  }

  lemma {:induction false} NoneActive(rows: seq<Row>)
    requires ActiveCount(rows) == 0
    ensures forall r :: r in rows ==> r.status != Active
  {
    if rows != [] {
      NoneActive(rows[..|rows| - 1]);
      assert forall r :: r in rows ==> r in rows[..|rows| - 1] || r == rows[|rows| - 1];
    }
  }

  lemma SupersedeIds(rows: seq<Row>, rollbackAt: Option<nat>)
    ensures Ascending(rows) ==> Ascending(Supersede(rows, rollbackAt))
    ensures forall r :: r in Supersede(rows, rollbackAt) ==> exists r' :: r' in rows && r'.id == r.id
  {
    var s := Supersede(rows, rollbackAt);
    forall r | r in s
      ensures exists r' :: r' in rows && r'.id == r.id
    {
      var i :| 0 <= i < |s| && s[i] == r;
      assert rows[i] in rows && rows[i].id == r.id;
    }
  }

  lemma SupersedeWellFormed(rows: seq<Row>, rollbackAt: Option<nat>, next: nat)
    requires WellFormed(rows, next)
    ensures WellFormed(Supersede(rows, rollbackAt), next)
  {
    var s := Supersede(rows, rollbackAt);
    SupersededNoneActive(rows, rollbackAt);
    NoneActive(s);
    SupersedeIds(rows, rollbackAt);
    hide Ascending, ActiveCount, Supersede;
  }

  /** A successful deploy, rollback or not, leaves exactly its own row active, and a
      well-formed table of at most 22 rows. */
  lemma SuccessWellFormed(rows: seq<Row>, id: nat, input: Input, rollbackAt: Option<nat>, next: nat)
    requires WellFormed(rows, next) && next <= id
    ensures var r := AfterSuccess(rows, id, input, rollbackAt);
            && WellFormed(r, id + 1)
            && |r| <= RETENTION_LIMIT + 2
            && ActiveRow(r) == Some(NewRow(id, input))
  {
    var all := Succeeded(rows, id, input, rollbackAt);
    SupersedeWellFormed(rows, rollbackAt, next);
    SupersededNoneActive(rows, rollbackAt);
    SnocWellFormed(Supersede(rows, rollbackAt), NewRow(id, input), next);
    PruneBounds(all, id + 1);
    PruneKeeps(all);
  }

  /** A failed deploy changes neither the running row nor the default rollback target. */
  lemma FailureKeeps(rows: seq<Row>, id: nat, input: Input, reason: string)
    ensures var r := AfterFailure(rows, id, input, reason);
            ActiveRow(r) == ActiveRow(rows) && Resolve(r) == Resolve(rows)
  {
    var row := FailedRow(id, input, reason);
    PruneKeeps(rows + [row]);
    ActiveAppend(rows, [row]);
    assert ActiveRow([row]) == None by {
      assert [row][..0] == [];
    }
    assert (rows + [row])[..|rows|] == rows;
  }

  lemma FailureWellFormed(rows: seq<Row>, id: nat, input: Input, reason: string, next: nat)
    requires WellFormed(rows, next) && next <= id
    ensures WellFormed(AfterFailure(rows, id, input, reason), id + 1)
    ensures |AfterFailure(rows, id, input, reason)| <= RETENTION_LIMIT + 2
  {
    SnocWellFormed(rows, FailedRow(id, input, reason), next);
    PruneBounds(rows + [FailedRow(id, input, reason)], id + 1);
  }

  // --- Runs -------------------------------------------------------------------------

  datatype Event = Deploy(input: Input) | Fail(input: Input, reason: string) | Rollback(at: nat) | RollbackTo(id: nat, at: nat)

  function InputOf(row: Row): Input {
    Input(row.revision, row.branch, row.sourceCompose, "manual")
  }

  /** A rollback to `row` if there is one to restore: its content becomes the new active row. */
  function RolledBack(rows: seq<Row>, id: nat, target: Option<Row>, at: nat): seq<Row> {
    match target
    case None => rows
    case Some(row) => AfterSuccess(rows, id, InputOf(row), Some(at))
  }

  function Picked(rows: seq<Row>, id: nat): Option<Row> {
    match ResolvePicked(rows, id)
    case Restore(row) => Some(row)
    case _ => None
  }

  function AfterEvent(rows: seq<Row>, id: nat, e: Event): seq<Row> {
    match e
    case Deploy(input) => AfterSuccess(rows, id, input, None)
    case Fail(input, reason) => AfterFailure(rows, id, input, reason)
    case Rollback(at) => RolledBack(rows, id, Resolve(rows), at)
    case RollbackTo(picked, at) => RolledBack(rows, id, Picked(rows, picked), at)
  }

  /** The table after a run of events from an empty one; the `i`-th event's row has id `i + 1`. */
  function TableAfter(events: seq<Event>): (rows: seq<Row>) {
    if events == [] then []
    else AfterEvent(TableAfter(events[..|events| - 1]), |events|, events[|events| - 1])
  }

  lemma StaysWellFormed(rows: seq<Row>, next: nat, id: nat)
    requires WellFormed(rows, next) && next <= id
    ensures WellFormed(rows, id + 1)
  {
  }

  lemma EventWellFormed(rows: seq<Row>, id: nat, e: Event, next: nat)
    requires WellFormed(rows, next) && next <= id && |rows| <= RETENTION_LIMIT + 2
    ensures WellFormed(AfterEvent(rows, id, e), id + 1)
    ensures |AfterEvent(rows, id, e)| <= RETENTION_LIMIT + 2
  {
    StaysWellFormed(rows, next, id);
    hide WellFormed, AfterSuccess, AfterFailure, Resolve, Picked;
    match e
    case Deploy(input) => SuccessWellFormed(rows, id, input, None, next);
    case Fail(input, reason) => FailureWellFormed(rows, id, input, reason, next);
    case Rollback(at) =>
      if Resolve(rows).Some? {
        SuccessWellFormed(rows, id, InputOf(Resolve(rows).value), Some(at), next);
      }
    case RollbackTo(picked, at) =>
      if Picked(rows, picked).Some? {
        SuccessWellFormed(rows, id, InputOf(Picked(rows, picked).value), Some(at), next);
      }
  }

  /** In every reachable history, rollbacks included, at most one row is active, rows stay in
      id order, and no more than 22 are kept. */
  lemma {:induction false} HistoryWellFormed(events: seq<Event>)
    ensures WellFormed(TableAfter(events), |events| + 1)
    ensures |TableAfter(events)| <= 22
  {
    if events != [] {
      var n := |events| - 1;
      HistoryWellFormed(events[..n]);
      EventWellFormed(TableAfter(events[..n]), |events|, events[n], n + 1);
    }
  }

  lemma TableSnoc(events: seq<Event>, e: Event)
    ensures TableAfter(events + [e]) == AfterEvent(TableAfter(events), |events| + 1, e)
  {
    hide AfterEvent;
    assert (events + [e])[..|events|] == events;
  }

  /** A run of failed deploys of any length keeps the running row and the rollback target. */
  lemma {:induction false} FailuresKeep(events: seq<Event>, failures: seq<Event>)
    requires forall i :: 0 <= i < |failures| ==> failures[i].Fail?
    ensures ActiveRow(TableAfter(events + failures)) == ActiveRow(TableAfter(events))
    ensures Resolve(TableAfter(events + failures)) == Resolve(TableAfter(events))
  {
    hide TableAfter, AfterFailure, ActiveRow, Resolve;
    if failures == [] {
      assert events + failures == events;
    } else {
      var n := |failures| - 1;
      var before, last := events + failures[..n], failures[n];
      assert events + failures == before + [last];
      FailuresKeep(events, failures[..n]);
      TableSnoc(before, last);
      FailureKeeps(TableAfter(before), |before| + 1, last.input, last.reason);
    }
  }

  // --- The bounded table against an unbounded one -----------------------------------

  /** The same run without any pruning. */
  function Unpruned(events: seq<Event>): (rows: seq<Row>) {
    if events == [] then []
    else UnprunedAfter(Unpruned(events[..|events| - 1]), |events|, events[|events| - 1])
  }

  function UnprunedAfter(rows: seq<Row>, id: nat, e: Event): seq<Row> {
    match e
    case Deploy(input) => Succeeded(rows, id, input, None)
    case Fail(input, reason) => rows + [FailedRow(id, input, reason)]
    case _ => rows
  }

  /** Deploys with everything recorded, and failures; no rollbacks. */
  ghost predicate Ordinary(events: seq<Event>) {
    forall e :: e in events ==> e.Fail? || (e.Deploy? && Recorded(e.input.revision))
  }

  /** It keeps a row for every attempt. */
  lemma {:induction false} UnprunedKeepsAll(events: seq<Event>)
    requires Ordinary(events)
    ensures |Unpruned(events)| == |events|
    ensures forall i :: 0 <= i < |events| ==> Unpruned(events)[i].id == i + 1
  {
    if events != [] {
      UnprunedKeepsAll(events[..|events| - 1]);
    }
  }

  lemma {:induction false} NoneSupersededTarget(rows: seq<Row>, running: Option<Revision>)
    requires forall r :: r in rows ==> r.status == Failed
    ensures Target(rows, running) == None
  {
    if rows != [] {
      assert rows[|rows| - 1] in rows;
      assert forall r :: r in rows[..|rows| - 1] ==> r in rows;
      NoneSupersededTarget(rows[..|rows| - 1], running);
    }
  }

  /** A table that only ordinary events produced: its active row can be restored later, and
      without an active row nothing ever succeeded. */
  ghost predicate Clean(rows: seq<Row>) {
    && (forall r :: r in rows && r.status == Active ==> Recorded(r.revision) && r.rolledBackAt == None)
    && (ActiveCount(rows) == 0 ==> forall r :: r in rows ==> r.status == Failed)
  }

  lemma {:induction false} ActiveRowIn(rows: seq<Row>)
    ensures ActiveRow(rows).Some? <==> ActiveCount(rows) > 0
    ensures ActiveRow(rows).Some? ==> ActiveRow(rows).value in rows && ActiveRow(rows).value.status == Active
  {
    if rows != [] {
      ActiveRowIn(rows[..|rows| - 1]);
      assert rows[|rows| - 1] in rows && forall r :: r in rows[..|rows| - 1] ==> r in rows;
    }
  }

  /** Superseding the running row makes it the newest candidate, unless the next revision is
      the same. */
  lemma {:induction false} SupersedeTarget(rows: seq<Row>, running: Option<Revision>, next: nat)
    requires WellFormed(rows, next) && ActiveRow(rows).Some?
    requires Recorded(ActiveRow(rows).value.revision) && ActiveRow(rows).value.rolledBackAt == None
    ensures var p := ActiveRow(rows).value;
            Target(Supersede(rows, None), running) ==
            if running != Some(p.revision) then Some(p.(status := Superseded)) else Target(rows, running)
  {
    var n := |rows| - 1;
    var init, last := rows[..n], rows[n];
    SupersedeInit(rows);
    InitWellFormed(rows, next);
    hide WellFormed, Supersede, ActiveCount;
    if last.status == Active {
      SupersedeNothing(init);
    } else {
      SupersedeTarget(init, running, next);
    }
  }

  lemma SupersedeInit(rows: seq<Row>)
    requires rows != []
    ensures var n := |rows| - 1;
            var r := Supersede(rows, None);
            r != [] && r[..|r| - 1] == Supersede(rows[..n], None) && r[|r| - 1] == Superseding(rows[n], None)
  {
  }

  lemma InitWellFormed(rows: seq<Row>, next: nat)
    requires WellFormed(rows, next) && ActiveRow(rows).Some?
    ensures var init, last := rows[..|rows| - 1], rows[|rows| - 1];
            && WellFormed(init, next)
            && if last.status == Active then ActiveCount(init) == 0 else last.status == Failed && ActiveRow(init).Some?
  {
    var init, last := rows[..|rows| - 1], rows[|rows| - 1];
    assert last in rows && forall r :: r in init ==> r in rows && r.id < last.id;
    assert Ascending(init);
    hide Ascending;
    ActiveRowIn(init);
  }

  lemma SupersedeNothing(rows: seq<Row>)
    requires ActiveCount(rows) == 0
    ensures Supersede(rows, None) == rows
  {
    NoneActive(rows);
    assert forall i :: 0 <= i < |rows| ==> rows[i] in rows;
  }

  /** The rollback target after a deploy of revision `x`. */
  function NextTarget(active: Option<Row>, target: Option<Row>, x: Revision): Option<Row> {
    match active
    case None => None
    case Some(p) => if x != p.revision then Some(p.(status := Superseded)) else target
  }

  lemma DeployTarget(rows: seq<Row>, id: nat, input: Input, next: nat)
    requires WellFormed(rows, next) && Clean(rows)
    ensures var r := Succeeded(rows, id, input, None);
            && ActiveRow(r) == Some(NewRow(id, input))
            && Resolve(r) == NextTarget(ActiveRow(rows), Resolve(rows), input.revision)
  {
    var superseded, row := Supersede(rows, None), NewRow(id, input);
    assert (superseded + [row])[..|superseded|] == superseded;
    ActiveRowIn(rows);
    if ActiveRow(rows).Some? {
      SupersedeTarget(rows, Some(input.revision), next);
    } else {
      NoneSupersededTarget(rows, Some(input.revision));
      SupersedeNothing(rows);
    }
  }

  lemma CleanSuccess(rows: seq<Row>, id: nat, input: Input)
    requires Recorded(input.revision)
    ensures Clean(Succeeded(rows, id, input, None))
  {
    var superseded, row := Supersede(rows, None), NewRow(id, input);
    SupersededNoneActive(rows, None);
    NoneActive(superseded);
    ActiveAppend(superseded, [row]);
    assert ActiveCount([row]) == 1 by {
      assert [row][..0] == [];
    }
  }

  lemma CleanFailure(rows: seq<Row>, id: nat, input: Input, reason: string)
    requires Clean(rows)
    ensures Clean(rows + [FailedRow(id, input, reason)])
  {
    var row := FailedRow(id, input, reason);
    ActiveAppend(rows, [row]);
    assert forall r :: r in rows + [row] <==> r in rows || r == row;
  }

  lemma CleanPrune(rows: seq<Row>)
    requires Clean(rows)
    ensures Clean(Prune(rows))
  {
    PruneKeeps(rows);
    ProtectedRows(rows[..OldRows(rows)], TargetId(rows));
    assert forall r :: r in Prune(rows) ==> r in rows;
  }

  ghost predicate SameView(rows: seq<Row>, full: seq<Row>) {
    ActiveRow(rows) == ActiveRow(full) && Resolve(rows) == Resolve(full)
  }

  lemma DeployStep(rows: seq<Row>, full: seq<Row>, id: nat, input: Input, next: nat)
    requires WellFormed(rows, next) && Clean(rows) && WellFormed(full, next) && Clean(full) && next <= id
    requires SameView(rows, full) && Recorded(input.revision)
    ensures var rows', full' := AfterSuccess(rows, id, input, None), Succeeded(full, id, input, None);
            && SameView(rows', full') && Clean(rows') && Clean(full') && WellFormed(full', id + 1)
  {
    DeployTarget(rows, id, input, next);
    DeployTarget(full, id, input, next);
    CleanSuccess(rows, id, input);
    CleanSuccess(full, id, input);
    hide Clean, Resolve, ActiveRow;
    PruneKeeps(Succeeded(rows, id, input, None));
    CleanPrune(Succeeded(rows, id, input, None));
    SupersedeWellFormed(full, None, next);
    SupersededNoneActive(full, None);
    SnocWellFormed(Supersede(full, None), NewRow(id, input), next);
  }

  lemma FailStep(rows: seq<Row>, full: seq<Row>, id: nat, input: Input, reason: string, next: nat)
    requires Clean(rows) && WellFormed(full, next) && Clean(full) && next <= id
    requires SameView(rows, full)
    ensures var rows', full' := AfterFailure(rows, id, input, reason), full + [FailedRow(id, input, reason)];
            && SameView(rows', full') && Clean(rows') && Clean(full') && WellFormed(full', id + 1)
  {
    FailureKeeps(rows, id, input, reason);
    CleanFailure(rows, id, input, reason);
    CleanFailure(full, id, input, reason);
    SnocWellFormed(full, FailedRow(id, input, reason), next);
    UnprunedFailureKeeps(full, FailedRow(id, input, reason));
    hide Clean, ActiveRow, Resolve;
    CleanPrune(rows + [FailedRow(id, input, reason)]);
  }

  lemma UnprunedFailureKeeps(rows: seq<Row>, row: Row)
    requires row.status == Failed
    ensures ActiveRow(rows + [row]) == ActiveRow(rows) && Resolve(rows + [row]) == Resolve(rows)
  {
    assert (rows + [row])[..|rows|] == rows;
  }

  ghost predicate Matches(rows: seq<Row>, full: seq<Row>, next: nat) {
    SameView(rows, full) && Clean(rows) && Clean(full) && WellFormed(full, next)
  }

  lemma MatchingStep(rows: seq<Row>, full: seq<Row>, id: nat, e: Event)
    requires Matches(rows, full, id) && WellFormed(rows, id)
    requires e.Fail? || (e.Deploy? && Recorded(e.input.revision))
    ensures Matches(AfterEvent(rows, id, e), UnprunedAfter(full, id, e), id + 1)
  {
    hide SameView, Clean, WellFormed, AfterSuccess, AfterFailure, Succeeded, FailedRow;
    match e
    case Deploy(input) => DeployStep(rows, full, id, input, id);
    case Fail(input, reason) => FailStep(rows, full, id, input, reason, id);
  }

  lemma {:induction false} RunMatches(events: seq<Event>)
    requires Ordinary(events)
    ensures Matches(TableAfter(events), Unpruned(events), |events| + 1)
  {
    hide Matches, AfterEvent, UnprunedAfter, WellFormed;
    if events == [] {
      EmptyMatches();
    } else {
      var n := |events| - 1;
      var init, e := events[..n], events[n];
      assert e in events && forall e :: e in init ==> e in events;
      RunMatches(init);
      HistoryWellFormed(init);
      MatchingStep(TableAfter(init), Unpruned(init), |events|, e);
    }
  }

  lemma EmptyMatches()
    ensures Matches([], [], 1)
  {
  }

  /** Pruning is invisible to ordinary use: the bounded table has the same running row and the
      same default rollback target as a table that keeps every row. */
  lemma BoundedRefinesUnbounded(events: seq<Event>)
    requires Ordinary(events)
    ensures ActiveRow(TableAfter(events)) == ActiveRow(Unpruned(events))
    ensures Resolve(TableAfter(events)) == Resolve(Unpruned(events))
    ensures |TableAfter(events)| <= 22
  {
    hide TableAfter, Unpruned, ActiveRow, Resolve, Clean, WellFormed;
    HistoryWellFormed(events);
    RunMatches(events);
  }

  // --- Rollbacks --------------------------------------------------------------------

  lemma {:induction false} MarkedTarget(rows: seq<Row>, at: nat, running: Option<Revision>)
    ensures Target(Supersede(rows, Some(at)), running) == Target(rows, running)
  {
    if rows != [] {
      var n := |rows| - 1;
      assert Supersede(rows, Some(at))[..n] == Supersede(rows[..n], Some(at));
      MarkedTarget(rows[..n], at, running);
    }
  }

  /** After a rollback to `b`, the next default rollback goes to the newest remaining candidate
      that differs from `b`: the revision rolled back from is out. */
  lemma NextRollback(rows: seq<Row>, id: nat, b: Row, at: nat)
    ensures Resolve(RolledBack(rows, id, Some(b), at)) == Target(rows, Some(b.revision))
  {
    var all := Succeeded(rows, id, InputOf(b), Some(at));
    PruneKeeps(all);
    assert all[..|rows|] == Supersede(rows, Some(at));
    MarkedTarget(rows, at, Some(b.revision));
  }

  /** Picking the default target's id explicitly restores the same row. */
  lemma DefaultCanBePicked(rows: seq<Row>, next: nat)
    requires WellFormed(rows, next) && Resolve(rows).Some?
    ensures ResolvePicked(rows, Resolve(rows).value.id) == Restore(Resolve(rows).value)
  {
    TargetIn(rows, RunningRevision(rows));
    FindsRow(rows, Resolve(rows).value);
  }

  lemma {:induction false} TargetIn(rows: seq<Row>, running: Option<Revision>)
    ensures Target(rows, running).Some? ==>
              Target(rows, running).value in rows && Candidate(Target(rows, running).value, running)
  {
    if rows != [] {
      TargetIn(rows[..|rows| - 1], running);
      assert rows[|rows| - 1] in rows && forall r :: r in rows[..|rows| - 1] ==> r in rows;
    }
  }

  lemma {:induction false} FindsRow(rows: seq<Row>, row: Row)
    requires Ascending(rows) && row in rows
    ensures FindRow(rows, row.id) == Some(row)
  {
    if rows[0] != row {
      var i :| 0 <= i < |rows| && rows[i] == row;
      assert rows[1..][i - 1] == row && rows[0].id < rows[i].id;
      FindsRow(rows[1..], row);
    }
  }

  lemma {:induction false} FoundIn(rows: seq<Row>, id: nat)
    ensures match FindRow(rows, id)
            case None => forall row :: row in rows ==> row.id != id
            case Some(row) => row in rows && row.id == id
  {
    if rows != [] {
      FoundIn(rows[1..], id);
      assert rows == [rows[0]] + rows[1..];
    }
  }

  /** A row a rollback could restore: it didn't fail, and its commit, compose file name and
      effective compose were all recorded. */
  ghost predicate Complete(row: Row) {
    && row.status != Failed
    && row.revision.commitSha != None && row.revision.composeFileName != None && row.revision.effectiveCompose != None
  }

  /** What a pick is answered: the row that has the id, if it is complete and not what runs. */
  lemma PickedRestores(rows: seq<Row>, next: nat, id: nat)
    requires WellFormed(rows, next)
    ensures ResolvePicked(rows, id) == NotFound <==> forall row :: row in rows ==> row.id != id
    ensures forall row :: row in rows && row.id == id ==>
              ResolvePicked(rows, id) ==
              if !Complete(row) then NotRestorable
              else if RunningRevision(rows) == Some(row.revision) then AlreadyRunning
              else Restore(row)
  {
    FoundIn(rows, id);
    forall row | row in rows && row.id == id
      ensures FindRow(rows, id) == Some(row)
    {
      FindsRow(rows, row);
    }
  }

  /** Row `k` can be restored by a default rollback. */
  ghost predicate Eligible(rows: seq<Row>, k: int) {
    && 0 <= k < |rows| && rows[k].status == Superseded && rows[k].rolledBackAt == None && Complete(rows[k])
    && RunningRevision(rows) != Some(rows[k].revision)
  }

  lemma {:induction false} TargetAt(rows: seq<Row>, running: Option<Revision>) returns (k: int)
    ensures Target(rows, running).Some? ==> 0 <= k < |rows| && Target(rows, running).value == rows[k]
    ensures Target(rows, running).None? ==> k == -1
    ensures Target(rows, running).Some? ==> Candidate(rows[k], running)
    ensures forall j :: k < j < |rows| ==> !Candidate(rows[j], running)
  {
    k := |rows| - 1;
    if rows != [] && !Candidate(rows[k], running) {
      k := TargetAt(rows[..k], running);
      assert forall j :: 0 <= j < |rows| - 1 ==> rows[..|rows| - 1][j] == rows[j];
    }
  }

  /** A default rollback restores the newest eligible row, and nothing exactly if no row is eligible. */
  lemma DefaultIsNewest(rows: seq<Row>)
    ensures Resolve(rows) == None <==> forall k :: !Eligible(rows, k)
    ensures Resolve(rows).Some? ==>
              exists k :: Eligible(rows, k) && Resolve(rows).value == rows[k]
                       && forall j :: k < j < |rows| ==> !Eligible(rows, j)
  {
    var k := TargetAt(rows, RunningRevision(rows));
    assert forall j :: 0 <= j < |rows| ==> (Eligible(rows, j) <==> Candidate(rows[j], RunningRevision(rows)));
    if k >= 0 {
      assert Eligible(rows, k);
    }
  }

  /** What runs is the revision of the newest active row. */
  lemma {:induction false} RunningIsActive(rows: seq<Row>) returns (k: int)
    ensures RunningRevision(rows) == if k < 0 then None else if k < |rows| then Some(rows[k].revision) else None
    ensures -1 <= k < |rows| && (k >= 0 ==> rows[k].status == Active)
    ensures forall j :: k < j < |rows| ==> rows[j].status != Active
  {
    k := |rows| - 1;
    if rows != [] && rows[k].status != Active {
      k := RunningIsActive(rows[..k]);
      assert forall j :: 0 <= j < |rows| - 1 ==> rows[..|rows| - 1][j] == rows[j];
    }
  }

  lemma DefaultComplete(rows: seq<Row>)
    requires Resolve(rows).Some?
    ensures Resolve(rows).value in rows && Complete(Resolve(rows).value)
    ensures Some(Resolve(rows).value.revision) != RunningRevision(rows)
  {
    TargetIn(rows, RunningRevision(rows));
  }

  lemma PickedComplete(rows: seq<Row>, id: nat)
    requires Picked(rows, id).Some?
    ensures Picked(rows, id).value in rows && Complete(Picked(rows, id).value)
    ensures Some(Picked(rows, id).value.revision) != RunningRevision(rows)
  {
    FoundIn(rows, id);
  }

  /** A rollback, default or picked, restores a complete row of the table, and always changes what
      runs. */
  lemma RollbackChangesRevision(rows: seq<Row>, next: nat, at: nat, picked: Option<nat>)
    requires WellFormed(rows, next)
    ensures var target := if picked.Some? then Picked(rows, picked.value) else Resolve(rows);
            target.Some? ==>
              var after := RolledBack(rows, next, target, at);
              && target.value in rows && Complete(target.value)
              && RunningRevision(after) == Some(target.value.revision) != RunningRevision(rows)
              && WellFormed(after, next + 1)
  {
    hide WellFormed, AfterSuccess, Resolve, Picked, ActiveRow, Complete;
    var target := if picked.Some? then Picked(rows, picked.value) else Resolve(rows);
    if target.Some? {
      if picked.Some? {
        PickedComplete(rows, picked.value);
      } else {
        DefaultComplete(rows);
      }
      SuccessWellFormed(rows, next, InputOf(target.value), Some(at), next);
    }
  }

  // --- What is recorded and kept ----------------------------------------------------

  lemma {:induction false} ProtectedIff(rows: seq<Row>, target: Option<nat>, row: Row)
    ensures row in KeepProtected(rows, target) <==> row in rows && (row.status == Active || target == Some(row.id))
  {
    if rows != [] {
      var init, last := rows[..|rows| - 1], rows[|rows| - 1];
      ProtectedIff(init, target, row);
      assert row in rows <==> row in init || row == last;
    }
  }

  lemma PruneIn(rows: seq<Row>, row: Row)
    ensures row in Prune(rows) <==>
              || row in rows[OldRows(rows)..]
              || (row in rows[..OldRows(rows)] && (row.status == Active || TargetId(rows) == Some(row.id)))
  {
    ProtectedIff(rows[..OldRows(rows)], TargetId(rows), row);
  }

  lemma PruneLast(rows: seq<Row>)
    requires rows != []
    ensures Prune(rows) != [] && Prune(rows)[|Prune(rows)| - 1] == rows[|rows| - 1]
  {
  }

  /** Pruning keeps the newest 20 rows, the active one and the default rollback target, and drops
      every other row. */
  lemma PruneKeepsExactly(rows: seq<Row>, next: nat, row: Row)
    requires WellFormed(rows, next) && row in rows
    ensures row in Prune(rows) <==>
              || row in (if |rows| <= 20 then rows else rows[|rows| - 20..])
              || row.status == Active || Resolve(rows) == Some(row)
  {
    PruneIn(rows, row);
    IsTarget(rows, row);
    InParts(rows, OldRows(rows), row);
    NewestTwenty(rows);
    hide *;
  }

  lemma InParts(rows: seq<Row>, k: nat, row: Row)
    requires k <= |rows|
    ensures row in rows <==> row in rows[..k] || row in rows[k..]
  {
    assert rows == rows[..k] + rows[k..];
  }

  lemma NewestTwenty(rows: seq<Row>)
    ensures rows[OldRows(rows)..] == if |rows| <= 20 then rows else rows[|rows| - 20..]
  {
  }

  lemma IsTarget(rows: seq<Row>, row: Row)
    requires Ascending(rows) && row in rows
    ensures TargetId(rows) == Some(row.id) <==> Resolve(rows) == Some(row)
  {
    if Resolve(rows).Some? {
      TargetIn(rows, RunningRevision(rows));
    }
    hide Target;
  }

  lemma SupersedeIn(rows: seq<Row>, rollbackAt: Option<nat>, row: Row)
    requires row in Supersede(rows, rollbackAt)
    ensures exists before :: before in rows && row == Superseding(before, rollbackAt)
  {
    var i :| 0 <= i < |rows| && Supersede(rows, rollbackAt)[i] == row;
    assert rows[i] in rows;
  }

  /** The columns of a successful deploy: as given, active, and unmarked. The rows before it are as
      they were, but for the active one, which a rollback marks. */
  lemma SuccessRecords(rows: seq<Row>, next: nat, input: Input, rollbackAt: Option<nat>)
    ensures var r := AfterSuccess(rows, next, input, rollbackAt);
            && r != []
            && r[|r| - 1] == Row(next, input.revision, input.branch, input.sourceCompose, Active, input.triggeredBy, None, None, None)
            && forall row :: row in r && row != r[|r| - 1] ==>
                 exists before :: before in rows
                   && row == if before.status != Active then before
                             else before.(status := Superseded,
                                          rolledBackAt := if rollbackAt.Some? then rollbackAt else before.rolledBackAt)
  {
    var all := Succeeded(rows, next, input, rollbackAt);
    PruneLast(all);
    hide Prune, TargetId;
    forall row | row in Prune(all) && row != all[|all| - 1]
      ensures exists before :: before in rows && row == Superseding(before, rollbackAt)
    {
      PruneIn(all, row);
      hide Supersede;
      assert row in all;
      SupersedeIn(rows, rollbackAt, row);
    }
  }

  /** The columns of a failed attempt: no compose bodies. The rows before it are as they were. */
  lemma FailureRecords(rows: seq<Row>, next: nat, input: Input, reason: string)
    ensures var r := AfterFailure(rows, next, input, reason);
            && r != []
            && r[|r| - 1] == Row(next, Revision(input.revision.commitSha, input.revision.composeFileName, None), input.branch,
                                 None, Failed, input.triggeredBy, Some(reason), None, None)
            && forall row :: row in r && row != r[|r| - 1] ==> row in rows
  {
    var all := rows + [FailedRow(next, input, reason)];
    PruneLast(all);
    hide Prune, TargetId;
    forall row | row in Prune(all) && row != all[|all| - 1]
      ensures row in rows
    {
      PruneIn(all, row);
      assert row in all;
    }
  }

  /** A rollback records the restored row's content, and who asked for it. */
  lemma RollbackRecords(rows: seq<Row>, next: nat, b: Row, at: nat)
    ensures var r := RolledBack(rows, next, Some(b), at);
            r != [] && r[|r| - 1] == Row(next, b.revision, b.branch, b.sourceCompose, Active, "manual", None, None, None)
  {
    SuccessRecords(rows, next, InputOf(b), Some(at));
  }

  function RevisionOf(row: Option<Row>): Option<Revision> {
    match row
    case None => None
    case Some(r) => Some(r.revision)
  }

  // --- When the second rollback returns ---------------------------------------------

  /** No rollback moved away from the row, and its content can be restored. */
  predicate Unmarked(row: Row) {
    row.status == Superseded && row.rolledBackAt.None? && IsRestorable(row)
  }

  /** Row `k` is unmarked and of revision `c`, and every unmarked row after it is of `b` or `c`. */
  ghost predicate LeadsTo(rows: seq<Row>, k: int, b: Revision, c: Revision) {
    && 0 <= k < |rows| && Unmarked(rows[k]) && rows[k].revision == c
    && forall j :: k < j < |rows| && Unmarked(rows[j]) ==> rows[j].revision == b || rows[j].revision == c
  }

  lemma {:induction false} TargetLeads(rows: seq<Row>, b: Revision, c: Revision)
    requires b != c
    ensures RevisionOf(Target(rows, Some(b))) == Some(c) <==> exists k :: LeadsTo(rows, k, b, c)
  {
    if rows != [] {
      var n := |rows| - 1;
      var init, last := rows[..n], rows[n];
      if Unmarked(last) && last.revision == c {
        assert LeadsTo(rows, n, b, c);
      } else {
        TargetLeads(init, b, c);
        if k :| LeadsTo(init, k, b, c) && (Unmarked(last) ==> last.revision == b) {
          assert LeadsTo(rows, k, b, c);
        }
        if k :| LeadsTo(rows, k, b, c) {
          assert forall j :: 0 <= j < n ==> init[j] == rows[j];
          assert LeadsTo(init, k, b, c);
        }
      }
    }
  }

  /** In any table, let c run and b be the default target. After that rollback the next one
      returns to c exactly when an unmarked row of c is left that only unmarked rows of b and c
      are newer than: a deploy of c other than the one the rollback marked. */
  lemma SecondRollbackReturnsIff(rows: seq<Row>, next: nat, b: Row, c: Row, at: nat)
    requires WellFormed(rows, next) && ActiveRow(rows) == Some(c) && Resolve(rows) == Some(b)
    ensures RevisionOf(Resolve(RolledBack(rows, next, Some(b), at))) == Some(c.revision)
            <==> exists k :: LeadsTo(rows, k, b.revision, c.revision)
  {
    NextRollback(rows, next, b, at);
    TargetIn(rows, RunningRevision(rows));
    TargetLeads(rows, b.revision, c.revision);
  }

  // --- Going back through the table -------------------------------------------------

  /** What default rollbacks choose from. */
  function Unmarkeds(rows: seq<Row>): (unmarked: seq<Row>)
    ensures forall r :: r in unmarked ==> Unmarked(r)
  {
    if rows == [] then []
    else
      var last := rows[|rows| - 1];
      Unmarkeds(rows[..|rows| - 1]) + if Unmarked(last) then [last] else []
  }

  lemma UnmarkedsSnoc(rows: seq<Row>, row: Row)
    ensures Unmarkeds(rows + [row]) == Unmarkeds(rows) + if Unmarked(row) then [row] else []
  {
    assert (rows + [row])[..|rows|] == rows;
  }

  lemma TargetSnoc(end: seq<Row>, row: Row, running: Option<Revision>)
    ensures Target(end + [row], running) == if Candidate(row, running) then Some(row) else Target(end, running)
  {
    assert (end + [row])[..|end|] == end;
  }

  lemma {:induction false} TargetUnmarked(rows: seq<Row>, running: Option<Revision>)
    ensures Target(rows, running) == Target(Unmarkeds(rows), running)
  {
    if rows != [] {
      var init, last := rows[..|rows| - 1], rows[|rows| - 1];
      TargetUnmarked(init, running);
      hide Unmarkeds, Target;
      assert rows == init + [last];
      UnmarkedsSnoc(init, last);
      TargetSnoc(init, last, running);
      if Unmarked(last) {
        TargetSnoc(Unmarkeds(init), last, running);
      }
      assert Unmarkeds(init) + [] == Unmarkeds(init);
    }
  }

  lemma SnocParts(xs: seq<Row>, ys: seq<Row>)
    requires ys != []
    ensures var init, last := ys[..|ys| - 1], ys[|ys| - 1];
            ys == init + [last] && xs + ys == (xs + init) + [last]
  {
  }

  lemma JoinTail(xs: seq<Row>, ys: seq<Row>, zs: seq<Row>)
    ensures (xs + ys) + zs == xs + (ys + zs) && xs + [] == xs
  {
  }

  lemma {:induction false} UnmarkedsAppend(xs: seq<Row>, ys: seq<Row>)
    ensures Unmarkeds(xs + ys) == Unmarkeds(xs) + Unmarkeds(ys)
  {
    hide Unmarkeds;
    JoinTail(xs, [], []);
    if ys == [] {
      JoinTail(Unmarkeds(xs), [], []);
      NoUnmarkeds();
    } else {
      var init, last := ys[..|ys| - 1], ys[|ys| - 1];
      UnmarkedsAppend(xs, init);
      SnocParts(xs, ys);
      UnmarkedsSnoc(init, last);
      UnmarkedsSnoc(xs + init, last);
      JoinTail(Unmarkeds(xs), Unmarkeds(init), if Unmarked(last) then [last] else []);
    }
  }

  lemma NoUnmarkeds()
    ensures Unmarkeds([]) == []
  {
  }

  lemma {:induction false} UnmarkedsIn(rows: seq<Row>, row: Row)
    ensures row in Unmarkeds(rows) <==> row in rows && Unmarked(row)
  {
    if rows != [] {
      var init, last := rows[..|rows| - 1], rows[|rows| - 1];
      UnmarkedsIn(init, row);
      assert row in rows <==> row in init || row == last;
    }
  }

  lemma {:induction false} MarkedUnmarkeds(rows: seq<Row>, at: nat)
    ensures Unmarkeds(Supersede(rows, Some(at))) == Unmarkeds(rows)
  {
    if rows != [] {
      var n := |rows| - 1;
      assert Supersede(rows, Some(at))[..n] == Supersede(rows[..n], Some(at));
      MarkedUnmarkeds(rows[..n], at);
    }
  }

  /** The newest of unmarked rows, or the one before it if the newest is what runs. */
  lemma LastTwo(u: seq<Row>, running: Option<Revision>)
    requires |u| > 0 && forall r :: r in u ==> Unmarked(r)
    ensures running != Some(u[|u| - 1].revision) ==> Target(u, running) == Some(u[|u| - 1])
    ensures running == Some(u[|u| - 1].revision) && |u| > 1 && u[|u| - 2].revision != u[|u| - 1].revision ==>
              Target(u, running) == Some(u[|u| - 2])
  {
    assert u[|u| - 1] in u && (|u| > 1 ==> u[|u| - 2] in u);
  }

  /** The two newest unmarked rows and the running one differ in turn. */
  ghost predicate TwoBack(rows: seq<Row>) {
    var u := Unmarkeds(rows);
    && ActiveRow(rows).Some? && |u| >= 2
    && u[|u| - 1].revision != ActiveRow(rows).value.revision && u[|u| - 1].revision != u[|u| - 2].revision
  }

  function NewestUnmarked(rows: seq<Row>, i: nat): Row
    requires i < |Unmarkeds(rows)|
  {
    Unmarkeds(rows)[|Unmarkeds(rows)| - 1 - i]
  }

  /** In any table, whatever lies between them, two default rollbacks restore the newest and then
      the second newest unmarked row. */
  lemma RollbacksDescendTwice(rows: seq<Row>, next: nat, at: nat)
    requires TwoBack(rows)
    ensures Resolve(rows) == Some(NewestUnmarked(rows, 0))
    ensures Resolve(RolledBack(rows, next, Resolve(rows), at)) == Some(NewestUnmarked(rows, 1))
  {
    var u := Unmarkeds(rows);
    var b := u[|u| - 1];
    TargetUnmarked(rows, RunningRevision(rows));
    LastTwo(u, RunningRevision(rows));
    NextRollback(rows, next, b, at);
    TargetUnmarked(rows, Some(b.revision));
    LastTwo(u, Some(b.revision));
  }

  /** The rows a rollback leaves by age alone. */
  function Recent(rows: seq<Row>): seq<Row> {
    if |rows| < RETENTION_LIMIT then rows else rows[|rows| - (RETENTION_LIMIT - 1)..]
  }

  /** The rows after a rollback to `b`, those kept for their role first. */
  lemma RolledBackParts(rows: seq<Row>, next: nat, b: Row, at: nat) returns (older: seq<Row>)
    ensures RolledBack(rows, next, Some(b), at) == older + (Supersede(Recent(rows), Some(at)) + [NewRow(next, InputOf(b))])
    ensures forall r :: r in older ==> r.status == Active || TargetId(RolledBack(rows, next, Some(b), at)) == Some(r.id)
  {
    var all := Succeeded(rows, next, InputOf(b), Some(at));
    var k := OldRows(all);
    older := KeepProtected(all[..k], TargetId(all));
    PruneKeeps(all);
    assert all[k..] == Supersede(Recent(rows), Some(at)) + [NewRow(next, InputOf(b))];
    forall r | r in older
      ensures r.status == Active || TargetId(all) == Some(r.id)
    {
      ProtectedIff(all[..k], TargetId(all), r);
    }
  }

  lemma RecentUnmarkeds(rows: seq<Row>)
    requires Unmarkeds(rows) != []
    ensures var u, recent := Unmarkeds(rows), Unmarkeds(Recent(rows));
            recent != [] ==> recent[|recent| - 1] == u[|u| - 1]
  {
    hide Unmarkeds;
    RecentIsEnd(rows);
    UnmarkedsAppend(rows[..|rows| - |Recent(rows)|], Recent(rows));
  }

  lemma RecentIsEnd(rows: seq<Row>)
    ensures |Recent(rows)| <= |rows| && rows == rows[..|rows| - |Recent(rows)|] + Recent(rows)
  {
  }

  /** The newest unmarked row is the default target of the table two rollbacks left, so a third
      returns to it, exactly when pruning didn't take it: when it is among the newest rows. */
  lemma ThirdRollbackReturnsIff(rows: seq<Row>, next: nat, at: nat, at': nat)
    requires WellFormed(rows, next) && TwoBack(rows)
    ensures var once := RolledBack(rows, next, Resolve(rows), at);
            var twice := RolledBack(once, next + 1, Resolve(once), at');
            Resolve(twice) == Some(NewestUnmarked(rows, 0)) <==> NewestUnmarked(rows, 0) in Recent(rows)
  {
    var b, a := NewestUnmarked(rows, 0), NewestUnmarked(rows, 1);
    var once := RolledBack(rows, next, Resolve(rows), at);
    RollbacksDescendTwice(rows, next, at);
    NextRollback(once, next + 1, a, at');
    UnmarkedsDiffer(rows, next);
    UnmarkedsIn(rows, b);
    hide WellFormed, Resolve, RolledBack, TwoBack, Unmarkeds;
    if b in Recent(rows) {
      KeptTarget(rows, next, at, a, b);
    } else {
      PrunedNoTarget(rows, next, at, a, b);
    }
  }

  lemma KeptTarget(rows: seq<Row>, next: nat, at: nat, a: Row, b: Row)
    requires |Unmarkeds(rows)| > 0 && b == NewestUnmarked(rows, 0) && b in Recent(rows) && b.revision != a.revision
    ensures Target(RolledBack(rows, next, Some(b), at), Some(a.revision)) == Some(b)
  {
    var older := RolledBackParts(rows, next, b, at);
    NewerTarget(rows, next, InputOf(b), at, a, b);
    hide RolledBack, Unmarkeds, Target, Recent, Supersede;
    TargetAppend(older, Supersede(Recent(rows), Some(at)) + [NewRow(next, InputOf(b))], Some(a.revision));
  }

  lemma PrunedNoTarget(rows: seq<Row>, next: nat, at: nat, a: Row, b: Row)
    requires Unmarked(b) && b !in Recent(rows) && a.id != b.id
    requires Resolve(RolledBack(rows, next, Some(b), at)) == Some(a)
    ensures Target(RolledBack(rows, next, Some(b), at), Some(a.revision)) != Some(b)
  {
    var once := RolledBack(rows, next, Some(b), at);
    var older := RolledBackParts(rows, next, b, at);
    NotInNewer(rows, next, InputOf(b), at, b);
    TargetIn(once, Some(a.revision));
    hide RolledBack, Target, Recent, Supersede, Resolve;
    assert b !in older;
    assert b !in once;
  }

  lemma UnmarkedsDiffer(rows: seq<Row>, next: nat)
    requires WellFormed(rows, next) && |Unmarkeds(rows)| >= 2
    ensures NewestUnmarked(rows, 0).id != NewestUnmarked(rows, 1).id
  {
    UnmarkedsAscending(rows);
  }

  lemma {:induction false} UnmarkedsAscending(rows: seq<Row>)
    requires Ascending(rows)
    ensures Ascending(Unmarkeds(rows))
  {
    if rows != [] {
      var init, last := rows[..|rows| - 1], rows[|rows| - 1];
      UnmarkedsAscending(init);
      forall r | r in Unmarkeds(init)
        ensures r in init
      {
        UnmarkedsIn(init, r);
      }
      AscendingEnds(init, last, Unmarkeds(init));
    }
  }

  lemma NewerTarget(rows: seq<Row>, next: nat, input: Input, at: nat, a: Row, b: Row)
    requires |Unmarkeds(rows)| > 0 && b == NewestUnmarked(rows, 0) && b in Recent(rows) && b.revision != a.revision
    ensures Target(Supersede(Recent(rows), Some(at)) + [NewRow(next, input)], Some(a.revision)) == Some(b)
  {
    var recent := Recent(rows);
    hide Recent, Supersede, Target, Unmarkeds;
    UnmarkedsIn(rows, b);
    UnmarkedsIn(recent, b);
    RecentUnmarkeds(rows);
    TargetSnoc(Supersede(recent, Some(at)), NewRow(next, input), Some(a.revision));
    MarkedTarget(recent, at, Some(a.revision));
    TargetUnmarked(recent, Some(a.revision));
    LastTwo(Unmarkeds(recent), Some(a.revision));
  }

  lemma NotInNewer(rows: seq<Row>, next: nat, input: Input, at: nat, b: Row)
    requires Unmarked(b) && b !in Recent(rows)
    ensures b !in Supersede(Recent(rows), Some(at)) + [NewRow(next, input)]
  {
  }

  // --- The same over runs -----------------------------------------------------------

  /** The table's newest rows, oldest first. */
  ghost predicate EndsWith(rows: seq<Row>, end: seq<Row>) {
    |end| <= |rows| && rows[|rows| - |end|..] == end
  }

  lemma NewEnds(rows: seq<Row>, end: seq<Row>, row: Row)
    requires EndsWith(rows, end) && |end| < RETENTION_LIMIT
    ensures EndsWith(Prune(rows + [row]), end + [row])
  {
    var all, end' := rows + [row], end + [row];
    assert all[|all| - |end'|..] == end';
    var k := OldRows(all);
    hide KeepProtected, TargetId;
    var kept := KeepProtected(all[..k], TargetId(all));
    assert (kept + all[k..])[|kept + all[k..]| - |end'|..] == all[|all| - |end'|..];
  }

  lemma SupersededEnds(rows: seq<Row>, end: seq<Row>, at: Option<nat>)
    requires EndsWith(rows, end)
    ensures EndsWith(Supersede(rows, at), Supersede(end, at))
  {
    var newest := Supersede(rows, at)[|rows| - |end|..];
    forall i | 0 <= i < |end|
      ensures newest[i] == Supersede(end, at)[i]
    {
      assert end[i] == rows[|rows| - |end|..][i];
    }
  }

  /** Deploys of fully recorded revisions, and failed attempts. */
  ghost predicate Attempts(events: seq<Event>) {
    forall i :: 0 <= i < |events| ==> events[i].Fail? || (events[i].Deploy? && Recorded(events[i].input.revision))
  }

  function Deploys(events: seq<Event>): seq<Input> {
    if events == [] then []
    else
      var last := events[|events| - 1];
      Deploys(events[..|events| - 1]) + if last.Deploy? then [last.input] else []
  }

  /** The rows those attempts leave, the first with id `n + 1`. */
  function RowsFrom(n: nat, events: seq<Event>): (rows: seq<Row>)
    ensures |rows| == |events|
  {
    if events == [] then []
    else
      var init, last := RowsFrom(n, events[..|events| - 1]), events[|events| - 1];
      match last
      case Deploy(input) => Supersede(init, None) + [NewRow(n + |events|, input)]
      case Fail(input, reason) => init + [FailedRow(n + |events|, input, reason)]
      case _ => init + [NewRow(n + |events|, Input(Revision(None, None, None), None, None, ""))]
  }

  lemma DeployEnds(events: seq<Event>, end: seq<Row>, input: Input)
    requires EndsWith(TableAfter(events), end) && |end| < RETENTION_LIMIT
    ensures EndsWith(TableAfter(events + [Deploy(input)]), Supersede(end, None) + [NewRow(|events| + 1, input)])
  {
    hide EndsWith, TableAfter, Supersede, Prune;
    TableSnoc(events, Deploy(input));
    SupersededEnds(TableAfter(events), end, None);
    NewEnds(Supersede(TableAfter(events), None), Supersede(end, None), NewRow(|events| + 1, input));
  }

  lemma FailEnds(events: seq<Event>, end: seq<Row>, input: Input, reason: string)
    requires EndsWith(TableAfter(events), end) && |end| < RETENTION_LIMIT
    ensures EndsWith(TableAfter(events + [Fail(input, reason)]), end + [FailedRow(|events| + 1, input, reason)])
  {
    hide EndsWith, TableAfter, Prune;
    TableSnoc(events, Fail(input, reason));
    NewEnds(TableAfter(events), end, FailedRow(|events| + 1, input, reason));
  }

  lemma SplitLastEvent(before: seq<Event>, tail: seq<Event>)
    requires tail != []
    ensures before + tail == (before + tail[..|tail| - 1]) + [tail[|tail| - 1]]
  {
  }

  lemma {:induction false} AttemptsEnd(before: seq<Event>, tail: seq<Event>)
    requires Attempts(tail) && |tail| <= RETENTION_LIMIT
    ensures EndsWith(TableAfter(before + tail), RowsFrom(|before|, tail))
  {
    if tail == [] {
      hide TableAfter;
    } else {
      var init, last := tail[..|tail| - 1], tail[|tail| - 1];
      AttemptsEnd(before, init);
      SplitLastEvent(before, tail);
      hide TableAfter, EndsWith, Supersede;
      if last.Deploy? {
        DeployEnds(before + init, RowsFrom(|before|, init), last.input);
      } else {
        FailEnds(before + init, RowsFrom(|before|, init), last.input, last.reason);
      }
    }
  }

  lemma SupersedeSnoc(end: seq<Row>, row: Row, at: Option<nat>)
    ensures Supersede(end + [row], at) == Supersede(end, at) + [Superseding(row, at)]
  {
  }

  lemma SupersedeTwice(rows: seq<Row>)
    ensures Supersede(Supersede(rows, None), None) == Supersede(rows, None)
  {
  }

  lemma {:induction false} SupersededActive(rows: seq<Row>)
    ensures ActiveRow(Supersede(rows, None)) == None
  {
    SupersededNoneActive(rows, None);
    NoneActive(Supersede(rows, None));
  }

  lemma ActiveSnoc(rows: seq<Row>, row: Row)
    ensures ActiveRow(rows + [row]) == if row.status == Active then Some(row) else ActiveRow(rows)
  {
    assert (rows + [row])[..|rows|] == rows;
  }

  /** Superseded, the rows of the deploys are the unmarked ones. */
  function Older(rows: seq<Row>): seq<Row> {
    Unmarkeds(Supersede(rows, None))
  }

  lemma OlderDeployed(rows: seq<Row>, id: nat, input: Input)
    requires Recorded(input.revision)
    ensures var rows' := Supersede(rows, None) + [NewRow(id, input)];
            && Older(rows') == Older(rows) + [NewRow(id, input).(status := Superseded)]
            && Unmarkeds(rows') == Older(rows)
            && ActiveRow(rows') == Some(NewRow(id, input))
  {
    var row := NewRow(id, input);
    var done := Supersede(rows, None);
    SupersedeSnoc(done, row, None);
    SupersedeTwice(rows);
    hide Supersede, Unmarkeds;
    UnmarkedsSnoc(done, row);
    UnmarkedsSnoc(done, row.(status := Superseded));
    assert Unmarkeds(done) + [] == Unmarkeds(done);
    ActiveSnoc(done, row);
  }

  lemma OlderFailed(rows: seq<Row>, row: Row)
    requires row.status == Failed
    ensures Older(rows + [row]) == Older(rows) && Unmarkeds(rows + [row]) == Unmarkeds(rows)
    ensures ActiveRow(rows + [row]) == ActiveRow(rows)
  {
    SupersedeSnoc(rows, row, None);
    ActiveSnoc(rows, row);
    UnmarkedsSnoc(rows, row);
    UnmarkedsSnoc(Supersede(rows, None), row);
    assert Unmarkeds(rows) + [] == Unmarkeds(rows);
    assert Older(rows) + [] == Older(rows);
  }

  ghost predicate SameRevisions(rows: seq<Row>, inputs: seq<Input>) {
    |rows| == |inputs| && forall i :: 0 <= i < |rows| ==> rows[i].revision == inputs[i].revision
  }

  lemma DeploysSnoc(events: seq<Event>, e: Event)
    ensures Deploys(events + [e]) == Deploys(events) + if e.Deploy? then [e.input] else []
  {
    assert (events + [e])[..|events|] == events;
  }

  /** The rows hold those deploys: the last one runs, the others are unmarked. */
  ghost predicate Holds(rows: seq<Row>, deploys: seq<Input>) {
    && SameRevisions(Older(rows), deploys)
    && (deploys != [] ==>
          && SameRevisions(Unmarkeds(rows), deploys[..|deploys| - 1])
          && RevisionOf(ActiveRow(rows)) == Some(deploys[|deploys| - 1].revision))
  }

  lemma HoldsDeployed(rows: seq<Row>, deploys: seq<Input>, id: nat, input: Input)
    requires Holds(rows, deploys) && Recorded(input.revision)
    ensures Holds(Supersede(rows, None) + [NewRow(id, input)], deploys + [input])
  {
    OlderDeployed(rows, id, input);
    assert (deploys + [input])[..|deploys|] == deploys;
    hide Older, Unmarkeds, ActiveRow, Supersede;
  }

  lemma HoldsFailed(rows: seq<Row>, deploys: seq<Input>, row: Row)
    requires Holds(rows, deploys) && row.status == Failed
    ensures Holds(rows + [row], deploys + [])
  {
    OlderFailed(rows, row);
    assert deploys + [] == deploys;
    hide Older, Unmarkeds, ActiveRow, Supersede;
  }

  lemma {:induction false} AttemptsHold(n: nat, tail: seq<Event>)
    requires Attempts(tail)
    ensures Holds(RowsFrom(n, tail), Deploys(tail))
  {
    if tail != [] {
      var init, last := tail[..|tail| - 1], tail[|tail| - 1];
      AttemptsHold(n, init);
      var rows, deploys := RowsFrom(n, init), Deploys(init);
      hide Holds, Supersede;
      if last.Deploy? {
        HoldsDeployed(rows, deploys, n + |tail|, last.input);
      } else {
        HoldsFailed(rows, deploys, FailedRow(n + |tail|, last.input, last.reason));
      }
    }
  }

  lemma UnmarkedEnds(rows: seq<Row>, end: seq<Row>)
    requires EndsWith(rows, end)
    ensures EndsWith(Unmarkeds(rows), Unmarkeds(end))
    ensures ActiveRow(end).Some? ==> ActiveRow(rows) == ActiveRow(end)
  {
    var older := rows[..|rows| - |end|];
    assert rows == older + end;
    hide Unmarkeds, ActiveRow;
    ActiveAppend(older, end);
    UnmarkedsAppend(older, end);
  }

  /** After a tail of attempts the newest unmarked rows are those of its deploys but the last,
      which runs. */
  lemma AttemptsUnmarkedIn(before: seq<Event>, tail: seq<Event>)
    requires Attempts(tail) && |tail| <= RETENTION_LIMIT && Deploys(tail) != []
    ensures var rows, deploys := TableAfter(before + tail), Deploys(tail);
            && RevisionOf(ActiveRow(rows)) == Some(deploys[|deploys| - 1].revision)
            && EndsWith(Unmarkeds(rows), Unmarkeds(RowsFrom(|before|, tail)))
            && SameRevisions(Unmarkeds(RowsFrom(|before|, tail)), deploys[..|deploys| - 1])
  {
    var rows, end := TableAfter(before + tail), RowsFrom(|before|, tail);
    AttemptsEnd(before, tail);
    AttemptsHold(|before|, tail);
    hide TableAfter, RowsFrom, Older, Unmarkeds, Deploys, ActiveRow, EndsWith, SameRevisions;
    UnmarkedEnds(rows, end);
  }

  lemma RollbackRuns(events: seq<Event>, at: nat)
    requires Resolve(TableAfter(events)).Some?
    ensures RevisionOf(ActiveRow(TableAfter(events + [Rollback(at)]))) == RevisionOf(Resolve(TableAfter(events)))
    ensures TableAfter(events + [Rollback(at)]) == RolledBack(TableAfter(events), |events| + 1, Resolve(TableAfter(events)), at)
  {
    TableSnoc(events, Rollback(at));
    HistoryWellFormed(events);
    hide TableAfter, Resolve, WellFormed;
    SuccessWellFormed(TableAfter(events), |events| + 1, InputOf(Resolve(TableAfter(events)).value), Some(at), |events| + 1);
  }

  /** A picked rollback of a run restores the picked row, if it can be restored. */
  lemma PickedRollbackRuns(events: seq<Event>, id: nat, at: nat)
    ensures var rows, after := TableAfter(events), TableAfter(events + [RollbackTo(id, at)]);
            if Picked(rows, id).Some? then RevisionOf(ActiveRow(after)) == Some(Picked(rows, id).value.revision)
            else after == rows
  {
    TableSnoc(events, RollbackTo(id, at));
    HistoryWellFormed(events);
    hide TableAfter, Picked, WellFormed;
    var rows := TableAfter(events);
    if Picked(rows, id).Some? {
      SuccessWellFormed(rows, |events| + 1, InputOf(Picked(rows, id).value), Some(at), |events| + 1);
    }
  }

  /** The same after any history that leaves such a table. */
  lemma HistoryDescends(events: seq<Event>, at: nat, at': nat)
    requires TwoBack(TableAfter(events))
    ensures var rows := TableAfter(events);
            && RevisionOf(ActiveRow(TableAfter(events + [Rollback(at)]))) == Some(NewestUnmarked(rows, 0).revision)
            && RevisionOf(ActiveRow(TableAfter(events + [Rollback(at)] + [Rollback(at')]))) == Some(NewestUnmarked(rows, 1).revision)
            && (Resolve(TableAfter(events + [Rollback(at)] + [Rollback(at')])) == Some(NewestUnmarked(rows, 0))
                <==> NewestUnmarked(rows, 0) in Recent(rows))
  {
    var rows := TableAfter(events);
    HistoryWellFormed(events);
    RollbacksDescendTwice(rows, |events| + 1, at);
    ThirdRollbackReturnsIff(rows, |events| + 1, at, at');
    hide TableAfter, Resolve, WellFormed, RolledBack, ActiveRow, NewestUnmarked, TwoBack, Recent, Unmarkeds, AfterEvent;
    RollbackRuns(events, at);
    RollbackRuns(events + [Rollback(at)], at');
  }

  /** After any history, let there be fewer than 20 attempts, failed ones among them, the last
      three deploys of a, b and c, each unlike the one before. Two default rollbacks run b and then
      a; the third would return to b, although a rollback moved away from b: only the copy the
      first rollback made of it is marked. */
  lemma RollbacksDescendTwiceThenReturn(before: seq<Event>, tail: seq<Event>, at: nat, at': nat)
    requires Attempts(tail) && |tail| < RETENTION_LIMIT && |Deploys(tail)| >= 3
    requires var d := Deploys(tail);
             d[|d| - 1].revision != d[|d| - 2].revision && d[|d| - 2].revision != d[|d| - 3].revision
    ensures var d, run := Deploys(tail), before + tail;
            && RevisionOf(ActiveRow(TableAfter(run))) == Some(d[|d| - 1].revision)
            && RevisionOf(ActiveRow(TableAfter(run + [Rollback(at)]))) == Some(d[|d| - 2].revision)
            && RevisionOf(ActiveRow(TableAfter(run + [Rollback(at)] + [Rollback(at')]))) == Some(d[|d| - 3].revision)
            && RevisionOf(Resolve(TableAfter(run + [Rollback(at)] + [Rollback(at')]))) == Some(d[|d| - 2].revision)
  {
    hide TableAfter, Resolve, ActiveRow, Unmarkeds, NewestUnmarked, TwoBack, EndsWith, SameRevisions, RowsFrom, Deploys, Recent;
    AttemptsUnmarkedIn(before, tail);
    AttemptsEnd(before, tail);
    TailTwoBack(TableAfter(before + tail), RowsFrom(|before|, tail), Deploys(tail));
    HistoryDescends(before + tail, at, at');
  }

  lemma TailRevisions(v: seq<Row>, d: seq<Input>)
    requires |d| >= 3 && SameRevisions(v, d[..|d| - 1])
    ensures |v| >= 2 && v[|v| - 1].revision == d[|d| - 2].revision && v[|v| - 2].revision == d[|d| - 3].revision
  {
  }

  lemma TailTwoBack(rows: seq<Row>, end: seq<Row>, d: seq<Input>)
    requires EndsWith(rows, end) && |end| < RETENTION_LIMIT
    requires |d| >= 3 && d[|d| - 1].revision != d[|d| - 2].revision && d[|d| - 2].revision != d[|d| - 3].revision
    requires RevisionOf(ActiveRow(rows)) == Some(d[|d| - 1].revision)
    requires EndsWith(Unmarkeds(rows), Unmarkeds(end)) && SameRevisions(Unmarkeds(end), d[..|d| - 1])
    ensures TwoBack(rows)
    ensures NewestUnmarked(rows, 0).revision == d[|d| - 2].revision && NewestUnmarked(rows, 1).revision == d[|d| - 3].revision
    ensures NewestUnmarked(rows, 0) in Recent(rows)
  {
    hide Unmarkeds, ActiveRow, EndsWith, SameRevisions, Recent;
    var v := Unmarkeds(end);
    TailRevisions(v, d);
    EndAt(Unmarkeds(rows), v, 0);
    EndAt(Unmarkeds(rows), v, 1);
    UnmarkedsIn(end, v[|v| - 1]);
    EndIsRecent(rows, end, v[|v| - 1]);
  }

  lemma EndAt(rows: seq<Row>, end: seq<Row>, i: nat)
    requires EndsWith(rows, end) && i < |end|
    ensures i < |rows| && rows[|rows| - 1 - i] == end[|end| - 1 - i]
  {
    assert rows[|rows| - |end|..][|end| - 1 - i] == rows[|rows| - 1 - i];
  }

  lemma EndIsRecent(rows: seq<Row>, end: seq<Row>, row: Row)
    requires EndsWith(rows, end) && |end| < RETENTION_LIMIT && row in end
    ensures row in Recent(rows)
  {
    var i :| 0 <= i < |end| && end[i] == row;
    EndAt(rows, end, |end| - 1 - i);
    var recent := Recent(rows);
    assert recent[|recent| - |end| + i] == rows[|rows| - |end| + i];
  }

  /** Redeploying the running revision makes the second rollback return: after deploys of a, b, c
      and c again it goes to c, which the first one left. */
  lemma RedeployReturns(before: seq<Event>, a: Input, b: Input, c: Input, at: nat)
    requires Recorded(a.revision) && Recorded(b.revision) && Recorded(c.revision)
    requires a.revision != b.revision && b.revision != c.revision
    ensures var run := before + [Deploy(a), Deploy(b), Deploy(c), Deploy(c)];
            && RevisionOf(ActiveRow(TableAfter(run))) == Some(c.revision)
            && RevisionOf(Resolve(TableAfter(run))) == Some(b.revision)
            && RevisionOf(Resolve(TableAfter(run + [Rollback(at)]))) == Some(c.revision)
  {
    var tail := [Deploy(a), Deploy(b), Deploy(c), Deploy(c)];
    hide TableAfter, Unmarkeds, RowsFrom, Target, ActiveRow, Deploys, EndsWith, SameRevisions;
    DeploysOfFour(a, b, c, c);
    AttemptsUnmarkedIn(before, tail);
    var rows := TableAfter(before + tail);
    RedeployTargets(rows, RowsFrom(|before|, tail), [a, b, c, c]);
    RollbackRuns(before + tail, at);
    NextRollback(rows, |before + tail| + 1, Resolve(rows).value, at);
  }

  lemma RedeployTargets(rows: seq<Row>, end: seq<Row>, d: seq<Input>)
    requires |d| >= 3 && d[|d| - 1].revision == d[|d| - 2].revision != d[|d| - 3].revision
    requires EndsWith(Unmarkeds(rows), Unmarkeds(end)) && SameRevisions(Unmarkeds(end), d[..|d| - 1])
    ensures RevisionOf(Target(rows, Some(d[|d| - 2].revision))) == Some(d[|d| - 3].revision)
    ensures RevisionOf(Target(rows, Some(d[|d| - 3].revision))) == Some(d[|d| - 2].revision)
  {
    hide Unmarkeds, Target, EndsWith, SameRevisions;
    var u, v := Unmarkeds(rows), Unmarkeds(end);
    TailRevisions(v, d);
    EndAt(u, v, 0);
    EndAt(u, v, 1);
    TargetUnmarked(rows, Some(d[|d| - 2].revision));
    TargetUnmarked(rows, Some(d[|d| - 3].revision));
    LastTwo(u, Some(d[|d| - 2].revision));
    LastTwo(u, Some(d[|d| - 3].revision));
  }

  lemma DeploysOfFour(a: Input, b: Input, c: Input, d: Input)
    ensures Deploys([Deploy(a), Deploy(b), Deploy(c), Deploy(d)]) == [a, b, c, d]
    ensures Deploys([Deploy(a), Deploy(b), Deploy(c)]) == [a, b, c]
  {
    assert Deploys([]) == [];
    hide Deploys;
    var e1, e2, e3 := [Deploy(a)], [Deploy(a), Deploy(b)], [Deploy(a), Deploy(b), Deploy(c)];
    assert [] + [Deploy(a)] == e1 && e1 + [Deploy(b)] == e2 && e2 + [Deploy(c)] == e3;
    assert e3 + [Deploy(d)] == [Deploy(a), Deploy(b), Deploy(c), Deploy(d)];
    DeploysSnoc([], Deploy(a));
    DeploysSnoc(e1, Deploy(b));
    DeploysSnoc(e2, Deploy(c));
    DeploysSnoc(e3, Deploy(d));
  }

  /** So does going back and forth: after a, b and a again it returns to a. */
  lemma RedeployOlderReturns(before: seq<Event>, a: Input, b: Input, at: nat)
    requires Recorded(a.revision) && Recorded(b.revision) && a.revision != b.revision
    ensures var run := before + [Deploy(a), Deploy(b), Deploy(a)];
            && RevisionOf(ActiveRow(TableAfter(run))) == Some(a.revision)
            && RevisionOf(ActiveRow(TableAfter(run + [Rollback(at)]))) == Some(b.revision)
            && RevisionOf(ActiveRow(TableAfter(run + [Rollback(at)] + [Rollback(at)]))) == Some(a.revision)
  {
    hide TableAfter, ActiveRow, Resolve;
    DeploysOfFour(a, b, a, a);
    RollbacksDescendTwiceThenReturn(before, [Deploy(a), Deploy(b), Deploy(a)], at, at);
  }

  // --- The table --------------------------------------------------------------------

  function RowsOf(tables: map<int, seq<Row>>, project: int): seq<Row> {
    if project in tables then tables[project] else []
  }

  ghost predicate TableOk(rows: seq<Row>, next: nat) {
    WellFormed(rows, next) && |rows| <= RETENTION_LIMIT + 2
  }

  ghost predicate TablesOk(tables: map<int, seq<Row>>, next: nat) {
    forall p :: p in tables ==> TableOk(tables[p], next)
  }

  lemma RowsOfOk(tables: map<int, seq<Row>>, project: int, next: nat)
    requires TablesOk(tables, next)
    ensures TableOk(RowsOf(tables, project), next)
  {
  }

  lemma TablesUpdate(tables: map<int, seq<Row>>, project: int, rows: seq<Row>, next: nat)
    requires TablesOk(tables, next) && TableOk(rows, next + 1)
    ensures TablesOk(tables[project := rows], next + 1)
  {
    forall p | p in tables
      ensures TableOk(tables[p], next + 1)
    {
      assert TableOk(tables[p], next);
    }
  }

  /** `project_deployments`: each project's rows, and the id counter they share. */
  class DeploymentTable {
    var tables: map<int, seq<Row>>
    var nextId: nat

    ghost predicate Valid()
      reads this
    {
      TablesOk(tables, nextId)
    }

    constructor ()
      ensures Valid() && tables == map[]
    {
      tables, nextId := map[], 1;
    }

    /** `rollbackAt` is set when a rollback moves away from the running revision. */
    method RecordSuccessfulDeployment(project: int, input: Input, rollbackAt: Option<nat>)
      requires Valid()
      modifies this
      ensures Valid()
      ensures var rows := if project in old(tables) then old(tables)[project] else [];
              tables == old(tables)[project := AfterSuccess(rows, old(nextId), input, rollbackAt)]
      ensures nextId == old(nextId) + 1
    {
      hide WellFormed, Prune, Succeeded, ActiveRow, NewRow;
      var rows := RowsOf(tables, project);
      RowsOfOk(tables, project, nextId);
      SuccessWellFormed(rows, nextId, input, rollbackAt, nextId);
      TablesUpdate(tables, project, AfterSuccess(rows, nextId, input, rollbackAt), nextId);
      hide TablesOk, TableOk;
      rows := Succeeded(rows, nextId, input, rollbackAt);
      rows := Prune(rows);
      tables, nextId := tables[project := rows], nextId + 1;
    }

    method RecordFailedDeployment(project: int, input: Input, reason: string) returns (id: nat)
      requires Valid()
      modifies this
      ensures Valid()
      ensures id == old(nextId) && nextId == id + 1
      ensures var rows := if project in old(tables) then old(tables)[project] else [];
              tables == old(tables)[project := AfterFailure(rows, id, input, reason)]
    {
      hide WellFormed, Prune, FailedRow;
      var rows := RowsOf(tables, project);
      id := nextId;
      RowsOfOk(tables, project, nextId);
      FailureWellFormed(rows, id, input, reason, id);
      TablesUpdate(tables, project, AfterFailure(rows, id, input, reason), id);
      hide TablesOk, TableOk;
      rows := rows + [FailedRow(id, input, reason)];
      rows := Prune(rows);
      tables, nextId := tables[project := rows], nextId + 1;
    }
  }
}
