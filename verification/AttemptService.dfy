// The attempt service object (internal/attempt/service.go, internal/attempt/runners.go):
// the attempts table and the routing map, updated in place. `run` is the run of
// AttemptRuns the object has gone through so far; every method extends it by the steps
// it takes, so all that holds in every run holds of the object.

module AttemptService {
  import opened Wrappers
  import opened Lifecycle
  import opened AttemptRuns
  import opened Lists
  import Schedule

  datatype Record = Record(user: string, lab: Lab, runner: RunnerName, row: Row)

  datatype ReserveError =
    | ErrActiveAttempt
    | ErrNoRunner
    | ErrRunnerBusy(active: nat, max: int, runners: seq<Schedule.Load>)

  datatype EndError = ErrNotFound | ErrTerminal | ErrUnexpectedStatus

  function TotalActive(loads: seq<Schedule.Load>): nat {
    if loads == [] then 0 else TotalActive(loads[..|loads| - 1]) + loads[|loads| - 1].active
  }

  function TotalCapacity(loads: seq<Schedule.Load>): int {
    if loads == [] then 0 else TotalCapacity(loads[..|loads| - 1]) + loads[|loads| - 1].capacity
  }

  method BusyOf(loads: seq<Schedule.Load>) returns (busy: ReserveError)
    ensures busy == ErrRunnerBusy(TotalActive(loads), TotalCapacity(loads), loads)
  {
    var active, max := 0, 0;
    for i := 0 to |loads|
      invariant active == TotalActive(loads[..i]) && max == TotalCapacity(loads[..i])
    {
      assert loads[..i + 1][..i] == loads[..i];
      active, max := active + loads[i].active, max + loads[i].capacity;
    }
    assert loads[..|loads|] == loads;
    return ErrRunnerBusy(active, max, loads);
  }

  // The rows and routing entries are those of the attempts.
  ghost predicate Mirrors(rows: map<AttemptId, Record>, sandboxes: map<AttemptId, RunnerName>, attempts: map<AttemptId, Attempt>) {
    && (forall id :: id in rows <==> id in attempts && attempts[id].row.Some?)
    && (forall id | id in rows :: rows[id] == RecordOf(attempts[id]))
    && (forall id :: id in sandboxes <==> id in attempts && attempts[id].route.Some?)
    && (forall id | id in sandboxes :: sandboxes[id] == attempts[id].route.value)
  }

  function RecordOf(a: Attempt): Record
    requires a.row.Some?
  {
    Record(a.user, a.lab, a.runner, a.row.value)
  }

  // One attempt changed, and its row and its routing entry with it.
  lemma MirrorsOne(rows: map<AttemptId, Record>, sandboxes: map<AttemptId, RunnerName>, attempts: map<AttemptId, Attempt>,
                   rows': map<AttemptId, Record>, sandboxes': map<AttemptId, RunnerName>, id: AttemptId, a: Attempt)
    requires Mirrors(rows, sandboxes, attempts)
    requires rows' - {id} == rows - {id} && sandboxes' - {id} == sandboxes - {id}
    requires if a.row.Some? then id in rows' && rows'[id] == RecordOf(a) else id !in rows'
    requires if a.route.Some? then id in sandboxes' && sandboxes'[id] == a.route.value else id !in sandboxes'
    ensures Mirrors(rows', sandboxes', attempts[id := a])
  {
    SameElsewhere(rows, rows', id);
    SameElsewhere(sandboxes, sandboxes', id);
  }

  lemma SameElsewhere<K, V>(m: map<K, V>, m': map<K, V>, k: K)
    requires m' - {k} == m - {k}
    ensures forall x | x != k :: x in m' <==> x in m
    ensures forall x | x != k && x in m :: m'[x] == m[x]
  {
    forall x | x != k
      ensures x in m' <==> x in m
      ensures x in m ==> m'[x] == m[x]
    {
      assert x in m' <==> x in m' - {k};
      assert x in m <==> x in m - {k};
    }
  }

  // A record is as much of the attempt as the table holds.
  lemma MirrorsAt(rows: map<AttemptId, Record>, sandboxes: map<AttemptId, RunnerName>, attempts: map<AttemptId, Attempt>, id: AttemptId)
    requires Mirrors(rows, sandboxes, attempts) && id in attempts
    ensures id in rows <==> attempts[id].row.Some?
    ensures id in rows ==> rows[id] == RecordOf(attempts[id])
    ensures id in sandboxes <==> attempts[id].route.Some?
    ensures id in sandboxes ==> sandboxes[id] == attempts[id].route.value
  {
  }

  lemma DropSteps(cfg: Config, w: World, id: AttemptId)
    requires AttemptRuns.Enabled(cfg, w, Act(id, MarkLeaving))
    ensures var marked := AttemptRuns.After(cfg, w, Act(id, MarkLeaving));
            && AttemptRuns.Enabled(cfg, marked, Act(id, LeaveDisconnected))
            && AttemptRuns.After(cfg, marked, Act(id, LeaveDisconnected))
               == w.(attempts := w.attempts[id := EndedByDrop(w.attempts[id])])
  {
  }

  lemma DropFails(a: Attempt)
    requires Active(a)
    ensures var a' := EndedByDrop(a);
            a'.route == a.route && a'.row.Some? && RecordOf(a') == RecordOf(a).(row := a.row.value.(status := Failed))
  {
  }

  lemma ReseedStores(a: Attempt, resolve: Resolver, stored: bool, resolved: Resolved)
    requires a.worker.Reseeding? && resolve(a.lab.id, (a.worker.seed + 1) % SEED_LIMIT) == Some(resolved)
    ensures var a' := AfterReseed(a, resolve, stored);
            && a' == a.(worker := a'.worker, row := a'.row)
            && a'.row == if stored && a.row.Some? then Some(a.row.value.(seed := (a.worker.seed + 1) % SEED_LIMIT, resolved := resolved)) else a.row
  {
  }

  lemma MirrorsSevered(rows: map<AttemptId, Record>, sandboxes: map<AttemptId, RunnerName>, attempts: map<AttemptId, Attempt>, name: RunnerName)
    requires Mirrors(rows, sandboxes, attempts)
    ensures Mirrors(rows, sandboxes, WithoutRunner(attempts, name))
    ensures ActiveOn(WithoutRunner(attempts, name), name) == ActiveOn(attempts, name)
  {
  }

  lemma RunGrows(cfg: Config, run: seq<World>, e: Event)
    requires IsRun(cfg, run) && AttemptRuns.Enabled(cfg, run[|run| - 1], e)
    ensures IsRun(cfg, run + [AttemptRuns.After(cfg, run[|run| - 1], e)])
  {
    var longer := run + [AttemptRuns.After(cfg, run[|run| - 1], e)];
    forall i | 0 <= i < |longer| - 1
      ensures StepAt(cfg, longer, i)
    {
      if i < |run| - 1 {
        assert StepAt(cfg, run, i);
      } else {
        assert Step(cfg, longer[i], longer[i + 1]);
      }
    }
  }

  // Who destroys: the worker before a retry or a failure, the worker of a promotion come
  // too late, or the goroutine of an ending.
  datatype By = ForRetry | ForDrop | ForEnding

  function DestroyOf(who: By, works: bool): Action {
    match who
    case ForRetry => WorkerDestroy(works)
    case ForDrop => DropDestroy(works)
    case ForEnding => AsyncDestroy(works)
  }

  function UnrouteOf(who: By): Action {
    match who
    case ForRetry => WorkerUnroute
    case ForDrop => DropUnroute
    case ForEnding => AsyncUnroute
  }

  predicate IsNoted(a: Attempt, resolve: Resolver, x: Action) {
    || x.Provision? || x.PrecheckPass? || x.PrecheckFail? || x.PrecheckError?
    || (x.Reseed? && a.worker.Reseeding? && resolve(a.lab.id, (a.worker.seed + 1) % SEED_LIMIT).None?)
  }

  lemma NoteLeaves(a: Attempt, resolve: Resolver, connected: set<RunnerName>, x: Action)
    requires Lifecycle.Enabled(a, x) && IsNoted(a, resolve, x)
    ensures var a' := Lifecycle.After(a, resolve, connected, x); a' == a.(worker := a'.worker, live := a'.live)
  {
  }

  lemma DestroyLeaves(a: Attempt, resolve: Resolver, connected: set<RunnerName>, who: By, works: bool)
    requires Lifecycle.Enabled(a, DestroyOf(who, works))
    ensures var a' := Lifecycle.After(a, resolve, connected, DestroyOf(who, works));
            && a' == a.(worker := a'.worker, async := a'.async, live := a'.live, failedDestroy := a'.failedDestroy)
            && Lifecycle.Enabled(a', UnrouteOf(who))
  {
    match who
    case ForRetry =>
    case ForDrop =>
    case ForEnding =>
  }

  class Service {
    ghost const cfg: Config
    var rows: map<AttemptId, Record>
    var sandboxes: map<AttemptId, RunnerName>
    ghost var run: seq<World>

    ghost function Now(): World
      reads this`run
      requires run != []
    {
      run[|run| - 1]
    }

    ghost predicate Valid()
      reads this
    {
      IsRun(cfg, run) && Mirrors(rows, sandboxes, Now().attempts)
    }

    // The one step taken since the state before.
    twostate predicate Took(e: Event)
      reads this
      requires old(run) != []
    {
      AttemptRuns.Enabled(cfg, old(Now()), e) && run == old(run) + [AttemptRuns.After(cfg, old(Now()), e)]
    }

    constructor (ghost cfg: Config)
      ensures Valid() && this.cfg == cfg && run == [EMPTY_WORLD]
    {
      this.cfg := cfg;
      rows, sandboxes, run := map[], map[], [EMPTY_WORLD];
    }

    ghost method Take(e: Event)
      requires IsRun(cfg, run) && AttemptRuns.Enabled(cfg, Now(), e)
      modifies this`run
      ensures IsRun(cfg, run) && Took(e)
    {
      RunGrows(cfg, run, e);
      run := run + [AttemptRuns.After(cfg, Now(), e)];
    }

    // Found by the listing and ended at once.
    ghost method TakeDrop(id: AttemptId)
      requires IsRun(cfg, run) && AttemptRuns.Enabled(cfg, Now(), Act(id, MarkLeaving))
      modifies this`run
      ensures IsRun(cfg, run) && old(run) <= run
      ensures Now() == old(Now()).(attempts := old(Now()).attempts[id := EndedByDrop(old(Now()).attempts[id])])
    {
      DropSteps(cfg, Now(), id);
      Take(Act(id, MarkLeaving));
      Take(Act(id, LeaveDisconnected));
    }

    // What the provider and the precheck do shows in no row and no routing entry; nor
    // does a seed for which the lab does not resolve.
    ghost method Note(id: AttemptId, x: Action)
      requires Valid() && AttemptRuns.Enabled(cfg, Now(), Act(id, x))
      requires IsNoted(Now().attempts[id], cfg.resolve, x)
      modifies this`run
      ensures Valid() && Took(Act(id, x))
    {
      MirrorsAt(rows, sandboxes, Now().attempts, id);
      NoteLeaves(Now().attempts[id], cfg.resolve, Now().connected, x);
      Take(Act(id, x));
      MirrorsOne(rows, sandboxes, old(Now()).attempts, rows, sandboxes, id, Now().attempts[id]);
    }

    // ActiveForUser and CountActiveByRunner are queries over the table.
    function ActiveRows(): set<AttemptId>
      reads this`rows
    {
      set id | id in rows && !IsTerminal(rows[id].row.status)
    }

    function ActiveRowsOn(name: RunnerName): set<AttemptId>
      reads this`rows
    {
      set id | id in rows && !IsTerminal(rows[id].row.status) && rows[id].runner == name
    }

    function CountByRunner(): map<RunnerName, nat>
      reads this`rows
    {
      var names := set id | id in ActiveRows() :: rows[id].runner;
      map name | name in names :: |ActiveRowsOn(name)|
    }

    lemma QueriesSeeModel()
      requires Valid()
      ensures forall user :: (set id | id in ActiveRows() && rows[id].user == user) == ActiveOf(Now().attempts, user)
      ensures forall name :: ActiveRowsOn(name) == ActiveOn(Now().attempts, name)
      ensures CountByRunner() == CountActiveByRunner(Now().attempts)
    {
      forall name ensures ActiveRowsOn(name) == ActiveOn(Now().attempts, name) {}
      assert (set id | id in ActiveRows() :: rows[id].runner) == Runners(Now().attempts);
    }

    method Reserve(id: AttemptId, user: string, lab: Lab, seed: Seed, resolved: Resolved,
                   members: seq<Schedule.Member>, env: Schedule.Env)
      returns (r: Result<RunnerName, ReserveError>)
      requires Valid() && id !in Now().attempts && MembersOk(cfg, Now(), members)
      requires ProvisionAttempts(lab) >= 1 && cfg.resolve(lab.id, seed) == Some(resolved)
      modifies this
      ensures Valid()
      ensures r == Err(ErrActiveAttempt) <==> ActiveOf(old(Now()).attempts, user) != {}
      ensures match r
              case Ok(runner) =>
                && Schedule.Answers(members, CountActiveByRunner(old(Now()).attempts), env, Ok(runner))
                && Took(Event.Reserve(id, user, lab, seed, env, members, runner))
                && rows == old(rows)[id := Record(user, lab, runner, Row(Provisioning, seed, resolved, false))]
              case Err(ErrRunnerBusy(active, max, loads)) =>
                && Schedule.Answers(members, CountActiveByRunner(old(Now()).attempts), env, Err(Schedule.Busy(loads)))
                && active == TotalActive(loads) && max == TotalCapacity(loads)
                && run == old(run) && rows == old(rows)
              case Err(e) =>
                && (e.ErrNoRunner? ==> forall m | m in members :: !Schedule.Capable(m, env))
                && run == old(run) && rows == old(rows)
      ensures sandboxes == old(sandboxes)
    {
      QueriesSeeModel();
      if (set k | k in ActiveRows() && rows[k].user == user) != {} {
        return Err(ErrActiveAttempt);
      }
      var placed := Schedule.Schedule(members, CountByRunner(), env);
      match placed {
        case Err(NoRunner(_)) =>
          return Err(ErrNoRunner);
        case Err(Busy(loads)) =>
          var busy := BusyOf(loads);
          return Err(busy);
        case Ok(runner) =>
          Take(Event.Reserve(id, user, lab, seed, env, members, runner));
          rows := rows[id := Record(user, lab, runner, Row(Provisioning, seed, resolved, false))];
          MirrorsOne(old(rows), sandboxes, old(Now()).attempts, rows, sandboxes, id, Now().attempts[id]);
          return Ok(runner);
      }
    }

    // The guards and the update of s.end, on the table alone.
    method EndRow(id: AttemptId, status: Status, from: set<Status>) returns (r: Result<Record, EndError>)
      modifies this`rows
      ensures match r
              case Ok(record) =>
                && id in old(rows) && !IsTerminal(old(rows)[id].row.status) && old(rows)[id].row.status in from
                && record == old(rows)[id].(row := old(rows)[id].row.(status := status))
                && rows == old(rows)[id := record]
              case Err(e) =>
                && rows == old(rows)
                && (e.ErrNotFound? <==> id !in rows)
                && (e.ErrTerminal? <==> id in rows && IsTerminal(rows[id].row.status))
                && (e.ErrUnexpectedStatus? <==> id in rows && !IsTerminal(rows[id].row.status) && rows[id].row.status !in from)
    {
      if id !in rows {
        return Err(ErrNotFound);
      }
      var record := rows[id];
      if IsTerminal(record.row.status) {
        return Err(ErrTerminal);
      }
      if record.row.status !in from {
        return Err(ErrUnexpectedStatus);
      }
      record := record.(row := record.row.(status := status));
      rows := rows[id := record];
      return Ok(record);
    }

    method End(id: AttemptId, status: Status, from: set<Status>) returns (r: Result<Record, EndError>)
      requires Valid() && IsTerminal(status)
      modifies this
      ensures Valid()
      ensures match r
              case Ok(record) =>
                && id in old(rows) && !IsTerminal(old(rows)[id].row.status) && old(rows)[id].row.status in from
                && record == old(rows)[id].(row := old(rows)[id].row.(status := status)) && rows == old(rows)[id := record]
                && Took(Act(id, Action.End(status, from)))
              case Err(e) =>
                && run == old(run)
                && (e.ErrNotFound? <==> id !in rows)
                && (e.ErrTerminal? <==> id in rows && IsTerminal(rows[id].row.status))
                && (e.ErrUnexpectedStatus? <==> id in rows && !IsTerminal(rows[id].row.status) && rows[id].row.status !in from)
    {
      if id in rows { MirrorsAt(rows, sandboxes, Now().attempts, id); }
      r := EndRow(id, status, from);
      if r.Ok? {
        Take(Act(id, Action.End(status, from)));
        MirrorsOne(old(rows), sandboxes, old(Now()).attempts, rows, sandboxes, id, Now().attempts[id]);
      }
    }

    // The worker's promotion; `drop` tells it to destroy the sandbox instead.
    method Promote(id: AttemptId) returns (found: bool, drop: bool)
      requires Valid() && AttemptRuns.Enabled(cfg, Now(), Act(id, Action.Promote))
      modifies this
      ensures Valid() && Took(Act(id, Action.Promote))
      ensures sandboxes == old(sandboxes) && (found <==> id in old(rows))
      ensures if id in old(rows) && old(rows)[id].row.status.Provisioning? then
                !drop && rows == old(rows)[id := old(rows)[id].(row := old(rows)[id].row.(status := Running, hasSandbox := true))]
              else rows == old(rows) && (drop <==> id in rows)
      ensures drop <==> Now().attempts[id].worker.Dropping?
    {
      found, drop := id in rows, false;
      MirrorsAt(rows, sandboxes, Now().attempts, id);
      Take(Act(id, Action.Promote));
      if found {
        var record := rows[id];
        if record.row.status.Provisioning? {
          rows := rows[id := record.(row := record.row.(hasSandbox := true, status := Running))];
        } else {
          drop := true;
        }
      }
      MirrorsOne(old(rows), sandboxes, old(Now()).attempts, rows, sandboxes, id, Now().attempts[id]);
    }

    // The seed and the parameters of the next try; the store may fail.
    method StoreResolved(id: AttemptId, seed: Seed, resolved: Resolved, works: bool) returns (stored: bool)
      requires Valid() && AttemptRuns.Enabled(cfg, Now(), Act(id, Reseed(works)))
      requires var a := Now().attempts[id]; seed == (a.worker.seed + 1) % SEED_LIMIT && cfg.resolve(a.lab.id, seed) == Some(resolved)
      modifies this
      ensures Valid() && Took(Act(id, Reseed(works)))
      ensures stored <==> works && id in old(rows)
      ensures sandboxes == old(sandboxes)
      ensures rows == if stored then old(rows)[id := old(rows)[id].(row := old(rows)[id].row.(seed := seed, resolved := resolved))] else old(rows)
    {
      MirrorsAt(rows, sandboxes, Now().attempts, id);
      ReseedStores(Now().attempts[id], cfg.resolve, works, resolved);
      stored := works && id in rows;
      Take(Act(id, Reseed(works)));
      if stored {
        rows := rows[id := rows[id].(row := rows[id].row.(seed := seed, resolved := resolved))];
      }
      MirrorsOne(old(rows), sandboxes, old(Now()).attempts, rows, sandboxes, id, Now().attempts[id]);
    }

    // bind, after a provision.
    method Bind(id: AttemptId, runner: RunnerName)
      requires Valid() && AttemptRuns.Enabled(cfg, Now(), Act(id, Action.Bind)) && runner == Now().attempts[id].runner
      modifies this
      ensures Valid() && Took(Act(id, Action.Bind))
      ensures rows == old(rows) && sandboxes == old(sandboxes)[id := runner]
    {
      MirrorsAt(rows, sandboxes, Now().attempts, id);
      Take(Act(id, Action.Bind));
      sandboxes := sandboxes[id := runner];
      MirrorsOne(rows, old(sandboxes), old(Now()).attempts, rows, sandboxes, id, Now().attempts[id]);
    }

    // unbind, at the end of a destroy.
    method Unbind(id: AttemptId, ghost who: By)
      requires Valid() && AttemptRuns.Enabled(cfg, Now(), Act(id, UnrouteOf(who)))
      modifies this
      ensures Valid() && Took(Act(id, UnrouteOf(who)))
      ensures rows == old(rows) && sandboxes == old(sandboxes) - {id}
    {
      MirrorsAt(rows, sandboxes, Now().attempts, id);
      Take(Act(id, UnrouteOf(who)));
      sandboxes := sandboxes - {id};
      MirrorsOne(rows, old(sandboxes), old(Now()).attempts, rows, sandboxes, id, Now().attempts[id]);
    }

    // destroy: whatever the runner answers, the routing entry goes.
    method Destroy(id: AttemptId, ghost who: By, works: bool)
      requires Valid() && AttemptRuns.Enabled(cfg, Now(), Act(id, DestroyOf(who, works)))
      modifies this
      ensures Valid() && old(run) <= run
      ensures rows == old(rows) && sandboxes == old(sandboxes) - {id}
      ensures var w := AttemptRuns.After(cfg, old(Now()), Act(id, DestroyOf(who, works)));
              AttemptRuns.Enabled(cfg, w, Act(id, UnrouteOf(who))) && Now() == AttemptRuns.After(cfg, w, Act(id, UnrouteOf(who)))
    {
      MirrorsAt(rows, sandboxes, Now().attempts, id);
      DestroyLeaves(Now().attempts[id], cfg.resolve, Now().connected, who, works);
      Take(Act(id, DestroyOf(who, works)));
      MirrorsOne(rows, sandboxes, old(Now()).attempts, rows, sandboxes, id, Now().attempts[id]);
      Unbind(id, who);
    }

    method Delete(id: AttemptId) returns (r: Result<(), EndError>)
      requires Valid()
      modifies this
      ensures Valid()
      ensures r.Ok? <==> id in old(rows) && IsTerminal(old(rows)[id].row.status)
      ensures if r.Ok? then Took(Act(id, Action.Delete)) else run == old(run)
      ensures sandboxes == old(sandboxes) && rows == if r.Ok? then old(rows) - {id} else old(rows)
    {
      if id !in rows {
        return Err(ErrNotFound);
      }
      if !IsTerminal(rows[id].row.status) {
        return Err(ErrUnexpectedStatus);
      }
      MirrorsAt(rows, sandboxes, Now().attempts, id);
      Take(Act(id, Action.Delete));
      rows := rows - {id};
      MirrorsOne(old(rows), sandboxes, old(Now()).attempts, rows, sandboxes, id, Now().attempts[id]);
      return Ok(());
    }

    // ListNonTerminal, in any order.
    method ListNonTerminal() returns (ids: seq<AttemptId>)
      ensures Distinct(ids) && forall id :: id in ids <==> id in ActiveRows()
    {
      ids := [];
      var left := ActiveRows();
      while left != {}
        invariant Distinct(ids) && left <= ActiveRows() && forall id :: id in ids <==> id in ActiveRows() - left
        decreases left
      {
        var id :| id in left;
        DistinctAdd(ids, id);
        ids := ids + [id];
        left := left - {id};
      }
    }

    // A runner drops out, and every attempt found active on it is ended.
    method RunnerDisconnected(name: RunnerName) returns (ended: nat)
      requires Valid() && name in Now().connected
      modifies this
      ensures Valid() && old(run) <= run
      ensures EndedExactly(WithoutRunner(old(Now()).attempts, name), Now().attempts, ActiveOn(old(Now()).attempts, name))
      ensures ActiveOn(Now().attempts, name) == {} && ended == |ActiveOn(old(Now()).attempts, name)|
      ensures FailedOn(old(rows), rows, name) && sandboxes == old(sandboxes)
    {
      ghost var before := Now().attempts;
      MirrorsSevered(rows, sandboxes, before, name);
      Take(Disconnect(name));
      ghost var found := Now().attempts;
      QueriesSeeModel();
      var ids := ListNonTerminal();
      ListedAreActive(rows, sandboxes, found, ids);
      ended := EndListed(ids, name);
      EachEndsExactly(found, ids, name);
      NoneLeftActive(found, Now().attempts, name);
      RowsFailed(old(rows), old(sandboxes), before, rows, sandboxes, Now().attempts, name);
    }

    method EndListed(ids: seq<AttemptId>, name: RunnerName) returns (ended: nat)
      requires Valid() && name in Now().dropped
      requires Distinct(ids) && forall id | id in ids :: id in Now().attempts && Active(Now().attempts[id])
      modifies this
      ensures Valid() && old(run) <= run
      ensures Now().attempts == EndedEach(old(Now()).attempts, ids, name) && ended == CountPlaced(old(Now()).attempts, ids, name)
    {
      ended := 0;
      ghost var found, dropped := Now().attempts, Now().dropped;
      for i := 0 to |ids|
        invariant Valid() && old(run) <= run && Now().dropped == dropped
        invariant Now().attempts == EndedEach(found, ids[..i], name) && ended == CountPlaced(found, ids[..i], name)
      {
        var id := ids[i];
        assert ids[..i + 1][..i] == ids[..i] && id in ids;
        DistinctTake(ids, i);
        Untouched(found, ids[..i], name, id);
        MirrorsAt(rows, sandboxes, Now().attempts, id);
        if rows[id].runner != name { continue; }
        var failed := FailDisconnected(id);
        if failed { ended := ended + 1; }
      }
      assert ids[..|ids|] == ids;
    }

    // failDisconnected, for an attempt that the listing found.
    method FailDisconnected(id: AttemptId) returns (ended: bool)
      requires Valid() && id in rows && !IsTerminal(rows[id].row.status) && rows[id].runner in Now().dropped
      modifies this
      ensures Valid() && ended && old(run) <= run && Now().dropped == old(Now()).dropped
      ensures Now().attempts == old(Now()).attempts[id := EndedByDrop(old(Now()).attempts[id])]
      ensures id in rows && rows == old(rows)[id := rows[id]]
    {
      ghost var w := Now();
      MirrorsAt(rows, sandboxes, w.attempts, id);
      DropFails(w.attempts[id]);
      TakeDrop(id);
      var r := EndRow(id, Failed, {Provisioning, Running});
      MirrorsOne(old(rows), sandboxes, w.attempts, rows, sandboxes, id, EndedByDrop(w.attempts[id]));
      ended := r.Ok?;
    }
  }

  function EndedByDrop(a: Attempt): Attempt {
    AfterEnd(a, Failed, {Provisioning, Running}).(leaving := false)
  }

  // The listed attempts of the runner ended, one after the other.
  function EndedEach(attempts: map<AttemptId, Attempt>, ids: seq<AttemptId>, name: RunnerName): map<AttemptId, Attempt> {
    if ids == [] then attempts
    else
      var before, id := EndedEach(attempts, ids[..|ids| - 1], name), ids[|ids| - 1];
      if id in before && before[id].runner == name then before[id := EndedByDrop(before[id])] else before
  }

  function CountPlaced(attempts: map<AttemptId, Attempt>, ids: seq<AttemptId>, name: RunnerName): nat {
    if ids == [] then 0
    else
      var before, id := CountPlaced(attempts, ids[..|ids| - 1], name), ids[|ids| - 1];
      if id in attempts && attempts[id].runner == name then before + 1 else before
  }

  lemma {:induction false} Untouched(attempts: map<AttemptId, Attempt>, ids: seq<AttemptId>, name: RunnerName, id: AttemptId)
    requires id !in ids
    ensures id in EndedEach(attempts, ids, name) <==> id in attempts
    ensures id in attempts ==> EndedEach(attempts, ids, name)[id] == attempts[id]
  {
    if ids != [] {
      Untouched(attempts, ids[..|ids| - 1], name, id);
    }
  }

  lemma ListedAreActive(rows: map<AttemptId, Record>, sandboxes: map<AttemptId, RunnerName>, attempts: map<AttemptId, Attempt>,
                        ids: seq<AttemptId>)
    requires Mirrors(rows, sandboxes, attempts) && forall id :: id in ids <==> id in rows && !IsTerminal(rows[id].row.status)
    ensures forall id :: id in ids <==> id in attempts && Active(attempts[id])
  {
  }

  function PlacedOn(attempts: map<AttemptId, Attempt>, ids: seq<AttemptId>, name: RunnerName): set<AttemptId> {
    set id | id in ids && id in attempts && attempts[id].runner == name
  }

  lemma {:induction false} EachEnds(attempts: map<AttemptId, Attempt>, ids: seq<AttemptId>, name: RunnerName)
    requires Distinct(ids)
    ensures EndedExactly(attempts, EndedEach(attempts, ids, name), PlacedOn(attempts, ids, name))
    ensures |PlacedOn(attempts, ids, name)| == CountPlaced(attempts, ids, name)
  {
    if ids != [] {
      var n := |ids| - 1;
      var id := ids[n];
      DistinctTake(ids, n);
      EachEnds(attempts, ids[..n], name);
      Untouched(attempts, ids[..n], name, id);
      assert ids == ids[..n] + [id];
      assert PlacedOn(attempts, ids, name) == PlacedOn(attempts, ids[..n], name) + if id in attempts && attempts[id].runner == name then {id} else {};
    }
  }

  lemma EachEndsExactly(attempts: map<AttemptId, Attempt>, ids: seq<AttemptId>, name: RunnerName)
    requires Distinct(ids) && forall id :: id in ids <==> id in attempts && Active(attempts[id])
    ensures EndedExactly(attempts, EndedEach(attempts, ids, name), ActiveOn(attempts, name))
    ensures |ActiveOn(attempts, name)| == CountPlaced(attempts, ids, name)
  {
    EachEnds(attempts, ids, name);
    assert PlacedOn(attempts, ids, name) == ActiveOn(attempts, name);
  }

  // The attempts in `ids` were ended by the disconnect, the others left as they were.
  ghost predicate EndedExactly(before: map<AttemptId, Attempt>, after: map<AttemptId, Attempt>, ids: set<AttemptId>) {
    && after.Keys == before.Keys
    && forall id | id in before :: after[id] == if id in ids then EndedByDrop(before[id]) else before[id]
  }

  // The rows active on the runner are failed, the others as they were.
  ghost predicate FailedOn(rows: map<AttemptId, Record>, rows': map<AttemptId, Record>, name: RunnerName) {
    && rows'.Keys == rows.Keys
    && forall id | id in rows ::
         rows'[id] == if rows[id].runner == name && !IsTerminal(rows[id].row.status)
                      then rows[id].(row := rows[id].row.(status := Failed)) else rows[id]
  }

  lemma RowsFailed(rows: map<AttemptId, Record>, sandboxes: map<AttemptId, RunnerName>, before: map<AttemptId, Attempt>,
                   rows': map<AttemptId, Record>, sandboxes': map<AttemptId, RunnerName>, after: map<AttemptId, Attempt>, name: RunnerName)
    requires Mirrors(rows, sandboxes, before) && Mirrors(rows', sandboxes', after)
    requires EndedExactly(WithoutRunner(before, name), after, ActiveOn(before, name))
    ensures FailedOn(rows, rows', name) && sandboxes' == sandboxes
  {
    forall id
      ensures id in rows' <==> id in rows
      ensures id in sandboxes' <==> id in sandboxes
      ensures id in sandboxes ==> sandboxes'[id] == sandboxes[id]
      ensures id in rows ==> rows'[id] == if id in ActiveOn(before, name) then rows[id].(row := rows[id].row.(status := Failed)) else rows[id]
    {
      if id in before {
        RowEnded(before[id], name, after[id], id in ActiveOn(before, name));
      }
    }
  }

  lemma RowEnded(a: Attempt, name: RunnerName, b: Attempt, ended: bool)
    requires var severed := if a.runner == name then Severed(a) else a; b == if ended then EndedByDrop(severed) else severed
    requires ended ==> Active(a)
    ensures b.route == a.route && (b.row.Some? <==> a.row.Some?)
    ensures a.row.Some? ==> RecordOf(b) == if ended then RecordOf(a).(row := a.row.value.(status := Failed)) else RecordOf(a)
  {
  }

  lemma NoneLeftActive(before: map<AttemptId, Attempt>, after: map<AttemptId, Attempt>, name: RunnerName)
    requires EndedExactly(before, after, ActiveOn(before, name))
    ensures ActiveOn(after, name) == {}
  {
    forall id | id in after ensures id !in ActiveOn(after, name) {
      assert after[id].runner == before[id].runner;
    }
  }
}
