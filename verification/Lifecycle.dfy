// The life of an attempt (internal/attempt/service.go, internal/attempt/runners.go): the
// stored row, the provisioning worker, the sandbox on its runner, the routing entry and
// the pending asynchronous destroy, under every interleaving.
//
// A sandbox goes by its attempt's id (internal/provider/docker/provision.go:55), so all
// of this can be kept per attempt. reserve, promote and end are one step each.

module Lifecycle {
  import opened Wrappers

  type RunnerName = string

  const SEED_LIMIT := 0x1_0000_0000_0000_0000

  type Seed = s: int | 0 <= s < SEED_LIMIT

  datatype Resolved = Resolved(caseId: string, params: map<string, string>)

  datatype Status = Provisioning | Running | Passed | Abandoned | Expired | Failed

  predicate IsTerminal(s: Status) {
    !s.Provisioning? && !s.Running?
  }

  // `precheckRetries` is the lab's validated retry bound, if it has a precheck.
  datatype Lab = Lab(id: string, precheckRetries: Option<nat>)

  function ProvisionAttempts(lab: Lab): nat {
    match lab.precheckRetries
    case None => 1
    case Some(retries) => retries
  }

  datatype Row = Row(status: Status, seed: Seed, resolved: Resolved, hasSandbox: bool)

  // What is live on the runner, and what it was provisioned from.
  datatype Sandbox = Sandbox(runner: RunnerName, seed: Seed, resolved: Resolved)

  // The provisioning worker; n counts its provisions from 1.
  datatype Worker =
    | Starting(n: nat, seed: Seed, resolved: Resolved)
    | Unbound(n: nat, seed: Seed, resolved: Resolved)
    | Prechecking(n: nat, seed: Seed, resolved: Resolved)
    | Destroying(n: nat, seed: Seed, retry: bool)
    | Unrouting(n: nat, seed: Seed, retry: bool)
    | Reseeding(n: nat, seed: Seed)
    | Failing
    | Promoting(n: nat, seed: Seed, resolved: Resolved)
    | Dropping
    | DroppingRoute
    | Done
    | Lost

  // The goroutine started by destroyAsync.
  datatype Async = NoDestroy | ToDestroy | ToUnroute

  // Everything there is about one attempt. `severed` remembers that its runner dropped
  // out after it was placed there, `failedDestroy` that a destroy failed, and
  // `deletedEarly` that the row was deleted under a working worker.
  datatype Attempt = Attempt(
    user: string,
    lab: Lab,
    runner: RunnerName,
    firstSeed: Seed,
    row: Option<Row>,
    worker: Worker,
    live: Option<Sandbox>,
    route: Option<RunnerName>,
    async: Async,
    leaving: bool,
    severed: bool,
    failedDestroy: bool,
    deletedEarly: bool)

  function Reserved(user: string, lab: Lab, runner: RunnerName, seed: Seed, resolved: Resolved): Attempt {
    Attempt(user, lab, runner, seed, Some(Row(Provisioning, seed, resolved, false)), Starting(1, seed, resolved),
            None, None, NoDestroy, false, false, false, false)
  }

  // Resolution is a function of the lab and the seed.
  type Resolver = (string, Seed) -> Option<Resolved>

  datatype Action =
    | Provision(ok: bool)
    | ProvisionLost
    | Bind
    | PrecheckPass
    | PrecheckFail
    | PrecheckError
    | WorkerDestroy(ok: bool)
    | WorkerUnroute
    | Reseed(stored: bool)
    | FailProvision
    | Promote
    | DropDestroy(ok: bool)
    | DropUnroute
    | End(status: Status, from: set<Status>)
    | MarkLeaving
    | LeaveDisconnected
    | AsyncDestroy(ok: bool)
    | AsyncUnroute
    | RunnerCleans
    | Delete

  predicate Finished(w: Worker) {
    w.Done? || w.Lost?
  }

  predicate Enabled(a: Attempt, x: Action) {
    match x
    case Provision(_) => a.worker.Starting?
    case ProvisionLost => a.worker.Starting? && a.severed
    case Bind => a.worker.Unbound?
    case PrecheckPass => a.worker.Prechecking?
    case PrecheckFail => a.worker.Prechecking?
    case PrecheckError => a.worker.Prechecking?
    case WorkerDestroy(_) => a.worker.Destroying?
    case WorkerUnroute => a.worker.Unrouting?
    case Reseed(_) => a.worker.Reseeding?
    case FailProvision => a.worker.Failing?
    case Promote => a.worker.Promoting?
    case DropDestroy(_) => a.worker.Dropping?
    case DropUnroute => a.worker.DroppingRoute?
    case End(status, from) => IsTerminal(status) && a.row.Some? && a.row.value.status in from
    case MarkLeaving => a.row.Some? && !IsTerminal(a.row.value.status)
    case LeaveDisconnected => a.leaving
    case AsyncDestroy(_) => a.async.ToDestroy?
    case AsyncUnroute => a.async.ToUnroute?
    case RunnerCleans => a.live.Some? && a.severed
    case Delete => a.row.Some? && IsTerminal(a.row.value.status)
  }

  // s.end: nothing happens unless the row exists, is active and has a wanted status.
  function AfterEnd(a: Attempt, status: Status, from: set<Status>): Attempt {
    if a.row.None? || IsTerminal(a.row.value.status) || a.row.value.status !in from then a
    else a.(row := Some(a.row.value.(status := status)), async := ToDestroy)
  }

  // The provider's Destroy; one that is not live counts as destroyed.
  function AfterDestroy(a: Attempt, connected: set<RunnerName>, ok: bool): Attempt {
    if a.runner in connected && ok then a.(live := None)
    else a.(failedDestroy := true)
  }

  function AfterPrecheckFail(a: Attempt): Attempt
    requires a.worker.Prechecking?
  {
    var w := a.worker;
    a.(worker := Destroying(w.n, w.seed, w.n != ProvisionAttempts(a.lab)))
  }

  function AfterReseed(a: Attempt, resolve: Resolver, stored: bool): Attempt
    requires a.worker.Reseeding?
  {
    var seed: Seed := (a.worker.seed + 1) % SEED_LIMIT;
    var resolved := resolve(a.lab.id, seed);
    if resolved.None? || !stored || a.row.None? then a.(worker := Failing)
    else a.(worker := Starting(a.worker.n + 1, seed, resolved.value),
            row := Some(a.row.value.(seed := seed, resolved := resolved.value)))
  }

  function AfterPromote(a: Attempt): Attempt
    requires a.worker.Promoting?
  {
    if a.row.None? then a.(worker := Lost)
    else if !a.row.value.status.Provisioning? then a.(worker := Dropping)
    else a.(worker := Done, row := Some(a.row.value.(status := Running, hasSandbox := true)))
  }

  function After(a: Attempt, resolve: Resolver, connected: set<RunnerName>, x: Action): Attempt
    requires Enabled(a, x)
  {
    var w := a.worker;
    match x
    case Provision(ok) =>
      if ok then a.(worker := Unbound(w.n, w.seed, w.resolved), live := Some(Sandbox(a.runner, w.seed, w.resolved)))
      else a.(worker := Failing)
    case ProvisionLost => a.(worker := Failing, live := Some(Sandbox(a.runner, w.seed, w.resolved)))
    case Bind =>
      a.(route := Some(a.runner),
         worker := if a.lab.precheckRetries.None? then Promoting(w.n, w.seed, w.resolved)
                   else Prechecking(w.n, w.seed, w.resolved))
    case PrecheckPass => a.(worker := Promoting(w.n, w.seed, w.resolved))
    case PrecheckFail => AfterPrecheckFail(a)
    case PrecheckError => a.(worker := Destroying(w.n, w.seed, false))
    case WorkerDestroy(ok) => AfterDestroy(a, connected, ok).(worker := Unrouting(w.n, w.seed, w.retry))
    case WorkerUnroute => a.(route := None, worker := if w.retry then Reseeding(w.n, w.seed) else Failing)
    case Reseed(stored) => AfterReseed(a, resolve, stored)
    case FailProvision => AfterEnd(a, Failed, {Provisioning}).(worker := Done)
    case Promote => AfterPromote(a)
    case DropDestroy(ok) => AfterDestroy(a, connected, ok).(worker := DroppingRoute)
    case DropUnroute => a.(route := None, worker := Done)
    case End(status, from) => AfterEnd(a, status, from)
    case MarkLeaving => a.(leaving := true)
    case LeaveDisconnected => AfterEnd(a, Failed, {Provisioning, Running}).(leaving := false)
    case AsyncDestroy(ok) => AfterDestroy(a, connected, ok).(async := ToUnroute)
    case AsyncUnroute => a.(route := None, async := NoDestroy)
    case RunnerCleans => a.(live := None)
    case Delete => a.(row := None, deletedEarly := a.deletedEarly || !Finished(a.worker))
  }

  // ----- what every step keeps

  predicate Active(a: Attempt) {
    a.row.Some? && !IsTerminal(a.row.value.status)
  }

  predicate IsRunning(a: Attempt) {
    a.row.Some? && a.row.value.status.Running?
  }

  // The hypothesis of the claims about what is left over: the runner did not drop out
  // while it had anything to do with the attempt, and no destroy failed.
  predicate Reliable(a: Attempt) {
    !a.severed && !a.failedDestroy
  }

  // The worker is done and no destroy is pending.
  predicate Settled(a: Attempt) {
    Finished(a.worker) && a.async.NoDestroy?
  }

  // There is a sandbox, and a routing entry, exactly when the attempt is running.
  predicate Clean(a: Attempt) {
    (a.live.Some? <==> IsRunning(a)) && (a.route.Some? <==> IsRunning(a))
  }

  // Nothing will happen to the attempt any more but the deletion of its row.
  predicate Over(a: Attempt) {
    Settled(a) && a.live.None? && a.route.None? && !Active(a)
  }

  // A runner that drops out takes with it what it still has to do.
  function Severed(a: Attempt): Attempt {
    if Over(a) then a else a.(severed := true)
  }

  ghost predicate SeedOk(a: Attempt, resolve: Resolver, n: nat, seed: Seed) {
    && 1 <= n <= ProvisionAttempts(a.lab)
    && seed == (a.firstSeed + n - 1) % SEED_LIMIT
    && (a.row.Some? ==> a.row.value.seed == seed && resolve(a.lab.id, seed) == Some(a.row.value.resolved))
  }

  // The worker works from its own row, and gives up or retries within its bound.
  ghost predicate WorkerOk(a: Attempt, resolve: Resolver) {
    match a.worker
    case Starting(n, seed, resolved) => SeedOk(a, resolve, n, seed) && resolve(a.lab.id, seed) == Some(resolved)
    case Unbound(n, seed, resolved) => SeedOk(a, resolve, n, seed) && resolve(a.lab.id, seed) == Some(resolved)
    case Prechecking(n, seed, resolved) => SeedOk(a, resolve, n, seed) && resolve(a.lab.id, seed) == Some(resolved)
    case Promoting(n, seed, resolved) => SeedOk(a, resolve, n, seed) && resolve(a.lab.id, seed) == Some(resolved)
    case Destroying(n, seed, retry) => SeedOk(a, resolve, n, seed) && (retry ==> n < ProvisionAttempts(a.lab))
    case Unrouting(n, seed, retry) => SeedOk(a, resolve, n, seed) && (retry ==> n < ProvisionAttempts(a.lab))
    case Reseeding(n, seed) => SeedOk(a, resolve, n, seed) && n < ProvisionAttempts(a.lab)
    case _ => true
  }

  ghost predicate StatusOk(a: Attempt) {
    && (a.row.Some? ==>
          var s := a.row.value.status;
          && (s.Provisioning? ==> !Finished(a.worker) && !a.worker.Dropping? && !a.worker.DroppingRoute?)
          && (s.Running? ==> a.worker.Done? && a.row.value.hasSandbox)
          && (!IsTerminal(s) ==> a.async.NoDestroy?)
          && (a.row.value.hasSandbox ==> a.worker.Done?))
    && (a.row.None? && !Finished(a.worker) ==> a.deletedEarly)
    && (a.worker.Lost? ==> a.row.None? && a.deletedEarly)
  }

  // What a sandbox, where there is one, was made from.
  ghost predicate MadeFrom(a: Attempt, seed: Seed, resolved: Resolved) {
    && (a.live.Some? ==> a.live.value == Sandbox(a.runner, seed, resolved))
    && (a.route.Some? ==> a.route.value == a.runner)
  }

  // Where the sandbox and the routing entry can be, by the worker's phase; an active
  // attempt has them wherever its worker has made them and not yet begun to drop them.
  ghost predicate SandboxOk(a: Attempt) {
    match a.worker
    case Starting(_, _, _) => a.live.None? && a.route.None?
    case Unbound(_, seed, resolved) => MadeFrom(a, seed, resolved) && a.route.None? && (Active(a) ==> a.live.Some?)
    case Prechecking(_, seed, resolved) =>
      MadeFrom(a, seed, resolved) && (Active(a) ==> a.live.Some? && a.route.Some?)
    case Promoting(_, seed, resolved) =>
      MadeFrom(a, seed, resolved) && (Active(a) ==> a.live.Some? && a.route.Some?)
    case Destroying(_, _, _) => true
    case Unrouting(_, _, _) => a.live.None?
    case Reseeding(_, _) => a.live.None? && a.route.None?
    case Failing => a.live.None? && a.route.None?
    case Dropping => true
    case DroppingRoute => a.live.None?
    case Done =>
      if IsRunning(a) then
        a.live == Some(Sandbox(a.runner, a.row.value.seed, a.row.value.resolved)) && a.route == Some(a.runner)
      else
        (a.live.Some? ==> a.async.ToDestroy?) && (a.route.Some? ==> !a.async.NoDestroy?)
    case Lost => true
  }

  // Whatever dropped out or failed before: a sandbox of an attempt that is still wanted
  // was made from what the worker, or the row, says; and while its runner stays, it is
  // there.
  ghost predicate MadeOk(a: Attempt) {
    match a.worker
    case Unbound(_, seed, resolved) => Active(a) ==> IsMade(a, seed, resolved)
    case Prechecking(_, seed, resolved) => Active(a) ==> IsMade(a, seed, resolved) && IsRouted(a)
    case Promoting(_, seed, resolved) => Active(a) ==> IsMade(a, seed, resolved) && IsRouted(a)
    case Done => IsRunning(a) ==> IsMade(a, a.row.value.seed, a.row.value.resolved) && IsRouted(a)
    case _ => true
  }

  predicate IsMade(a: Attempt, seed: Seed, resolved: Resolved) {
    && (a.live.Some? ==> a.live.value == Sandbox(a.runner, seed, resolved))
    && (!a.severed ==> a.live.Some?)
  }

  predicate IsRouted(a: Attempt) {
    a.route == Some(a.runner)
  }

  ghost predicate AttemptOk(a: Attempt, resolve: Resolver) {
    && ProvisionAttempts(a.lab) >= 1
    && WorkerOk(a, resolve)
    && StatusOk(a)
    && (Reliable(a) ==> SandboxOk(a))
    && MadeOk(a)
  }

  lemma ReservedOk(user: string, lab: Lab, runner: RunnerName, seed: Seed, resolved: Resolved, resolve: Resolver)
    requires ProvisionAttempts(lab) >= 1 && resolve(lab.id, seed) == Some(resolved)
    ensures AttemptOk(Reserved(user, lab, runner, seed, resolved), resolve)
  {
  }

  lemma ReseedKeepsOk(a: Attempt, resolve: Resolver, stored: bool)
    requires AttemptOk(a, resolve) && a.worker.Reseeding?
    ensures AttemptOk(AfterReseed(a, resolve, stored), resolve)
  {
    var k := a.firstSeed + a.worker.n - 1;
    assert (k % SEED_LIMIT + 1) % SEED_LIMIT == (k + 1) % SEED_LIMIT;
  }

  lemma EndKeepsOk(a: Attempt, resolve: Resolver, status: Status, from: set<Status>)
    requires AttemptOk(a, resolve) && IsTerminal(status)
    ensures AttemptOk(AfterEnd(a, status, from), resolve)
  {
    var a' := AfterEnd(a, status, from);
    assert WorkerOk(a', resolve);
  }

  lemma FailProvisionKeepsOk(a: Attempt, resolve: Resolver)
    requires AttemptOk(a, resolve) && a.worker.Failing?
    ensures AttemptOk(AfterEnd(a, Failed, {Provisioning}).(worker := Done), resolve)
  {
  }

  lemma ProvisionKeepsOk(a: Attempt, resolve: Resolver, connected: set<RunnerName>, x: Action)
    requires AttemptOk(a, resolve) && Enabled(a, x)
    requires a.runner in connected || a.severed
    requires x.Provision? || x.ProvisionLost? || x.Bind?
    ensures AttemptOk(After(a, resolve, connected, x), resolve)
  {
  }

  lemma PrecheckKeepsOk(a: Attempt, resolve: Resolver, connected: set<RunnerName>, x: Action)
    requires AttemptOk(a, resolve) && Enabled(a, x)
    requires a.runner in connected || a.severed
    requires x.PrecheckPass? || x.PrecheckFail? || x.PrecheckError?
    ensures AttemptOk(After(a, resolve, connected, x), resolve)
  {
  }

  lemma WorkerDestroyKeepsOk(a: Attempt, resolve: Resolver, connected: set<RunnerName>, x: Action)
    requires AttemptOk(a, resolve) && Enabled(a, x)
    requires a.runner in connected || a.severed
    requires x.WorkerDestroy? || x.WorkerUnroute?
    ensures AttemptOk(After(a, resolve, connected, x), resolve)
  {
  }

  lemma PromoteKeepsOk(a: Attempt, resolve: Resolver, connected: set<RunnerName>, x: Action)
    requires AttemptOk(a, resolve) && Enabled(a, x)
    requires a.runner in connected || a.severed
    requires x.Promote?
    ensures AttemptOk(After(a, resolve, connected, x), resolve)
  {
  }

  lemma DropKeepsOk(a: Attempt, resolve: Resolver, connected: set<RunnerName>, x: Action)
    requires AttemptOk(a, resolve) && Enabled(a, x)
    requires a.runner in connected || a.severed
    requires x.DropDestroy? || x.DropUnroute?
    ensures AttemptOk(After(a, resolve, connected, x), resolve)
  {
  }

  // The worker's half of the invariant looks at the row and the worker alone.
  lemma WorkerFrame(a: Attempt, a': Attempt, resolve: Resolver)
    requires WorkerOk(a, resolve) && StatusOk(a)
    requires a' == a.(live := a'.live, route := a'.route, async := a'.async, failedDestroy := a'.failedDestroy)
    requires Active(a) ==> a'.async.NoDestroy?
    ensures WorkerOk(a', resolve) && StatusOk(a')
  {
  }

  lemma AsyncKeepsOk(a: Attempt, resolve: Resolver, connected: set<RunnerName>, x: Action)
    requires AttemptOk(a, resolve) && Enabled(a, x)
    requires a.runner in connected || a.severed
    requires x.AsyncDestroy? || x.AsyncUnroute?
    ensures AttemptOk(After(a, resolve, connected, x), resolve)
  {
    WorkerFrame(a, After(a, resolve, connected, x), resolve);
  }

  lemma OutsideKeepsOk(a: Attempt, resolve: Resolver, connected: set<RunnerName>, x: Action)
    requires AttemptOk(a, resolve) && Enabled(a, x)
    requires a.runner in connected || a.severed
    requires x.RunnerCleans? || x.Delete? || x.MarkLeaving?
    ensures AttemptOk(After(a, resolve, connected, x), resolve)
  {
  }

  lemma SeverKeepsOk(a: Attempt, resolve: Resolver)
    requires AttemptOk(a, resolve)
    ensures AttemptOk(Severed(a), resolve)
  {
  }

  lemma OverStaysOver(a: Attempt, resolve: Resolver, connected: set<RunnerName>, x: Action)
    requires Over(a) && Enabled(a, x) && AttemptOk(a, resolve)
    ensures Over(After(a, resolve, connected, x)) && AttemptOk(After(a, resolve, connected, x), resolve)
  {
  }

  // Every action keeps the invariant.
  lemma ActionKeepsOk(a: Attempt, resolve: Resolver, connected: set<RunnerName>, x: Action)
    requires AttemptOk(a, resolve) && Enabled(a, x)
    requires a.runner in connected || a.severed
    ensures AttemptOk(After(a, resolve, connected, x), resolve)
  {
    if x.Provision? || x.ProvisionLost? || x.Bind? {
      ProvisionKeepsOk(a, resolve, connected, x);
    } else if x.PrecheckPass? || x.PrecheckFail? || x.PrecheckError? {
      PrecheckKeepsOk(a, resolve, connected, x);
    } else if x.WorkerDestroy? || x.WorkerUnroute? {
      WorkerDestroyKeepsOk(a, resolve, connected, x);
    } else if x.Promote? {
      PromoteKeepsOk(a, resolve, connected, x);
    } else if x.DropDestroy? || x.DropUnroute? {
      DropKeepsOk(a, resolve, connected, x);
    } else if x.AsyncDestroy? || x.AsyncUnroute? {
      AsyncKeepsOk(a, resolve, connected, x);
    } else if x.RunnerCleans? || x.Delete? || x.MarkLeaving? {
      OutsideKeepsOk(a, resolve, connected, x);
    } else {
      match x
      case Reseed(stored) => ReseedKeepsOk(a, resolve, stored);
      case FailProvision => FailProvisionKeepsOk(a, resolve);
      case End(status, from) => EndKeepsOk(a, resolve, status, from);
      case LeaveDisconnected => EndKeepsOk(a.(leaving := false), resolve, Failed, {Provisioning, Running});
    }
  }
}
