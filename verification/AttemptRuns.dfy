// All attempts together, over whole runs: placement, one attempt per user, disconnects,
// and what is left on the runners when the dust has settled.

module AttemptRuns {
  import opened Wrappers
  import opened Lifecycle
  import Schedule

  type AttemptId = string

  // Capacities are fixed for the run; resolution is a function of lab and seed.
  datatype Config = Config(capacity: RunnerName -> int, resolve: Resolver)

  // `dropped` holds the runners that dropped out at some time: the listing of attempts
  // that each drop starts may come late, and find attempts placed since.
  datatype World = World(attempts: map<AttemptId, Attempt>, connected: set<RunnerName>, dropped: set<RunnerName>)

  const EMPTY_WORLD := World(map[], {}, {})

  datatype Event =
    | Reserve(id: AttemptId, user: string, lab: Lab, seed: Seed, env: Schedule.Env,
              members: seq<Schedule.Member>, runner: RunnerName)
    | Act(id: AttemptId, action: Action)
    | Connect(runner: RunnerName)
    | Disconnect(runner: RunnerName)

  // ----- what reserve looks at

  function ActiveOn(attempts: map<AttemptId, Attempt>, runner: RunnerName): set<AttemptId> {
    set id | id in attempts && Active(attempts[id]) && attempts[id].runner == runner
  }

  function ActiveOf(attempts: map<AttemptId, Attempt>, user: string): set<AttemptId> {
    set id | id in attempts && Active(attempts[id]) && attempts[id].user == user
  }

  function Runners(attempts: map<AttemptId, Attempt>): set<RunnerName> {
    set id | id in attempts && Active(attempts[id]) :: attempts[id].runner
  }

  // CountActiveByRunner.
  function CountActiveByRunner(attempts: map<AttemptId, Attempt>): map<RunnerName, nat> {
    map name | name in Runners(attempts) :: |ActiveOn(attempts, name)|
  }

  // The registry lists connected runners with their fixed capacities.
  ghost predicate MembersOk(cfg: Config, w: World, members: seq<Schedule.Member>) {
    forall m | m in members :: m.capacity == cfg.capacity(m.name) && (m.connected ==> m.name in w.connected)
  }

  ghost predicate Enabled(cfg: Config, w: World, e: Event) {
    match e
    case Reserve(id, user, lab, seed, env, members, runner) =>
      && id !in w.attempts
      && ProvisionAttempts(lab) >= 1
      && cfg.resolve(lab.id, seed).Some?
      && ActiveOf(w.attempts, user) == {}
      && MembersOk(cfg, w, members)
      && Schedule.Answers(members, CountActiveByRunner(w.attempts), env, Ok(runner))
    case Act(id, action) =>
      && id in w.attempts
      && Lifecycle.Enabled(w.attempts[id], action)
      && (action.MarkLeaving? ==> w.attempts[id].runner in w.dropped)
    case Connect(_) => true
    case Disconnect(runner) => runner in w.connected
  }

  ghost function After(cfg: Config, w: World, e: Event): World
    requires Enabled(cfg, w, e)
  {
    match e
    case Reserve(id, user, lab, seed, _, _, runner) =>
      w.(attempts := w.attempts[id := Reserved(user, lab, runner, seed, cfg.resolve(lab.id, seed).value)])
    case Act(id, action) =>
      w.(attempts := w.attempts[id := Lifecycle.After(w.attempts[id], cfg.resolve, w.connected, action)])
    case Connect(runner) => w.(connected := w.connected + {runner})
    case Disconnect(runner) => World(WithoutRunner(w.attempts, runner), w.connected - {runner}, w.dropped + {runner})
  }

  function WithoutRunner(attempts: map<AttemptId, Attempt>, runner: RunnerName): map<AttemptId, Attempt> {
    map id | id in attempts :: if attempts[id].runner == runner then Severed(attempts[id]) else attempts[id]
  }

  ghost predicate Step(cfg: Config, w: World, w': World) {
    exists e :: Enabled(cfg, w, e) && w' == After(cfg, w, e)
  }

  ghost predicate IsRun(cfg: Config, run: seq<World>) {
    && |run| > 0
    && run[0] == EMPTY_WORLD
    && forall i | 0 <= i < |run| - 1 :: StepAt(cfg, run, i)
  }

  ghost predicate StepAt(cfg: Config, run: seq<World>, i: nat)
    requires i + 1 < |run|
  {
    Step(cfg, run[i], run[i + 1])
  }

  // ----- the invariant

  ghost predicate Placed(cfg: Config, w: World) {
    && (forall name :: ActiveOn(w.attempts, name) != {} ==> |ActiveOn(w.attempts, name)| <= cfg.capacity(name))
    && (forall a, b | a in w.attempts && b in w.attempts && a != b && Active(w.attempts[a]) && Active(w.attempts[b]) ::
          w.attempts[a].user != w.attempts[b].user)
  }

  ghost predicate Sound(cfg: Config, w: World) {
    && (forall id | id in w.attempts ::
          && AttemptOk(w.attempts[id], cfg.resolve)
          && (w.attempts[id].runner in w.connected || w.attempts[id].severed || Over(w.attempts[id])))
    && Placed(cfg, w)
  }

  // The later attempt is the same one, active only if it was, ended as it had ended.
  predicate Follows(a: Attempt, a': Attempt) {
    && a'.user == a.user && a'.runner == a.runner && a'.lab == a.lab && a'.firstSeed == a.firstSeed
    && (Active(a') ==> Active(a))
    && (a'.row.Some? ==> a.row.Some?)
    && (a'.row.Some? && IsTerminal(a.row.value.status) ==> a'.row.value.status == a.row.value.status)
  }

  lemma EndFollows(a: Attempt, status: Status, from: set<Status>)
    requires IsTerminal(status)
    ensures Follows(a, AfterEnd(a, status, from))
  {
  }

  // No action makes an ended attempt active, or moves one to another user or runner.
  lemma ActionFollows(a: Attempt, resolve: Resolver, connected: set<RunnerName>, x: Action)
    requires Lifecycle.Enabled(a, x)
    ensures Follows(a, Lifecycle.After(a, resolve, connected, x))
  {
    match x
    case End(status, from) => EndFollows(a, status, from);
    case FailProvision => EndFollows(a, Failed, {Provisioning});
    case LeaveDisconnected => EndFollows(a, Failed, {Provisioning, Running});
    case Reseed(stored) => assert Follows(a, AfterReseed(a, resolve, stored));
    case Promote => assert Follows(a, AfterPromote(a));
    case Delete =>
    case _ => OthersFollow(a, resolve, connected, x);
  }

  predicate LeavesRow(x: Action) {
    !(x.End? || x.FailProvision? || x.LeaveDisconnected? || x.Reseed? || x.Promote? || x.Delete?)
  }

  lemma OthersFollow(a: Attempt, resolve: Resolver, connected: set<RunnerName>, x: Action)
    requires Lifecycle.Enabled(a, x) && LeavesRow(x)
    ensures Follows(a, Lifecycle.After(a, resolve, connected, x))
  {
  }

  lemma ReserveFindsSlot(cfg: Config, w: World, e: Event)
    requires e.Reserve? && Enabled(cfg, w, e)
    ensures e.runner in w.connected
    ensures |ActiveOn(w.attempts, e.runner)| < cfg.capacity(e.runner)
  {
    var counts := CountActiveByRunner(w.attempts);
    Schedule.ChosenHasSlot(e.members, counts, e.env, e.runner);
    var m :| m in e.members && m.name == e.runner && Schedule.Capable(m, e.env) && Schedule.Active(counts, m) < m.capacity;
    if id :| id in ActiveOn(w.attempts, e.runner) {
      assert e.runner in Runners(w.attempts);
    }
  }

  lemma AddPlaces(cfg: Config, w: World, id: AttemptId, a: Attempt)
    requires Placed(cfg, w) && id !in w.attempts
    requires |ActiveOn(w.attempts, a.runner)| < cfg.capacity(a.runner) && ActiveOf(w.attempts, a.user) == {}
    ensures Placed(cfg, w.(attempts := w.attempts[id := a]))
  {
    var after := w.attempts[id := a];
    forall name | ActiveOn(after, name) != {} ensures |ActiveOn(after, name)| <= cfg.capacity(name) {
      if name == a.runner && Active(a) {
        assert ActiveOn(after, name) == ActiveOn(w.attempts, name) + {id};
      } else {
        assert ActiveOn(after, name) == ActiveOn(w.attempts, name);
      }
    }
    forall k | k in w.attempts && Active(w.attempts[k]) ensures w.attempts[k].user != a.user {
      assert k !in ActiveOf(w.attempts, a.user);
    }
  }

  lemma ReservePlaces(cfg: Config, w: World, e: Event)
    requires Placed(cfg, w) && e.Reserve? && Enabled(cfg, w, e)
    ensures Placed(cfg, After(cfg, w, e))
    ensures e.runner in w.connected
  {
    ReserveFindsSlot(cfg, w, e);
    AddPlaces(cfg, w, e.id, After(cfg, w, e).attempts[e.id]);
  }

  lemma SmallerSet<T>(small: set<T>, big: set<T>)
    requires small <= big
    ensures |small| <= |big|
  {
    assert big == small + (big - small);
  }

  lemma ActPlaces(cfg: Config, w: World, e: Event)
    requires Sound(cfg, w) && e.Act? && Enabled(cfg, w, e)
    ensures Placed(cfg, After(cfg, w, e))
  {
    var w' := After(cfg, w, e);
    ActionFollows(w.attempts[e.id], cfg.resolve, w.connected, e.action);
    forall name | ActiveOn(w'.attempts, name) != {}
      ensures |ActiveOn(w'.attempts, name)| <= cfg.capacity(name) {
      assert ActiveOn(w'.attempts, name) <= ActiveOn(w.attempts, name);
      SmallerSet(ActiveOn(w'.attempts, name), ActiveOn(w.attempts, name));
    }
  }

  lemma StepKeepsSound(cfg: Config, w: World, e: Event)
    requires Sound(cfg, w) && Enabled(cfg, w, e)
    ensures Sound(cfg, After(cfg, w, e))
  {
    match e
    case Reserve(_, _, _, _, _, _, _) => ReserveKeepsSound(cfg, w, e);
    case Act(id, action) =>
      ActPlaces(cfg, w, e);
      ActKeepsOk(cfg, w, id, action);
    case Connect(_) =>
    case Disconnect(_) => DisconnectKeepsSound(cfg, w, e);
  }

  lemma ReserveKeepsSound(cfg: Config, w: World, e: Event)
    requires Sound(cfg, w) && Enabled(cfg, w, e) && e.Reserve?
    ensures Sound(cfg, After(cfg, w, e))
  {
    ReservePlaces(cfg, w, e);
    ReservedOk(e.user, e.lab, e.runner, e.seed, cfg.resolve(e.lab.id, e.seed).value, cfg.resolve);
  }

  lemma DisconnectKeepsSound(cfg: Config, w: World, e: Event)
    requires Sound(cfg, w) && Enabled(cfg, w, e) && e.Disconnect?
    ensures Sound(cfg, After(cfg, w, e))
  {
    var w' := After(cfg, w, e);
    forall id | id in w.attempts ensures AttemptOk(w'.attempts[id], cfg.resolve) {
      SeverKeepsOk(w.attempts[id], cfg.resolve);
    }
    SeveredPlaces(cfg, w, e.runner);
  }

  lemma ActKeepsOk(cfg: Config, w: World, id: AttemptId, x: Action)
    requires Sound(cfg, w) && id in w.attempts && Lifecycle.Enabled(w.attempts[id], x)
    ensures var a' := Lifecycle.After(w.attempts[id], cfg.resolve, w.connected, x);
            AttemptOk(a', cfg.resolve) && (a'.runner in w.connected || a'.severed || Over(a'))
  {
    var a := w.attempts[id];
    ActionFollows(a, cfg.resolve, w.connected, x);
    if Over(a) {
      OverStaysOver(a, cfg.resolve, w.connected, x);
    } else {
      ActionKeepsOk(a, cfg.resolve, w.connected, x);
      StaysSevered(a, cfg.resolve, w.connected, x);
    }
  }

  lemma StaysSevered(a: Attempt, resolve: Resolver, connected: set<RunnerName>, x: Action)
    requires Lifecycle.Enabled(a, x)
    ensures Lifecycle.After(a, resolve, connected, x).severed == a.severed
  {
  }

  lemma SeveredPlaces(cfg: Config, w: World, runner: RunnerName)
    requires Placed(cfg, w)
    ensures Placed(cfg, w.(attempts := WithoutRunner(w.attempts, runner)))
  {
    forall name
      ensures ActiveOn(WithoutRunner(w.attempts, runner), name) == ActiveOn(w.attempts, name)
    {
    }
  }

  lemma {:induction false} RunIsSound(cfg: Config, run: seq<World>, n: nat)
    requires IsRun(cfg, run) && n < |run|
    ensures Sound(cfg, run[n])
  {
    if n > 0 {
      RunIsSound(cfg, run, n - 1);
      assert StepAt(cfg, run, n - 1);
      var e :| Enabled(cfg, run[n - 1], e) && run[n] == After(cfg, run[n - 1], e);
      StepKeepsSound(cfg, run[n - 1], e);
    }
  }

  // ----- what holds in every run

  // No runner is over its capacity and no user has two active attempts.
  lemma PlacementIsSafe(cfg: Config, run: seq<World>, n: nat)
    requires IsRun(cfg, run) && n < |run|
    ensures forall name :: |ActiveOn(run[n].attempts, name)| <= if cfg.capacity(name) > 0 then cfg.capacity(name) else 0
    ensures forall user :: |ActiveOf(run[n].attempts, user)| <= 1
  {
    RunIsSound(cfg, run, n);
    var w := run[n];
    forall user ensures |ActiveOf(w.attempts, user)| <= 1 {
      var mine := ActiveOf(w.attempts, user);
      if a :| a in mine {
        assert mine == {a};
      }
    }
    forall name ensures |ActiveOn(w.attempts, name)| <= if cfg.capacity(name) > 0 then cfg.capacity(name) else 0 {
      if a :| a in ActiveOn(w.attempts, name) {
        assert ActiveOn(w.attempts, name) == {a} + (ActiveOn(w.attempts, name) - {a});
      }
    }
  }

  lemma StepFollows(cfg: Config, w: World, e: Event, id: AttemptId)
    requires Enabled(cfg, w, e) && id in w.attempts
    ensures id in After(cfg, w, e).attempts && Follows(w.attempts[id], After(cfg, w, e).attempts[id])
  {
    if e.Act? && e.id == id {
      ActionFollows(w.attempts[id], cfg.resolve, w.connected, e.action);
    }
  }

  // An ended attempt stays as it ended, for as long as its row exists, and a deleted row
  // does not come back.
  lemma EndedStaysEnded(cfg: Config, run: seq<World>, i: nat, j: nat, id: AttemptId)
    requires IsRun(cfg, run) && i <= j < |run|
    requires id in run[i].attempts && !Active(run[i].attempts[id])
    ensures id in run[j].attempts && !Active(run[j].attempts[id])
    ensures Follows(run[i].attempts[id], run[j].attempts[id])
    decreases j
  {
    var tables := seq(|run|, k requires 0 <= k < |run| => run[k].attempts);
    forall k | i <= k < j && id in tables[k]
      ensures id in tables[k + 1] && Follows(tables[k][id], tables[k + 1][id])
    {
      RunFollows(cfg, run, k, id);
    }
    FollowsAll(tables, i, j, id);
  }

  lemma RunFollows(cfg: Config, run: seq<World>, k: nat, id: AttemptId)
    requires IsRun(cfg, run) && k + 1 < |run| && id in run[k].attempts
    ensures id in run[k + 1].attempts && Follows(run[k].attempts[id], run[k + 1].attempts[id])
  {
    assert StepAt(cfg, run, k);
    var e :| Enabled(cfg, run[k], e) && run[k + 1] == After(cfg, run[k], e);
    StepFollows(cfg, run[k], e, id);
  }

  lemma {:induction false} FollowsAll(tables: seq<map<AttemptId, Attempt>>, i: nat, j: nat, id: AttemptId)
    requires i <= j < |tables| && id in tables[i] && !Active(tables[i][id])
    requires forall k | i <= k < j && id in tables[k] :: id in tables[k + 1] && Follows(tables[k][id], tables[k + 1][id])
    ensures id in tables[j] && !Active(tables[j][id]) && Follows(tables[i][id], tables[j][id])
  {
    if i < j {
      FollowsAll(tables, i, j - 1, id);
      assert Follows(tables[j - 1][id], tables[j - 1 + 1][id]);
    }
  }

  // A running attempt is routed to its runner, and its stored seed, case and parameters
  // are those its live sandbox was made from, whatever destroys failed and whoever
  // dropped out before; unless its runner dropped out since it was placed, that sandbox
  // is there.
  lemma RunningMatchesSandbox(cfg: Config, run: seq<World>, n: nat, id: AttemptId)
    requires IsRun(cfg, run) && n < |run| && id in run[n].attempts
    requires IsRunning(run[n].attempts[id])
    ensures var a := run[n].attempts[id];
      && (a.live.Some? ==> a.live.value == Sandbox(a.runner, a.row.value.seed, a.row.value.resolved))
      && (!a.severed ==> a.live.Some?)
      && a.route == Some(a.runner)
      && a.row.value.hasSandbox
  {
    RunIsSound(cfg, run, n);
  }

  // The n-th provision is made at the first seed plus n - 1, modulo 2^64, with what the
  // lab resolves to there, and n never passes the lab's bound.
  lemma SeedsAdvance(cfg: Config, run: seq<World>, n: nat, id: AttemptId)
    requires IsRun(cfg, run) && n < |run| && id in run[n].attempts
    requires run[n].attempts[id].worker.Starting?
    ensures var a := run[n].attempts[id];
      && 1 <= a.worker.n <= ProvisionAttempts(a.lab)
      && a.worker.seed == (a.firstSeed + a.worker.n - 1) % SEED_LIMIT
      && cfg.resolve(a.lab.id, a.worker.seed) == Some(a.worker.resolved)
      && (a.row.Some? ==> a.row.value.seed == a.worker.seed && a.row.value.resolved == a.worker.resolved)
  {
    RunIsSound(cfg, run, n);
  }

  // Once its worker is done and no destroy is pending, an attempt has a live sandbox, and
  // a routing entry to the runner it was placed on, exactly when it is running. The
  // exception is a worker that lost its row to a deletion.
  lemma SettledHasSandboxIffRunning(cfg: Config, run: seq<World>, n: nat, id: AttemptId)
    requires IsRun(cfg, run) && n < |run| && id in run[n].attempts
    requires var a := run[n].attempts[id]; Settled(a) && Reliable(a) && !a.deletedEarly
    ensures var a := run[n].attempts[id];
      && Clean(a)
      && (a.route.Some? ==> a.route.value == a.runner && a.live.value.runner == a.runner)
  {
    RunIsSound(cfg, run, n);
  }

  // The routing map and the runners' sandboxes, read off all attempts at once.
  lemma SettledWorld(cfg: Config, run: seq<World>, n: nat)
    requires IsRun(cfg, run) && n < |run|
    requires forall id | id in run[n].attempts ::
      var a := run[n].attempts[id]; Settled(a) && Reliable(a) && !a.deletedEarly
    ensures var w := run[n];
      var running := set id | id in w.attempts && IsRunning(w.attempts[id]);
      && (set id | id in w.attempts && w.attempts[id].live.Some?) == running
      && (map id | id in w.attempts && w.attempts[id].route.Some? :: w.attempts[id].route.value)
         == (map id | id in running :: w.attempts[id].runner)
  {
    var w := run[n];
    forall id | id in w.attempts
      ensures w.attempts[id].live.Some? <==> IsRunning(w.attempts[id])
      ensures w.attempts[id].route.Some? <==> IsRunning(w.attempts[id])
      ensures w.attempts[id].route.Some? ==> w.attempts[id].route.value == w.attempts[id].runner {
      SettledHasSandboxIffRunning(cfg, run, n, id);
    }
  }

  // A promotion that finds its row provisioning makes the attempt running, with the
  // sandbox and the route it had, the seed and the case its worker provisioned from.
  lemma PromotionRuns(cfg: Config, run: seq<World>, n: nat, id: AttemptId)
    requires IsRun(cfg, run) && n + 1 < |run| && id in run[n].attempts
    requires var a := run[n].attempts[id];
      && a.worker.Promoting? && a.row.Some? && a.row.value.status.Provisioning?
      && run[n + 1] == After(cfg, run[n], Act(id, Action.Promote))
    ensures var a, b := run[n].attempts[id], run[n + 1].attempts[id];
      && IsRunning(b) && b.row.value.seed == a.worker.seed && b.row.value.resolved == a.worker.resolved
      && b.live == a.live && b.route == a.route == Some(b.runner)
      && (!b.severed ==> b.live == Some(Sandbox(b.runner, a.worker.seed, a.worker.resolved)))
      && Settled(b)
  {
    RunIsSound(cfg, run, n);
    RunIsSound(cfg, run, n + 1);
  }

  // ----- the exception: a row deleted under its worker
  //
  // promote returns its error when the row is gone and leaves the sandbox as it is.

  predicate Leaked(a: Attempt) {
    a.worker.Lost? && a.async.NoDestroy? && a.row.None? && a.live.Some? && a.route.Some? && a.live.value.runner == a.runner
  }

  lemma LeakStays(cfg: Config, w: World, e: Event, id: AttemptId)
    requires Enabled(cfg, w, e) && id in w.attempts && Leaked(w.attempts[id])
    requires !After(cfg, w, e).attempts[id].severed
    ensures id in After(cfg, w, e).attempts && Leaked(After(cfg, w, e).attempts[id])
  {
  }

  lemma SeveredStays(cfg: Config, run: seq<World>, k: nat, id: AttemptId)
    requires IsRun(cfg, run) && k + 1 < |run| && id in run[k].attempts
    ensures id in run[k + 1].attempts && (run[k].attempts[id].severed ==> run[k + 1].attempts[id].severed)
    ensures Leaked(run[k].attempts[id]) && !run[k + 1].attempts[id].severed ==> Leaked(run[k + 1].attempts[id])
  {
    assert StepAt(cfg, run, k);
    var e :| Enabled(cfg, run[k], e) && run[k + 1] == After(cfg, run[k], e);
    if e.Act? && e.id == id { StaysSevered(run[k].attempts[id], cfg.resolve, run[k].connected, e.action); }
    if Leaked(run[k].attempts[id]) && !run[k + 1].attempts[id].severed { LeakStays(cfg, run[k], e, id); }
  }

  // It stays so for the rest of the run, unless its runner drops the connection.
  lemma {:induction false} LeakIsForever(cfg: Config, run: seq<World>, i: nat, j: nat, id: AttemptId)
    requires IsRun(cfg, run) && i <= j < |run|
    requires id in run[i].attempts && Leaked(run[i].attempts[id])
    ensures id in run[j].attempts && (!run[j].attempts[id].severed ==> Leaked(run[j].attempts[id]))
    decreases j
  {
    if i < j {
      LeakIsForever(cfg, run, i, j - 1, id);
      SeveredStays(cfg, run, j - 1, id);
    }
  }

  // A promotion that meets a deleted row, after the destroy that was pending had run out,
  // leaves a live and routed sandbox behind that nothing in the rest of the run removes,
  // unless its runner drops the connection.
  lemma PromotionOfDeletedLeaks(cfg: Config, run: seq<World>, i: nat, j: nat, id: AttemptId)
    requires IsRun(cfg, run) && i < j < |run| && id in run[i].attempts
    requires var a := run[i].attempts[id];
      && a.worker.Promoting? && a.row.None? && a.async.NoDestroy?
      && a.live.Some? && a.live.value.runner == a.runner && a.route.Some?
      && run[i + 1].attempts == run[i].attempts[id := Lifecycle.After(a, cfg.resolve, run[i].connected, Action.Promote)]
    ensures id in run[j].attempts
    ensures var a := run[j].attempts[id]; !a.severed ==> Settled(a) && !Clean(a) && a.live.Some? && a.route.Some?
  {
    assert Leaked(run[i + 1].attempts[id]);
    LeakIsForever(cfg, run, i + 1, j, id);
  }

  // A run that ends so: abandon while provisioning, let the destroy run, delete the row,
  // and only then does the provider return.
  ghost function LocalConfig(): Config {
    Config((name: RunnerName) => 1, (lab: string, seed: Seed) => Some(Resolved("default", map[])))
  }

  ghost function Only(a: Attempt): World {
    World(map["a" := a], {"local"}, {})
  }

  ghost function Then(a: Attempt, x: Action): Attempt
    requires Lifecycle.Enabled(a, x)
  {
    Lifecycle.After(a, LocalConfig().resolve, {"local"}, x)
  }

  lemma RunExtends(run: seq<World>, a: Attempt, x: Action)
    requires IsRun(LocalConfig(), run) && run[|run| - 1] == Only(a)
    requires Lifecycle.Enabled(a, x) && !x.MarkLeaving?
    ensures IsRun(LocalConfig(), run + [Only(Then(a, x))])
  {
    assert Enabled(LocalConfig(), Only(a), Act("a", x));
    assert Only(Then(a, x)) == After(LocalConfig(), Only(a), Act("a", x));
    assert Step(LocalConfig(), Only(a), Only(Then(a, x)));
    var longer := run + [Only(Then(a, x))];
    forall i | 0 <= i < |longer| - 1
      ensures StepAt(LocalConfig(), longer, i)
    {
      assert i < |run| - 1 ==> StepAt(LocalConfig(), run, i);
    }
  }

  // Just placed; and abandoned while provisioning, its destroy over, its row deleted.
  ghost const RESERVED := Reserved("u", Lab("lab", None), "local", 7, Resolved("default", map[]))
  ghost const DELETED := RESERVED.(row := None, deletedEarly := true)

  lemma RunToReserved() returns (run: seq<World>)
    ensures IsRun(LocalConfig(), run) && run[|run| - 1] == Only(RESERVED)
  {
    var cfg := LocalConfig();
    var w1 := After(cfg, EMPTY_WORLD, Connect("local"));
    var member := Schedule.Member("local", ["container"], 1, true);
    var reserve := Reserve("a", "u", Lab("lab", None), 7, "container", [member], "local");
    LocalIsFree(w1, member);
    assert Enabled(cfg, EMPTY_WORLD, Connect("local")) && Step(cfg, EMPTY_WORLD, w1);
    assert Enabled(cfg, w1, reserve);
    assert Only(RESERVED) == After(cfg, w1, reserve);
    assert Step(cfg, w1, Only(RESERVED));
    run := [EMPTY_WORLD, w1, Only(RESERVED)];
  }

  lemma RunToDeleted() returns (run: seq<World>)
    ensures IsRun(LocalConfig(), run) && run[|run| - 1] == Only(DELETED)
  {
    run := RunToReserved();
    RunExtends(run, RESERVED, End(Abandoned, {Provisioning, Running}));
    var ended := RESERVED.(row := Some(RESERVED.row.value.(status := Abandoned)), async := ToDestroy);
    run := run + [Only(ended)];
    RunExtends(run, ended, AsyncDestroy(true));
    run := run + [Only(ended.(async := ToUnroute))];
    RunExtends(run, ended.(async := ToUnroute), AsyncUnroute);
    run := run + [Only(ended.(async := NoDestroy))];
    RunExtends(run, ended.(async := NoDestroy), Delete);
    run := run + [Only(DELETED)];
  }

  lemma DeletionCanLeak()
    ensures exists run: seq<World> ::
      && IsRun(LocalConfig(), run)
      && var w := run[|run| - 1];
         "a" in w.attempts && Settled(w.attempts["a"]) && Reliable(w.attempts["a"])
         && !IsRunning(w.attempts["a"]) && Leaked(w.attempts["a"])
  {
    var run := RunToDeleted();
    var a1 := Then(DELETED, Provision(true));
    RunExtends(run, DELETED, Provision(true));
    run := run + [Only(a1)];
    var a2 := Then(a1, Bind);
    RunExtends(run, a1, Bind);
    run := run + [Only(a2)];
    var a3 := Then(a2, Promote);
    RunExtends(run, a2, Promote);
    run := run + [Only(a3)];
    assert run[|run| - 1] == Only(a3);
  }

  lemma LocalIsFree(w: World, member: Schedule.Member)
    requires w == World(map[], {"local"}, {}) && member == Schedule.Member("local", ["container"], 1, true)
    ensures Schedule.Answers([member], CountActiveByRunner(w.attempts), "container", Ok("local"))
  {
    assert member in [member] && "container" in member.capabilities;
    assert Schedule.IsChoice([member], CountActiveByRunner(w.attempts), "container", member);
  }

  // ----- a life that goes well

  ghost const RUNNING := RESERVED.(
    row := Some(Row(Running, 7, Resolved("default", map[]), true)), worker := Done,
    live := Some(Sandbox("local", 7, Resolved("default", map[]))), route := Some("local"))

  lemma RunToRunning() returns (run: seq<World>)
    ensures IsRun(LocalConfig(), run) && run[|run| - 1] == Only(RUNNING)
  {
    run := RunToReserved();
    var a1 := RESERVED.(worker := Unbound(1, 7, Resolved("default", map[])), live := RUNNING.live);
    RunExtends(run, RESERVED, Provision(true));
    run := run + [Only(a1)];
    var a2 := a1.(worker := Promoting(1, 7, Resolved("default", map[])), route := RUNNING.route);
    RunExtends(run, a1, Bind);
    run := run + [Only(a2)];
    RunExtends(run, a2, Promote);
    run := run + [Only(RUNNING)];
  }

  // An attempt can be placed, run, be passed, and leave nothing behind.
  lemma AttemptCanRunAndPass() returns (run: seq<World>, n: nat)
    ensures IsRun(LocalConfig(), run) && n < |run|
    ensures "a" in run[n].attempts && IsRunning(run[n].attempts["a"]) && run[n].attempts["a"].live.Some?
    ensures var a := run[|run| - 1].attempts; "a" in a && a["a"].row.None? && Over(a["a"]) && a["a"].worker.Done?
  {
    run := RunToRunning();
    n := |run| - 1;
    var passed := RUNNING.(row := Some(RUNNING.row.value.(status := Passed)), async := ToDestroy);
    RunExtends(run, RUNNING, End(Passed, {Running}));
    run := run + [Only(passed)];
    var destroyed := passed.(live := None, async := ToUnroute);
    RunExtends(run, passed, AsyncDestroy(true));
    run := run + [Only(destroyed)];
    var unrouted := destroyed.(route := None, async := NoDestroy);
    RunExtends(run, destroyed, AsyncUnroute);
    run := run + [Only(unrouted)];
    RunExtends(run, unrouted, Delete);
    run := run + [Only(unrouted.(row := None))];
  }
}
