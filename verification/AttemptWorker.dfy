// The retry loop of the provisioning worker (internal/attempt/service.go), as long as
// nobody else touches the attempt: what it does to the attempt, action by action, and
// what it comes to.

module AttemptWorker {
  import opened Wrappers
  import opened Lifecycle

  // ----- the retry loop

  datatype Verdict = Pass | Fail | Error

  // What the provider, the precheck, the destroy and the store answer, by provision number from 1.
  datatype Oracle = Oracle(provision: nat -> bool, precheck: nat -> Verdict, destroy: nat -> bool, store: nat -> bool)

  // The seed of the k-th try.
  ghost function SeedOf(seed: Seed, k: nat): Seed
    requires k >= 1
  {
    if k == 1 then seed else (SeedOf(seed, k - 1) + 1) % SEED_LIMIT
  }

  lemma {:induction false} SeedOfIs(seed: Seed, k: nat)
    requires k >= 1
    ensures SeedOf(seed, k) == (seed + k - 1) % SEED_LIMIT
  {
    if k > 1 {
      SeedOfIs(seed, k - 1);
      NextSeed(seed + k - 2);
    }
  }

  lemma NextSeed(n: nat)
    ensures (n % SEED_LIMIT + 1) % SEED_LIMIT == (n + 1) % SEED_LIMIT
  {
  }

  // The worker gets as far as the k-th provision.
  ghost predicate Reaches(o: Oracle, lab: Lab, resolve: Resolver, seed: Seed, k: nat) {
    && 1 <= k <= ProvisionAttempts(lab)
    && forall j | 1 <= j < k ::
         o.provision(j) && o.precheck(j).Fail? && resolve(lab.id, SeedOf(seed, j + 1)).Some? && o.store(j)
  }

  ghost predicate Succeeds(o: Oracle, lab: Lab, resolve: Resolver, seed: Seed, k: nat) {
    Reaches(o, lab, resolve, seed, k) && o.provision(k) && (lab.precheckRetries.None? || o.precheck(k).Pass?)
  }

  lemma ReachesNext(o: Oracle, lab: Lab, resolve: Resolver, seed: Seed, k: nat)
    requires Reaches(o, lab, resolve, seed, k) && k < ProvisionAttempts(lab)
    requires o.provision(k) && o.precheck(k).Fail? && resolve(lab.id, SeedOf(seed, k + 1)).Some? && o.store(k)
    ensures Reaches(o, lab, resolve, seed, k + 1)
  {
  }

  // The k-th try is the last and no good.
  predicate Stops(o: Oracle, lab: Lab, resolve: Resolver, next: Seed, k: nat) {
    || !o.provision(k)
    || (lab.precheckRetries.Some? && o.precheck(k).Error?)
    || (lab.precheckRetries.Some? && o.precheck(k).Fail?
        && (k == ProvisionAttempts(lab) || resolve(lab.id, next).None? || !o.store(k)))
  }

  lemma NoneSucceeds(o: Oracle, lab: Lab, resolve: Resolver, seed: Seed, k: nat)
    requires Reaches(o, lab, resolve, seed, k) && Stops(o, lab, resolve, SeedOf(seed, k + 1), k)
    requires k > 1 ==> lab.precheckRetries.Some?
    ensures forall j: nat :: !Succeeds(o, lab, resolve, seed, j)
  {
  }

  // After a provision and its bind.
  function Bound(a: Attempt): Attempt
    requires a.worker.Starting?
  {
    var w := a.worker;
    a.(worker := if a.lab.precheckRetries.None? then Promoting(w.n, w.seed, w.resolved) else Prechecking(w.n, w.seed, w.resolved),
       live := Some(Sandbox(a.runner, w.seed, w.resolved)), route := Some(a.runner))
  }

  // After a destroy by the worker: it goes on to the next seed or gives up.
  function Undone(a: Attempt, works: bool, retry: bool): Attempt
    requires a.worker.Prechecking?
  {
    var w := a.worker;
    a.(worker := if retry then Reseeding(w.n, w.seed) else Failing, route := None,
       live := if works then None else a.live, failedDestroy := a.failedDestroy || !works)
  }

  // How a try ends: ready to promote, over after so many provisions, or on to the next.
  datatype Outcome = Ready | GaveUp(provisioned: bool) | GoOn

  predicate CanTry(a: Attempt) {
    a.worker.Starting? && a.row.Some? && 1 <= a.worker.n <= ProvisionAttempts(a.lab)
  }

  // The next try: its seed resolved and stored.
  function Reseeded(a: Attempt, seed: Seed, next: Resolved): Attempt
    requires a.worker.Reseeding? && a.row.Some?
  {
    a.(worker := Starting(a.worker.n + 1, seed, next), row := Some(a.row.value.(seed := seed, resolved := next)))
  }

  function AfterReseeding(a: Attempt, resolve: Resolver, stores: bool): (Outcome, Attempt)
    requires a.worker.Reseeding? && a.row.Some?
  {
    var seed: Seed := (a.worker.seed + 1) % SEED_LIMIT;
    var next := resolve(a.lab.id, seed);
    if next.None? || !stores then (GaveUp(true), a.(worker := Failing)) else (GoOn, Reseeded(a, seed, next.value))
  }

  // One round of the loop on the attempt.
  function AfterTry(a: Attempt, resolve: Resolver, o: Oracle): (Outcome, Attempt)
    requires CanTry(a)
  {
    var n, last := a.worker.n, a.worker.n == ProvisionAttempts(a.lab);
    if !o.provision(n) then (GaveUp(false), a.(worker := Failing))
    else if a.lab.precheckRetries.None? then (Ready, Bound(a))
    else
      match o.precheck(n)
      case Pass => (Ready, Bound(a).(worker := Promoting(n, a.worker.seed, a.worker.resolved)))
      case Error => (GaveUp(true), Undone(Bound(a), o.destroy(n), false))
      case Fail =>
        if last then (GaveUp(true), Undone(Bound(a), o.destroy(n), false))
        else AfterReseeding(Undone(Bound(a), o.destroy(n), true), resolve, o.store(n))
  }

  // All rounds from here on, and how many provisions there were in all.
  function AfterTries(a: Attempt, resolve: Resolver, o: Oracle): (bool, nat, Attempt)
    requires CanTry(a)
    decreases ProvisionAttempts(a.lab) - a.worker.n
  {
    var (outcome, b) := AfterTry(a, resolve, o);
    match outcome
    case Ready => (true, a.worker.n, b)
    case GaveUp(provisioned) => (false, if provisioned then a.worker.n else a.worker.n - 1, b)
    case GoOn => AfterTries(b, resolve, o)
  }

  lemma TryGoesOn(a: Attempt, resolve: Resolver, o: Oracle)
    requires CanTry(a)
    ensures var (outcome, b) := AfterTry(a, resolve, o);
            match outcome
            case GoOn => CanTry(b) && b.worker.n == a.worker.n + 1 && b.lab == a.lab && b.runner == a.runner
            case Ready => b.worker == Promoting(a.worker.n, a.worker.seed, a.worker.resolved)
            case GaveUp(_) => b.worker.Failing?
  {
  }

  method Try(lab: Lab, resolve: Resolver, n: nat, seed: Seed, o: Oracle, ghost a: Attempt)
    returns (outcome: Outcome, seed': Seed, resolved': Option<Resolved>)
    requires CanTry(a) && a.worker.n == n && a.worker.seed == seed && a.lab == lab
    ensures var (expected, b) := AfterTry(a, resolve, o);
            outcome == expected && (outcome.GoOn? ==> b.worker.seed == seed' && resolved' == Some(b.worker.resolved))
  {
    seed', resolved' := seed, None;
    if !o.provision(n) { return GaveUp(false), seed', resolved'; }
    if lab.precheckRetries.None? { return Ready, seed', resolved'; }
    match o.precheck(n) {
      case Error => return GaveUp(true), seed', resolved';
      case Pass => return Ready, seed', resolved';
      case Fail => if n == ProvisionAttempts(lab) { return GaveUp(true), seed', resolved'; }
    }
    seed' := (seed + 1) % SEED_LIMIT;
    resolved' := resolve(lab.id, seed');
    outcome := if resolved'.None? || !o.store(n) then GaveUp(true) else GoOn;
  }

  method ProvisionUntilPrechecked(lab: Lab, resolve: Resolver, seed0: Seed, resolved0: Resolved, o: Oracle, ghost a: Attempt)
    returns (r: Option<(Seed, Resolved)>, provisions: nat)
    requires CanTry(a) && a.worker == Starting(1, seed0, resolved0) && a.lab == lab
    ensures var (done, n, b) := AfterTries(a, resolve, o);
            && provisions == n && (r.Some? <==> done)
            && (r.Some? ==> b.worker.Promoting? && r.value == (b.worker.seed, b.worker.resolved))
  {
    var seed: Seed, resolved, attempt := seed0, resolved0, 1;
    ghost var at := a;
    while true
      invariant CanTry(at) && at.worker == Starting(attempt, seed, resolved) && at.lab == lab
      invariant AfterTries(a, resolve, o) == AfterTries(at, resolve, o)
      decreases ProvisionAttempts(lab) - attempt
    {
      TryGoesOn(at, resolve, o);
      var outcome, nextSeed, next := Try(lab, resolve, attempt, seed, o, at);
      at := AfterTry(at, resolve, o).1;
      match outcome {
        case Ready => return Some((seed, resolved)), attempt;
        case GaveUp(provisioned) => return None, if provisioned then attempt else attempt - 1;
        case GoOn => seed, resolved, attempt := nextSeed, next.value, attempt + 1;
      }
    }
  }

  // ----- the actions it takes

  // Every action possible when it comes, the attempt being b after the last.
  ghost predicate Leads(a: Attempt, xs: seq<Action>, b: Attempt, resolve: Resolver, connected: set<RunnerName>)
    decreases |xs|
  {
    if xs == [] then a == b
    else Lifecycle.Enabled(a, xs[0]) && Leads(Lifecycle.After(a, resolve, connected, xs[0]), xs[1..], b, resolve, connected)
  }

  lemma {:induction false} LeadsOn(a: Attempt, xs: seq<Action>, b: Attempt, ys: seq<Action>, c: Attempt,
                                   resolve: Resolver, connected: set<RunnerName>)
    requires Leads(a, xs, b, resolve, connected) && Leads(b, ys, c, resolve, connected)
    ensures Leads(a, xs + ys, c, resolve, connected)
    decreases |xs|
  {
    if xs == [] {
      assert xs + ys == ys;
    } else {
      assert (xs + ys)[1..] == xs[1..] + ys;
      LeadsOn(Lifecycle.After(a, resolve, connected, xs[0]), xs[1..], b, ys, c, resolve, connected);
    }
  }

  lemma LeadsOne(a: Attempt, x: Action, resolve: Resolver, connected: set<RunnerName>)
    requires Lifecycle.Enabled(a, x)
    ensures Leads(a, [x], Lifecycle.After(a, resolve, connected, x), resolve, connected)
  {
    assert [x][1..] == [];
  }

  lemma LeadsTwo(a: Attempt, x: Action, y: Action, resolve: Resolver, connected: set<RunnerName>)
    requires Lifecycle.Enabled(a, x) && Lifecycle.Enabled(Lifecycle.After(a, resolve, connected, x), y)
    ensures Leads(a, [x, y], Lifecycle.After(Lifecycle.After(a, resolve, connected, x), resolve, connected, y), resolve, connected)
  {
    LeadsOne(Lifecycle.After(a, resolve, connected, x), y, resolve, connected);
    assert [x, y][1..] == [y];
  }

  lemma Binds(a: Attempt, resolve: Resolver, connected: set<RunnerName>)
    requires a.worker.Starting?
    ensures Leads(a, [Action.Provision(true), Action.Bind], Bound(a), resolve, connected)
  {
    LeadsTwo(a, Action.Provision(true), Action.Bind, resolve, connected);
  }

  lemma Undoes(a: Attempt, resolve: Resolver, connected: set<RunnerName>, x: Action, works: bool)
    requires a.worker.Prechecking? && (x.PrecheckFail? || x.PrecheckError?) && a.runner in connected
    ensures Leads(a, [x] + [WorkerDestroy(works), WorkerUnroute],
                  Undone(a, works, x.PrecheckFail? && a.worker.n != ProvisionAttempts(a.lab)), resolve, connected)
  {
    var b := Lifecycle.After(a, resolve, connected, x);
    LeadsOne(a, x, resolve, connected);
    LeadsTwo(b, WorkerDestroy(works), WorkerUnroute, resolve, connected);
    LeadsOn(a, [x], b, [WorkerDestroy(works), WorkerUnroute],
            Undone(a, works, x.PrecheckFail? && a.worker.n != ProvisionAttempts(a.lab)), resolve, connected);
  }

  lemma Reseeds(a: Attempt, resolve: Resolver, connected: set<RunnerName>, stores: bool)
    requires a.worker.Reseeding? && a.row.Some?
    ensures Leads(a, [Reseed(stores)], AfterReseeding(a, resolve, stores).1, resolve, connected)
  {
    LeadsOne(a, Reseed(stores), resolve, connected);
  }

  lemma PrecheckLeads(a: Attempt, resolve: Resolver, connected: set<RunnerName>, o: Oracle) returns (xs: seq<Action>)
    requires CanTry(a) && a.runner in connected && o.provision(a.worker.n) && a.lab.precheckRetries.Some?
    ensures Leads(Bound(a), xs, AfterTry(a, resolve, o).1, resolve, connected)
  {
    var n := a.worker.n;
    match o.precheck(n)
    case Pass =>
      xs := [PrecheckPass];
      LeadsOne(Bound(a), PrecheckPass, resolve, connected);
    case Error =>
      xs := [PrecheckError] + [WorkerDestroy(o.destroy(n)), WorkerUnroute];
      Undoes(Bound(a), resolve, connected, PrecheckError, o.destroy(n));
    case Fail =>
      xs := [PrecheckFail] + [WorkerDestroy(o.destroy(n)), WorkerUnroute];
      Undoes(Bound(a), resolve, connected, PrecheckFail, o.destroy(n));
      if n != ProvisionAttempts(a.lab) {
        var b := Undone(Bound(a), o.destroy(n), true);
        Reseeds(b, resolve, connected, o.store(n));
        LeadsOn(Bound(a), xs, b, [Reseed(o.store(n))], AfterReseeding(b, resolve, o.store(n)).1, resolve, connected);
        xs := xs + [Reseed(o.store(n))];
      }
  }

  lemma TryLeads(a: Attempt, resolve: Resolver, connected: set<RunnerName>, o: Oracle) returns (xs: seq<Action>)
    requires CanTry(a) && a.runner in connected
    ensures Leads(a, xs, AfterTry(a, resolve, o).1, resolve, connected)
  {
    if !o.provision(a.worker.n) {
      xs := [Action.Provision(false)];
      LeadsOne(a, Action.Provision(false), resolve, connected);
    } else {
      xs := [Action.Provision(true), Action.Bind];
      Binds(a, resolve, connected);
      if a.lab.precheckRetries.Some? {
        var ys := PrecheckLeads(a, resolve, connected, o);
        LeadsOn(a, xs, Bound(a), ys, AfterTry(a, resolve, o).1, resolve, connected);
        xs := xs + ys;
      }
    }
  }

  // The whole loop is a sequence of actions of the attempt's life.
  lemma {:induction false} TriesLead(a: Attempt, resolve: Resolver, connected: set<RunnerName>, o: Oracle) returns (xs: seq<Action>)
    requires CanTry(a) && a.runner in connected
    ensures Leads(a, xs, AfterTries(a, resolve, o).2, resolve, connected)
    decreases ProvisionAttempts(a.lab) - a.worker.n
  {
    xs := TryLeads(a, resolve, connected, o);
    TryGoesOn(a, resolve, o);
    var (outcome, b) := AfterTry(a, resolve, o);
    if outcome.GoOn? {
      var ys := TriesLead(b, resolve, connected, o);
      LeadsOn(a, xs, b, ys, AfterTries(a, resolve, o).2, resolve, connected);
      xs := xs + ys;
    }
  }

  // ----- what the loop comes to

  // What the tries do to the attempt: nothing but this.
  predicate IsTried(a: Attempt, b: Attempt) {
    && a.row.Some? && b.row.Some?
    && b == a.(worker := b.worker, live := b.live, route := b.route, failedDestroy := b.failedDestroy,
               row := Some(a.row.value.(seed := b.row.value.seed, resolved := b.row.value.resolved)))
  }

  // A worker at its n-th try, from the n-th seed, all before it having failed.
  ghost predicate IsAt(a: Attempt, resolve: Resolver, o: Oracle, seed0: Seed) {
    && CanTry(a) && a.route.None?
    && var w := a.worker;
       && w.seed == SeedOf(seed0, w.n) && resolve(a.lab.id, w.seed) == Some(w.resolved)
       && a.row.value.seed == w.seed && a.row.value.resolved == w.resolved
       && Reaches(o, a.lab, resolve, seed0, w.n) && (w.n > 1 ==> a.lab.precheckRetries.Some?)
       && (a.live.Some? <==> w.n > 1 && !o.destroy(w.n - 1))
  }

  lemma ReadyIs(a: Attempt, resolve: Resolver, o: Oracle)
    requires CanTry(a) && AfterTry(a, resolve, o).0.Ready?
    ensures var w := a.worker;
            && AfterTry(a, resolve, o).1 == Bound(a).(worker := Promoting(w.n, w.seed, w.resolved))
            && o.provision(w.n) && (a.lab.precheckRetries.None? || o.precheck(w.n).Pass?)
  {
  }

  lemma GaveUpIs(a: Attempt, resolve: Resolver, o: Oracle)
    requires CanTry(a) && a.route.None? && AfterTry(a, resolve, o).0.GaveUp?
    ensures var (outcome, b) := AfterTry(a, resolve, o);
            && Stops(o, a.lab, resolve, (a.worker.seed + 1) % SEED_LIMIT, a.worker.n)
            && outcome.provisioned == o.provision(a.worker.n)
            && b == a.(worker := Failing, live := b.live, failedDestroy := b.failedDestroy)
            && (b.live.Some? <==> if outcome.provisioned then !o.destroy(a.worker.n) else a.live.Some?)
  {
  }

  lemma GoOnIs(a: Attempt, resolve: Resolver, o: Oracle, seed0: Seed)
    requires IsAt(a, resolve, o, seed0) && AfterTry(a, resolve, o).0.GoOn?
    ensures IsAt(AfterTry(a, resolve, o).1, resolve, o, seed0) && IsTried(a, AfterTry(a, resolve, o).1)
  {
    ReachesNext(o, a.lab, resolve, seed0, a.worker.n);
  }

  lemma TriedTwice(a: Attempt, b: Attempt, c: Attempt)
    requires IsTried(a, b) && IsTried(b, c)
    ensures IsTried(a, c)
  {
  }

  // The tries from the n-th on succeed at most once, at the k that Succeeds describes;
  // the sandbox of that try is then live and routed. Otherwise none succeeds, there is no
  // route, and a sandbox exactly when the last destroy failed.
  ghost predicate IsOutcome(a: Attempt, resolve: Resolver, o: Oracle, seed0: Seed, done: bool, provisions: nat, b: Attempt) {
    && IsTried(a, b)
    && provisions <= ProvisionAttempts(a.lab)
    && if done then
         && b.worker.Promoting? && b.worker.n == provisions && Succeeds(o, a.lab, resolve, seed0, provisions)
         && b.worker.seed == SeedOf(seed0, provisions)
         && resolve(a.lab.id, b.worker.seed) == Some(b.worker.resolved)
         && b.row.value.seed == b.worker.seed && b.row.value.resolved == b.worker.resolved
         && b.live == Some(Sandbox(a.runner, b.worker.seed, b.worker.resolved)) && b.route == Some(a.runner)
       else
         && (forall k: nat :: !Succeeds(o, a.lab, resolve, seed0, k))
         && b.worker.Failing? && b.route.None?
         && (b.live.Some? <==> provisions > 0 && !o.destroy(provisions))
  }

  lemma {:induction false} TriesAre(a: Attempt, resolve: Resolver, o: Oracle, seed0: Seed)
    requires IsAt(a, resolve, o, seed0)
    ensures var (done, provisions, b) := AfterTries(a, resolve, o); IsOutcome(a, resolve, o, seed0, done, provisions, b)
    decreases ProvisionAttempts(a.lab) - a.worker.n
  {
    var (outcome, b) := AfterTry(a, resolve, o);
    TryGoesOn(a, resolve, o);
    match outcome
    case Ready => ReadyIs(a, resolve, o);
    case GaveUp(_) =>
      GaveUpIs(a, resolve, o);
      NoneSucceeds(o, a.lab, resolve, seed0, a.worker.n);
    case GoOn =>
      GoOnIs(a, resolve, o, seed0);
      TriesAre(b, resolve, o, seed0);
      TriedTwice(a, b, AfterTries(a, resolve, o).2);
  }

  // From a reservation on: at most the bound of provisions are made; success is at the
  // one k at which the run of failed prechecks ends, from the seed k - 1 past the first
  // modulo 2^64, and leaves that try's sandbox live and routed.
  lemma LoopIs(user: string, lab: Lab, runner: RunnerName, seed: Seed, resolved: Resolved, resolve: Resolver, o: Oracle)
    requires ProvisionAttempts(lab) >= 1 && resolve(lab.id, seed) == Some(resolved)
    ensures var a := Reserved(user, lab, runner, seed, resolved);
            var (done, k, b) := AfterTries(a, resolve, o);
            && IsOutcome(a, resolve, o, seed, done, k, b)
            && (done ==> b.worker.seed == (seed + k - 1) % SEED_LIMIT)
  {
    var a := Reserved(user, lab, runner, seed, resolved);
    var (done, k, b) := AfterTries(a, resolve, o);
    TriesAre(a, resolve, o, seed);
    if done { SeedOfIs(seed, k); }
  }

  // Success is at one k only.
  lemma SucceedsOnce(o: Oracle, lab: Lab, resolve: Resolver, seed: Seed, j: nat, k: nat)
    requires Succeeds(o, lab, resolve, seed, j) && Succeeds(o, lab, resolve, seed, k)
    ensures j == k
  {
  }
}
