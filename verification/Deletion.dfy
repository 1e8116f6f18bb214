// Deleting an attempt under its provisioning worker (internal/attempt/service.go): the
// exact condition under which the sandbox and its routing entry are still cleaned up.

module Deletion {
  import opened Wrappers
  import opened Lifecycle

  // What does not change while one attempt lives on; its own runner is connected.
  datatype Env = Env(resolve: Resolver, connected: set<RunnerName>)

  predicate Fits(env: Env, a: Attempt) {
    a.runner in env.connected && !a.severed
  }

  ghost predicate Step(env: Env, a: Attempt, b: Attempt) {
    exists x :: Enabled(a, x) && b == After(a, env.resolve, env.connected, x)
  }

  // Any interleaving of actions from a on.
  ghost predicate IsLife(env: Env, life: seq<Attempt>, a: Attempt) {
    life != [] && life[0] == a && forall i | 0 <= i < |life| - 1 :: StepAt(env, life, i)
  }

  ghost predicate StepAt(env: Env, life: seq<Attempt>, i: nat)
    requires i + 1 < |life|
  {
    Step(env, life[i], life[i + 1])
  }

  // The pending destroy will still remove what there is.
  predicate Covered(a: Attempt) {
    match a.async
    case ToDestroy => true
    case ToUnroute => a.live.None?
    case NoDestroy => a.live.None? && a.route.None?
  }

  // The worker has yet to make the sandbox or to route it, or is about to promote one
  // that no pending destroy removes.
  predicate UnsafeToDelete(a: Attempt) {
    || a.worker.Starting?
    || a.worker.Unbound?
    || ((a.worker.Prechecking? || a.worker.Promoting?) && !Covered(a))
  }

  function Deleted(a: Attempt): Attempt {
    a.(row := None, deletedEarly := a.deletedEarly || !Finished(a.worker))
  }

  // ----- otherwise everything is cleaned up

  predicate GoneOk(a: Attempt) {
    && a.row.None?
    && match a.worker
       case Starting(_, _, _) => false
       case Unbound(_, _, _) => false
       case Destroying(_, _, _) => true
       case Dropping => true
       case Unrouting(_, _, _) => a.live.None?
       case DroppingRoute => a.live.None?
       case Reseeding(_, _) => a.live.None? && a.route.None?
       case Failing => a.live.None? && a.route.None?
       case _ => Covered(a)
  }

  lemma StepKeepsGone(env: Env, a: Attempt, b: Attempt)
    requires Step(env, a, b) && Fits(env, a)
    requires !a.failedDestroy ==> GoneOk(a)
    ensures b.runner == a.runner && b.severed == a.severed && (!b.failedDestroy ==> GoneOk(b))
  {
    var x :| Enabled(a, x) && b == After(a, env.resolve, env.connected, x);
    if a.failedDestroy {
      assert b.failedDestroy;
    } else {
      ActionKeepsGone(env, a, x);
    }
  }

  lemma ActionKeepsGone(env: Env, a: Attempt, x: Action)
    requires Enabled(a, x) && Fits(env, a) && GoneOk(a) && !a.failedDestroy
    ensures var b := After(a, env.resolve, env.connected, x); !b.failedDestroy ==> GoneOk(b)
    ensures After(a, env.resolve, env.connected, x).runner == a.runner && After(a, env.resolve, env.connected, x).severed == a.severed
  {
  }

  lemma {:induction false} LifeStaysGone(env: Env, life: seq<Attempt>, a: Attempt, i: nat)
    requires IsLife(env, life, a) && i < |life| && Fits(env, a) && GoneOk(a)
    ensures life[i].runner == a.runner && life[i].severed == a.severed && (!life[i].failedDestroy ==> GoneOk(life[i]))
  {
    if i > 0 {
      LifeStaysGone(env, life, a, i - 1);
      assert StepAt(env, life, i - 1);
      StepKeepsGone(env, life[i - 1], life[i]);
    }
  }

  // ----- and here it need not be

  ghost predicate CanBecome(env: Env, a: Attempt, b: Attempt) {
    exists life :: IsLife(env, life, a) && life[|life| - 1] == b
  }

  lemma CanBecomeItself(env: Env, a: Attempt)
    ensures CanBecome(env, a, a)
  {
    assert IsLife(env, [a], a);
  }

  lemma GoesOn(env: Env, a: Attempt, b: Attempt, x: Action)
    requires CanBecome(env, a, b) && Enabled(b, x)
    ensures CanBecome(env, a, After(b, env.resolve, env.connected, x))
  {
    var c := After(b, env.resolve, env.connected, x);
    var life :| IsLife(env, life, a) && life[|life| - 1] == b;
    var longer := life + [c];
    assert Step(env, b, c);
    forall i | 0 <= i < |longer| - 1
      ensures StepAt(env, longer, i)
    {
      assert i < |life| - 1 ==> StepAt(env, life, i);
    }
    assert IsLife(env, longer, a);
  }

  // The pending destroy runs to its end.
  lemma Drains(env: Env, a: Attempt, b: Attempt) returns (c: Attempt)
    requires CanBecome(env, a, b) && Fits(env, b)
    ensures CanBecome(env, a, c) && c == b.(async := NoDestroy, live := c.live, route := c.route)
    ensures b.async.ToUnroute? ==> c.live == b.live
    ensures b.async.NoDestroy? ==> c == b
  {
    c := b;
    if c.async.ToDestroy? {
      GoesOn(env, a, c, AsyncDestroy(true));
      c := After(c, env.resolve, env.connected, AsyncDestroy(true));
    }
    if c.async.ToUnroute? {
      GoesOn(env, a, c, AsyncUnroute);
      c := After(c, env.resolve, env.connected, AsyncUnroute);
    }
  }

  // The worker passes its precheck, finds the row gone and stops.
  lemma PromotesIntoNothing(env: Env, a: Attempt, b: Attempt) returns (c: Attempt)
    requires CanBecome(env, a, b) && (b.worker.Prechecking? || b.worker.Promoting?)
    requires b.row.None? && b.async.NoDestroy? && (b.live.Some? || b.route.Some?)
    ensures CanBecome(env, a, c) && Settled(c) && c.failedDestroy == b.failedDestroy && !Clean(c)
  {
    c := b;
    if c.worker.Prechecking? {
      GoesOn(env, a, c, PrecheckPass);
      c := After(c, env.resolve, env.connected, PrecheckPass);
    }
    GoesOn(env, a, c, Promote);
    c := After(c, env.resolve, env.connected, Promote);
  }

  lemma UnsafeCanLeak(env: Env, a: Attempt) returns (c: Attempt)
    requires Fits(env, a) && a.row.None? && !a.failedDestroy && UnsafeToDelete(a)
    ensures CanBecome(env, a, c) && Settled(c) && !c.failedDestroy && !Clean(c)
  {
    CanBecomeItself(env, a);
    var b := Drains(env, a, a);
    if b.worker.Starting? {
      GoesOn(env, a, b, Provision(true));
      b := After(b, env.resolve, env.connected, Provision(true));
    }
    if b.worker.Unbound? {
      GoesOn(env, a, b, Bind);
      b := After(b, env.resolve, env.connected, Bind);
    }
    c := PromotesIntoNothing(env, a, b);
  }

  // Every interleaving after the deletion whose destroys succeed ends without a sandbox
  // and without a routing entry.
  ghost predicate SafelyDeleted(env: Env, a: Attempt) {
    forall b | CanBecome(env, Deleted(a), b) && Settled(b) && !b.failedDestroy :: Clean(b)
  }

  ghost predicate Deletable(env: Env, a: Attempt) {
    AttemptOk(a, env.resolve) && Fits(env, a) && !a.failedDestroy && Enabled(a, Delete)
  }

  // Whatever the attempt, deleting its row is safe if and only if its worker is not in
  // one of those phases.
  lemma DeletionIsSafeIff(env: Env, a: Attempt)
    requires Deletable(env, a)
    ensures SafelyDeleted(env, a) <==> !UnsafeToDelete(a)
  {
    if UnsafeToDelete(a) {
      var c := UnsafeCanLeak(env, Deleted(a));
      assert CanBecome(env, Deleted(a), c) && Settled(c) && !c.failedDestroy && !Clean(c);
    } else {
      assert GoneOk(Deleted(a));
      forall b | CanBecome(env, Deleted(a), b) && Settled(b) && !b.failedDestroy
        ensures Clean(b)
      {
        var life :| IsLife(env, life, Deleted(a)) && life[|life| - 1] == b;
        LifeStaysGone(env, life, Deleted(a), |life| - 1);
      }
    }
  }

  // ----- what the row shows

  // An attempt with this row whose worker has yet to provision: just placed and ended.
  function EndedEarly(row: Row): Attempt {
    Attempt("user", Lab("lab", None), "runner", row.seed, Some(row), Starting(1, row.seed, row.resolved),
            None, None, ToDestroy, false, false, false, false)
  }

  function EnvOf(row: Row): Env {
    Env((lab: string, seed: Seed) => Some(row.resolved), {"runner"})
  }

  lemma EndedEarlyIsReached(row: Row)
    requires IsTerminal(row.status) && !row.hasSandbox
    ensures var env := EnvOf(row);
            && AttemptOk(Reserved("user", Lab("lab", None), "runner", row.seed, row.resolved), env.resolve)
            && CanBecome(env, Reserved("user", Lab("lab", None), "runner", row.seed, row.resolved), EndedEarly(row))
            && Deletable(env, EndedEarly(row))
  {
    var env, placed := EnvOf(row), Reserved("user", Lab("lab", None), "runner", row.seed, row.resolved);
    CanBecomeItself(env, placed);
    GoesOn(env, placed, placed, End(row.status, {Provisioning}));
    assert After(placed, env.resolve, env.connected, End(row.status, {Provisioning})) == EndedEarly(row);
  }

  // All that a caller of Delete can see is the row, and it decides: deletion is safe for
  // every attempt with that row if and only if the row holds a sandbox id.
  lemma RowDecidesDeletion(row: Row)
    requires IsTerminal(row.status)
    ensures (forall env, a | Deletable(env, a) && a.row == Some(row) :: SafelyDeleted(env, a)) <==> row.hasSandbox
  {
    if row.hasSandbox {
      forall env, a | Deletable(env, a) && a.row == Some(row)
        ensures SafelyDeleted(env, a)
      {
        assert a.worker.Done?;
        DeletionIsSafeIff(env, a);
      }
    } else {
      EndedEarlyIsReached(row);
      DeletionIsSafeIff(EnvOf(row), EndedEarly(row));
    }
  }
}
