// The cycle check over required checkpoints (internal/content/validate_rules.go).

module Requires {
  import opened Labs

  // Each known id with the ids it requires.
  type Graph = map<string, seq<string>>

  datatype Colour = Grey | Black

  // Ids not in the map are white.
  type Colours = map<string, Colour>

  datatype RequireError = Missing(checkpoint: nat, id: string) | CycleThrough(text: string)

  function Nexts(g: Graph, id: string): seq<string> {
    if id in g then g[id] else []
  }

  function Text(chain: seq<string>): string {
    if chain == [] then ""
    else if |chain| == 1 then chain[0]
    else chain[0] + " -> " + Text(chain[1..])
  }

  // ----- the search

  ghost function Unvisited(g: Graph, state: Colours): nat {
    |g.Keys - state.Keys|
  }

  lemma UnvisitedFalls(g: Graph, state: Colours, state': Colours)
    requires state.Keys <= state'.Keys
    ensures Unvisited(g, state') <= Unvisited(g, state)
  {
    var left, left' := g.Keys - state.Keys, g.Keys - state'.Keys;
    assert left' <= left;
    assert left == left' + (left - left');
  }

  // A first visit leaves fewer nodes unvisited, or has nowhere to go on to.
  lemma VisitLeavesFewer(g: Graph, state: Colours, id: string)
    requires id !in state
    ensures Unvisited(g, state[id := Grey]) < Unvisited(g, state)
         || (Unvisited(g, state[id := Grey]) == Unvisited(g, state) && Nexts(g, id) == [])
  {
    var left, left' := g.Keys - state.Keys, g.Keys - state[id := Grey].Keys;
    if id in g {
      assert left == left' + {id};
    } else {
      assert left == left';
    }
  }

  // The chain found from id, if any, and the colours afterwards. A chain counts as found
  // when its text is not empty.
  function Visit(g: Graph, state: Colours, id: string): (r: (seq<string>, Colours))
    ensures state.Keys <= r.1.Keys
    decreases Unvisited(g, state), 0, 1
  {
    if id in state then (if state[id].Grey? then [id] else [], state)
    else
      VisitLeavesFewer(g, state, id);
      var (chain, after) := VisitAll(g, state[id := Grey], Nexts(g, id));
      if Text(chain) != "" then ([id] + chain, after) else ([], after[id := Black])
  }

  function VisitAll(g: Graph, state: Colours, ids: seq<string>): (r: (seq<string>, Colours))
    ensures state.Keys <= r.1.Keys
    decreases Unvisited(g, state), |ids|, 0
  {
    if ids == [] then ([], state)
    else
      var (chain, after) := Visit(g, state, ids[0]);
      UnvisitedFalls(g, state, after);
      if Text(chain) != "" then (chain, after) else VisitAll(g, after, ids[1..])
  }

  class Finder {
    const known: Graph
    var state: Colours

    constructor (known: Graph)
      ensures this.known == known && state == map[]
    {
      this.known := known;
      state := map[];
    }

    // Depth first; the number of unvisited checkpoints falls with every level.
    method FindCycle(id: string) returns (cycle: string)
      modifies this
      ensures cycle == Text(Visit(known, old(state), id).0) && state == Visit(known, old(state), id).1
      decreases Unvisited(known, state)
    {
      if id in state { return if state[id].Grey? then id else ""; }
      ghost var before := state;
      VisitLeavesFewer(known, state, id);
      state := state[id := Grey];
      var nexts := Nexts(known, id);
      for i := 0 to |nexts|
        invariant before[id := Grey].Keys <= state.Keys
        invariant VisitAll(known, before[id := Grey], nexts) == VisitAll(known, state, nexts[i..])
      {
        UnvisitedFalls(known, before[id := Grey], state);
        cycle := FindCycle(nexts[i]);
        if cycle != "" {
          return id + " -> " + cycle;
        }
        assert nexts[i..][1..] == nexts[i + 1..];
      }
      state := state[id := Black];
      return "";
    }
  }

  // ----- the whole check

  function Known(cps: seq<Checkpoint>): Graph {
    if cps == [] then map[]
    else Known(cps[..|cps| - 1])[cps[|cps| - 1].id := cps[|cps| - 1].needs]
  }

  function MissingFrom(g: Graph, at: nat, needs: seq<string>): seq<RequireError> {
    if needs == [] then []
    else
      var before := MissingFrom(g, at, needs[..|needs| - 1]);
      var id := needs[|needs| - 1];
      if id in g then before else before + [Missing(at, id)]
  }

  function AllMissing(g: Graph, cps: seq<Checkpoint>): seq<RequireError> {
    if cps == [] then []
    else AllMissing(g, cps[..|cps| - 1]) + MissingFrom(g, |cps| - 1, cps[|cps| - 1].needs)
  }

  // The chain the search over all checkpoints ends with.
  function Chain(cps: seq<Checkpoint>): seq<string> {
    VisitAll(Known(cps), map[], Ids(cps)).0
  }

  function RequireErrors(cps: seq<Checkpoint>): seq<RequireError> {
    var missing := AllMissing(Known(cps), cps);
    if missing != [] then missing
    else if Text(Chain(cps)) != "" then [CycleThrough(Text(Chain(cps)))]
    else []
  }

  method CollectKnown(cps: seq<Checkpoint>) returns (known: Graph)
    ensures known == Known(cps)
  {
    known := map[];
    for i := 0 to |cps|
      invariant known == Known(cps[..i])
    {
      assert cps[..i + 1][..i] == cps[..i];
      known := known[cps[i].id := cps[i].needs];
    }
    assert cps[..|cps|] == cps;
  }

  method CheckNeeds(known: Graph, at: nat, needs: seq<string>) returns (errs: seq<RequireError>)
    ensures errs == MissingFrom(known, at, needs)
  {
    errs := [];
    for j := 0 to |needs|
      invariant errs == MissingFrom(known, at, needs[..j])
    {
      assert needs[..j + 1][..j] == needs[..j];
      if needs[j] !in known {
        errs := errs + [Missing(at, needs[j])];
      }
    }
    assert needs[..|needs|] == needs;
  }

  // Every unknown id is reported at each checkpoint that requires it, and nothing else.
  lemma {:induction false} MissingFromIs(g: Graph, at: nat, needs: seq<string>)
    ensures forall e :: e in MissingFrom(g, at, needs) <==> e.Missing? && e.checkpoint == at && e.id in needs && e.id !in g
  {
    if needs != [] {
      var n := |needs| - 1;
      MissingFromIs(g, at, needs[..n]);
      assert needs == needs[..n] + [needs[n]];
    }
  }

  lemma {:induction false} AllMissingIs(g: Graph, cps: seq<Checkpoint>)
    ensures forall e :: e in AllMissing(g, cps) <==> e.Missing? && e.checkpoint < |cps| && e.id in cps[e.checkpoint].needs && e.id !in g
  {
    if cps != [] {
      var n := |cps| - 1;
      AllMissingIs(g, cps[..n]);
      MissingFromIs(g, n, cps[n].needs);
    }
  }

  ghost predicate IsMissing(cps: seq<Checkpoint>, e: RequireError) {
    e.Missing? && e.checkpoint < |cps| && e.id in cps[e.checkpoint].needs && e.id !in Ids(cps)
  }

  // The errors are the unknown ids; or, when there are none, at most one chain.
  lemma RequireErrorsAre(cps: seq<Checkpoint>)
    ensures var errs := RequireErrors(cps);
            && (forall e: RequireError | e.Missing? :: e in errs <==> IsMissing(cps, e))
            && ((exists e :: IsMissing(cps, e)) ==> forall e | e in errs :: e.Missing?)
            && (!(exists e :: IsMissing(cps, e)) ==> |errs| <= 1)
  {
    KnownIds(cps);
    AllMissingIs(Known(cps), cps);
    var missing := AllMissing(Known(cps), cps);
    if missing != [] { assert missing[0] in missing; }
  }

  method CheckRequires(cps: seq<Checkpoint>) returns (errs: seq<RequireError>)
    ensures errs == RequireErrors(cps)
    ensures forall e: RequireError | e.Missing? :: e in errs <==> IsMissing(cps, e)
  {
    RequireErrorsAre(cps);
    var known := CollectKnown(cps);
    errs := [];
    for i := 0 to |cps|
      invariant errs == AllMissing(known, cps[..i])
    {
      assert cps[..i + 1][..i] == cps[..i];
      var missing := CheckNeeds(known, i, cps[i].needs);
      errs := errs + missing;
    }
    assert cps[..|cps|] == cps;
    if |errs| > 0 { return; }
    var cycle := SearchAll(known, Ids(cps));
    if cycle != "" {
      errs := [CycleThrough(cycle)];
    }
  }

  method SearchAll(known: Graph, ids: seq<string>) returns (cycle: string)
    ensures cycle == Text(VisitAll(known, map[], ids).0)
  {
    var finder := new Finder(known);
    for i := 0 to |ids|
      invariant fresh(finder) && finder.known == known
      invariant VisitAll(known, map[], ids) == VisitAll(known, finder.state, ids[i..])
    {
      assert ids[i..][1..] == ids[i + 1..];
      cycle := finder.FindCycle(ids[i]);
      if cycle != "" { return; }
    }
    return "";
  }

  // ----- what a report means

  predicate IsPath(g: Graph, p: seq<string>) {
    forall i | 0 <= i < |p| - 1 :: p[i + 1] in Nexts(g, p[i])
  }

  predicate IsCycle(g: Graph, p: seq<string>) {
    |p| >= 2 && IsPath(g, p) && p[0] == p[|p| - 1]
  }

  // A path whose last node, which has a name, is already on it or on the way to it.
  predicate Closes(g: Graph, stack: seq<string>, chain: seq<string>) {
    && chain != []
    && IsPath(g, stack + chain)
    && chain[|chain| - 1] in stack + chain[..|chain| - 1]
    && chain[|chain| - 1] != ""
  }

  // The grey nodes are those on the way here.
  ghost predicate Stacked(state: Colours, stack: seq<string>) {
    forall id :: id in stack <==> id in state && state[id].Grey?
  }

  lemma PathExtends(g: Graph, stack: seq<string>, id: string)
    requires IsPath(g, stack) && (stack == [] || id in Nexts(g, stack[|stack| - 1]))
    ensures IsPath(g, stack + [id])
  {
  }

  lemma ClosesFrom(g: Graph, stack: seq<string>, id: string, chain: seq<string>)
    requires Closes(g, stack + [id], chain)
    ensures Closes(g, stack, [id] + chain)
  {
    var longer := [id] + chain;
    assert (stack + [id]) + chain == stack + longer;
    assert (stack + [id]) + chain[..|chain| - 1] == stack + longer[..|longer| - 1];
  }

  lemma BlackIsNotGrey(state: Colours, id: string, stack: seq<string>)
    requires Stacked(state, stack + [id]) && id !in stack
    ensures Stacked(state[id := Black], stack)
  {
    forall x
      ensures x in stack <==> x in state[id := Black] && state[id := Black][x].Grey?
    {
      assert x in stack + [id] <==> x in stack || x == id;
    }
  }

  lemma SeenCloses(g: Graph, state: Colours, id: string, stack: seq<string>)
    requires id in state && Stacked(state, stack) && IsPath(g, stack + [id])
    ensures state[id].Grey? && id != "" ==> Closes(g, stack, [id])
  {
    assert [id][..0] == [] && stack + [] == stack;
  }

  lemma GreyIsStacked(g: Graph, state: Colours, id: string, stack: seq<string>)
    requires id !in state && Stacked(state, stack) && IsPath(g, stack + [id])
    ensures id !in stack && Stacked(state[id := Grey], stack + [id])
    ensures forall next | next in Nexts(g, id) :: IsPath(g, stack + [id] + [next])
  {
    forall next | next in Nexts(g, id)
      ensures IsPath(g, stack + [id] + [next])
    {
      PathExtends(g, stack + [id], next);
    }
  }

  lemma {:induction false} VisitCloses(g: Graph, state: Colours, id: string, stack: seq<string>)
    requires Stacked(state, stack) && IsPath(g, stack + [id])
    ensures var (chain, after) := Visit(g, state, id);
            if Text(chain) != "" then Closes(g, stack, chain) && chain[0] == id else Stacked(after, stack)
    decreases Unvisited(g, state), 0, 1
  {
    if id in state {
      SeenCloses(g, state, id, stack);
    } else {
      VisitLeavesFewer(g, state, id);
      GreyIsStacked(g, state, id, stack);
      VisitAllCloses(g, state[id := Grey], Nexts(g, id), stack + [id]);
      var (chain, after) := VisitAll(g, state[id := Grey], Nexts(g, id));
      if Text(chain) != "" {
        ClosesFrom(g, stack, id, chain);
      } else {
        BlackIsNotGrey(after, id, stack);
      }
    }
  }

  lemma {:induction false} VisitAllCloses(g: Graph, state: Colours, ids: seq<string>, stack: seq<string>)
    requires Stacked(state, stack) && forall id | id in ids :: IsPath(g, stack + [id])
    ensures var (chain, after) := VisitAll(g, state, ids);
            if Text(chain) != "" then Closes(g, stack, chain) && chain[0] in ids else Stacked(after, stack)
    decreases Unvisited(g, state), |ids|, 0
  {
    if ids != [] {
      VisitCloses(g, state, ids[0], stack);
      var (chain, after) := Visit(g, state, ids[0]);
      UnvisitedFalls(g, state, after);
      if Text(chain) == "" {
        VisitAllCloses(g, after, ids[1..], stack);
      }
    }
  }

  // Every report is real: the chain is a path that starts at a checkpoint and ends at a
  // node it already went through, so the graph has a cycle through that node.
  lemma ReportIsReal(cps: seq<Checkpoint>)
    requires Text(Chain(cps)) != ""
    ensures var chain := Chain(cps);
            Closes(Known(cps), [], chain) && chain[0] in Ids(cps)
            && exists p :: IsCycle(Known(cps), p) && p[0] == chain[|chain| - 1]
  {
    var g, chain := Known(cps), Chain(cps);
    VisitAllCloses(g, map[], Ids(cps), []);
    ClosesMeansCycle(g, chain);
  }

  lemma ClosesMeansCycle(g: Graph, chain: seq<string>)
    requires Closes(g, [], chain)
    ensures exists p :: IsCycle(g, p) && p[0] == chain[|chain| - 1]
  {
    assert [] + chain == chain && [] + chain[..|chain| - 1] == chain[..|chain| - 1];
    EarlierCloses(g, chain);
  }

  lemma EarlierCloses(g: Graph, chain: seq<string>)
    requires chain != [] && IsPath(g, chain) && chain[|chain| - 1] in chain[..|chain| - 1]
    ensures exists p :: IsCycle(g, p) && p[0] == chain[|chain| - 1]
  {
    var k :| 0 <= k < |chain| - 1 && chain[k] == chain[|chain| - 1];
    var p := chain[k..];
    forall i | 0 <= i < |p| - 1
      ensures p[i + 1] in Nexts(g, p[i])
    {
      assert chain[k + i + 1] in Nexts(g, chain[k + i]);
    }
    assert IsCycle(g, p);
  }

  // ----- what silence means

  // Every node comes after the nodes it requires, the empty id excepted.
  ghost predicate Ordered(g: Graph, order: seq<string>) {
    && (forall i, j | 0 <= i < j < |order| :: order[i] != order[j])
    && (forall i, next | 0 <= i < |order| && next in Nexts(g, order[i]) :: next == "" || next in order[..i])
  }

  ghost predicate Finished(state: Colours, order: seq<string>) {
    forall id :: id in order <==> id in state && state[id].Black?
  }

  ghost predicate SameGrey(state: Colours, state': Colours) {
    forall id :: (id in state && state[id].Grey?) <==> (id in state' && state'[id].Grey?)
  }

  // What the search has settled so far, and how it grew.
  ghost predicate Explored(g: Graph, state: Colours, after: Colours, order: seq<string>, order': seq<string>) {
    Ordered(g, order') && Finished(after, order') && SameGrey(state, after) && order <= order'
  }

  lemma {:induction false} VisitOrders(g: Graph, state: Colours, id: string, order: seq<string>) returns (order': seq<string>)
    requires Ordered(g, order) && Finished(state, order)
    ensures var (chain, after) := Visit(g, state, id);
            Text(chain) == "" ==> Explored(g, state, after, order, order') && (id == "" || id in order')
    decreases Unvisited(g, state), 0, 2
  {
    if id in state {
      order' := order;
      SeenIs(g, state, id);
    } else {
      order' := NewOrders(g, state, id, order);
      NewIs(g, state, id);
    }
  }

  lemma SeenIs(g: Graph, state: Colours, id: string)
    requires id in state
    ensures Visit(g, state, id).1 == state
    ensures Text(Visit(g, state, id).0) == "" ==> id == "" || !state[id].Grey?
  {
  }

  lemma NewIs(g: Graph, state: Colours, id: string)
    requires id !in state
    ensures Text(Visit(g, state, id).0) == "" ==>
              && Text(VisitAll(g, state[id := Grey], Nexts(g, id)).0) == ""
              && Visit(g, state, id).1 == VisitAll(g, state[id := Grey], Nexts(g, id)).1[id := Black]
  {
    var chain := VisitAll(g, state[id := Grey], Nexts(g, id)).0;
    assert ([id] + chain)[1..] == chain;
  }

  lemma {:induction false} NewOrders(g: Graph, state: Colours, id: string, order: seq<string>) returns (order': seq<string>)
    requires Ordered(g, order) && Finished(state, order) && id !in state
    ensures var (chain, after) := VisitAll(g, state[id := Grey], Nexts(g, id));
            Text(chain) == "" ==> Explored(g, state, after[id := Black], order, order') && id in order'
    decreases Unvisited(g, state), 0, 1
  {
    VisitLeavesFewer(g, state, id);
    var before := VisitAllOrders(g, state[id := Grey], Nexts(g, id), order);
    order' := before + [id];
    var (chain, after) := VisitAll(g, state[id := Grey], Nexts(g, id));
    if Text(chain) == "" { DoneOrders(g, state, id, order, before, after); }
  }

  lemma DoneOrders(g: Graph, state: Colours, id: string, order: seq<string>, before: seq<string>, after: Colours)
    requires id !in state && Ordered(g, before) && Finished(after, before) && SameGrey(state[id := Grey], after) && order <= before
    requires forall next | next in Nexts(g, id) :: next == "" || next in before
    ensures Ordered(g, before + [id]) && Finished(after[id := Black], before + [id]) && SameGrey(state, after[id := Black])
    ensures order <= before + [id] && id in before + [id]
  {
    FinishedNext(state, after, before, id);
    OrderedNext(g, before, id);
  }

  lemma FinishedNext(state: Colours, after: Colours, order: seq<string>, id: string)
    requires id !in state && SameGrey(state[id := Grey], after) && Finished(after, order)
    ensures id !in order && Finished(after[id := Black], order + [id]) && SameGrey(state, after[id := Black])
  {
    assert id in after && after[id].Grey?;
    forall x
      ensures (x in state && state[x].Grey?) <==> (x in after[id := Black] && after[id := Black][x].Grey?)
    {
      assert (x in state[id := Grey] && state[id := Grey][x].Grey?) <==> (x in after && after[x].Grey?);
    }
  }

  lemma OrderedNext(g: Graph, order: seq<string>, id: string)
    requires Ordered(g, order) && id !in order
    requires forall next | next in Nexts(g, id) :: next == "" || next in order
    ensures Ordered(g, order + [id])
  {
    var longer := order + [id];
    forall i, next | 0 <= i < |longer| && next in Nexts(g, longer[i])
      ensures next == "" || next in longer[..i]
    {
      assert longer[..i] == order[..i];
      if i == |order| { assert order[..i] == order; }
    }
  }

  lemma {:induction false} VisitAllOrders(g: Graph, state: Colours, ids: seq<string>, order: seq<string>) returns (order': seq<string>)
    requires Ordered(g, order) && Finished(state, order)
    ensures var (chain, after) := VisitAll(g, state, ids);
            Text(chain) == "" ==> Explored(g, state, after, order, order') && forall id | id in ids :: id == "" || id in order'
    decreases Unvisited(g, state), |ids|, 0
  {
    order' := order;
    if ids != [] {
      var between := VisitOrders(g, state, ids[0], order);
      var (chain, after) := Visit(g, state, ids[0]);
      UnvisitedFalls(g, state, after);
      if Text(chain) == "" {
        order' := VisitAllOrders(g, after, ids[1..], between);
      }
    }
  }

  // Along a path the place in the order falls.
  lemma {:induction false} PathDescends(g: Graph, order: seq<string>, p: seq<string>, k: nat) returns (j: nat)
    requires Ordered(g, order) && p != [] && IsPath(g, p) && "" !in p && k < |order| && order[k] == p[0]
    ensures j <= k && order[j] == p[|p| - 1] && (|p| >= 2 ==> j < k)
  {
    j := k;
    if |p| >= 2 {
      assert p[0 + 1] in Nexts(g, order[k]);
      var next :| 0 <= next < k && order[next] == p[1];
      assert forall i | 0 <= i < |p[1..]| :: p[1..][i] == p[i + 1];
      j := PathDescends(g, order, p[1..], next);
    }
  }

  lemma {:induction false} KnownIds(cps: seq<Checkpoint>)
    ensures forall id :: id in Known(cps) <==> id in Ids(cps)
  {
    if cps != [] {
      var n := |cps| - 1;
      KnownIds(cps[..n]);
      assert Ids(cps) == Ids(cps[..n]) + [cps[n].id];
    }
  }

  lemma CycleIsKnown(cps: seq<Checkpoint>, p: seq<string>)
    requires IsCycle(Known(cps), p)
    ensures forall id | id in p :: id in Ids(cps)
  {
    KnownIds(cps);
    forall i | 0 <= i < |p| - 1
      ensures p[i] in Ids(cps)
    {
      assert p[i + 1] in Nexts(Known(cps), p[i]);
    }
  }

  // A cycle that goes unreported goes through the empty id, whatever the graph.
  lemma SilenceMeansEmptyId(cps: seq<Checkpoint>, p: seq<string>)
    requires Text(Chain(cps)) == "" && IsCycle(Known(cps), p)
    ensures "" in p
  {
    var g := Known(cps);
    var order := VisitAllOrders(g, map[], Ids(cps), []);
    if "" !in p {
      CycleIsKnown(cps, p);
      assert p[0] in order;
      var k :| 0 <= k < |order| && order[k] == p[0];
      var j := PathDescends(g, order, p, k);
      assert false;
    }
  }

  ghost predicate Cyclic(cps: seq<Checkpoint>) {
    exists p :: IsCycle(Known(cps), p)
  }

  lemma {:induction false} NoneMissing(g: Graph, cps: seq<Checkpoint>)
    ensures AllMissing(g, cps) == [] <==> forall cp, id | cp in cps && id in cp.needs :: id in g
  {
    if cps != [] {
      var n := |cps| - 1;
      NoneMissing(g, cps[..n]);
      NoneMissingFrom(g, n, cps[n].needs);
      assert cps == cps[..n] + [cps[n]];
    }
  }

  lemma {:induction false} NoneMissingFrom(g: Graph, at: nat, needs: seq<string>)
    ensures MissingFrom(g, at, needs) == [] <==> forall id | id in needs :: id in g
  {
    if needs != [] {
      var n := |needs| - 1;
      NoneMissingFrom(g, at, needs[..n]);
      assert needs == needs[..n] + [needs[n]];
    }
  }

  // With no empty id, checkpoints are accepted exactly when every required id exists and
  // the graph has no cycle.
  lemma AcceptedIffAcyclic(cps: seq<Checkpoint>)
    requires "" !in Ids(cps)
    ensures RequireErrors(cps) == []
       <==> (forall cp, id | cp in cps && id in cp.needs :: id in Ids(cps)) && !Cyclic(cps)
    ensures Text(Chain(cps)) != "" <==> Cyclic(cps)
  {
    var g := Known(cps);
    NoneMissing(g, cps);
    KnownIds(cps);
    if Text(Chain(cps)) != "" {
      ReportIsReal(cps);
    } else if p :| IsCycle(g, p) {
      SilenceMeansEmptyId(cps, p);
      CycleIsKnown(cps, p);
    }
  }

  // The same ids, the empty one requiring itself.
  function SelfRequiring(ids: seq<string>): (cps: seq<Checkpoint>)
    ensures Ids(cps) == ids
  {
    seq(|ids|, i requires 0 <= i < |ids| => Checkpoint(ids[i], Localized("", ""), "", true, if ids[i] == "" then [""] else []))
  }

  lemma {:induction false} SelfRequiringGraph(cps: seq<Checkpoint>, ids: seq<string>, n: nat)
    requires n <= |ids| && cps == SelfRequiring(ids)
    ensures forall id :: Nexts(Known(cps[..n]), id) == if id == "" && "" in ids[..n] then [""] else []
  {
    if n > 0 {
      SelfRequiringGraph(cps, ids, n - 1);
      assert cps[..n][..n - 1] == cps[..n - 1] && ids[..n] == ids[..n - 1] + [ids[n - 1]];
      assert Known(cps[..n]) == Known(cps[..n - 1])[ids[n - 1] := if ids[n - 1] == "" then [""] else []];
      forall id
        ensures Nexts(Known(cps[..n]), id) == if id == "" && "" in ids[..n] then [""] else []
      {
        assert Nexts(Known(cps[..n - 1]), id) == if id == "" && "" in ids[..n - 1] then [""] else [];
      }
    } else {
      assert cps[..0] == [];
    }
  }

  lemma EmptyIdMisses(ids: seq<string>)
    requires "" in ids
    ensures Cyclic(SelfRequiring(ids)) && Text(Chain(SelfRequiring(ids))) == ""
  {
    var cps := SelfRequiring(ids);
    assert cps[..|ids|] == cps && ids[..|ids|] == ids;
    SelfRequiringGraph(cps, ids, |ids|);
    assert IsCycle(Known(cps), ["", ""]);
    if Text(Chain(cps)) != "" {
      ReportIsReal(cps);
      var p :| IsCycle(Known(cps), p) && p[0] != "";
      CycleHasNext(Known(cps), p);
    }
  }

  lemma CycleHasNext(g: Graph, p: seq<string>)
    requires IsCycle(g, p)
    ensures Nexts(g, p[0]) != []
  {
    assert p[0 + 1] in Nexts(g, p[0]);
  }

  // The exact condition: the check is right for every requires relation over some ids if
  // and only if none of them is empty.
  lemma ExactIffNoEmptyId(ids: seq<string>)
    ensures (forall cps: seq<Checkpoint> | Ids(cps) == ids :: Text(Chain(cps)) != "" <==> Cyclic(cps)) <==> "" !in ids
  {
    if "" in ids {
      EmptyIdMisses(ids);
    } else {
      forall cps: seq<Checkpoint> | Ids(cps) == ids
        ensures Text(Chain(cps)) != "" <==> Cyclic(cps)
      {
        AcceptedIffAcyclic(cps);
      }
    }
  }
}
