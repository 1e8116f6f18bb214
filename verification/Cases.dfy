// Case selection and parameter overriding (internal/content/params.go).

module Cases {
  import opened Wrappers
  import opened Templates
  import opened Parameters
  import opened Resolution

  const CASE_STREAM := 0x9e37_79b9_7f4a_7c15
  const PARAM_STREAM := 0xc2b2_ae3d_27d4_eb4f

  // The generator: a stream of draws for each seed and stream number.
  type Rng = (nat, nat) -> Draws

  datatype Case = Case(id: string, weight: int, params: seq<Param>, env: Params)

  datatype CaseError =
    | BadWeight(id: string, weight: int)
    | ParamsFailed(failed: seq<(string, ParamError)>)

  datatype Resolved = Resolved(caseId: string, params: Params, env: Params)

  const DEFAULT_CASE := Case("default", 1, [], map[])

  // ----- picking

  predicate Weighted(cases: seq<Case>) {
    forall c | c in cases :: c.weight > 0
  }

  function Total(cases: seq<Case>): int {
    if cases == [] then 0 else Total(cases[..|cases| - 1]) + cases[|cases| - 1].weight
  }

  lemma {:induction false} TotalIsPositive(cases: seq<Case>)
    requires Weighted(cases)
    ensures Total(cases) >= |cases|
  {
    if cases != [] {
      TotalIsPositive(cases[..|cases| - 1]);
    }
  }

  // The draw falls into the stretch of the k-th weight.
  predicate FallsOn(cases: seq<Case>, k: nat, d: int)
    requires k < |cases|
  {
    Total(cases[..k]) <= d < Total(cases[..k + 1])
  }

  lemma {:induction false} TotalGrows(cases: seq<Case>, j: nat, k: nat)
    requires j <= k <= |cases| && Weighted(cases)
    ensures Total(cases[..j]) <= Total(cases[..k])
  {
    if j < k {
      TotalGrows(cases, j, k - 1);
      assert cases[..k][..k - 1] == cases[..k - 1];
    }
  }

  lemma TotalNext(cases: seq<Case>, k: nat)
    requires k < |cases|
    ensures Total(cases[..k + 1]) == Total(cases[..k]) + cases[k].weight
  {
    assert cases[..k + 1][..k] == cases[..k];
  }

  // No draw falls on two cases.
  lemma FallsOnOne(cases: seq<Case>, j: nat, k: nat, d: int)
    requires j < |cases| && k < |cases| && Weighted(cases) && FallsOn(cases, j, d) && FallsOn(cases, k, d)
    ensures j == k
  {
    if j < k {
      TotalGrows(cases, j + 1, k);
    } else if k < j {
      TotalGrows(cases, k + 1, j);
    }
  }

  // The specification of the choice: which results a seed may give.
  ghost predicate IsPick(cases: seq<Case>, rng: Rng, seed: nat, r: Result<Case, CaseError>) {
    if cases == [] then r == Ok(DEFAULT_CASE)
    else if !Weighted(cases) then
      exists k :: 0 <= k < |cases| && cases[k].weight <= 0 && Weighted(cases[..k]) && r == Err(BadWeight(cases[k].id, cases[k].weight))
    else
      Total(cases) > 0
      && exists k :: 0 <= k < |cases| && r == Ok(cases[k]) && FallsOn(cases, k, Draw(rng(seed, CASE_STREAM), 0, Total(cases)))
  }

  // The last case after the loop is never the answer: the draw is below the total.
  method PickCase(cases: seq<Case>, rng: Rng, seed: nat) returns (r: Result<Case, CaseError>)
    ensures IsPick(cases, rng, seed, r)
  {
    if cases == [] { return Ok(DEFAULT_CASE); }
    var total := 0;
    for i := 0 to |cases|
      invariant Weighted(cases[..i]) && total == Total(cases[..i])
    {
      if cases[i].weight <= 0 { return Err(BadWeight(cases[i].id, cases[i].weight)); }
      TotalNext(cases, i);
      total := total + cases[i].weight;
    }
    assert cases[..|cases|] == cases;
    TotalIsPositive(cases);
    var d := Draw(rng(seed, CASE_STREAM), 0, total);
    var draw: int := d;
    r := Ok(cases[|cases| - 1]);
    for i := 0 to |cases|
      invariant draw == d - Total(cases[..i]) && draw >= 0
    {
      TotalNext(cases, i);
      draw := draw - cases[i].weight;
      if draw < 0 {
        assert FallsOn(cases, i, d);
        return Ok(cases[i]);
      }
    }
    assert false;
  }

  predicate Between(lo: int, d: int, hi: int) {
    lo <= d < hi
  }

  function Stretch(lo: int, hi: int): set<int> {
    set d | lo <= d < hi && Between(lo, d, hi)
  }

  lemma {:induction false} StretchSize(lo: int, n: nat)
    ensures |Stretch(lo, lo + n)| == n
  {
    if n > 0 {
      StretchSize(lo, n - 1);
      var before, top := Stretch(lo, lo + n - 1), lo + n - 1;
      assert top !in before;
      assert Stretch(lo, lo + n) == before + {top};
    }
  }

  // The draws that choose case k.
  ghost function DrawsOf(cases: seq<Case>, k: nat): set<int>
    requires k < |cases|
  {
    set d | 0 <= d < Total(cases) && FallsOn(cases, k, d)
  }

  // Out of all draws, a case is chosen by exactly as many as its weight.
  lemma WeightIsChance(cases: seq<Case>, k: nat)
    requires k < |cases| && Weighted(cases)
    ensures |DrawsOf(cases, k)| == cases[k].weight
  {
    TotalNext(cases, k);
    TotalGrows(cases, 0, k);
    TotalGrows(cases, k + 1, |cases|);
    assert cases[..|cases|] == cases && cases[..0] == [];
    var lo := Total(cases[..k]);
    assert DrawsOf(cases, k) == Stretch(lo, lo + cases[k].weight);
    StretchSize(lo, cases[k].weight);
  }

  // ----- overriding

  function IndexOf(ps: seq<Param>, name: string): (i: Option<nat>)
    ensures i.Some? ==> i.value < |ps| && ps[i.value].name == name && name !in NamesOf(ps[..i.value])
    ensures i.None? <==> name !in NamesOf(ps)
  {
    if ps == [] then None
    else
      var before := IndexOf(ps[..|ps| - 1], name);
      NamesGrow(ps);
      if before.Some? then
        assert ps[..|ps| - 1][..before.value] == ps[..before.value];
        before
      else if ps[|ps| - 1].name == name then Some(|ps| - 1) else None
  }

  lemma NamesGrow(ps: seq<Param>)
    requires ps != []
    ensures NamesOf(ps) == NamesOf(ps[..|ps| - 1]) + {ps[|ps| - 1].name}
  {
    assert ps == ps[..|ps| - 1] + [ps[|ps| - 1]];
  }

  function Overridden(ps: seq<Param>, override: Param): seq<Param> {
    match IndexOf(ps, override.name)
    case Some(i) => ps[i := override]
    case None => ps + [override]
  }

  function Merged(base: seq<Param>, overrides: seq<Param>): seq<Param> {
    if overrides == [] then base else Overridden(Merged(base, overrides[..|overrides| - 1]), overrides[|overrides| - 1])
  }

  method MergeParams(base: seq<Param>, overrides: seq<Param>) returns (merged: seq<Param>)
    ensures merged == Merged(base, overrides)
  {
    if |overrides| == 0 { return base; }
    merged := base;
    for i := 0 to |overrides|
      invariant merged == Merged(base, overrides[..i])
    {
      assert overrides[..i + 1][..i] == overrides[..i];
      var found := IndexOf(merged, overrides[i].name);
      if found.Some? {
        merged := merged[found.value := overrides[i]];
      } else {
        merged := merged + [overrides[i]];
      }
    }
    assert overrides[..|overrides|] == overrides;
  }

  // The parameter a name stands for in a list.
  function Lookup(ps: seq<Param>, name: string): Option<Param> {
    match IndexOf(ps, name)
    case Some(i) => Some(ps[i])
    case None => None
  }

  function LastNamed(ps: seq<Param>, name: string): Option<Param> {
    if ps == [] then None
    else if ps[|ps| - 1].name == name then Some(ps[|ps| - 1]) else LastNamed(ps[..|ps| - 1], name)
  }

  lemma IndexIsUnique(ps: seq<Param>, i: nat)
    requires i < |ps| && DistinctNames(ps)
    ensures IndexOf(ps, ps[i].name) == Some(i)
  {
    var found := IndexOf(ps, ps[i].name);
    assert ps[i] in ps;
  }

  lemma OverriddenKeeps(ps: seq<Param>, override: Param)
    requires DistinctNames(ps)
    ensures var r := Overridden(ps, override);
            DistinctNames(r) && |ps| <= |r| && forall i | 0 <= i < |ps| :: r[i].name == ps[i].name
  {
    forall i | 0 <= i < |ps|
      ensures ps[i].name in NamesOf(ps)
    {
      assert ps[i] in ps;
    }
  }

  lemma OverriddenLooksUp(ps: seq<Param>, override: Param, name: string)
    requires DistinctNames(ps)
    ensures Lookup(Overridden(ps, override), name) == if name == override.name then Some(override) else Lookup(ps, name)
  {
    var r := Overridden(ps, override);
    OverriddenKeeps(ps, override);
    OverriddenNames(ps, override);
    var at, found := IndexOf(ps, override.name), IndexOf(ps, name);
    if name == override.name {
      IndexIsUnique(r, if at.Some? then at.value else |ps|);
    } else if found.Some? {
      assert r[found.value] == ps[found.value];
      IndexIsUnique(r, found.value);
    }
  }

  lemma OverriddenNames(ps: seq<Param>, override: Param)
    ensures NamesOf(Overridden(ps, override)) == NamesOf(ps) + {override.name}
  {
    var r := Overridden(ps, override);
    var at := IndexOf(ps, override.name);
    forall name | name in NamesOf(ps) + {override.name}
      ensures name in NamesOf(r)
    {
      if name == override.name {
        assert r[if at.Some? then at.value else |ps|] in r;
      } else {
        var k :| 0 <= k < |ps| && ps[k].name == name;
        assert r[k] in r;
      }
    }
  }

  // Overriding keeps the base's order and its names, adds the new names after them, and
  // gives every name the last override of that name.
  lemma {:induction false} MergeOverrides(base: seq<Param>, overrides: seq<Param>, name: string)
    requires DistinctNames(base)
    ensures var r := Merged(base, overrides);
            && DistinctNames(r)
            && |base| <= |r| && (forall i | 0 <= i < |base| :: r[i].name == base[i].name)
            && NamesOf(r) == NamesOf(base) + NamesOf(overrides)
            && Lookup(r, name) == if LastNamed(overrides, name).Some? then LastNamed(overrides, name) else Lookup(base, name)
  {
    if overrides != [] {
      var n := |overrides| - 1;
      MergeOverrides(base, overrides[..n], name);
      var before := Merged(base, overrides[..n]);
      OverriddenKeeps(before, overrides[n]);
      OverriddenNames(before, overrides[n]);
      OverriddenLooksUp(before, overrides[n], name);
      NamesGrow(overrides);
    }
  }

  // Whether or not names repeat, merging loses none and invents none.
  lemma {:induction false} MergedNames(base: seq<Param>, overrides: seq<Param>)
    ensures NamesOf(Merged(base, overrides)) == NamesOf(base) + NamesOf(overrides)
  {
    if overrides != [] {
      var n := |overrides| - 1;
      MergedNames(base, overrides[..n]);
      OverriddenNames(Merged(base, overrides[..n]), overrides[n]);
      NamesGrow(overrides);
    }
  }

  // ----- a whole resolution

  method ResolveFor(params: seq<Param>, cases: seq<Case>, rng: Rng, seed: nat) returns (r: Result<Resolved, CaseError>)
    ensures ResolvesTo(params, cases, rng, seed, r)
  {
    var picked := PickCase(cases, rng, seed);
    match picked {
      case Err(e) =>
        r := Err(e);
      case Ok(c) =>
        var merged := MergeParams(params, c.params);
        var resolved, failed := Resolve(merged, rng(seed, PARAM_STREAM));
        r := if failed != [] then Err(ParamsFailed(failed)) else Ok(Resolved(c.id, resolved, c.env));
    }
    assert IsResolved(params, rng, seed, picked, r);
  }

  function ParamsOf(params: seq<Param>, c: Case, rng: Rng, seed: nat): Walk {
    AfterParams(Steps(rng(seed, PARAM_STREAM)), Merged(params, c.params))
  }

  ghost predicate IsResolved(params: seq<Param>, rng: Rng, seed: nat, picked: Result<Case, CaseError>, r: Result<Resolved, CaseError>) {
    match picked
    case Err(e) => r == Err(e)
    case Ok(c) =>
      var w := ParamsOf(params, c, rng, seed);
      r == if w.failed != [] then Err(ParamsFailed(w.failed)) else Ok(Resolved(c.id, w.resolved, c.env))
  }

  // The results ResolveFor may give for a seed: exactly one, by PickIsFunction.
  ghost predicate ResolvesTo(params: seq<Param>, cases: seq<Case>, rng: Rng, seed: nat, r: Result<Resolved, CaseError>) {
    exists picked :: IsPick(cases, rng, seed, picked) && IsResolved(params, rng, seed, picked, r)
  }

  lemma WeightedUpTo(cases: seq<Case>, k: nat)
    requires k < |cases| && Weighted(cases[..k])
    ensures forall i | 0 <= i < k :: cases[i].weight > 0
  {
    forall i | 0 <= i < k
      ensures cases[i].weight > 0
    {
      assert cases[..k][i] == cases[i];
    }
  }

  lemma PickIsFunction(cases: seq<Case>, rng: Rng, seed: nat, r: Result<Case, CaseError>, r': Result<Case, CaseError>)
    requires IsPick(cases, rng, seed, r) && IsPick(cases, rng, seed, r')
    ensures r == r'
  {
    if cases != [] && Weighted(cases) {
      var d := Draw(rng(seed, CASE_STREAM), 0, Total(cases));
      var j :| 0 <= j < |cases| && r == Ok(cases[j]) && FallsOn(cases, j, d);
      var k :| 0 <= k < |cases| && r' == Ok(cases[k]) && FallsOn(cases, k, d);
      FallsOnOne(cases, j, k, d);
    } else if cases != [] {
      var j :| 0 <= j < |cases| && cases[j].weight <= 0 && Weighted(cases[..j]) && r == Err(BadWeight(cases[j].id, cases[j].weight));
      var k :| 0 <= k < |cases| && cases[k].weight <= 0 && Weighted(cases[..k]) && r' == Err(BadWeight(cases[k].id, cases[k].weight));
      WeightedUpTo(cases, j);
      WeightedUpTo(cases, k);
    }
  }

  // A resolution that succeeds binds exactly the lab's names and those of its case.
  lemma ResolveForBinds(params: seq<Param>, cases: seq<Case>, rng: Rng, seed: nat, r: Resolved)
    requires ResolvesTo(params, cases, rng, seed, Ok(r))
    ensures exists c :: (c in cases || (cases == [] && c == DEFAULT_CASE)) && r.caseId == c.id && r.env == c.env
                        && r.params.Keys == NamesOf(params) + NamesOf(c.params)
  {
    var picked :| IsPick(cases, rng, seed, picked) && IsResolved(params, rng, seed, picked, Ok(r));
    var c := picked.value;
    ResolveBinds(Steps(rng(seed, PARAM_STREAM)), Merged(params, c.params));
    MergedNames(params, c.params);
  }
}
