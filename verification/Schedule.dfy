// Load-ratio placement (internal/runner/registry.go).

module Schedule {
  import opened Wrappers
  import opened Names

  type Env = string

  const LOCAL_NAME := "local"

  datatype Member = Member(name: string, capabilities: seq<Env>, capacity: int, connected: bool)

  datatype Load = Load(name: string, active: nat, capacity: int)

  datatype ScheduleError = NoRunner(env: Env) | Busy(runners: seq<Load>)

  // ----- what the scheduler promises

  function Active(active: map<string, nat>, m: Member): nat {
    if m.name in active then active[m.name] else 0
  }

  predicate Capable(m: Member, env: Env) {
    m.connected && env in m.capabilities
  }

  predicate HasSlot(m: Member, active: map<string, nat>) {
    m.capacity > 0 && Active(active, m) < m.capacity
  }

  predicate Eligible(m: Member, active: map<string, nat>, env: Env) {
    Capable(m, env) && HasSlot(m, active)
  }

  // A smaller share of the capacity in use, or the same share and a name no later.
  predicate NoWorse(m: Member, other: Member, active: map<string, nat>) {
    var here, there := Active(active, m) * other.capacity, Active(active, other) * m.capacity;
    here < there || (here == there && Leq(m.name, other.name))
  }

  ghost predicate IsChoice(members: seq<Member>, active: map<string, nat>, env: Env, m: Member) {
    && m in members && Eligible(m, active, env)
    && forall other | other in members && Eligible(other, active, env) :: NoWorse(m, other, active)
  }

  ghost predicate Ordered(members: seq<Member>) {
    forall i, j | 0 <= i < j < |members| :: Leq(members[i].name, members[j].name)
  }

  ghost predicate DistinctNames(members: seq<Member>) {
    forall i, j | 0 <= i < j < |members| :: members[i].name != members[j].name
  }

  function LoadsOf(members: seq<Member>, active: map<string, nat>): (loads: seq<Load>)
    ensures |loads| == |members|
    ensures forall i | 0 <= i < |members| ::
              && loads[i].name == members[i].name && loads[i].capacity == members[i].capacity
              && (members[i].name in active ==> loads[i].active == active[members[i].name])
              && (members[i].name !in active ==> loads[i].active == 0)
  {
    seq(|members|, i requires 0 <= i < |members| =>
      Load(members[i].name, Active(active, members[i]), members[i].capacity))
  }

  function CapableOf(members: seq<Member>, env: Env): seq<Member> {
    if members == [] then []
    else if Capable(members[0], env) then [members[0]] + CapableOf(members[1..], env)
    else CapableOf(members[1..], env)
  }

  // The answer to a placement question: a best member, or nobody capable, or, with the
  // loads of all the capable by name, nobody free.
  ghost predicate Answers(members: seq<Member>, active: map<string, nat>, env: Env, r: Result<string, ScheduleError>) {
    match r
    case Ok(name) => exists m: Member :: m.name == name && IsChoice(members, active, env, m)
    case Err(NoRunner(e)) => e == env && forall m | m in members :: !Capable(m, env)
    case Err(Busy(loads)) =>
      && (exists m :: m in members && Capable(m, env))
      && (forall m | m in members :: !Eligible(m, active, env))
      && exists sorted :: IsSortOf(sorted, CapableOf(members, env)) && loads == LoadsOf(sorted, active)
  }

  // The same members, by name; distinct names stay distinct.
  ghost predicate IsSortOf(sorted: seq<Member>, members: seq<Member>) {
    && Ordered(sorted)
    && multiset(sorted) == multiset(members)
    && (forall m :: m in sorted <==> m in members)
    && (DistinctNames(members) ==> DistinctNames(sorted))
  }

  // ----- the scheduler

  lemma {:induction false} CapableOfHolds(members: seq<Member>, env: Env)
    ensures forall m :: m in CapableOf(members, env) <==> m in members && Capable(m, env)
  {
    if members != [] {
      CapableOfHolds(members[1..], env);
      assert forall m :: m in members <==> m == members[0] || m in members[1..];
    }
  }

  lemma {:induction false} CapableOfSnoc(members: seq<Member>, m: Member, env: Env)
    ensures CapableOf(members + [m], env) == CapableOf(members, env) + (if Capable(m, env) then [m] else [])
  {
    if members == [] {
      assert members + [m] == [m];
    } else {
      CapableOfSnoc(members[1..], m, env);
      assert (members + [m])[1..] == members[1..] + [m];
    }
  }

  // slices.SortFunc by name: any ordered arrangement of the same members.
  method SortByName(members: seq<Member>) returns (sorted: seq<Member>)
    ensures IsSortOf(sorted, members)
  {
    sorted := [];
    for i := 0 to |members|
      invariant IsSortOf(sorted, members[..i])
    {
      var at := PlaceOf(sorted, members[i]);
      InsertKeepsSort(sorted, members[..i], at, members[i]);
      sorted := Insert(sorted, at, members[i]);
      assert members[..i + 1] == members[..i] + [members[i]];
    }
    assert members[..|members|] == members;
  }

  function Insert(sorted: seq<Member>, at: nat, m: Member): seq<Member>
    requires at <= |sorted|
  {
    sorted[..at] + [m] + sorted[at..]
  }

  method PlaceOf(sorted: seq<Member>, m: Member) returns (at: nat)
    requires Ordered(sorted)
    ensures at <= |sorted|
    ensures forall j | 0 <= j < at :: Leq(sorted[j].name, m.name)
    ensures forall j | at <= j < |sorted| :: Leq(m.name, sorted[j].name)
  {
    at := |sorted|;
    while at > 0 && !Leq(sorted[at - 1].name, m.name)
      invariant 0 <= at <= |sorted|
      invariant forall j | at <= j < |sorted| :: Leq(m.name, sorted[j].name)
    {
      at := at - 1;
      LeqTotal(sorted[at].name, m.name);
    }
    forall j | 0 <= j < at ensures Leq(sorted[j].name, m.name) {
      if j < at - 1 { LeqTransitive(sorted[j].name, sorted[at - 1].name, m.name); }
    }
  }

  lemma InsertOrdered(sorted: seq<Member>, at: nat, m: Member)
    requires Ordered(sorted) && at <= |sorted|
    requires forall j | 0 <= j < at :: Leq(sorted[j].name, m.name)
    requires forall j | at <= j < |sorted| :: Leq(m.name, sorted[j].name)
    ensures Ordered(Insert(sorted, at, m))
  {
    var after := Insert(sorted, at, m);
    forall i, j | 0 <= i < j < |after| ensures Leq(after[i].name, after[j].name) {
      assert after[i] == if i < at then sorted[i] else if i == at then m else sorted[i - 1];
      assert after[j] == if j < at then sorted[j] else if j == at then m else sorted[j - 1];
    }
  }

  lemma InsertSame(sorted: seq<Member>, at: nat, m: Member)
    requires at <= |sorted|
    ensures multiset(Insert(sorted, at, m)) == multiset(sorted) + multiset{m}
    ensures forall k :: k in Insert(sorted, at, m) <==> k in sorted || k == m
  {
    assert sorted == sorted[..at] + sorted[at..];
    forall k ensures k in Insert(sorted, at, m) <==> k in sorted || k == m {
      assert k in sorted <==> k in sorted[..at] || k in sorted[at..];
    }
  }

  lemma InsertDistinct(sorted: seq<Member>, at: nat, m: Member)
    requires DistinctNames(sorted) && at <= |sorted| && forall k | k in sorted :: k.name != m.name
    ensures DistinctNames(Insert(sorted, at, m))
  {
    var after := Insert(sorted, at, m);
    forall i, j | 0 <= i < j < |after| ensures after[i].name != after[j].name {
      assert after[i] == if i < at then sorted[i] else if i == at then m else sorted[i - 1];
      assert after[j] == if j < at then sorted[j] else if j == at then m else sorted[j - 1];
    }
  }

  lemma DistinctSnoc(members: seq<Member>, m: Member)
    requires DistinctNames(members + [m])
    ensures DistinctNames(members) && forall k | k in members :: k.name != m.name
  {
    var longer := members + [m];
    forall i, j | 0 <= i < j < |members| ensures members[i].name != members[j].name {
      assert longer[i].name != longer[j].name;
    }
    forall k | k in members ensures k.name != m.name {
      var i :| 0 <= i < |members| && members[i] == k;
      assert longer[i].name != longer[|members|].name;
    }
  }

  lemma InsertKeepsSort(sorted: seq<Member>, members: seq<Member>, at: nat, m: Member)
    requires IsSortOf(sorted, members) && at <= |sorted|
    requires forall j | 0 <= j < at :: Leq(sorted[j].name, m.name)
    requires forall j | at <= j < |sorted| :: Leq(m.name, sorted[j].name)
    ensures IsSortOf(Insert(sorted, at, m), members + [m])
  {
    InsertOrdered(sorted, at, m);
    InsertSame(sorted, at, m);
    if DistinctNames(members + [m]) {
      DistinctSnoc(members, m);
      InsertDistinct(sorted, at, m);
    }
  }

  lemma {:induction false} CapableOfIsDistinct(members: seq<Member>, env: Env)
    requires DistinctNames(members)
    ensures DistinctNames(CapableOf(members, env))
  {
    if members != [] {
      CapableOfIsDistinct(members[1..], env);
      CapableOfHolds(members[1..], env);
      forall m | m in CapableOf(members[1..], env) ensures m.name != members[0].name {
        assert m in members[1..];
      }
      InsertDistinct(CapableOf(members[1..], env), 0, members[0]);
      assert Insert(CapableOf(members[1..], env), 0, members[0]) == [members[0]] + CapableOf(members[1..], env);
    }
  }

  lemma CrossMultiplied(a: nat, ca: int, b: nat, cb: int, c: nat, cc: int)
    requires ca > 0 && cb > 0 && cc > 0
    ensures a * cb <= b * ca && b * cc <= c * cb ==> a * cc <= c * ca
    ensures a * cb <= b * ca && b * cc < c * cb ==> a * cc < c * ca
    ensures a * cb < b * ca && b * cc <= c * cb ==> a * cc < c * ca
  {
    if a * cb <= b * ca && b * cc <= c * cb {
      assert (a * cc) * cb == (a * cb) * cc <= (b * ca) * cc == (b * cc) * ca <= (c * cb) * ca == (c * ca) * cb;
      if b * cc < c * cb { assert (b * cc) * ca < (c * cb) * ca; }
      if a * cb < b * ca { assert (a * cb) * cc < (b * ca) * cc; }
    }
  }

  lemma NoWorseTransitive(a: Member, b: Member, c: Member, active: map<string, nat>)
    requires a.capacity > 0 && b.capacity > 0 && c.capacity > 0
    requires NoWorse(a, b, active) && NoWorse(b, c, active)
    ensures NoWorse(a, c, active)
  {
    CrossMultiplied(Active(active, a), a.capacity, Active(active, b), b.capacity, Active(active, c), c.capacity);
    if Leq(a.name, b.name) && Leq(b.name, c.name) {
      LeqTransitive(a.name, b.name, c.name);
    }
  }

  // The connected runners with the capability, by name.
  method CapableByName(members: seq<Member>, env: Env) returns (capable: seq<Member>)
    ensures IsSortOf(capable, CapableOf(members, env))
  {
    var found := [];
    for i := 0 to |members|
      invariant found == CapableOf(members[..i], env)
    {
      CapableOfSnoc(members[..i], members[i], env);
      assert members[..i + 1] == members[..i] + [members[i]];
      if Capable(members[i], env) {
        found := found + [members[i]];
      }
    }
    assert members[..|members|] == members;
    capable := SortByName(found);
  }

  // The later member takes over as best.
  lemma TakesOver(capable: seq<Member>, active: map<string, nat>, best: nat, i: nat)
    requires best < i < |capable| && HasSlot(capable[best], active) && HasSlot(capable[i], active)
    requires NoWorse(capable[i], capable[best], active)
    requires forall k | 0 <= k < i && HasSlot(capable[k], active) :: NoWorse(capable[best], capable[k], active)
    ensures forall k | 0 <= k < i && HasSlot(capable[k], active) :: NoWorse(capable[i], capable[k], active)
  {
    forall k | 0 <= k < i && HasSlot(capable[k], active) ensures NoWorse(capable[i], capable[k], active) {
      NoWorseTransitive(capable[i], capable[best], capable[k], active);
    }
  }

  method Schedule(members: seq<Member>, active: map<string, nat>, env: Env)
    returns (r: Result<string, ScheduleError>)
    ensures Answers(members, active, env, r)
  {
    var capable := CapableByName(members, env);
    CapableOfHolds(members, env);
    if |capable| == 0 {
      assert forall m :: m !in capable;
      return Err(NoRunner(env));
    }
    assert capable[0] in capable;

    var best := -1;
    for i := 0 to |capable|
      invariant -1 <= best < i
      invariant best < 0 ==> forall k | 0 <= k < i :: !HasSlot(capable[k], active)
      invariant best >= 0 ==> HasSlot(capable[best], active)
      invariant best >= 0 ==> forall k | 0 <= k < i && HasSlot(capable[k], active) :: NoWorse(capable[best], capable[k], active)
    {
      var m := capable[i];
      if m.capacity <= 0 || Active(active, m) >= m.capacity {
        continue;
      }
      LeqTotal(m.name, m.name);
      if best < 0 {
        best := i;
      } else if Active(active, m) * capable[best].capacity < Active(active, capable[best]) * m.capacity {
        TakesOver(capable, active, best, i);
        best := i;
      }
    }
    if best >= 0 {
      assert IsChoice(members, active, env, capable[best]);
      return Ok(capable[best].name);
    }
    forall m | m in members ensures !Eligible(m, active, env) {
      if Capable(m, env) { assert m in capable; }
    }
    return Err(Busy(LoadsOf(capable, active)));
  }

  // ----- the answer is the members' alone, whatever order they come in

  lemma ChoiceIsUnique(members: seq<Member>, active: map<string, nat>, env: Env, a: Member, b: Member)
    requires IsChoice(members, active, env, a) && IsChoice(members, active, env, b)
    ensures a.name == b.name
  {
    assert NoWorse(a, b, active) && NoWorse(b, a, active);
    LeqTotal(a.name, b.name);
  }

  lemma SameFirst(xs: seq<Member>, ys: seq<Member>)
    requires Ordered(xs) && Ordered(ys) && xs != [] && ys != []
    requires xs[0] in ys && ys[0] in xs && forall m | m in xs && m.name == xs[0].name :: m == xs[0]
    ensures xs[0] == ys[0]
  {
    var i :| 0 <= i < |ys| && ys[i] == xs[0];
    var j :| 0 <= j < |xs| && xs[j] == ys[0];
    LeqTotal(xs[0].name, ys[0].name);
  }

  lemma RestIsSame(xs: seq<Member>, ys: seq<Member>)
    requires DistinctNames(xs) && DistinctNames(ys) && xs != [] && ys != [] && xs[0] == ys[0]
    requires forall m :: m in xs <==> m in ys
    ensures forall m :: m in xs[1..] <==> m in ys[1..]
  {
    forall m ensures m in xs[1..] <==> m in ys[1..] {
      assert m in xs[1..] <==> m in xs && m != xs[0];
      assert m in ys[1..] <==> m in ys && m != ys[0];
    }
  }

  lemma {:induction false} OrderedIsUnique(xs: seq<Member>, ys: seq<Member>)
    requires Ordered(xs) && Ordered(ys) && DistinctNames(xs) && DistinctNames(ys)
    requires forall m :: m in xs <==> m in ys
    ensures xs == ys
  {
    assert xs != [] ==> xs[0] in xs && xs[0] in ys;
    assert ys != [] ==> ys[0] in ys && ys[0] in xs;
    if xs != [] && ys != [] {
      SameFirst(xs, ys);
      RestIsSame(xs, ys);
      OrderedIsUnique(xs[1..], ys[1..]);
      assert xs == [xs[0]] + xs[1..] && ys == [ys[0]] + ys[1..];
    }
  }

  // The same members, each once, in any order.
  ghost predicate IsShuffle(members: seq<Member>, shuffled: seq<Member>) {
    DistinctNames(members) && DistinctNames(shuffled) && forall m :: m in members <==> m in shuffled
  }

  lemma SameSort(members: seq<Member>, shuffled: seq<Member>, env: Env, sorted: seq<Member>, sorted': seq<Member>)
    requires IsShuffle(members, shuffled)
    requires IsSortOf(sorted, CapableOf(members, env)) && IsSortOf(sorted', CapableOf(shuffled, env))
    ensures sorted == sorted'
  {
    CapableOfIsDistinct(members, env);
    CapableOfIsDistinct(shuffled, env);
    CapableOfHolds(members, env);
    CapableOfHolds(shuffled, env);
    OrderedIsUnique(sorted, sorted');
  }

  lemma OrderDoesNotMatter(members: seq<Member>, shuffled: seq<Member>, active: map<string, nat>, env: Env,
                           r: Result<string, ScheduleError>, r': Result<string, ScheduleError>)
    requires IsShuffle(members, shuffled)
    requires Answers(members, active, env, r) && Answers(shuffled, active, env, r')
    ensures r == r'
  {
    match (r, r') {
      case (Ok(name), Ok(name')) =>
        var m: Member :| m.name == name && IsChoice(members, active, env, m);
        var m': Member :| m'.name == name' && IsChoice(shuffled, active, env, m');
        assert IsChoice(members, active, env, m');
        ChoiceIsUnique(members, active, env, m, m');
      case (Err(Busy(loads)), Err(Busy(loads'))) =>
        var sorted :| IsSortOf(sorted, CapableOf(members, env)) && loads == LoadsOf(sorted, active);
        var sorted' :| IsSortOf(sorted', CapableOf(shuffled, env)) && loads' == LoadsOf(sorted', active);
        SameSort(members, shuffled, env, sorted, sorted');
      case _ =>
    }
  }

  // What the caller of the scheduler relies on: the runner it names has a free slot.
  lemma ChosenHasSlot(members: seq<Member>, active: map<string, nat>, env: Env, name: string)
    requires Answers(members, active, env, Ok(name))
    ensures exists m :: m in members && m.name == name && Capable(m, env) && Active(active, m) < m.capacity
  {
    var m: Member :| m.name == name && IsChoice(members, active, env, m);
    assert m in members;
  }

  // ----- the registry

  // Registry.Members: the in-process runner first, then the remote ones by name; a remote
  // that calls itself local is dropped.
  method Members(local: Option<Member>, remotes: seq<Member>) returns (members: seq<Member>)
    requires local.Some? ==> local.value.name == LOCAL_NAME
    ensures forall m :: m in members <==> (local == Some(m) || (m in remotes && m.name != LOCAL_NAME))
    ensures DistinctNames(remotes) ==> DistinctNames(members)
    ensures if local.Some? then members != [] && members[0] == local.value && Ordered(members[1..]) else Ordered(members)
  {
    var kept := [];
    for i := 0 to |remotes|
      invariant forall m :: m in kept <==> m in remotes[..i] && m.name != LOCAL_NAME
      invariant DistinctNames(remotes) ==> DistinctNames(kept)
    {
      assert remotes[..i + 1] == remotes[..i] + [remotes[i]];
      if remotes[i].name != LOCAL_NAME {
        kept := kept + [remotes[i]];
      }
    }
    assert remotes[..|remotes|] == remotes;
    var sorted := SortByName(kept);
    members := (if local.Some? then [local.value] else []) + sorted;
    assert (if local.Some? then members[1..] else members) == sorted;
  }
}
