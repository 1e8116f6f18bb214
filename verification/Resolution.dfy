// The resolve loop (internal/content/params.go): parameters in order, each seeing the
// values before it, with every address handed out once per subnet.

module Resolution {
  import opened Wrappers
  import opened Templates
  import opened Ipv4
  import opened Parameters

  datatype Walk = Walk(resolved: Params, drawn: Drawn, pos: nat, failed: seq<(string, ParamError)>)

  const START := Walk(map[], map[], 0, [])

  function Itoa(x: int): string {
    if x < 0 then "-" + Decimal(-x) else Decimal(x)
  }

  function RenderedValue(template: string, resolved: Params): Result<string, ParamError> {
    match Rendered(template, resolved)
    case Ok(text) => Ok(text)
    case Err(names) => Err(Unrendered(names))
  }

  function ParamStep(p: Param, w: Walk, draws: Draws): Step {
    match p.gen
    case "const" => Step(RenderedValue(p.value, w.resolved), w.drawn, w.pos)
    case "cidr" =>
      var (r, pos) := ResolvedCidr(p, w.resolved, draws, w.pos);
      Step(r, w.drawn, pos)
    case "ip_in" => IpStep(p, w.resolved, w.drawn, draws, w.pos)
    case "choice" =>
      if p.choices == [] then Step(Err(NoChoices), w.drawn, w.pos)
      else Step(RenderedValue(p.choices[Draw(draws, w.pos, |p.choices|)], w.resolved), w.drawn, w.pos + 1)
    case "int" =>
      if p.min.None? || p.max.None? then Step(Err(NoBounds), w.drawn, w.pos)
      else if p.max.value < p.min.value then Step(Err(BoundsCrossed(p.min.value, p.max.value)), w.drawn, w.pos)
      else Step(Ok(Itoa(p.min.value + Draw(draws, w.pos, p.max.value - p.min.value + 1))), w.drawn, w.pos + 1)
    case _ => Step(Err(UnknownGenerator(p.gen)), w.drawn, w.pos)
  }

  // What each generator promises of its result, in its own terms.
  ghost predicate IsResolved(p: Param, resolved: Params, drawn: Drawn, draws: Draws, pos: nat, step: Step) {
    && (p.gen != "ip_in" ==> step.drawn == drawn)
    && (p.gen in ["const", "ip_in", "cidr", "choice", "int"] || step == Step(Err(UnknownGenerator(p.gen)), drawn, pos))
    && (p.gen == "const" ==> step.pos == pos && IsText(step.value, p.value, resolved))
    && (p.gen == "cidr" ==>
          match ParsedPrefix(p.base, resolved)
          case Err(e) => step.value == Err(e) && step.pos == pos
          case Ok(base) => IsCidrResult(base, p.prefix, draws, pos, step.value, step.pos))
    && (p.gen == "ip_in" ==> IsIpResult(p, resolved, drawn, draws, pos, step))
    && (p.gen == "choice" ==>
          if p.choices == [] then step.value == Err(NoChoices) && step.pos == pos
          else step.pos == pos + 1 && IsText(step.value, p.choices[draws(pos, |p.choices|) % |p.choices|], resolved))
    && (p.gen == "int" ==> IsNumber(p, draws, pos, step))
  }

  // The text rendered, or the names it lacks.
  ghost predicate IsText(r: Result<string, ParamError>, template: string, resolved: Params) {
    match r
    case Ok(text) => Rendered(template, resolved) == Ok(text)
    case Err(e) => e.Unrendered? && Rendered(template, resolved) == Err(e.names)
  }

  // Every number between the bounds, by the draw.
  ghost predicate IsNumber(p: Param, draws: Draws, pos: nat, step: Step) {
    if p.min.None? || p.max.None? then step.value == Err(NoBounds) && step.pos == pos
    else if p.max.value < p.min.value then step.value == Err(BoundsCrossed(p.min.value, p.max.value)) && step.pos == pos
    else
      var count := p.max.value - p.min.value + 1;
      step.pos == pos + 1 && step.value == Ok(Itoa(p.min.value + draws(pos, count) % count))
  }

  lemma ParamStepIs(p: Param, w: Walk, draws: Draws)
    ensures IsResolved(p, w.resolved, w.drawn, draws, w.pos, ParamStep(p, w, draws))
  {
    if p.gen == "cidr" {
      ResolvedCidrIs(p, w.resolved, draws, w.pos);
    } else if p.gen == "ip_in" {
      IpStepIs(p, w.resolved, w.drawn, draws, w.pos);
    }
  }

  // How one parameter is resolved, as a value: most of what the loop guarantees holds
  // for any way of resolving one.
  type Stepper = (Param, Walk) -> Step

  function Steps(draws: Draws): Stepper {
    (p: Param, w: Walk) => ParamStep(p, w, draws)
  }

  function AfterStep(p: Param, w: Walk, step: Step): Walk {
    match step.value
    case Ok(value) => Walk(w.resolved[p.name := value], step.drawn, step.pos, w.failed)
    case Err(e) => Walk(w.resolved, step.drawn, step.pos, w.failed + [(p.name, e)])
  }

  function AfterParams(stepper: Stepper, ps: seq<Param>): Walk {
    if ps == [] then START
    else
      var w := AfterParams(stepper, ps[..|ps| - 1]);
      AfterStep(ps[|ps| - 1], w, stepper(ps[|ps| - 1], w))
  }

  method ResolveParam(p: Param, resolved: Params, drawn: Drawn, draws: Draws, pos: nat)
    returns (r: Result<string, ParamError>, drawn': Drawn, pos': nat)
    ensures forall failed :: Step(r, drawn', pos') == ParamStep(p, Walk(resolved, drawn, pos, failed), draws)
    ensures IsResolved(p, resolved, drawn, draws, pos, Step(r, drawn', pos'))
  {
    ParamStepIs(p, Walk(resolved, drawn, pos, []), draws);
    drawn', pos' := drawn, pos;
    match p.gen {
      case "const" =>
        var text := Render(p.value, resolved);
        r := if text.Ok? then Ok(text.value) else Err(Unrendered(text.error));
      case "cidr" =>
        r, pos' := ResolveCidr(p, resolved, draws, pos);
      case "ip_in" =>
        r, drawn', pos' := ResolveIpIn(p, resolved, drawn, draws, pos);
      case "choice" =>
        if p.choices == [] { return Err(NoChoices), drawn, pos; }
        var text := Render(p.choices[Draw(draws, pos, |p.choices|)], resolved);
        r := if text.Ok? then Ok(text.value) else Err(Unrendered(text.error));
        pos' := pos + 1;
      case "int" =>
        if p.min.None? || p.max.None? { return Err(NoBounds), drawn, pos; }
        if p.max.value < p.min.value { return Err(BoundsCrossed(p.min.value, p.max.value)), drawn, pos; }
        r := Ok(Itoa(p.min.value + Draw(draws, pos, p.max.value - p.min.value + 1)));
        pos' := pos + 1;
      case _ =>
        r := Err(UnknownGenerator(p.gen));
    }
  }

  method Resolve(ps: seq<Param>, draws: Draws) returns (resolved: Params, failed: seq<(string, ParamError)>)
    ensures resolved == AfterParams(Steps(draws), ps).resolved && failed == AfterParams(Steps(draws), ps).failed
  {
    resolved, failed := map[], [];
    var drawn: Drawn, pos := map[], 0;
    for i := 0 to |ps|
      invariant Walk(resolved, drawn, pos, failed) == WalkAt(Steps(draws), ps, i)
    {
      WalkNext(Steps(draws), ps, i);
      var value;
      value, drawn, pos := ResolveParam(ps[i], resolved, drawn, draws, pos);
      if value.Err? {
        failed := failed + [(ps[i].name, value.error)];
      } else {
        resolved := resolved[ps[i].name := value.value];
      }
    }
    WalkEnd(Steps(draws), ps);
  }

  // ----- the whole loop

  // The state in which parameter i is resolved, and what it resolves to.
  function WalkAt(stepper: Stepper, ps: seq<Param>, i: nat): Walk
    requires i <= |ps|
  {
    AfterParams(stepper, ps[..i])
  }

  function ValueAt(stepper: Stepper, ps: seq<Param>, i: nat): Result<string, ParamError>
    requires i < |ps|
  {
    stepper(ps[i], WalkAt(stepper, ps, i)).value
  }

  lemma WalkNext(stepper: Stepper, ps: seq<Param>, i: nat)
    requires i < |ps|
    ensures WalkAt(stepper, ps, i + 1) == AfterStep(ps[i], WalkAt(stepper, ps, i), stepper(ps[i], WalkAt(stepper, ps, i)))
  {
    assert ps[..i + 1][..i] == ps[..i];
  }

  lemma WalkEnd(stepper: Stepper, ps: seq<Param>)
    ensures WalkAt(stepper, ps, |ps|) == AfterParams(stepper, ps)
  {
    assert ps[..|ps|] == ps;
  }

  function NamesOf(ps: seq<Param>): set<string> {
    set p | p in ps :: p.name
  }

  ghost predicate Binds(stepper: Stepper, ps: seq<Param>, i: nat, name: string)
    requires i <= |ps|
  {
    exists k :: 0 <= k < i && ps[k].name == name && ValueAt(stepper, ps, k).Ok?
  }

  lemma {:induction false} BoundAt(stepper: Stepper, ps: seq<Param>, i: nat, name: string)
    requires i <= |ps|
    ensures name in WalkAt(stepper, ps, i).resolved <==> Binds(stepper, ps, i, name)
    ensures WalkAt(stepper, ps, i).failed == [] <==> forall k | 0 <= k < i :: ValueAt(stepper, ps, k).Ok?
  {
    if i > 0 {
      BoundAt(stepper, ps, i - 1, name);
      WalkNext(stepper, ps, i - 1);
      assert ValueAt(stepper, ps, i - 1).Ok? <==> WalkAt(stepper, ps, i).failed == WalkAt(stepper, ps, i - 1).failed;
    }
  }

  // A name is bound exactly when some parameter of that name resolved; without errors
  // every name is bound, and nothing else.
  lemma ResolveBinds(stepper: Stepper, ps: seq<Param>)
    ensures var w := AfterParams(stepper, ps);
            && (forall name :: name in w.resolved <==> Binds(stepper, ps, |ps|, name))
            && w.resolved.Keys <= NamesOf(ps)
            && (w.failed == [] ==> w.resolved.Keys == NamesOf(ps))
            && (w.failed == [] <==> forall k | 0 <= k < |ps| :: ValueAt(stepper, ps, k).Ok?)
  {
    WalkEnd(stepper, ps);
    var w := AfterParams(stepper, ps);
    BoundAt(stepper, ps, |ps|, "");
    forall name
      ensures name in w.resolved <==> Binds(stepper, ps, |ps|, name)
      ensures Binds(stepper, ps, |ps|, name) ==> name in NamesOf(ps)
      ensures w.failed == [] && name in NamesOf(ps) ==> Binds(stepper, ps, |ps|, name)
    {
      BoundAt(stepper, ps, |ps|, name);
      if w.failed == [] && name in NamesOf(ps) {
        var k :| 0 <= k < |ps| && ps[k].name == name;
        assert ValueAt(stepper, ps, k).Ok?;
      }
    }
  }

  predicate DistinctNames(ps: seq<Param>) {
    forall i, j | 0 <= i < j < |ps| :: ps[i].name != ps[j].name
  }

  lemma {:induction false} ValueStays(stepper: Stepper, ps: seq<Param>, k: nat, i: nat)
    requires k < i <= |ps| && DistinctNames(ps) && ValueAt(stepper, ps, k).Ok?
    ensures var resolved := WalkAt(stepper, ps, i).resolved; ps[k].name in resolved && resolved[ps[k].name] == ValueAt(stepper, ps, k).value
  {
    WalkNext(stepper, ps, i - 1);
    if k < i - 1 {
      ValueStays(stepper, ps, k, i - 1);
    }
  }

  // ----- addresses

  // This parameter gives this address, kept under this subnet text.
  ghost predicate GivesUnder(stepper: Stepper, p: Param, w: Walk, key: string, address: string) {
    && p.gen == "ip_in"
    && ParsedPrefix(p.subnet, w.resolved).Ok?
    && FormatPrefix(ParsedPrefix(p.subnet, w.resolved).value) == key
    && stepper(p, w).value == Ok(address)
  }

  // A step keeps this address under this key exactly when it gives it.
  ghost predicate Keeps(stepper: Stepper, key: string, address: string, gives: (Param, Walk) -> bool) {
    forall p, w :: address in Taken(stepper(p, w).drawn, key) <==> address in Taken(w.drawn, key) || gives(p, w)
  }

  ghost function Giving(stepper: Stepper, key: string, address: string): (Param, Walk) -> bool {
    (p: Param, w: Walk) => GivesUnder(stepper, p, w, key, address)
  }

  lemma IpStepTakes(p: Param, resolved: Params, drawn: Drawn, draws: Draws, pos: nat, key: string, address: string)
    ensures var step := IpStep(p, resolved, drawn, draws, pos);
            address in Taken(step.drawn, key)
            <==> address in Taken(drawn, key)
                 || (ParsedPrefix(p.subnet, resolved).Ok? && FormatPrefix(ParsedPrefix(p.subnet, resolved).value) == key
                     && step.value == Ok(address))
  {
    var step := IpStep(p, resolved, drawn, draws, pos);
    match ParsedPrefix(p.subnet, resolved)
    case Err(_) =>
    case Ok(subnet) =>
      var own := FormatPrefix(subnet);
      if Size(subnet.bits) >= 4 {
        assert step.drawn == WithTaken(drawn, own, step.value);
      }
  }

  lemma StepsKeep(draws: Draws, key: string, address: string)
    ensures Keeps(Steps(draws), key, address, Giving(Steps(draws), key, address))
  {
    var stepper := Steps(draws);
    var gives := Giving(stepper, key, address);
    forall p, w: Walk
      ensures address in Taken(stepper(p, w).drawn, key) <==> address in Taken(w.drawn, key) || gives(p, w)
    {
      if p.gen == "ip_in" {
        IpStepTakes(p, w.resolved, w.drawn, draws, w.pos, key, address);
      }
    }
  }

  ghost predicate GivenBy(stepper: Stepper, ps: seq<Param>, i: nat, gives: (Param, Walk) -> bool)
    requires i <= |ps|
  {
    exists k :: 0 <= k < i && gives(ps[k], WalkAt(stepper, ps, k))
  }

  lemma GivenByNext(stepper: Stepper, ps: seq<Param>, i: nat, gives: (Param, Walk) -> bool)
    requires i < |ps|
    ensures GivenBy(stepper, ps, i + 1, gives) <==> GivenBy(stepper, ps, i, gives) || gives(ps[i], WalkAt(stepper, ps, i))
  {
  }

  lemma {:induction false} TakenUnder(stepper: Stepper, ps: seq<Param>, i: nat, key: string, address: string, gives: (Param, Walk) -> bool)
    requires i <= |ps| && Keeps(stepper, key, address, gives)
    ensures address in Taken(WalkAt(stepper, ps, i).drawn, key) <==> GivenBy(stepper, ps, i, gives)
  {
    if i > 0 {
      TakenUnder(stepper, ps, i - 1, key, address, gives);
      WalkNext(stepper, ps, i - 1);
      GivenByNext(stepper, ps, i - 1, gives);
      var w := WalkAt(stepper, ps, i - 1);
      assert address in Taken(stepper(ps[i - 1], w).drawn, key) <==> address in Taken(w.drawn, key) || gives(ps[i - 1], w);
    }
  }

  // Parameter k gave this address of this subnet.
  ghost predicate Gives(stepper: Stepper, ps: seq<Param>, k: nat, subnet: Prefix, address: string)
    requires k < |ps|
  {
    && ps[k].gen == "ip_in"
    && ParsedPrefix(ps[k].subnet, WalkAt(stepper, ps, k).resolved) == Ok(subnet)
    && ValueAt(stepper, ps, k) == Ok(address)
  }

  ghost predicate Given(stepper: Stepper, ps: seq<Param>, i: nat, subnet: Prefix, address: string)
    requires i <= |ps|
  {
    exists k :: 0 <= k < i && Gives(stepper, ps, k, subnet, address)
  }

  lemma GivesIsUnder(stepper: Stepper, ps: seq<Param>, k: nat, subnet: Prefix, address: string)
    requires k < |ps| && IsPrefix(subnet)
    ensures GivesUnder(stepper, ps[k], WalkAt(stepper, ps, k), FormatPrefix(subnet), address) <==> Gives(stepper, ps, k, subnet, address)
  {
    var parsed := ParsedPrefix(ps[k].subnet, WalkAt(stepper, ps, k).resolved);
    if parsed.Ok? {
      FormatIsInjective(parsed.value, subnet);
    }
  }

  // What counts as used in a subnet is exactly what earlier parameters gave of it.
  lemma TakenIsGiven(draws: Draws, ps: seq<Param>, i: nat, subnet: Prefix, address: string)
    requires i <= |ps| && IsPrefix(subnet)
    ensures address in Taken(WalkAt(Steps(draws), ps, i).drawn, FormatPrefix(subnet)) <==> Given(Steps(draws), ps, i, subnet, address)
  {
    var stepper, key := Steps(draws), FormatPrefix(subnet);
    var gives := Giving(stepper, key, address);
    StepsKeep(draws, key, address);
    TakenUnder(stepper, ps, i, key, address, gives);
    forall k | 0 <= k < i
      ensures gives(ps[k], WalkAt(stepper, ps, k)) <==> Gives(stepper, ps, k, subnet, address)
    {
      GivesIsUnder(stepper, ps, k, subnet, address);
    }
  }

  lemma IpStepGives(p: Param, resolved: Params, drawn: Drawn, draws: Draws, pos: nat, subnet: Prefix, address: string)
    requires ParsedPrefix(p.subnet, resolved) == Ok(subnet) && IpStep(p, resolved, drawn, draws, pos).value == Ok(address)
    ensures IsPrefix(subnet) && Masked(subnet) == subnet && address !in Taken(drawn, FormatPrefix(subnet))
    ensures exists x: Address :: IsHost(subnet, x) && address == FormatAddress(x)
  {
    ParsedIsMasked(p.subnet, resolved);
    ChosenHostIsFree(p, subnet, Taken(drawn, FormatPrefix(subnet)), draws, pos);
  }

  lemma GivenIsFree(draws: Draws, ps: seq<Param>, j: nat, subnet: Prefix, address: string)
    requires j < |ps| && Gives(Steps(draws), ps, j, subnet, address)
    ensures IsPrefix(subnet) && Masked(subnet) == subnet && !Given(Steps(draws), ps, j, subnet, address)
    ensures exists x: Address :: IsHost(subnet, x) && address == FormatAddress(x)
  {
    var w := WalkAt(Steps(draws), ps, j);
    IpStepGives(ps[j], w.resolved, w.drawn, draws, w.pos, subnet, address);
    TakenIsGiven(draws, ps, j, subnet, address);
  }

  // For every parameter list and every stream of draws: an address given for a subnet is
  // inside it, is neither its first nor its last, and is given only once.
  lemma AddressesAreDistinct(draws: Draws, ps: seq<Param>, j: nat, subnet: Prefix, address: string)
    requires j < |ps| && Gives(Steps(draws), ps, j, subnet, address)
    ensures IsPrefix(subnet) && Masked(subnet) == subnet
    ensures exists x: Address :: IsHost(subnet, x) && Contains(subnet, x) && address == FormatAddress(x)
    ensures forall k | 0 <= k < |ps| && k != j :: !Gives(Steps(draws), ps, k, subnet, address)
  {
    GivenIsFree(draws, ps, j, subnet, address);
    var x: Address :| IsHost(subnet, x) && address == FormatAddress(x);
    ContainsIsInterval(subnet, x);
    forall k | j < k < |ps|
      ensures !Gives(Steps(draws), ps, k, subnet, address)
    {
      if Gives(Steps(draws), ps, k, subnet, address) {
        GivenIsFree(draws, ps, k, subnet, address);
      }
    }
  }

  // So with distinct names the values of the result are distinct.
  lemma ResolvedAddressesDiffer(draws: Draws, ps: seq<Param>, j: nat, k: nat, subnet: Prefix, a: string, b: string)
    requires DistinctNames(ps) && j < k < |ps|
    requires Gives(Steps(draws), ps, j, subnet, a) && Gives(Steps(draws), ps, k, subnet, b)
    ensures var resolved := AfterParams(Steps(draws), ps).resolved;
            ps[j].name in resolved && ps[k].name in resolved && resolved[ps[j].name] == a != b == resolved[ps[k].name]
  {
    AddressesAreDistinct(draws, ps, j, subnet, a);
    ValueStays(Steps(draws), ps, j, |ps|);
    ValueStays(Steps(draws), ps, k, |ps|);
    WalkEnd(Steps(draws), ps);
  }

  lemma ChosenIsUsed(p: Param, subnet: Prefix, taken: set<string>, draws: Draws, pos: nat, s: Prefix, address: string)
    requires IsPrefix(subnet) && Size(subnet.bits) >= 4
    requires ChosenHost(p, subnet, taken, draws, pos).0 == Err(AddressUsed(address, s))
    ensures s == subnet && address in taken
  {
  }

  lemma UsedIsTaken(p: Param, resolved: Params, drawn: Drawn, draws: Draws, pos: nat, subnet: Prefix, address: string)
    requires IpStep(p, resolved, drawn, draws, pos).value == Err(AddressUsed(address, subnet))
    requires ParsedPrefix(p.subnet, resolved).Ok?
    ensures IsPrefix(subnet) && address in Taken(drawn, FormatPrefix(subnet))
  {
    var s := ParsedPrefix(p.subnet, resolved).value;
    if Size(s.bits) >= 4 {
      ChosenIsUsed(p, s, Taken(drawn, FormatPrefix(s)), draws, pos, subnet, address);
    }
  }

  lemma UsedIsParsed(template: string, resolved: Params, subnet: Prefix, address: string)
    ensures ParsedPrefix(template, resolved) != Err(AddressUsed(address, subnet))
  {
  }

  // An index is refused as used only when an earlier parameter gave that address.
  lemma UsedIsGiven(draws: Draws, ps: seq<Param>, j: nat, subnet: Prefix, address: string)
    requires j < |ps| && ps[j].gen == "ip_in" && ValueAt(Steps(draws), ps, j) == Err(AddressUsed(address, subnet))
    ensures IsPrefix(subnet) && Given(Steps(draws), ps, j, subnet, address)
  {
    var w := WalkAt(Steps(draws), ps, j);
    UsedIsParsed(ps[j].subnet, w.resolved, subnet, address);
    UsedIsTaken(ps[j], w.resolved, w.drawn, draws, w.pos, subnet, address);
    TakenIsGiven(draws, ps, j, subnet, address);
  }

  lemma ChosenAtIndex(p: Param, subnet: Prefix, taken: set<string>, draws: Draws, pos: nat, k: nat, r: Result<string, ParamError>, pos': nat)
    requires p.index == Some(k) && p.span.None? && IsPrefix(subnet) && 1 <= k <= Size(subnet.bits) - 2
    requires subnet.addr + Size(subnet.bits) <= ADDRESS_LIMIT && IsChosen(p, subnet, taken, draws, pos, r, pos')
    ensures var text := FormatAddress(subnet.addr + k); r == if text in taken then Err(AddressUsed(text, subnet)) else Ok(text)
  {
  }

  lemma IndexIn(p: Param, subnet: Prefix, drawn: Drawn, draws: Draws, pos: nat, k: nat, step: Step)
    requires p.index == Some(k) && p.span.None? && IsPrefix(subnet) && 1 <= k <= Size(subnet.bits) - 2
    requires IsIpResultIn(p, subnet, drawn, draws, pos, step)
    ensures subnet.addr + k < ADDRESS_LIMIT
    ensures var text := FormatAddress(subnet.addr + k);
            step.value == if text in Taken(drawn, FormatPrefix(subnet)) then Err(AddressUsed(text, subnet)) else Ok(text)
  {
    SmallSizes(subnet.bits);
    ChosenAtIndex(p, subnet, Taken(drawn, FormatPrefix(subnet)), draws, pos, k, step.value, step.pos);
  }

  lemma ResultIn(p: Param, resolved: Params, drawn: Drawn, draws: Draws, pos: nat, subnet: Prefix)
    requires ParsedPrefix(p.subnet, resolved) == Ok(subnet) && IsPrefix(subnet)
    ensures IsIpResultIn(p, subnet, drawn, draws, pos, IpStep(p, resolved, drawn, draws, pos))
  {
    IpStepIs(p, resolved, drawn, draws, pos);
  }

  lemma IndexStep(draws: Draws, p: Param, resolved: Params, drawn: Drawn, pos: nat, subnet: Prefix, k: nat)
    requires p.index == Some(k) && p.span.None? && ParsedPrefix(p.subnet, resolved) == Ok(subnet)
    requires IsPrefix(subnet) && 1 <= k <= Size(subnet.bits) - 2
    ensures subnet.addr + k < ADDRESS_LIMIT
    ensures var text := FormatAddress(subnet.addr + k);
            IpStep(p, resolved, drawn, draws, pos).value
            == if text in Taken(drawn, FormatPrefix(subnet)) then Err(AddressUsed(text, subnet)) else Ok(text)
  {
    ResultIn(p, resolved, drawn, draws, pos, subnet);
    IndexIn(p, subnet, drawn, draws, pos, k, IpStep(p, resolved, drawn, draws, pos));
  }

  lemma ValueIsIpStep(draws: Draws, ps: seq<Param>, j: nat)
    requires j < |ps| && ps[j].gen == "ip_in"
    ensures var w := WalkAt(Steps(draws), ps, j);
            ValueAt(Steps(draws), ps, j) == IpStep(ps[j], w.resolved, w.drawn, draws, w.pos).value
  {
  }

  // A parameter with an index is given exactly the address at that index of its subnet,
  // unless an earlier parameter was given it.
  lemma IndexGives(draws: Draws, ps: seq<Param>, j: nat, subnet: Prefix, k: nat)
    requires j < |ps| && ps[j].gen == "ip_in" && ps[j].index == Some(k) && ps[j].span.None?
    requires ParsedPrefix(ps[j].subnet, WalkAt(Steps(draws), ps, j).resolved) == Ok(subnet)
    requires IsPrefix(subnet) && 1 <= k <= Size(subnet.bits) - 2
    ensures subnet.addr + k < ADDRESS_LIMIT
    ensures var text := FormatAddress(subnet.addr + k);
            ValueAt(Steps(draws), ps, j)
            == if Given(Steps(draws), ps, j, subnet, text) then Err(AddressUsed(text, subnet)) else Ok(text)
  {
    var w := WalkAt(Steps(draws), ps, j);
    ValueIsIpStep(draws, ps, j);
    IndexStep(draws, ps[j], w.resolved, w.drawn, w.pos, subnet, k);
    TakenIsGiven(draws, ps, j, subnet, FormatAddress(subnet.addr + k));
  }

  // ----- the other generators

  // For every parameter list and every stream of draws: a cidr is an aligned block of its
  // base that avoids the reserved block.
  lemma CidrsAreOk(draws: Draws, ps: seq<Param>, k: nat)
    requires k < |ps| && ps[k].gen == "cidr" && ValueAt(Steps(draws), ps, k).Ok?
    ensures var base := ParsedPrefix(ps[k].base, WalkAt(Steps(draws), ps, k).resolved);
            base.Ok? && exists c: Prefix :: IsPrefix(c) && ValueAt(Steps(draws), ps, k).value == FormatPrefix(c)
                                            && ParsePrefix(FormatPrefix(c)) == Some(c)
                                            && CidrOk(base.value, ps[k].prefix, RESERVED, c)
  {
    var w := WalkAt(Steps(draws), ps, k);
    ResolvedCidrIsOk(ps[k], w.resolved, draws, w.pos);
  }

  // A choice is one of its texts rendered, an int lies between its bounds.
  lemma ChoicesAndIntsAreOk(draws: Draws, p: Param, w: Walk)
    requires ParamStep(p, w, draws).value.Ok?
    ensures p.gen == "choice" ==> exists text :: text in p.choices && Rendered(text, w.resolved) == Ok(ParamStep(p, w, draws).value.value)
    ensures p.gen == "int" ==>
              && p.min.Some? && p.max.Some?
              && exists x :: p.min.value <= x <= p.max.value && ParamStep(p, w, draws).value.value == Itoa(x)
  {
    if p.gen == "choice" {
      var text := p.choices[Draw(draws, w.pos, |p.choices|)];
      assert text in p.choices && Rendered(text, w.resolved).Ok?;
    } else if p.gen == "int" {
      var x := p.min.value + Draw(draws, w.pos, p.max.value - p.min.value + 1);
      assert ParamStep(p, w, draws).value.value == Itoa(x);
    }
  }
}
