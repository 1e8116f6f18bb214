// Seeded parameter resolution (internal/content/params.go). The random generator is an
// arbitrary stream of draws, each below the bound it was asked for.

module Parameters {
  import opened Wrappers
  import opened Templates
  import opened Ipv4

  // What the k-th draw would give for each bound, before it is brought into range.
  type Draws = (nat, nat) -> nat

  function Draw(draws: Draws, pos: nat, bound: nat): (d: nat)
    requires bound > 0
    ensures d < bound
  {
    draws(pos, bound) % bound
  }

  const DRAW_ATTEMPTS := 64
  const RESERVED: Prefix := Prefix(0xAC10_0000, 12)

  datatype Param = Param(name: string, gen: string, value: string, base: string, prefix: int, subnet: string,
                         index: Option<int>, span: Option<seq<int>>, choices: seq<string>, min: Option<int>, max: Option<int>)

  datatype ParamError =
    | Unrendered(names: seq<string>)
    | NotAPrefix(text: string)
    | PrefixOutside(prefix: int, base: Prefix)
    | NoFreeBlock(prefix: int, base: Prefix)
    | NoUsableAddress(subnet: Prefix)
    | TwoSelectors
    | IndexOutside(index: int, subnet: Prefix)
    | AddressUsed(address: string, subnet: Prefix)
    | RangeOutside(lo: int, hi: int, subnet: Prefix)
    | RangeUsedUp(lo: int, hi: int, subnet: Prefix)
    | NoSelector
    | NoChoices
    | NoBounds
    | BoundsCrossed(min: int, max: int)
    | UnknownGenerator(gen: string)

  // The addresses handed out so far, by the text of the subnet.
  type Drawn = map<string, set<string>>

  datatype Step = Step(value: Result<string, ParamError>, drawn: Drawn, pos: nat)

  function Wrap32(x: nat): Address {
    x % 0x1_0000_0000
  }

  function Wrap64(x: nat): nat {
    x % 0x1_0000_0000_0000_0000
  }

  function ParsedPrefix(template: string, resolved: Params): (r: Result<Prefix, ParamError>)
    ensures r.Ok? ==> IsPrefix(r.value)
  {
    match Rendered(template, resolved)
    case Err(names) => Err(Unrendered(names))
    case Ok(text) =>
      match ParsePrefix(text)
      case None => Err(NotAPrefix(text))
      case Some(p) => Ok(Masked(p))
  }

  lemma ParsedIsMasked(template: string, resolved: Params)
    ensures var r := ParsedPrefix(template, resolved); r.Ok? ==> Masked(r.value) == r.value
  {
    var r := ParsedPrefix(template, resolved);
    if r.Ok? {
      ContainsIsInterval(ParsePrefix(Rendered(template, resolved).value).value, 0);
    }
  }

  // ----- cidr

  // The address computation with the widths the source gives it.
  function Candidate(base: Prefix, prefix: nat, d: nat): Prefix
    requires base.bits < prefix <= 32
  {
    Prefix(Wrap32(Wrap64(base.addr + Wrap64(d * Size(prefix)))), prefix)
  }

  function CandidateAt(base: Prefix, prefix: nat, draws: Draws, pos: nat): Prefix
    requires base.bits < prefix <= 32
  {
    Candidate(base, prefix, Draw(draws, pos, Pow2(prefix - base.bits)))
  }

  function CidrFrom(base: Prefix, prefix: nat, avoid: Prefix, draws: Draws, pos: nat, end: nat): (r: (Option<Prefix>, nat))
    requires base.bits < prefix <= 32 && IsPrefix(avoid) && pos <= end
    ensures r.0.Some? ==> IsPrefix(r.0.value)
    decreases end - pos
  {
    if pos == end then (None, pos)
    else
      var c := CandidateAt(base, prefix, draws, pos);
      if !Overlaps(c, avoid) then (Some(c), pos + 1) else CidrFrom(base, prefix, avoid, draws, pos + 1, end)
  }

  function ResolvedCidr(p: Param, resolved: Params, draws: Draws, pos: nat): (Result<string, ParamError>, nat) {
    match ParsedPrefix(p.base, resolved)
    case Err(e) => (Err(e), pos)
    case Ok(base) =>
      if p.prefix <= base.bits || p.prefix > 32 then (Err(PrefixOutside(p.prefix, base)), pos)
      else
        match CidrFrom(base, p.prefix, RESERVED, draws, pos, pos + DRAW_ATTEMPTS)
        case (Some(c), pos') => (Ok(FormatPrefix(c)), pos')
        case (None, pos') => (Err(NoFreeBlock(p.prefix, base)), pos')
  }

  method DrawCidr(base: Prefix, prefix: nat, avoid: Prefix, draws: Draws, pos: nat) returns (r: Option<Prefix>, pos': nat)
    requires base.bits < prefix <= 32 && IsPrefix(avoid)
    ensures (r, pos') == CidrFrom(base, prefix, avoid, draws, pos, pos + DRAW_ATTEMPTS)
  {
    pos' := pos;
    for i := 0 to DRAW_ATTEMPTS
      invariant pos' == pos + i
      invariant CidrFrom(base, prefix, avoid, draws, pos, pos + DRAW_ATTEMPTS) == CidrFrom(base, prefix, avoid, draws, pos', pos + DRAW_ATTEMPTS)
    {
      var candidate := CandidateAt(base, prefix, draws, pos');
      pos' := pos' + 1;
      if !Overlaps(candidate, avoid) { return Some(candidate), pos'; }
    }
    return None, pos';
  }

  // The k-th block of a longer prefix.
  lemma BlockOf(start: nat, size: nat, span: nat, d: nat)
    requires size > 0 && d < span && start % (span * size) == 0
    ensures (start + d * size) % size == 0 && d * size + size <= span * size
  {
    var q := start / (span * size);
    assert start == span * size * q;
    Regroup(size, span, q, d, 0);
    assert size * span == span * size && size * d == d * size;
    QuotientIs(start + d * size, size, span * q + d, 0);
    BlockEnds(size, span, d);
  }

  lemma NoWrap(start: nat, k: nat)
    requires start + k < ADDRESS_LIMIT
    ensures Wrap32(Wrap64(start + Wrap64(k))) == start + k
  {
  }

  lemma BlockAddress(start: nat, size: nat, span: nat, d: nat)
    requires size > 0 && d < span && start % (span * size) == 0 && start + span * size <= ADDRESS_LIMIT
    ensures Wrap32(Wrap64(start + Wrap64(d * size))) == start + d * size && (start + d * size) % size == 0
    ensures start <= start + d * size && start + d * size + size <= start + span * size
  {
    BlockOf(start, size, span, d);
    assert d * size >= 0;
    NoWrap(start, d * size);
  }

  lemma CandidateBlock(base: Prefix, prefix: nat) returns (total: nat, size: nat, span: nat)
    requires IsPrefix(base) && Masked(base) == base && base.bits < prefix <= 32
    ensures total == Size(base.bits) && size == Size(prefix) && span == Pow2(prefix - base.bits)
    ensures total == span * size && size > 0 && base.addr % total == 0 && base.addr + total <= ADDRESS_LIMIT
  {
    total, size, span := Size(base.bits), Size(prefix), Pow2(prefix - base.bits);
    SizeSplits(base.bits, prefix);
    BaseBlock(base);
  }

  lemma BlockOfBase(base: Prefix, prefix: nat, d: nat, total: nat, size: nat, span: nat)
    requires base.bits < prefix <= 32 && size == Size(prefix) && d < span
    requires total == span * size && size > 0 && base.addr % total == 0 && base.addr + total <= ADDRESS_LIMIT
    ensures var c := Candidate(base, prefix, d);
            c.addr == base.addr + d * size && c.addr % size == 0 && base.addr <= c.addr && c.addr + size <= base.addr + total
  {
    BlockInTotal(base.addr, total, size, span, d);
  }

  lemma CandidateFits(base: Prefix, prefix: nat, d: nat)
    requires IsPrefix(base) && Masked(base) == base && base.bits < prefix <= 32
    requires d < Pow2(prefix - base.bits)
    ensures var c := Candidate(base, prefix, d);
            c.addr == base.addr + d * Size(prefix)
            && base.addr <= c.addr && c.addr + Size(prefix) <= base.addr + Size(base.bits) <= ADDRESS_LIMIT
  {
    var total, size, span := CandidateBlock(base, prefix);
    BlockOfBase(base, prefix, d, total, size, span);
  }

  lemma CandidateIsMasked(base: Prefix, prefix: nat, d: nat)
    requires IsPrefix(base) && Masked(base) == base && base.bits < prefix <= 32
    requires d < Pow2(prefix - base.bits)
    ensures Masked(Candidate(base, prefix, d)) == Candidate(base, prefix, d)
  {
    var total, size, span := CandidateBlock(base, prefix);
    BlockOfBase(base, prefix, d, total, size, span);
    AlignedIsMasked(Candidate(base, prefix, d), size);
  }

  // The blocks of a longer prefix that make up the base: none of the arithmetic wraps.
  lemma CandidateIsInside(base: Prefix, prefix: nat, d: nat)
    requires IsPrefix(base) && Masked(base) == base && base.bits < prefix <= 32
    requires d < Pow2(prefix - base.bits)
    ensures var c := Candidate(base, prefix, d);
            c.addr == base.addr + d * Size(prefix) && Masked(c) == c
            && base.addr <= c.addr && c.addr + Size(prefix) <= base.addr + Size(base.bits) <= ADDRESS_LIMIT
  {
    CandidateFits(base, prefix, d);
    CandidateIsMasked(base, prefix, d);
  }

  lemma AlignedIsMasked(p: Prefix, size: nat)
    requires IsPrefix(p) && size == Size(p.bits) && size > 0 && p.addr % size == 0
    ensures Masked(p) == p
  {
  }

  lemma BlockInTotal(start: nat, total: nat, size: nat, span: nat, d: nat)
    requires total == span * size && size > 0 && d < span && start % total == 0 && start + total <= ADDRESS_LIMIT
    ensures Wrap32(Wrap64(start + Wrap64(d * size))) == start + d * size && (start + d * size) % size == 0
    ensures start <= start + d * size && start + d * size + size <= start + total
  {
    BlockAddress(start, size, span, d);
  }

  lemma SizeSplits(bits: nat, prefix: nat)
    requires bits <= prefix <= 32
    ensures Size(bits) == Pow2(prefix - bits) * Size(prefix)
  {
    Pow2Adds(prefix - bits, 32 - prefix);
  }

  lemma BaseBlock(base: Prefix)
    requires IsPrefix(base) && Masked(base) == base
    ensures base.addr % Size(base.bits) == 0 && base.addr + Size(base.bits) <= ADDRESS_LIMIT
  {
    ContainsIsInterval(base, 0);
  }

  lemma BaseFits(base: Prefix)
    requires IsPrefix(base) && Masked(base) == base
    ensures base.addr + Size(base.bits) <= ADDRESS_LIMIT
  {
    BaseBlock(base);
  }

  lemma BlockEnds(size: nat, span: nat, d: nat)
    requires d < span
    ensures d * size + size <= span * size
  {
    MulMonotone(d + 1, span, size);
    assert (d + 1) * size == d * size + size;
  }

  lemma MulMonotone(x: nat, y: nat, k: nat)
    requires x <= y
    ensures x * k <= y * k
  {
    assert y * k == x * k + (y - x) * k;
    assert (y - x) * k >= 0;
  }

  // Whatever is drawn, a resolved cidr is an aligned block of the length asked for, wholly
  // inside its base and clear of the reserved block.
  ghost predicate CidrOk(base: Prefix, prefix: int, avoid: Prefix, c: Prefix)
    requires IsPrefix(base) && IsPrefix(avoid) && IsPrefix(c)
  {
    && c.bits == prefix
    && Masked(c) == c
    && (forall x: Address | Contains(c, x) :: Contains(base, x))
    && (forall x: Address | Contains(c, x) :: !Contains(avoid, x))
  }

  lemma {:induction false} CidrFromIsFree(base: Prefix, prefix: nat, avoid: Prefix, draws: Draws, pos: nat, end: nat)
    requires IsPrefix(base) && Masked(base) == base && base.bits < prefix <= 32 && IsPrefix(avoid) && pos <= end
    ensures var (c, pos') := CidrFrom(base, prefix, avoid, draws, pos, end);
            c.Some? ==> pos < pos' <= end
                        && c.value == CandidateAt(base, prefix, draws, pos' - 1)
                        && !Overlaps(c.value, avoid)
    decreases end - pos
  {
    if pos < end {
      CidrFromIsFree(base, prefix, avoid, draws, pos + 1, end);
    }
  }

  // It gives up exactly when every one of its draws hit the reserved block.
  lemma {:induction false} CidrGivesUp(base: Prefix, prefix: nat, avoid: Prefix, draws: Draws, pos: nat, end: nat)
    requires IsPrefix(base) && base.bits < prefix <= 32 && IsPrefix(avoid) && pos <= end
    ensures CidrFrom(base, prefix, avoid, draws, pos, end).0.None?
       <==> forall k | pos <= k < end :: Overlaps(CandidateAt(base, prefix, draws, k), avoid)
    decreases end - pos
  {
    if pos < end {
      CidrGivesUp(base, prefix, avoid, draws, pos + 1, end);
    }
  }

  lemma CandidateIsOk(base: Prefix, prefix: nat, avoid: Prefix, d: nat)
    requires IsPrefix(base) && Masked(base) == base && base.bits < prefix <= 32 && IsPrefix(avoid)
    requires d < Pow2(prefix - base.bits) && !Overlaps(Candidate(base, prefix, d), avoid)
    ensures CidrOk(base, prefix, avoid, Candidate(base, prefix, d))
  {
    var c := Candidate(base, prefix, d);
    CandidateIsInside(base, prefix, d);
    OverlapsIffShare(c, avoid);
    forall x: Address | Contains(c, x)
      ensures Contains(base, x)
    {
      ContainsIsInterval(c, x);
      ContainsIsInterval(base, x);
    }
  }

  lemma CidrFromIsOk(base: Prefix, prefix: nat, avoid: Prefix, draws: Draws, pos: nat)
    requires IsPrefix(base) && Masked(base) == base && base.bits < prefix <= 32 && IsPrefix(avoid)
    ensures var c := CidrFrom(base, prefix, avoid, draws, pos, pos + DRAW_ATTEMPTS).0;
            c.Some? ==> CidrOk(base, prefix, avoid, c.value) && ParsePrefix(FormatPrefix(c.value)) == c
  {
    CidrUpToIsOk(base, prefix, avoid, draws, pos, pos + DRAW_ATTEMPTS);
  }

  lemma CidrUpToIsOk(base: Prefix, prefix: nat, avoid: Prefix, draws: Draws, pos: nat, end: nat)
    requires IsPrefix(base) && Masked(base) == base && base.bits < prefix <= 32 && IsPrefix(avoid) && pos <= end
    ensures var c := CidrFrom(base, prefix, avoid, draws, pos, end).0;
            c.Some? ==> CidrOk(base, prefix, avoid, c.value) && ParsePrefix(FormatPrefix(c.value)) == c
  {
    CidrFromIsFree(base, prefix, avoid, draws, pos, end);
    var (c, pos') := CidrFrom(base, prefix, avoid, draws, pos, end);
    if c.Some? {
      CandidateIsOk(base, prefix, avoid, Draw(draws, pos' - 1, Pow2(prefix - base.bits)));
      ParseOfFormat(c.value);
    }
  }

  lemma ResolvedCidrIsOk(p: Param, resolved: Params, draws: Draws, pos: nat)
    ensures var r := ResolvedCidr(p, resolved, draws, pos).0;
            r.Ok? ==> ParsedPrefix(p.base, resolved).Ok?
                      && exists c: Prefix :: IsPrefix(c) && r.value == FormatPrefix(c) && ParsePrefix(r.value) == Some(c)
                                             && CidrOk(ParsedPrefix(p.base, resolved).value, p.prefix, RESERVED, c)
  {
    var r := ResolvedCidr(p, resolved, draws, pos).0;
    if r.Ok? {
      var base := ParsedPrefix(p.base, resolved).value;
      ParsedIsMasked(p.base, resolved);
      CidrFromIsOk(base, p.prefix, RESERVED, draws, pos);
      var c := CidrFrom(base, p.prefix, RESERVED, draws, pos, pos + DRAW_ATTEMPTS).0.value;
      assert CidrOk(base, p.prefix, RESERVED, c);
    }
  }

  // ----- cidr in plain arithmetic

  // The block the draw at pos stands for: that many blocks of the new length into the base.
  ghost predicate IsDrawnBlock(base: Prefix, prefix: int, draws: Draws, pos: nat, c: Prefix) {
    && IsPrefix(base) && base.bits < prefix <= 32 && c.bits == prefix
    && c.addr == base.addr + draws(pos, Pow2(prefix - base.bits)) % Pow2(prefix - base.bits) * Size(prefix)
  }

  ghost predicate SharesNone(c: Prefix, avoid: Prefix)
    requires IsPrefix(c) && IsPrefix(avoid)
  {
    forall x: Address :: Contains(c, x) ==> !Contains(avoid, x)
  }

  // The draw at pos is clear of the reserved block.
  ghost predicate IsClearAt(base: Prefix, prefix: int, avoid: Prefix, draws: Draws, pos: nat)
    requires IsPrefix(avoid)
  {
    exists c :: IsDrawnBlock(base, prefix, draws, pos, c) && SharesNone(c, avoid)
  }

  // The first drawn block that is clear of the reserved one, if one of the first 64 is.
  ghost predicate IsCidrResult(base: Prefix, prefix: int, draws: Draws, pos: nat, r: Result<string, ParamError>, pos': nat) {
    if prefix <= base.bits || prefix > 32 then r == Err(PrefixOutside(prefix, base)) && pos' == pos
    else if r.Ok? then
      && pos < pos' <= pos + 64 && IsClearAt(base, prefix, RESERVED, draws, pos' - 1)
      && (exists c :: IsDrawnBlock(base, prefix, draws, pos' - 1, c) && r.value == FormatPrefix(c))
      && forall k | pos <= k < pos' - 1 :: !IsClearAt(base, prefix, RESERVED, draws, k)
    else
      && r == Err(NoFreeBlock(prefix, base)) && pos' == pos + 64
      && forall k | pos <= k < pos + 64 :: !IsClearAt(base, prefix, RESERVED, draws, k)
  }

  lemma CandidateIsDrawn(base: Prefix, prefix: nat, draws: Draws, pos: nat)
    requires IsPrefix(base) && Masked(base) == base && base.bits < prefix <= 32
    ensures IsDrawnBlock(base, prefix, draws, pos, CandidateAt(base, prefix, draws, pos))
  {
    var d := Draw(draws, pos, Pow2(prefix - base.bits));
    CandidateFits(base, prefix, d);
    AtDraw(base, prefix, draws, pos, d, Candidate(base, prefix, d));
  }

  lemma AtDraw(base: Prefix, prefix: nat, draws: Draws, pos: nat, d: nat, c: Prefix)
    requires IsPrefix(base) && base.bits < prefix <= 32 && d == draws(pos, Pow2(prefix - base.bits)) % Pow2(prefix - base.bits)
    requires c.bits == prefix && c.addr == base.addr + d * Size(prefix)
    ensures IsDrawnBlock(base, prefix, draws, pos, c)
  {
  }

  lemma OneDrawnBlock(base: Prefix, prefix: nat, draws: Draws, pos: nat, c: Prefix, o: Prefix)
    requires IsDrawnBlock(base, prefix, draws, pos, c) && IsDrawnBlock(base, prefix, draws, pos, o)
    ensures c == o
  {
  }

  lemma ClearIff(base: Prefix, prefix: nat, avoid: Prefix, draws: Draws, pos: nat, c: Prefix)
    requires IsPrefix(avoid) && IsDrawnBlock(base, prefix, draws, pos, c)
    ensures IsClearAt(base, prefix, avoid, draws, pos) <==> !Overlaps(c, avoid)
  {
    ShareNoneIff(c, avoid);
    if o :| IsDrawnBlock(base, prefix, draws, pos, o) && SharesNone(o, avoid) {
      OneDrawnBlock(base, prefix, draws, pos, c, o);
    }
  }

  // The k-th candidate is the k-th drawn block, and clear exactly when it is not skipped.
  lemma CandidateIsClear(base: Prefix, prefix: nat, avoid: Prefix, draws: Draws, pos: nat)
    requires IsPrefix(base) && Masked(base) == base && base.bits < prefix <= 32 && IsPrefix(avoid)
    ensures IsDrawnBlock(base, prefix, draws, pos, CandidateAt(base, prefix, draws, pos))
    ensures IsClearAt(base, prefix, avoid, draws, pos) <==> !Overlaps(CandidateAt(base, prefix, draws, pos), avoid)
  {
    CandidateIsDrawn(base, prefix, draws, pos);
    ClearIff(base, prefix, avoid, draws, pos, CandidateAt(base, prefix, draws, pos));
  }

  lemma ShareNoneIff(c: Prefix, avoid: Prefix)
    requires IsPrefix(c) && IsPrefix(avoid)
    ensures SharesNone(c, avoid) <==> !Overlaps(c, avoid)
  {
    OverlapsIffShare(c, avoid);
  }

  lemma {:induction false} CidrFromIsFirst(base: Prefix, prefix: nat, avoid: Prefix, draws: Draws, pos: nat, end: nat)
    requires base.bits < prefix <= 32 && IsPrefix(avoid) && pos <= end
    ensures var (c, pos') := CidrFrom(base, prefix, avoid, draws, pos, end);
            && pos <= pos' <= end && (c.None? ==> pos' == end)
            && (c.Some? ==> pos < pos' && c.value == CandidateAt(base, prefix, draws, pos' - 1) && !Overlaps(c.value, avoid))
            && forall k | pos <= k < (if c.Some? then pos' - 1 else end) :: Overlaps(CandidateAt(base, prefix, draws, k), avoid)
    decreases end - pos
  {
    if pos < end {
      CidrFromIsFirst(base, prefix, avoid, draws, pos + 1, end);
    }
  }

  // What the search returns, when it took the draws from pos on.
  ghost predicate IsFirstBlock(base: Prefix, prefix: int, avoid: Prefix, draws: Draws, pos: nat, end: nat, c: Option<Prefix>, pos': nat)
    requires IsPrefix(avoid)
  {
    && pos <= pos' <= end && (c.None? ==> pos' == end)
    && (c.Some? ==> pos < pos' && IsDrawnBlock(base, prefix, draws, pos' - 1, c.value) && IsClearAt(base, prefix, avoid, draws, pos' - 1))
    && forall k | pos <= k < (if c.Some? then pos' - 1 else end) :: !IsClearAt(base, prefix, avoid, draws, k)
  }

  lemma CidrFromIsFirstBlock(base: Prefix, prefix: nat, avoid: Prefix, draws: Draws, pos: nat, end: nat)
    requires IsPrefix(base) && Masked(base) == base && base.bits < prefix <= 32 && IsPrefix(avoid) && pos <= end
    ensures var (c, pos') := CidrFrom(base, prefix, avoid, draws, pos, end); IsFirstBlock(base, prefix, avoid, draws, pos, end, c, pos')
  {
    CidrFromIsFirst(base, prefix, avoid, draws, pos, end);
    var (c, pos') := CidrFrom(base, prefix, avoid, draws, pos, end);
    if c.Some? { CandidateIsClear(base, prefix, avoid, draws, pos' - 1); }
    forall k: nat | pos <= k < (if c.Some? then pos' - 1 else end) ensures !IsClearAt(base, prefix, avoid, draws, k) {
      CandidateIsClear(base, prefix, avoid, draws, k);
    }
  }

  lemma FirstBlockIsResult(base: Prefix, prefix: nat, draws: Draws, pos: nat, c: Option<Prefix>, pos': nat)
    requires base.bits < prefix <= 32 && IsFirstBlock(base, prefix, RESERVED, draws, pos, pos + 64, c, pos')
    ensures IsCidrResult(base, prefix, draws, pos, if c.Some? then Ok(FormatPrefix(c.value)) else Err(NoFreeBlock(prefix, base)), pos')
  {
  }

  lemma ResolvedCidrIs(p: Param, resolved: Params, draws: Draws, pos: nat)
    ensures var (r, pos') := ResolvedCidr(p, resolved, draws, pos);
            match ParsedPrefix(p.base, resolved)
            case Err(e) => r == Err(e) && pos' == pos
            case Ok(base) => IsCidrResult(base, p.prefix, draws, pos, r, pos')
  {
    ParsedIsMasked(p.base, resolved);
    var parsed := ParsedPrefix(p.base, resolved);
    if parsed.Ok? && parsed.value.bits < p.prefix <= 32 {
      var (c, pos') := CidrFrom(parsed.value, p.prefix, RESERVED, draws, pos, pos + DRAW_ATTEMPTS);
      CidrFromIsFirstBlock(parsed.value, p.prefix, RESERVED, draws, pos, pos + DRAW_ATTEMPTS);
      FirstBlockIsResult(parsed.value, p.prefix, draws, pos, c, pos');
    }
  }

  method ResolveCidr(p: Param, resolved: Params, draws: Draws, pos: nat) returns (r: Result<string, ParamError>, pos': nat)
    ensures (r, pos') == ResolvedCidr(p, resolved, draws, pos)
    ensures match ParsedPrefix(p.base, resolved)
            case Err(e) => r == Err(e) && pos' == pos
            case Ok(base) => IsCidrResult(base, p.prefix, draws, pos, r, pos')
  {
    ResolvedCidrIs(p, resolved, draws, pos);
    var parsed := ParsedPrefix(p.base, resolved);
    match parsed {
      case Err(e) => return Err(e), pos;
      case Ok(base) =>
        if p.prefix <= base.bits || p.prefix > 32 { return Err(PrefixOutside(p.prefix, base)), pos; }
        var candidate, next := DrawCidr(base, p.prefix, RESERVED, draws, pos);
        return if candidate.Some? then Ok(FormatPrefix(candidate.value)) else Err(NoFreeBlock(p.prefix, base)), next;
    }
  }

  // ----- ip_in

  function Taken(drawn: Drawn, key: string): set<string> {
    if key in drawn then drawn[key] else {}
  }

  function HostAddress(subnet: Prefix, offset: nat): Address {
    Wrap32(Wrap64(subnet.addr + offset))
  }

  function HostAt(subnet: Prefix, lo: nat, hi: nat, draws: Draws, pos: nat): Address
    requires lo <= hi
  {
    HostAddress(subnet, lo + Draw(draws, pos, hi - lo + 1))
  }

  function UsedIn(taken: set<string>): Address -> bool {
    (x: Address) => FormatAddress(x) in taken
  }

  function HostFrom(subnet: Prefix, lo: nat, hi: nat, used: Address -> bool, draws: Draws, pos: nat, end: nat): (Option<Address>, nat)
    requires lo <= hi && pos <= end
    decreases end - pos
  {
    if pos == end then (None, pos)
    else
      var x := HostAt(subnet, lo, hi, draws, pos);
      if !used(x) then (Some(x), pos + 1) else HostFrom(subnet, lo, hi, used, draws, pos + 1, end)
  }

  function ChosenHost(p: Param, subnet: Prefix, taken: set<string>, draws: Draws, pos: nat): (Result<string, ParamError>, nat)
    requires IsPrefix(subnet) && Size(subnet.bits) >= 4
  {
    var last := Size(subnet.bits) - 2;
    if p.index.Some? && p.span.Some? then (Err(TwoSelectors), pos)
    else if p.index.Some? then
      var offset := p.index.value;
      if offset < 1 || offset > last then (Err(IndexOutside(offset, subnet)), pos)
      else
        var address := FormatAddress(HostAddress(subnet, offset));
        if address in taken then (Err(AddressUsed(address, subnet)), pos) else (Ok(address), pos)
    else if p.span.Some? && |p.span.value| == 2 then
      var lo, hi := p.span.value[0], p.span.value[1];
      if lo < 1 || hi < lo || hi > last then (Err(RangeOutside(lo, hi, subnet)), pos)
      else
        match HostFrom(subnet, lo, hi, UsedIn(taken), draws, pos, pos + DRAW_ATTEMPTS)
        case (Some(x), pos') => (Ok(FormatAddress(x)), pos')
        case (None, pos') => (Err(RangeUsedUp(lo, hi, subnet)), pos')
    else (Err(NoSelector), pos)
  }

  function WithTaken(drawn: Drawn, key: string, r: Result<string, ParamError>): Drawn {
    drawn[key := Taken(drawn, key) + if r.Ok? then {r.value} else {}]
  }

  function IpStepIn(p: Param, subnet: Prefix, drawn: Drawn, draws: Draws, pos: nat): Step
    requires IsPrefix(subnet)
  {
    if Size(subnet.bits) < 4 then Step(Err(NoUsableAddress(subnet)), drawn, pos)
    else
      var key := FormatPrefix(subnet);
      var (r, pos') := ChosenHost(p, subnet, Taken(drawn, key), draws, pos);
      Step(r, WithTaken(drawn, key, r), pos')
  }

  function IpStep(p: Param, resolved: Params, drawn: Drawn, draws: Draws, pos: nat): Step {
    match ParsedPrefix(p.subnet, resolved)
    case Err(e) => Step(Err(e), drawn, pos)
    case Ok(subnet) => IpStepIn(p, subnet, drawn, draws, pos)
  }

  method DrawHost(subnet: Prefix, lo: nat, hi: nat, taken: set<string>, draws: Draws, pos: nat) returns (r: Option<Address>, pos': nat)
    requires lo <= hi
    ensures (r, pos') == HostFrom(subnet, lo, hi, UsedIn(taken), draws, pos, pos + DRAW_ATTEMPTS)
  {
    pos' := pos;
    var used := UsedIn(taken);
    for i := 0 to DRAW_ATTEMPTS
      invariant pos' == pos + i
      invariant HostFrom(subnet, lo, hi, used, draws, pos, pos + DRAW_ATTEMPTS) == HostFrom(subnet, lo, hi, used, draws, pos', pos + DRAW_ATTEMPTS)
    {
      var x := HostAt(subnet, lo, hi, draws, pos');
      pos' := pos' + 1;
      if !used(x) { return Some(x), pos'; }
    }
    return None, pos';
  }

  method ChooseHost(p: Param, subnet: Prefix, taken: set<string>, draws: Draws, pos: nat) returns (r: Result<string, ParamError>, pos': nat)
    requires IsPrefix(subnet) && Size(subnet.bits) >= 4
    ensures (r, pos') == ChosenHost(p, subnet, taken, draws, pos)
  {
    var last := Size(subnet.bits) - 2;
    pos' := pos;
    if p.index.Some? && p.span.Some? {
      r := Err(TwoSelectors);
    } else if p.index.Some? {
      var offset := p.index.value;
      if offset < 1 || offset > last { return Err(IndexOutside(offset, subnet)), pos; }
      var address := FormatAddress(HostAddress(subnet, offset));
      r := if address in taken then Err(AddressUsed(address, subnet)) else Ok(address);
    } else if p.span.Some? && |p.span.value| == 2 {
      var lo, hi := p.span.value[0], p.span.value[1];
      if lo < 1 || hi < lo || hi > last { return Err(RangeOutside(lo, hi, subnet)), pos; }
      var host;
      host, pos' := DrawHost(subnet, lo, hi, taken, draws, pos);
      r := if host.Some? then Ok(FormatAddress(host.value)) else Err(RangeUsedUp(lo, hi, subnet));
    } else {
      r := Err(NoSelector);
    }
  }

  // A usable address of the subnet: neither its first nor its last.
  predicate IsHost(subnet: Prefix, x: Address)
    requires IsPrefix(subnet)
  {
    subnet.addr < x < subnet.addr + Size(subnet.bits) - 1
  }

  lemma HostAddressIsHost(subnet: Prefix, offset: nat)
    requires IsPrefix(subnet) && Masked(subnet) == subnet && 1 <= offset <= Size(subnet.bits) - 2
    ensures IsHost(subnet, HostAddress(subnet, offset)) && HostAddress(subnet, offset) == subnet.addr + offset
  {
    BaseFits(subnet);
    OffsetFits(subnet.addr, offset, Size(subnet.bits));
  }

  lemma OffsetFits(start: nat, offset: nat, size: nat)
    requires start + size <= ADDRESS_LIMIT && 1 <= offset <= size - 2
    ensures Wrap32(Wrap64(start + offset)) == start + offset && start < start + offset < start + size - 1
  {
  }

  lemma {:induction false} HostFromIsFree(subnet: Prefix, lo: nat, hi: nat, used: Address -> bool, draws: Draws, pos: nat, end: nat)
    requires lo <= hi && pos <= end
    ensures var (x, pos') := HostFrom(subnet, lo, hi, used, draws, pos, end);
            x.Some? ==> pos < pos' <= end && x.value == HostAt(subnet, lo, hi, draws, pos' - 1) && !used(x.value)
    decreases end - pos
  {
    if pos < end {
      HostFromIsFree(subnet, lo, hi, used, draws, pos + 1, end);
    }
  }

  // A range counts as used up exactly when every one of the draws hit a used address.
  lemma {:induction false} RangeGivesUp(subnet: Prefix, lo: nat, hi: nat, used: Address -> bool, draws: Draws, pos: nat, end: nat)
    requires lo <= hi && pos <= end
    ensures HostFrom(subnet, lo, hi, used, draws, pos, end).0.None?
       <==> forall k | pos <= k < end :: used(HostAt(subnet, lo, hi, draws, k))
    decreases end - pos
  {
    if pos < end {
      RangeGivesUp(subnet, lo, hi, used, draws, pos + 1, end);
    }
  }

  lemma HostFromIsHost(subnet: Prefix, lo: nat, hi: nat, used: Address -> bool, draws: Draws, pos: nat, end: nat)
    requires IsPrefix(subnet) && Masked(subnet) == subnet && 1 <= lo <= hi <= Size(subnet.bits) - 2 && pos <= end
    ensures var x := HostFrom(subnet, lo, hi, used, draws, pos, end).0; x.Some? ==> !used(x.value) && IsHost(subnet, x.value)
  {
    var (x, pos') := HostFrom(subnet, lo, hi, used, draws, pos, end);
    HostFromIsFree(subnet, lo, hi, used, draws, pos, end);
    if x.Some? { HostAtIsHost(subnet, lo, hi, draws, pos' - 1); }
  }

  lemma HostAtIsHost(subnet: Prefix, lo: nat, hi: nat, draws: Draws, pos: nat)
    requires IsPrefix(subnet) && Masked(subnet) == subnet && 1 <= lo <= hi <= Size(subnet.bits) - 2
    ensures IsHost(subnet, HostAt(subnet, lo, hi, draws, pos))
  {
    HostAddressIsHost(subnet, lo + Draw(draws, pos, hi - lo + 1));
  }

  // Whatever is drawn, an address handed out is a usable one that was still free.
  lemma ChosenHostIsFree(p: Param, subnet: Prefix, taken: set<string>, draws: Draws, pos: nat)
    requires IsPrefix(subnet) && Masked(subnet) == subnet && Size(subnet.bits) >= 4
    ensures var r := ChosenHost(p, subnet, taken, draws, pos).0;
            r.Ok? ==> r.value !in taken && exists x: Address :: IsHost(subnet, x) && r.value == FormatAddress(x)
  {
    if p.index.Some? {
      if 1 <= p.index.value <= Size(subnet.bits) - 2 { HostAddressIsHost(subnet, p.index.value); }
    } else if p.span.Some? && |p.span.value| == 2 {
      var lo, hi := p.span.value[0], p.span.value[1];
      if 1 <= lo <= hi <= Size(subnet.bits) - 2 { HostFromIsHost(subnet, lo, hi, UsedIn(taken), draws, pos, pos + DRAW_ATTEMPTS); }
    }
  }

  // ----- ip_in in plain arithmetic

  // The n-th address of a subnet.
  function NthAddress(subnet: Prefix, n: int): Address
    requires 0 <= subnet.addr + n < ADDRESS_LIMIT
  {
    subnet.addr + n
  }

  // The address at an index, unless it is outside or used.
  ghost predicate IsIndexed(subnet: Prefix, taken: set<string>, k: int, r: Result<string, ParamError>)
    requires IsPrefix(subnet) && subnet.addr + Size(subnet.bits) <= ADDRESS_LIMIT
  {
    if k < 1 || k > Size(subnet.bits) - 2 then r == Err(IndexOutside(k, subnet))
    else
      var text := FormatAddress(NthAddress(subnet, k));
      r == if text in taken then Err(AddressUsed(text, subnet)) else Ok(text)
  }

  // The n-th draw of a range.
  ghost function DrawnText(subnet: Prefix, lo: nat, hi: nat, draws: Draws, pos: nat): string
    requires lo <= hi && subnet.addr + hi < ADDRESS_LIMIT
  {
    FormatAddress(NthAddress(subnet, lo + draws(pos, hi - lo + 1) % (hi - lo + 1)))
  }

  // The first drawn address of a range that is not used, if one of the first 64 is not.
  ghost predicate IsRanged(subnet: Prefix, taken: set<string>, lo: int, hi: int, draws: Draws, pos: nat, r: Result<string, ParamError>, pos': nat)
    requires IsPrefix(subnet) && subnet.addr + Size(subnet.bits) <= ADDRESS_LIMIT
  {
    if lo < 1 || hi < lo || hi > Size(subnet.bits) - 2 then r == Err(RangeOutside(lo, hi, subnet)) && pos' == pos
    else if r.Ok? then
      && pos < pos' <= pos + 64
      && r.value == DrawnText(subnet, lo, hi, draws, pos' - 1) && r.value !in taken
      && forall k | pos <= k < pos' - 1 :: DrawnText(subnet, lo, hi, draws, k) in taken
    else
      && r == Err(RangeUsedUp(lo, hi, subnet)) && pos' == pos + 64
      && forall k | pos <= k < pos + 64 :: DrawnText(subnet, lo, hi, draws, k) in taken
  }

  ghost predicate IsChosen(p: Param, subnet: Prefix, taken: set<string>, draws: Draws, pos: nat, r: Result<string, ParamError>, pos': nat)
    requires IsPrefix(subnet) && subnet.addr + Size(subnet.bits) <= ADDRESS_LIMIT
  {
    if p.index.Some? && p.span.Some? then r == Err(TwoSelectors) && pos' == pos
    else if p.index.Some? then IsIndexed(subnet, taken, p.index.value, r) && pos' == pos
    else if p.span.Some? && |p.span.value| == 2 then IsRanged(subnet, taken, p.span.value[0], p.span.value[1], draws, pos, r, pos')
    else r == Err(NoSelector) && pos' == pos
  }

  lemma HostAtIsDrawn(subnet: Prefix, lo: nat, hi: nat, draws: Draws, pos: nat)
    requires IsPrefix(subnet) && Masked(subnet) == subnet && 1 <= lo <= hi <= Size(subnet.bits) - 2
    ensures subnet.addr + hi < ADDRESS_LIMIT
    ensures FormatAddress(HostAt(subnet, lo, hi, draws, pos)) == DrawnText(subnet, lo, hi, draws, pos)
  {
    BaseFits(subnet);
    HostAddressIsHost(subnet, lo + Draw(draws, pos, hi - lo + 1));
  }

  lemma {:induction false} HostFromIsFirst(subnet: Prefix, lo: nat, hi: nat, used: Address -> bool, draws: Draws, pos: nat, end: nat)
    requires lo <= hi && pos <= end
    ensures var (x, pos') := HostFrom(subnet, lo, hi, used, draws, pos, end);
            && pos <= pos' <= end && (x.None? ==> pos' == end)
            && (x.Some? ==> pos < pos' && x.value == HostAt(subnet, lo, hi, draws, pos' - 1) && !used(x.value))
            && forall k | pos <= k < (if x.Some? then pos' - 1 else end) :: used(HostAt(subnet, lo, hi, draws, k))
    decreases end - pos
  {
    if pos < end {
      HostFromIsFirst(subnet, lo, hi, used, draws, pos + 1, end);
    }
  }

  // What the search returns, when it took the draws from pos on.
  ghost predicate IsFirst(subnet: Prefix, taken: set<string>, lo: nat, hi: nat, draws: Draws, pos: nat, end: nat, x: Option<Address>, pos': nat)
    requires lo <= hi && subnet.addr + hi < ADDRESS_LIMIT
  {
    && pos <= pos' <= end && (x.None? ==> pos' == end)
    && (x.Some? ==> pos < pos' && FormatAddress(x.value) == DrawnText(subnet, lo, hi, draws, pos' - 1) && FormatAddress(x.value) !in taken)
    && forall k | pos <= k < (if x.Some? then pos' - 1 else end) :: DrawnText(subnet, lo, hi, draws, k) in taken
  }

  lemma SearchIsFirst(subnet: Prefix, taken: set<string>, lo: nat, hi: nat, used: Address -> bool, draws: Draws, pos: nat, end: nat)
    requires lo <= hi && subnet.addr + hi < ADDRESS_LIMIT && pos <= end
    requires forall x :: used(x) <==> FormatAddress(x) in taken
    requires forall k: nat :: FormatAddress(HostAt(subnet, lo, hi, draws, k)) == DrawnText(subnet, lo, hi, draws, k)
    ensures var (x, pos') := HostFrom(subnet, lo, hi, used, draws, pos, end); IsFirst(subnet, taken, lo, hi, draws, pos, end, x, pos')
  {
    HostFromIsFirst(subnet, lo, hi, used, draws, pos, end);
  }

  lemma SearchInSubnet(subnet: Prefix, taken: set<string>, lo: nat, hi: nat, draws: Draws, pos: nat, end: nat)
    requires IsPrefix(subnet) && Masked(subnet) == subnet && 1 <= lo <= hi <= Size(subnet.bits) - 2 && pos <= end
    ensures subnet.addr + Size(subnet.bits) <= ADDRESS_LIMIT
    ensures var (x, pos') := HostFrom(subnet, lo, hi, UsedIn(taken), draws, pos, end); IsFirst(subnet, taken, lo, hi, draws, pos, end, x, pos')
  {
    BaseFits(subnet);
    forall k: nat ensures FormatAddress(HostAt(subnet, lo, hi, draws, k)) == DrawnText(subnet, lo, hi, draws, k) {
      HostAtIsDrawn(subnet, lo, hi, draws, k);
    }
    SearchIsFirst(subnet, taken, lo, hi, UsedIn(taken), draws, pos, end);
  }

  lemma FirstIsRanged(subnet: Prefix, taken: set<string>, lo: nat, hi: nat, draws: Draws, pos: nat, x: Option<Address>, pos': nat)
    requires IsPrefix(subnet) && 1 <= lo <= hi <= Size(subnet.bits) - 2 && subnet.addr + Size(subnet.bits) <= ADDRESS_LIMIT
    requires IsFirst(subnet, taken, lo, hi, draws, pos, pos + 64, x, pos')
    ensures IsRanged(subnet, taken, lo, hi, draws, pos,
                     if x.Some? then Ok(FormatAddress(x.value)) else Err(RangeUsedUp(lo, hi, subnet)), pos')
  {
  }

  lemma RangeIs(p: Param, subnet: Prefix, taken: set<string>, draws: Draws, pos: nat, lo: int, hi: int)
    requires IsPrefix(subnet) && Masked(subnet) == subnet && Size(subnet.bits) >= 4
    requires p.index.None? && p.span == Some([lo, hi])
    ensures subnet.addr + Size(subnet.bits) <= ADDRESS_LIMIT
    ensures var (r, pos') := ChosenHost(p, subnet, taken, draws, pos); IsRanged(subnet, taken, lo, hi, draws, pos, r, pos')
  {
    BaseFits(subnet);
    if 1 <= lo <= hi <= Size(subnet.bits) - 2 {
      SearchInSubnet(subnet, taken, lo, hi, draws, pos, pos + DRAW_ATTEMPTS);
      var (x, pos') := HostFrom(subnet, lo, hi, UsedIn(taken), draws, pos, pos + DRAW_ATTEMPTS);
      FirstIsRanged(subnet, taken, lo, hi, draws, pos, x, pos');
    }
  }

  lemma ChosenIs(p: Param, subnet: Prefix, taken: set<string>, draws: Draws, pos: nat)
    requires IsPrefix(subnet) && Masked(subnet) == subnet && Size(subnet.bits) >= 4
    ensures subnet.addr + Size(subnet.bits) <= ADDRESS_LIMIT
    ensures var (r, pos') := ChosenHost(p, subnet, taken, draws, pos); IsChosen(p, subnet, taken, draws, pos, r, pos')
  {
    BaseFits(subnet);
    if p.index.Some? {
      if 1 <= p.index.value <= Size(subnet.bits) - 2 { HostAddressIsHost(subnet, p.index.value); }
    } else if p.span.Some? && |p.span.value| == 2 {
      var lo, hi := p.span.value[0], p.span.value[1];
      assert p.span.value == [lo, hi];
      RangeIs(p, subnet, taken, draws, pos, lo, hi);
    }
  }

  // The whole of ip_in in one subnet: the result, and what it adds to the addresses used.
  ghost predicate IsIpResultIn(p: Param, subnet: Prefix, drawn: Drawn, draws: Draws, pos: nat, step: Step)
    requires IsPrefix(subnet)
  {
    if subnet.bits > 30 then step == Step(Err(NoUsableAddress(subnet)), drawn, pos)
    else
      var key := FormatPrefix(subnet);
      && subnet.addr + Size(subnet.bits) <= ADDRESS_LIMIT
      && IsChosen(p, subnet, Taken(drawn, key), draws, pos, step.value, step.pos)
      && step.drawn.Keys == drawn.Keys + {key}
      && (forall other | other in drawn && other != key :: step.drawn[other] == drawn[other])
      && (forall text :: text in step.drawn[key] <==> text in Taken(drawn, key) || step.value == Ok(text))
  }

  ghost predicate IsIpResult(p: Param, resolved: Params, drawn: Drawn, draws: Draws, pos: nat, step: Step) {
    match ParsedPrefix(p.subnet, resolved)
    case Err(e) => step == Step(Err(e), drawn, pos)
    case Ok(subnet) => IsIpResultIn(p, subnet, drawn, draws, pos, step)
  }

  lemma SmallSizes(bits: nat)
    requires bits <= 32
    ensures Size(bits) >= 4 <==> bits <= 30
    ensures Size(bits) >= 3 <==> bits <= 30
  {
    assert Pow2(0) == 1 && Pow2(1) == 2 && Pow2(2) == 4;
    if bits <= 30 { Pow2Adds(2, 30 - bits); assert Pow2(30 - bits) >= 1; }
  }

  lemma TakenGrows(drawn: Drawn, key: string, r: Result<string, ParamError>)
    ensures var drawn' := WithTaken(drawn, key, r);
            && drawn'.Keys == drawn.Keys + {key}
            && (forall other | other in drawn && other != key :: drawn'[other] == drawn[other])
            && (forall text :: text in drawn'[key] <==> text in Taken(drawn, key) || r == Ok(text))
  {
  }

  lemma IpStepInIs(p: Param, subnet: Prefix, drawn: Drawn, draws: Draws, pos: nat)
    requires IsPrefix(subnet) && Masked(subnet) == subnet
    ensures IsIpResultIn(p, subnet, drawn, draws, pos, IpStepIn(p, subnet, drawn, draws, pos))
  {
    SmallSizes(subnet.bits);
    if subnet.bits <= 30 {
      var key := FormatPrefix(subnet);
      ChosenIs(p, subnet, Taken(drawn, key), draws, pos);
      TakenGrows(drawn, key, ChosenHost(p, subnet, Taken(drawn, key), draws, pos).0);
    }
  }

  lemma IpStepIs(p: Param, resolved: Params, drawn: Drawn, draws: Draws, pos: nat)
    ensures IsIpResult(p, resolved, drawn, draws, pos, IpStep(p, resolved, drawn, draws, pos))
  {
    ParsedIsMasked(p.subnet, resolved);
    var parsed := ParsedPrefix(p.subnet, resolved);
    if parsed.Ok? { IpStepInIs(p, parsed.value, drawn, draws, pos); }
  }

  method ResolveIpIn(p: Param, resolved: Params, drawn: Drawn, draws: Draws, pos: nat)
    returns (r: Result<string, ParamError>, drawn': Drawn, pos': nat)
    ensures Step(r, drawn', pos') == IpStep(p, resolved, drawn, draws, pos)
    ensures IsIpResult(p, resolved, drawn, draws, pos, Step(r, drawn', pos'))
  {
    IpStepIs(p, resolved, drawn, draws, pos);
    drawn' := drawn;
    var parsed := ParsedPrefix(p.subnet, resolved);
    if parsed.Err? { return Err(parsed.error), drawn, pos; }
    var subnet := parsed.value;
    if Size(subnet.bits) < 4 { return Err(NoUsableAddress(subnet)), drawn, pos; }
    var key := FormatPrefix(subnet);
    r, pos' := ChooseHost(p, subnet, Taken(drawn, key), draws, pos);
    drawn' := WithTaken(drawn, key, r);
  }
}
