// Links of a lab's topology: their validation at one seed (internal/content/validate.go)
// and their resolution at any (internal/content/content.go).

module Topologies {
  import opened Wrappers
  import opened Templates
  import opened Cases
  import opened Labs
  import opened LabChecks
  import I = Ipv4

  datatype Endpoint = Endpoint(node: string, iface: string)

  datatype Link = Link(first: Endpoint, second: Endpoint, subnet: string, addresses: map<string, string>)

  function NodesOf(link: Link): seq<string> {
    [link.first.node, link.second.node]
  }

  function EndsOf(link: Link): seq<Endpoint> {
    [link.first, link.second]
  }

  // ----- resolution

  datatype TopologyError =
    | SubnetUnknown(link: nat, names: seq<string>)
    | AddressUnknown(link: nat, node: string, names: seq<string>)

  ghost predicate ErrorDue(links: seq<Link>, params: Params, i: nat, e: TopologyError)
    requires i < |links|
  {
    match e
    case SubnetUnknown(k, names) => k == i && Rendered(links[i].subnet, params) == Err(names)
    case AddressUnknown(k, node, names) =>
      k == i && node in links[i].addresses && Rendered(links[i].addresses[node], params) == Err(names)
  }

  // The link with every text rendered.
  ghost predicate IsResolved(link: Link, params: Params, resolved: Link) {
    && resolved.first == link.first && resolved.second == link.second
    && Rendered(link.subnet, params) == Ok(resolved.subnet)
    && resolved.addresses.Keys == link.addresses.Keys
    && forall node | node in link.addresses :: Rendered(link.addresses[node], params) == Ok(resolved.addresses[node])
  }

  // The addresses of one link, in the order a map gives them out.
  method ResolveAddresses(links: seq<Link>, i: nat, params: Params) returns (addresses: map<string, string>, errs: seq<TopologyError>)
    requires i < |links|
    ensures forall e :: e in errs <==> e.AddressUnknown? && ErrorDue(links, params, i, e)
    ensures errs == [] ==> addresses.Keys == links[i].addresses.Keys
    ensures forall node | node in addresses :: node in links[i].addresses && Rendered(links[i].addresses[node], params) == Ok(addresses[node])
  {
    addresses, errs := map[], [];
    var left := links[i].addresses.Keys;
    while left != {}
      invariant left <= links[i].addresses.Keys
      invariant forall e :: e in errs <==> e.AddressUnknown? && ErrorDue(links, params, i, e) && e.node !in left
      invariant errs == [] ==> addresses.Keys == links[i].addresses.Keys - left
      invariant forall node | node in addresses :: node in links[i].addresses && Rendered(links[i].addresses[node], params) == Ok(addresses[node])
      decreases left
    {
      var node :| node in left;
      var text := Render(links[i].addresses[node], params);
      match text {
        case Err(names) => errs := errs + [AddressUnknown(i, node, names)];
        case Ok(value) => addresses := addresses[node := value];
      }
      left := left - {node};
    }
  }

  method Resolve(links: seq<Link>, params: Params) returns (r: Result<seq<Link>, seq<TopologyError>>)
    ensures match r
            case Ok(resolved) => |resolved| == |links| && forall i | 0 <= i < |links| :: IsResolved(links[i], params, resolved[i])
            case Err(errs) => errs != [] && forall e :: e in errs <==> exists i :: 0 <= i < |links| && ErrorDue(links, params, i, e)
  {
    var resolved, errs := [], [];
    for i := 0 to |links|
      invariant |resolved| == i
      invariant forall e :: e in errs <==> exists j :: 0 <= j < i && ErrorDue(links, params, j, e)
      invariant errs == [] ==> forall j | 0 <= j < i :: IsResolved(links[j], params, resolved[j])
    {
      var subnet := Render(links[i].subnet, params);
      var own := if subnet.Err? then [SubnetUnknown(i, subnet.error)] else [];
      var addresses, more := ResolveAddresses(links, i, params);
      assert forall e :: e in own + more <==> ErrorDue(links, params, i, e);
      errs := errs + (own + more);
      resolved := resolved + [Link(links[i].first, links[i].second, if subnet.Ok? then subnet.value else "", addresses)];
    }
    return if errs != [] then Err(errs) else Ok(resolved);
  }

  // ----- validation

  // netip.ParsePrefix and Prefix.Contains on texts of the other family.
  datatype Ipv6 = Ipv6(valid: string -> bool, inside: (string, string) -> bool)

  predicate IsPrefixText(six: Ipv6, text: string) {
    I.ParsePrefix(text).Some? || six.valid(text)
  }

  // A prefix holds no address of the other family.
  predicate IsInside(six: Ipv6, subnet: string, text: string) {
    match (I.ParsePrefix(subnet), I.ParsePrefix(text))
    case (Some(s), Some(a)) => I.Contains(s, a.addr)
    case (None, None) => six.inside(subnet, text)
    case (_, _) => false
  }

  datatype Reason = Unknown(names: seq<string>) | Unparsable(text: string) | Outside(text: string)

  datatype LinkComplaint =
    | UnknownEndpoint(link: nat, end: nat)
    | ReservedInterface(link: nat, end: nat)
    | RepeatedNode(link: nat)
    | StrangerAddress(link: nat, node: string)
    | NoAddress(link: nat, node: string)
    | BadSubnet(link: nat, caseId: string, reason: Reason)
    | BadAddress(link: nat, node: string, caseId: string, reason: Reason)

  function SubnetReason(six: Ipv6, link: Link, under: ParamSet): Option<Reason> {
    match Rendered(link.subnet, under.params)
    case Err(names) => Some(Unknown(names))
    case Ok(text) => if IsPrefixText(six, text) then None else Some(Unparsable(text))
  }

  function AddressReason(six: Ipv6, subnet: string, template: string, under: ParamSet): Option<Reason> {
    match Rendered(template, under.params)
    case Err(names) => Some(Unknown(names))
    case Ok(text) => if !IsPrefixText(six, text) then Some(Unparsable(text)) else if !IsInside(six, subnet, text) then Some(Outside(text)) else None
  }

  // What checkAddresses has to say of a link under one set of parameters.
  ghost predicate AddressesDue(six: Ipv6, link: Link, i: nat, under: ParamSet, e: LinkComplaint) {
    match SubnetReason(six, link, under)
    case Some(reason) => e == BadSubnet(i, under.caseId, reason)
    case None => AddressDue(six, link, Rendered(link.subnet, under.params).value, i, under, e)
  }

  ghost predicate EndpointDue(nodes: set<string>, link: Link, i: nat, e: LinkComplaint) {
    || (e.UnknownEndpoint? && e.link == i && e.end < 2 && EndsOf(link)[e.end].node !in nodes)
    || (e.ReservedInterface? && e.link == i && e.end < 2 && EndsOf(link)[e.end].iface in ["", "eth0"])
    || (e == RepeatedNode(i) && link.first.node == link.second.node)
    || (e.StrangerAddress? && e.link == i && e.node in link.addresses && e.node !in NodesOf(link))
    || (e.NoAddress? && e.link == i && e.node in NodesOf(link) && e.node !in link.addresses)
  }

  ghost predicate LinkDue(nodes: set<string>, sets: seq<ParamSet>, six: Ipv6, link: Link, i: nat, e: LinkComplaint) {
    EndpointDue(nodes, link, i, e) || exists k :: 0 <= k < |sets| && AddressesDue(six, link, i, sets[k], e)
  }

  method CheckAddresses(six: Ipv6, link: Link, i: nat, under: ParamSet) returns (errs: seq<LinkComplaint>)
    ensures forall e :: e in errs <==> AddressesDue(six, link, i, under, e)
  {
    var subnet := Render(link.subnet, under.params);
    if subnet.Err? { return [BadSubnet(i, under.caseId, Unknown(subnet.error))]; }
    if !IsPrefixText(six, subnet.value) { return [BadSubnet(i, under.caseId, Unparsable(subnet.value))]; }
    errs := CheckEach(six, link, subnet.value, i, under);
  }

  // The complaints about one node's address.
  predicate AddressDue(six: Ipv6, link: Link, subnet: string, i: nat, under: ParamSet, e: LinkComplaint) {
    && e.BadAddress? && e.link == i && e.caseId == under.caseId
    && e.node in NodesOf(link) && e.node in link.addresses
    && AddressReason(six, subnet, link.addresses[e.node], under) == Some(e.reason)
  }

  method CheckEach(six: Ipv6, link: Link, subnet: string, i: nat, under: ParamSet) returns (errs: seq<LinkComplaint>)
    ensures forall e :: e in errs <==> AddressDue(six, link, subnet, i, under, e)
  {
    errs := [];
    var nodes := NodesOf(link);
    for j := 0 to |nodes|
      invariant forall e :: e in errs <==> AddressDue(six, link, subnet, i, under, e) && e.node in nodes[..j]
    {
      assert nodes[..j + 1] == nodes[..j] + [nodes[j]];
      var node := nodes[j];
      if node !in link.addresses { continue; }
      var reason := AddressReason(six, subnet, link.addresses[node], under);
      if reason.Some? { errs := errs + [BadAddress(i, node, under.caseId, reason.value)]; }
    }
    assert nodes[..|nodes|] == nodes;
  }

  method CheckStrangers(link: Link, i: nat) returns (errs: seq<LinkComplaint>)
    ensures forall e :: e in errs <==> e.StrangerAddress? && e.link == i && e.node in link.addresses && e.node !in NodesOf(link)
  {
    errs := [];
    var left := link.addresses.Keys;
    while left != {}
      invariant left <= link.addresses.Keys
      invariant forall e :: e in errs <==> e.StrangerAddress? && e.link == i && e.node in link.addresses.Keys - left && e.node !in NodesOf(link)
      decreases left
    {
      var node :| node in left;
      if node !in NodesOf(link) { errs := errs + [StrangerAddress(i, node)]; }
      left := left - {node};
    }
  }

  method CheckEnd(nodes: set<string>, link: Link, i: nat, end: nat) returns (errs: seq<LinkComplaint>)
    requires end < 2
    ensures forall e :: e in errs <==>
              || (e == UnknownEndpoint(i, end) && EndsOf(link)[end].node !in nodes)
              || (e == ReservedInterface(i, end) && EndsOf(link)[end].iface in ["", "eth0"])
  {
    var endpoint := EndsOf(link)[end];
    errs := if endpoint.node !in nodes then [UnknownEndpoint(i, end)] else [];
    if endpoint.iface == "" || endpoint.iface == "eth0" { errs := errs + [ReservedInterface(i, end)]; }
  }

  method CheckEndpoints(nodes: set<string>, link: Link, i: nat) returns (errs: seq<LinkComplaint>)
    ensures forall e :: e in errs <==> EndpointDue(nodes, link, i, e)
  {
    var first := CheckEnd(nodes, link, i, 0);
    var second := CheckEnd(nodes, link, i, 1);
    var repeated := if link.first.node == link.second.node then [RepeatedNode(i)] else [];
    var strangers := CheckStrangers(link, i);
    var missing := if link.first.node !in link.addresses then [NoAddress(i, link.first.node)] else [];
    if link.second.node !in link.addresses { missing := missing + [NoAddress(i, link.second.node)]; }
    errs := first + second + repeated + strangers + missing;
  }

  method CheckLink(nodes: set<string>, link: Link, i: nat, sets: seq<ParamSet>, six: Ipv6) returns (errs: seq<LinkComplaint>)
    ensures forall e :: e in errs <==> LinkDue(nodes, sets, six, link, i, e)
  {
    errs := CheckEndpoints(nodes, link, i);
    for k := 0 to |sets|
      invariant forall e :: e in errs <==> EndpointDue(nodes, link, i, e) || exists j :: 0 <= j < k && AddressesDue(six, link, i, sets[j], e)
    {
      var more := CheckAddresses(six, link, i, sets[k]);
      errs := errs + more;
    }
  }

  method CheckLinks(nodes: set<string>, links: seq<Link>, sets: seq<ParamSet>, six: Ipv6) returns (errs: seq<LinkComplaint>)
    ensures forall e :: e in errs <==> exists i :: 0 <= i < |links| && LinkDue(nodes, sets, six, links[i], i, e)
  {
    errs := [];
    for i := 0 to |links|
      invariant forall e :: e in errs <==> exists j :: 0 <= j < i && LinkDue(nodes, sets, six, links[j], j, e)
    {
      var own := CheckLink(nodes, links[i], i, sets, six);
      errs := errs + own;
    }
  }

  // ----- one seed for all

  lemma AcceptedRenders(nodes: set<string>, sets: seq<ParamSet>, six: Ipv6, link: Link, i: nat)
    requires forall e :: !LinkDue(nodes, sets, six, link, i, e)
    ensures RendersIn(link.subnet, sets)
    ensures forall node | node in link.addresses :: RendersIn(link.addresses[node], sets)
  {
    forall k | 0 <= k < |sets|
      ensures SubnetReason(six, link, sets[k]).None?
    {
      var reason := SubnetReason(six, link, sets[k]);
      if reason.Some? {
        assert AddressesDue(six, link, i, sets[k], BadSubnet(i, sets[k].caseId, reason.value));
        assert LinkDue(nodes, sets, six, link, i, BadSubnet(i, sets[k].caseId, reason.value));
      }
    }
    forall node, k | node in link.addresses && 0 <= k < |sets|
      ensures Rendered(link.addresses[node], sets[k].params).Ok?
    {
      assert !LinkDue(nodes, sets, six, link, i, StrangerAddress(i, node));
      assert SubnetReason(six, link, sets[k]).None?;
      var subnet := Rendered(link.subnet, sets[k].params).value;
      var reason := AddressReason(six, subnet, link.addresses[node], sets[k]);
      if reason.Some? {
        var e := BadAddress(i, node, sets[k].caseId, reason.value);
        assert AddressesDue(six, link, i, sets[k], e);
        assert LinkDue(nodes, sets, six, link, i, e);
      }
    }
  }

  // A topology whose links draw no complaint at the validation seed resolves at every
  // seed for which the lab's parameters do.
  lemma TopologyResolvesAtEverySeed(lab: Lab, rng: Rng, links: seq<Link>, six: Ipv6, seed: nat, r: Resolved)
    requires forall i, e | 0 <= i < |links| :: !LinkDue(lab.nodes, SetsOf(lab, rng), six, links[i], i, e)
    requires ResolvesTo(lab.params, lab.cases, rng, seed, Ok(r))
    ensures forall i, e | 0 <= i < |links| :: !ErrorDue(links, r.params, i, e)
  {
    forall i, e | 0 <= i < |links|
      ensures !ErrorDue(links, r.params, i, e)
    {
      AcceptedRenders(lab.nodes, SetsOf(lab, rng), six, links[i], i);
      match e
      case SubnetUnknown(_, _) => RendersAtEverySeed(lab, rng, links[i].subnet, seed, r);
      case AddressUnknown(_, node, _) =>
        if node in links[i].addresses { RendersAtEverySeed(lab, rng, links[i].addresses[node], seed, r); }
    }
  }

  // An accepted link on an IPv4 subnet gives each of its two nodes an address in the
  // block of addresses the subnet stands for, whatever the case.
  lemma AddressesAreInside(nodes: set<string>, sets: seq<ParamSet>, six: Ipv6, link: Link, i: nat, k: nat, node: string, s: I.Prefix)
    requires forall e :: !LinkDue(nodes, sets, six, link, i, e)
    requires k < |sets| && node in NodesOf(link)
    requires Rendered(link.subnet, sets[k].params).Ok? && I.ParsePrefix(Rendered(link.subnet, sets[k].params).value) == Some(s)
    ensures node in link.addresses && Rendered(link.addresses[node], sets[k].params).Ok?
    ensures exists a: I.Prefix ::
              && I.ParsePrefix(Rendered(link.addresses[node], sets[k].params).value) == Some(a)
              && I.Masked(s).addr <= a.addr < I.Masked(s).addr + I.Size(s.bits)
  {
    var text := Rendered(link.subnet, sets[k].params).value;
    assert !LinkDue(nodes, sets, six, link, i, NoAddress(i, node));
    var reason := AddressReason(six, text, link.addresses[node], sets[k]);
    if reason.Some? {
      var e := BadAddress(i, node, sets[k].caseId, reason.value);
      assert AddressesDue(six, link, i, sets[k], e);
      assert LinkDue(nodes, sets, six, link, i, e);
    }
    var a := I.ParsePrefix(Rendered(link.addresses[node], sets[k].params).value).value;
    I.ContainsIsInterval(s, a.addr);
  }

  // ----- which links are accepted

  // Two different known nodes, each by an interface of its own, each with an address and
  // nobody else with one.
  ghost predicate ProperEnds(nodes: set<string>, link: Link) {
    && link.first.node in nodes && link.second.node in nodes && link.first.node != link.second.node
    && link.first.iface != "" && link.first.iface != "eth0" && link.second.iface != "" && link.second.iface != "eth0"
    && link.addresses.Keys == {link.first.node, link.second.node}
  }

  // The subnet is a prefix and every address one inside it.
  ghost predicate ProperAddresses(six: Ipv6, link: Link, under: ParamSet) {
    match Rendered(link.subnet, under.params)
    case Err(_) => false
    case Ok(subnet) =>
      && IsPrefixText(six, subnet)
      && forall node | node in link.addresses ::
           match Rendered(link.addresses[node], under.params)
           case Err(_) => false
           case Ok(text) => IsPrefixText(six, text) && IsInside(six, subnet, text)
  }

  lemma EndpointsIff(nodes: set<string>, link: Link, i: nat)
    ensures (forall e :: !EndpointDue(nodes, link, i, e)) <==> ProperEnds(nodes, link)
  {
    if forall e :: !EndpointDue(nodes, link, i, e) {
      assert !EndpointDue(nodes, link, i, UnknownEndpoint(i, 0)) && !EndpointDue(nodes, link, i, UnknownEndpoint(i, 1));
      assert !EndpointDue(nodes, link, i, ReservedInterface(i, 0)) && !EndpointDue(nodes, link, i, ReservedInterface(i, 1));
      assert !EndpointDue(nodes, link, i, RepeatedNode(i));
      assert !EndpointDue(nodes, link, i, NoAddress(i, link.first.node)) && !EndpointDue(nodes, link, i, NoAddress(i, link.second.node));
      forall node | node in link.addresses ensures node in NodesOf(link) {
        assert !EndpointDue(nodes, link, i, StrangerAddress(i, node));
      }
    }
  }

  lemma AddressesIff(six: Ipv6, link: Link, i: nat, under: ParamSet)
    requires link.addresses.Keys == {link.first.node, link.second.node}
    ensures (forall e :: !AddressesDue(six, link, i, under, e)) <==> ProperAddresses(six, link, under)
  {
    var reason := SubnetReason(six, link, under);
    if reason.Some? {
      assert AddressesDue(six, link, i, under, BadSubnet(i, under.caseId, reason.value));
    } else {
      var subnet := Rendered(link.subnet, under.params).value;
      forall node | node in link.addresses
        ensures AddressReason(six, subnet, link.addresses[node], under).Some? ==> exists e :: AddressesDue(six, link, i, under, e)
      {
        var bad := AddressReason(six, subnet, link.addresses[node], under);
        if bad.Some? { assert AddressesDue(six, link, i, under, BadAddress(i, node, under.caseId, bad.value)); }
      }
    }
  }

  // A link draws no complaint if and only if its ends and, in every case, its addresses
  // are as they should be.
  lemma AcceptedIffProper(nodes: set<string>, sets: seq<ParamSet>, six: Ipv6, link: Link, i: nat)
    ensures (forall e :: !LinkDue(nodes, sets, six, link, i, e))
       <==> ProperEnds(nodes, link) && forall k | 0 <= k < |sets| :: ProperAddresses(six, link, sets[k])
  {
    DueIff(nodes, sets, six, link, i);
    EndpointsIff(nodes, link, i);
    if ProperEnds(nodes, link) {
      forall k | 0 <= k < |sets|
        ensures NoAddressesDue(six, link, i, sets[k]) <==> ProperAddresses(six, link, sets[k])
      {
        AddressesIff(six, link, i, sets[k]);
      }
    }
  }

  ghost predicate NoAddressesDue(six: Ipv6, link: Link, i: nat, under: ParamSet) {
    forall e :: !AddressesDue(six, link, i, under, e)
  }

  lemma DueIff(nodes: set<string>, sets: seq<ParamSet>, six: Ipv6, link: Link, i: nat)
    ensures (forall e :: !LinkDue(nodes, sets, six, link, i, e))
       <==> (forall e :: !EndpointDue(nodes, link, i, e)) && forall k | 0 <= k < |sets| :: NoAddressesDue(six, link, i, sets[k])
  {
    if forall e :: !LinkDue(nodes, sets, six, link, i, e) {
      forall e ensures !EndpointDue(nodes, link, i, e) {
        assert !LinkDue(nodes, sets, six, link, i, e);
      }
      forall k, e | 0 <= k < |sets| ensures !AddressesDue(six, link, i, sets[k], e) {
        assert !LinkDue(nodes, sets, six, link, i, e);
      }
    }
  }
}
