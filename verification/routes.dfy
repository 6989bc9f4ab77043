/** Compiling the panel's routes of all nodes into one ordered rule list. */
module Routes {
  import opened Panel

  datatype Route = Route(patterns: seq<string>, action: string, actionValue: Option<string>)

  datatype NodeRoutes = NodeRoutes(tag: string, routes: seq<Route>)

  /** An outbound described by an action value: its tag, and whether it can be built. */
  datatype Detour = Detour(tag: string, builds: bool)

  /** Decodes an action value, if it can be decoded. */
  type Decoder = string -> Option<Detour>

  datatype Condition =
    | DnsPort
    | Domains(patterns: seq<string>)
    | Addresses(patterns: seq<string>)
    | Ports(list: string)
    | Protocols(patterns: seq<string>)
    | TcpOrUdp

  datatype Rule = Rule(inbound: Option<string>, condition: Condition, outbound: string)

  /** An outbound, with the action value it was built from unless it is a built-in one. */
  datatype Outbound = Outbound(tag: string, source: Option<string>)

  datatype Compiled = Compiled(rules: seq<Rule>, outbounds: seq<Outbound>)

  const DNS_RULE := Rule(None, DnsPort, "dns_out")
  const BUILT_IN := [Outbound("Default", None), Outbound("block", None), Outbound("dns_out", None)]

  function Join(parts: seq<string>): string {
    if parts == [] then "" else if |parts| == 1 then parts[0] else parts[0] + "," + Join(parts[1..])
  }

  /** The detour of a routing action whose value can be decoded. */
  function DetourOf(route: Route, decode: Decoder): Option<Detour> {
    if route.action in {"route", "route_ip", "default_out"} && route.actionValue.Some?
    then decode(route.actionValue.value) else None
  }

  function RuleOf(tag: string, route: Route, decode: Decoder): Option<Rule> {
    var detour := DetourOf(route, decode);
    match route.action
    case "block" => Some(Rule(Some(tag), Domains(route.patterns), "block"))
    case "block_ip" => Some(Rule(Some(tag), Addresses(route.patterns), "block"))
    case "block_port" => Some(Rule(Some(tag), Ports(Join(route.patterns)), "block"))
    case "protocol" => Some(Rule(Some(tag), Protocols(route.patterns), "block"))
    case "route" => if detour.Some? then Some(Rule(Some(tag), Domains(route.patterns), detour.value.tag)) else None
    case "route_ip" => if detour.Some? then Some(Rule(Some(tag), Addresses(route.patterns), detour.value.tag)) else None
    case "default_out" => if detour.Some? then Some(Rule(Some(tag), TcpOrUdp, detour.value.tag)) else None
    case _ => None
  }

  function RulesOf(info: NodeRoutes, decode: Decoder): seq<Rule> {
    RulesUpTo(info, |info.routes|, decode)
  }

  function RulesUpTo(info: NodeRoutes, n: nat, decode: Decoder): seq<Rule>
    requires n <= |info.routes|
  {
    if n == 0 then []
    else
      var rule := RuleOf(info.tag, info.routes[n - 1], decode);
      RulesUpTo(info, n - 1, decode) + if rule.Some? then [rule.value] else []
  }

  /** All rules: the DNS rule, then those of each node in order. */
  function AllRules(infos: seq<NodeRoutes>, decode: Decoder): seq<Rule> {
    if infos == [] then [DNS_RULE]
    else AllRules(infos[..|infos| - 1], decode) + RulesOf(infos[|infos| - 1], decode)
  }

  predicate HasTag(outbounds: seq<Outbound>, tag: string) {
    exists i :: 0 <= i < |outbounds| && outbounds[i].tag == tag
  }

  /** The outbounds the routes of one node describe and that can be built, in order, repeated tags included. */
  function Described(info: NodeRoutes, n: nat, decode: Decoder): seq<Outbound>
    requires n <= |info.routes|
  {
    if n == 0 then []
    else
      var route := info.routes[n - 1];
      var detour := DetourOf(route, decode);
      Described(info, n - 1, decode) +
      if detour.Some? && detour.value.builds then [Outbound(detour.value.tag, route.actionValue)] else []
  }

  function AllDescribed(infos: seq<NodeRoutes>, decode: Decoder): seq<Outbound> {
    if infos == [] then []
    else
      var last := infos[|infos| - 1];
      AllDescribed(infos[..|infos| - 1], decode) + Described(last, |last.routes|, decode)
  }

  /** The outbound that a tag leads to: the first one of the list with that tag. */
  function Find(outbounds: seq<Outbound>, tag: string): (found: Option<Outbound>)
    ensures found.Some? <==> HasTag(outbounds, tag)
    ensures found.Some? ==> found.value in outbounds && found.value.tag == tag
  {
    if outbounds == [] then None
    else
      var init, last := Find(outbounds[..|outbounds| - 1], tag), outbounds[|outbounds| - 1];
      assert outbounds == outbounds[..|outbounds| - 1] + [last];
      if init.Some? then init else if last.tag == tag then Some(last) else None
  }

  ghost predicate DistinctTags(outbounds: seq<Outbound>) {
    forall i, j :: 0 <= i < j < |outbounds| ==> outbounds[i].tag != outbounds[j].tag
  }

  /** `outbounds` keeps of a list the first outbound of each tag. */
  ghost predicate Firsts(outbounds: seq<Outbound>, described: seq<Outbound>) {
    DistinctTags(outbounds) && forall tag :: Find(outbounds, tag) == Find(described, tag)
  }

  lemma FirstsStep(outbounds: seq<Outbound>, described: seq<Outbound>, o: Outbound)
    requires Firsts(outbounds, described)
    ensures Firsts(if HasTag(outbounds, o.tag) then outbounds else outbounds + [o], described + [o])
  {
    assert (outbounds + [o])[..|outbounds|] == outbounds && (described + [o])[..|described|] == described;
    forall tag ensures Find(if HasTag(outbounds, o.tag) then outbounds else outbounds + [o], tag) ==
                       Find(described + [o], tag)
    {
      assert Find(outbounds, tag) == Find(described, tag);
    }
  }

  /** The whole list, and of the built-in and the described outbounds the first of each tag; an error when the name
      servers or the rules cannot be built. */
  method GetCustomConfig(infos: seq<NodeRoutes>, decode: Decoder, dnsBuilds: bool, rulesBuild: bool)
    returns (c: Option<Compiled>)
    ensures c.Some? <==> dnsBuilds && rulesBuild
    ensures c.Some? ==> c.value.rules == AllRules(infos, decode)
    ensures c.Some? ==> Firsts(c.value.outbounds, BUILT_IN + AllDescribed(infos, decode))
  {
    var rules, outbounds := [DNS_RULE], BUILT_IN;
    assert BUILT_IN + [] == BUILT_IN;
    for i := 0 to |infos|
      invariant rules == AllRules(infos[..i], decode)
      invariant Firsts(outbounds, BUILT_IN + AllDescribed(infos[..i], decode))
    {
      var info := infos[i];
      rules, outbounds := AddNode(info, decode, rules, outbounds, BUILT_IN + AllDescribed(infos[..i], decode));
      assert infos[..i + 1][..i] == infos[..i];
      assert BUILT_IN + AllDescribed(infos[..i + 1], decode) ==
             BUILT_IN + AllDescribed(infos[..i], decode) + Described(info, |info.routes|, decode);
    }
    assert infos[..|infos|] == infos;
    c := if dnsBuilds && rulesBuild then Some(Compiled(rules, outbounds)) else None;
  }

  method AddNode(info: NodeRoutes, decode: Decoder, rules0: seq<Rule>, outbounds0: seq<Outbound>,
                 ghost described: seq<Outbound>)
    returns (rules: seq<Rule>, outbounds: seq<Outbound>)
    requires Firsts(outbounds0, described)
    ensures rules == rules0 + RulesOf(info, decode)
    ensures Firsts(outbounds, described + Described(info, |info.routes|, decode))
  {
    rules, outbounds := rules0, outbounds0;
    assert described + [] == described;
    for j := 0 to |info.routes|
      invariant rules == rules0 + RulesUpTo(info, j, decode)
      invariant Firsts(outbounds, described + Described(info, j, decode))
    {
      var route := info.routes[j];
      var rule, detour := RuleOf(info.tag, route, decode), DetourOf(route, decode);
      if rule.Some? {
        rules := rules + [rule.value];
      }
      ghost var before := described + Described(info, j, decode);
      if detour.Some? && detour.value.builds {
        var o := Outbound(detour.value.tag, route.actionValue);
        FirstsStep(outbounds, before, o);
        assert described + Described(info, j + 1, decode) == before + [o];
        if !HasTag(outbounds, detour.value.tag) {
          outbounds := outbounds + [o];
        }
      } else {
        assert described + Described(info, j + 1, decode) == before;
      }
    }
  }

  // ---- what the list means ----

  datatype Traffic = Traffic(inbound: string, id: int)

  /** Which traffic meets a condition. */
  type Meaning = (Condition, Traffic) -> bool

  predicate Applies(rule: Rule, holds: Meaning, t: Traffic) {
    (rule.inbound == None || rule.inbound == Some(t.inbound)) && holds(rule.condition, t)
  }

  /** The outbound of the first rule that applies. */
  function Choose(rules: seq<Rule>, holds: Meaning, t: Traffic): Option<string> {
    if rules == [] then None
    else if Applies(rules[0], holds, t) then Some(rules[0].outbound)
    else Choose(rules[1..], holds, t)
  }

  function OfTag(infos: seq<NodeRoutes>, tag: string): seq<NodeRoutes> {
    if infos == [] then []
    else
      var init, last := OfTag(infos[..|infos| - 1], tag), infos[|infos| - 1];
      if last.tag == tag then init + [last] else init
  }

  lemma {:induction false} ChooseAppend(r1: seq<Rule>, r2: seq<Rule>, holds: Meaning, t: Traffic)
    ensures Choose(r1 + r2, holds, t) ==
            if Choose(r1, holds, t).Some? then Choose(r1, holds, t) else Choose(r2, holds, t)
  {
    if r1 == [] {
      assert r1 + r2 == r2;
    } else {
      assert (r1 + r2)[1..] == r1[1..] + r2;
      ChooseAppend(r1[1..], r2, holds, t);
    }
  }

  lemma {:induction false} ForeignRules(info: NodeRoutes, n: nat, decode: Decoder, holds: Meaning, t: Traffic)
    requires n <= |info.routes| && info.tag != t.inbound
    ensures Choose(RulesUpTo(info, n, decode), holds, t) == None
  {
    if n > 0 {
      ForeignRules(info, n - 1, decode, holds, t);
      var rule := RuleOf(info.tag, info.routes[n - 1], decode);
      var last := if rule.Some? then [rule.value] else [];
      ChooseAppend(RulesUpTo(info, n - 1, decode), last, holds, t);
      assert rule.Some? ==> rule.value.inbound == Some(info.tag) && last[1..] == [];
    }
  }

  /** Whatever the conditions mean, traffic of an inbound goes where the rules of its own nodes alone send it. */
  lemma {:induction false} OnlyOwnRoutesMatter(infos: seq<NodeRoutes>, decode: Decoder, holds: Meaning, t: Traffic)
    ensures Choose(AllRules(infos, decode), holds, t) == Choose(AllRules(OfTag(infos, t.inbound), decode), holds, t)
  {
    if infos != [] {
      var init, last := infos[..|infos| - 1], infos[|infos| - 1];
      var own := OfTag(init, t.inbound);
      OnlyOwnRoutesMatter(init, decode, holds, t);
      ChooseAppend(AllRules(init, decode), RulesOf(last, decode), holds, t);
      if last.tag == t.inbound {
        assert (own + [last])[..|own|] == own;
        ChooseAppend(AllRules(own, decode), RulesOf(last, decode), holds, t);
      } else {
        ForeignRules(last, |last.routes|, decode, holds, t);
      }
    }
  }

  lemma {:induction false} OfTagDistinct(infos: seq<NodeRoutes>, i: nat)
    requires i < |infos| && forall a, b :: 0 <= a < b < |infos| ==> infos[a].tag != infos[b].tag
    ensures OfTag(infos, infos[i].tag) == [infos[i]]
  {
    var init, last := infos[..|infos| - 1], infos[|infos| - 1];
    if i == |infos| - 1 {
      OfTagNone(init, last.tag);
    } else {
      OfTagDistinct(init, i);
    }
  }

  lemma {:induction false} OfTagNone(infos: seq<NodeRoutes>, tag: string)
    requires forall i :: 0 <= i < |infos| ==> infos[i].tag != tag
    ensures OfTag(infos, tag) == []
  {
    if infos != [] {
      OfTagNone(infos[..|infos| - 1], tag);
    }
  }

  /** With distinct tags the combined list chooses the same outbound tag for a node's traffic as the list built from
      that node alone. */
  lemma NodesAreIndependent(infos: seq<NodeRoutes>, i: nat, decode: Decoder, holds: Meaning, t: Traffic)
    requires i < |infos| && forall a, b :: 0 <= a < b < |infos| ==> infos[a].tag != infos[b].tag
    requires t.inbound == infos[i].tag
    ensures Choose(AllRules(infos, decode), holds, t) == Choose(AllRules([infos[i]], decode), holds, t)
    ensures holds(DnsPort, t) ==> Choose(AllRules(infos, decode), holds, t) == Some("dns_out")
    ensures !holds(DnsPort, t) ==>
              Choose(AllRules(infos, decode), holds, t) == Choose(RulesOf(infos[i], decode), holds, t)
  {
    OnlyOwnRoutesMatter(infos, decode, holds, t);
    OfTagDistinct(infos, i);
    assert [infos[i]][..0] == [];
    assert AllRules([infos[i]], decode) == [DNS_RULE] + RulesOf(infos[i], decode);
    ChooseAppend([DNS_RULE], RulesOf(infos[i], decode), holds, t);
    assert [DNS_RULE][1..] == [];
  }

  lemma {:induction false} FindAppend(o1: seq<Outbound>, o2: seq<Outbound>, tag: string)
    ensures Find(o1 + o2, tag) == if Find(o1, tag).Some? then Find(o1, tag) else Find(o2, tag)
  {
    if o2 == [] {
      assert o1 + o2 == o1;
    } else {
      var init := o2[..|o2| - 1];
      assert (o1 + o2)[..|o1 + o2| - 1] == o1 + init;
      FindAppend(o1, init, tag);
    }
  }

  lemma {:induction false} AllDescribedAppend(i1: seq<NodeRoutes>, i2: seq<NodeRoutes>, decode: Decoder)
    ensures AllDescribed(i1 + i2, decode) == AllDescribed(i1, decode) + AllDescribed(i2, decode)
  {
    if i2 == [] {
      assert i1 + i2 == i1;
    } else {
      var init, last := i2[..|i2| - 1], i2[|i2| - 1];
      var own := Described(last, |last.routes|, decode);
      DescribedLast(i1 + i2, decode);
      DescribedLast(i2, decode);
      assert (i1 + i2)[..|i1 + i2| - 1] == i1 + init;
      AllDescribedAppend(i1, init, decode);
      assert AllDescribed(i1, decode) + AllDescribed(init, decode) + own ==
             AllDescribed(i1, decode) + (AllDescribed(init, decode) + own);
    }
  }

  lemma DescribedLast(infos: seq<NodeRoutes>, decode: Decoder)
    requires infos != []
    ensures var last := infos[|infos| - 1];
            AllDescribed(infos, decode) ==
            AllDescribed(infos[..|infos| - 1], decode) + Described(last, |last.routes|, decode)
  {}

  /** The outbound the tag leads to in the configuration of these nodes. */
  function Leads(infos: seq<NodeRoutes>, decode: Decoder, tag: string): Option<Outbound> {
    Find(BUILT_IN + AllDescribed(infos, decode), tag)
  }

  /** Another node takes the tag over: an earlier one describes it otherwise, or a later one describes it and the node
      itself does not. */
  predicate TakenOver(infos: seq<NodeRoutes>, i: nat, decode: Decoder, tag: string)
    requires i < |infos|
  {
    var own := Find(Described(infos[i], |infos[i].routes|, decode), tag);
    var earlier, later := Find(AllDescribed(infos[..i], decode), tag), Find(AllDescribed(infos[i + 1..], decode), tag);
    && !HasTag(BUILT_IN, tag)
    && if earlier.Some? then earlier != own else own == None && later.Some?
  }

  lemma LeadsIff(infos: seq<NodeRoutes>, i: nat, decode: Decoder, tag: string)
    requires i < |infos|
    ensures Leads(infos, decode, tag) == Leads([infos[i]], decode, tag) <==> !TakenOver(infos, i, decode, tag)
  {
    var before, after, own := infos[..i], infos[i + 1..], Described(infos[i], |infos[i].routes|, decode);
    assert infos == before + ([infos[i]] + after);
    AllDescribedAppend(before, [infos[i]] + after, decode);
    AllDescribedAppend([infos[i]], after, decode);
    assert [infos[i]][..0] == [];
    assert AllDescribed([infos[i]], decode) == own;
    FindAppend(BUILT_IN, AllDescribed(infos, decode), tag);
    FindAppend(BUILT_IN, own, tag);
    FindAppend(AllDescribed(before, decode), own + AllDescribed(after, decode), tag);
    FindAppend(own, AllDescribed(after, decode), tag);
  }

  /** With distinct tags a node's traffic reaches the very outbound it would reach were the node alone, exactly when no
      other node has taken over the chosen tag. */
  lemma SameOutboundIff(infos: seq<NodeRoutes>, i: nat, decode: Decoder, holds: Meaning, t: Traffic)
    requires i < |infos| && forall a, b :: 0 <= a < b < |infos| ==> infos[a].tag != infos[b].tag
    requires t.inbound == infos[i].tag
    ensures var chosen := Choose(AllRules(infos, decode), holds, t);
            var alone := Choose(AllRules([infos[i]], decode), holds, t);
            && (chosen.Some? <==> alone.Some?)
            && (chosen.Some? ==> (Leads(infos, decode, chosen.value) == Leads([infos[i]], decode, alone.value) <==>
                                  !TakenOver(infos, i, decode, chosen.value)))
  {
    NodesAreIndependent(infos, i, decode, holds, t);
    var chosen := Choose(AllRules(infos, decode), holds, t);
    if chosen.Some? {
      LeadsIff(infos, i, decode, chosen.value);
    }
  }

  // ---- what each action does ----

  /** The route applies to the traffic: by its domains, addresses, ports or protocols, or to all of it. */
  predicate RouteApplies(route: Route, decode: Decoder, holds: Meaning, t: Traffic) {
    var decoded := route.actionValue.Some? && decode(route.actionValue.value).Some?;
    || (route.action == "block" && holds(Domains(route.patterns), t))
    || (route.action == "block_ip" && holds(Addresses(route.patterns), t))
    || (route.action == "block_port" && holds(Ports(Join(route.patterns)), t))
    || (route.action == "protocol" && holds(Protocols(route.patterns), t))
    || (route.action == "route" && decoded && holds(Domains(route.patterns), t))
    || (route.action == "route_ip" && decoded && holds(Addresses(route.patterns), t))
    || (route.action == "default_out" && decoded && holds(TcpOrUdp, t))
  }

  /** Traffic that a blocking route applies to goes to "block", other traffic to the outbound its route describes. */
  function Target(route: Route, decode: Decoder): string {
    if route.action in {"route", "route_ip", "default_out"} && route.actionValue.Some? &&
       decode(route.actionValue.value).Some?
    then decode(route.actionValue.value).value.tag else "block"
  }

  ghost predicate FirstApplies(info: NodeRoutes, n: nat, decode: Decoder, holds: Meaning, t: Traffic, j: nat) {
    && j < n <= |info.routes| && RouteApplies(info.routes[j], decode, holds, t)
    && forall i :: 0 <= i < j ==> !RouteApplies(info.routes[i], decode, holds, t)
  }

  lemma OneRoute(info: NodeRoutes, j: nat, decode: Decoder, holds: Meaning, t: Traffic)
    requires j < |info.routes| && t.inbound == info.tag
    ensures var rule := RuleOf(info.tag, info.routes[j], decode);
            Choose(if rule.Some? then [rule.value] else [], holds, t) ==
            if RouteApplies(info.routes[j], decode, holds, t) then Some(Target(info.routes[j], decode)) else None
  {
    var rule := RuleOf(info.tag, info.routes[j], decode);
    if rule.Some? {
      assert [rule.value][1..] == [];
    }
  }

  lemma RulesStep(info: NodeRoutes, n: nat, decode: Decoder, holds: Meaning, t: Traffic)
    requires 0 < n <= |info.routes| && t.inbound == info.tag
    ensures var before := Choose(RulesUpTo(info, n - 1, decode), holds, t);
            Choose(RulesUpTo(info, n, decode), holds, t) ==
            if before.Some? then before
            else if RouteApplies(info.routes[n - 1], decode, holds, t) then Some(Target(info.routes[n - 1], decode))
            else None
  {
    var rule := RuleOf(info.tag, info.routes[n - 1], decode);
    var last := if rule.Some? then [rule.value] else [];
    assert RulesUpTo(info, n, decode) == RulesUpTo(info, n - 1, decode) + last;
    OneRoute(info, n - 1, decode, holds, t);
    ChooseAppend(RulesUpTo(info, n - 1, decode), last, holds, t);
  }

  lemma {:induction false} NoRouteApplies(info: NodeRoutes, n: nat, decode: Decoder, holds: Meaning, t: Traffic)
    requires n <= |info.routes| && t.inbound == info.tag
    requires forall j :: 0 <= j < n ==> !RouteApplies(info.routes[j], decode, holds, t)
    ensures Choose(RulesUpTo(info, n, decode), holds, t) == None
  {
    if n > 0 {
      NoRouteApplies(info, n - 1, decode, holds, t);
      RulesStep(info, n, decode, holds, t);
    }
  }

  lemma {:induction false} FirstRouteIs(info: NodeRoutes, n: nat, decode: Decoder, holds: Meaning, t: Traffic, j: nat)
    requires t.inbound == info.tag && FirstApplies(info, n, decode, holds, t, j)
    ensures Choose(RulesUpTo(info, n, decode), holds, t) == Some(Target(info.routes[j], decode))
  {
    RulesStep(info, n, decode, holds, t);
    if j < n - 1 {
      FirstRouteIs(info, n - 1, decode, holds, t, j);
    } else {
      NoRouteApplies(info, n - 1, decode, holds, t);
    }
  }

  /** With distinct tags: DNS queries go to "dns_out"; other traffic of a node goes where its first route that applies
      says, and nowhere in particular when none applies. */
  lemma FirstRouteDecides(infos: seq<NodeRoutes>, i: nat, decode: Decoder, holds: Meaning, t: Traffic)
    requires i < |infos| && forall a, b :: 0 <= a < b < |infos| ==> infos[a].tag != infos[b].tag
    requires t.inbound == infos[i].tag
    ensures var chosen, routes := Choose(AllRules(infos, decode), holds, t), infos[i].routes;
            if holds(DnsPort, t) then chosen == Some("dns_out")
            else
              && (forall j: nat :: FirstApplies(infos[i], |routes|, decode, holds, t, j) ==>
                                chosen == Some(Target(routes[j], decode)))
              && ((forall j :: 0 <= j < |routes| ==> !RouteApplies(routes[j], decode, holds, t)) ==> chosen == None)
  {
    NodesAreIndependent(infos, i, decode, holds, t);
    var info := infos[i];
    forall j: nat | FirstApplies(info, |info.routes|, decode, holds, t, j)
      ensures Choose(RulesOf(info, decode), holds, t) == Some(Target(info.routes[j], decode))
    {
      FirstRouteIs(info, |info.routes|, decode, holds, t, j);
    }
    if forall j :: 0 <= j < |info.routes| ==> !RouteApplies(info.routes[j], decode, holds, t) {
      NoRouteApplies(info, |info.routes|, decode, holds, t);
    }
  }

  /** The patterns of a port route become one list with commas between them. */
  lemma {:induction false} JoinKeepsAll(parts: seq<string>, more: string)
    ensures Join([]) == "" && Join([more]) == more
    ensures parts != [] ==> Join([more] + parts) == more + "," + Join(parts)
  {
    assert [more][0] == more;
    if parts != [] {
      assert ([more] + parts)[0] == more && ([more] + parts)[1..] == parts;
    }
  }

  /** The outbounds described are those that "route", "route_ip" and "default_out" routes give and that can be built. */
  lemma {:induction false} DescribedExactly(info: NodeRoutes, n: nat, decode: Decoder, o: Outbound)
    requires n <= |info.routes|
    ensures o in Described(info, n, decode) <==>
            exists j :: 0 <= j < n && info.routes[j].action in {"route", "route_ip", "default_out"} &&
                        info.routes[j].actionValue.Some? && o.source == info.routes[j].actionValue &&
                        decode(info.routes[j].actionValue.value) == Some(Detour(o.tag, true))
  {
    if n > 0 {
      DescribedExactly(info, n - 1, decode, o);
      var route := info.routes[n - 1];
      assert o in Described(info, n, decode) <==>
             o in Described(info, n - 1, decode) ||
             (route.action in {"route", "route_ip", "default_out"} && route.actionValue.Some? &&
              o.source == route.actionValue && decode(route.actionValue.value) == Some(Detour(o.tag, true)));
    }
  }
}
