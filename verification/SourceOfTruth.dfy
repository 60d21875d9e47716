/** Why the three consumers of one compilation cannot disagree. */
module SourceOfTruth {
  import opened Collections
  import opened DomainSet
  import opened RuleList
  import opened Model
  import opened Conflicts
  import opened Compiler
  import opened Routing
  import opened Validation

  // ----- reading a compilation back -----

  lemma {:induction false} AddressListMeaning(nt: map<string, NodeInput>, ids: seq<string>, address: NodeInput -> string)
    ensures AddressList(nt, ids, address) != [] <==>
            exists k :: 0 <= k < |ids| && ids[k] in nt && nt[ids[k]].eligible && address(nt[ids[k]]) != ""
  {
    if ids != [] {
      var front := ids[..|ids| - 1];
      AddressListMeaning(nt, front, address);
      if k :| 0 <= k < |front| && front[k] in nt && nt[front[k]].eligible && address(nt[front[k]]) != "" {
        assert ids[k] == front[k];
      }
      if k :| 0 <= k < |ids| && ids[k] in nt && nt[ids[k]].eligible && address(nt[ids[k]]) != "" {
        if k < |front| { assert front[k] == ids[k]; }
      }
    }
  }

  lemma SortEmpty<T>(xs: seq<T>, less: (T, T) -> bool)
    ensures Sort(xs, less) == [] <==> xs == []
  {
    SortMultiset(xs, less);
  }

  /** The compiled service's targets are exactly the nodes the input service targets. */
  lemma CompiledTargets(nt: map<string, NodeInput>, s: ServiceInput)
    requires forall id :: id in nt ==> nt[id].id == id
    ensures forall t :: t in CompiledService(nt, s).egress.targets ==> t.nodeId in nt && Targets(nt, s, t.nodeId)
    ensures forall id :: Targets(nt, s, id) ==>
              exists t :: t in CompiledService(nt, s).egress.targets && t.nodeId == id
  {
    var list := TargetList(nt, s.egressMembers);
    TargetListMembers(nt, s.egressMembers);
    SortMultiset(list, TargetBefore);
    var sorted := Sort(list, TargetBefore);
    SameMultisetMembers(list, sorted);
    forall t | t in sorted ensures t.nodeId in nt && Targets(nt, s, t.nodeId) {
      assert t in list;
      var k :| 0 <= k < |s.egressMembers| && Usable(nt, s.egressMembers[k])
               && t == TargetOf(nt[s.egressMembers[k].nodeId], s.egressMembers[k]);
      assert s.egressMembers[k].nodeId == t.nodeId;
    }
    forall id | Targets(nt, s, id) ensures exists t :: t in sorted && t.nodeId == id {
      var k :| 0 <= k < |s.egressMembers| && s.egressMembers[k].nodeId == id && Usable(nt, s.egressMembers[k]);
      var t := TargetOf(nt[id], s.egressMembers[k]);
      assert t in list;
      assert t in sorted;
    }
  }

  /** The input service behind position `k` runs on ingress node `id`. */
  ghost predicate Carries(inp: Input, k: nat, id: string)
    requires k < |inp.services|
  {
    inp.services[k].slug in CarriedSlugs(inp.services, id)
  }

  /** With distinct slugs a node carries exactly the services that list it. */
  lemma CarriesIffListed(inp: Input, k: nat, id: string)
    requires k < |inp.services|
    requires forall i, j :: 0 <= i < j < |inp.services| ==> inp.services[i].slug != inp.services[j].slug
    ensures Carries(inp, k, id) <==> id in inp.services[k].ingressNodes
  {
    if Carries(inp, k, id) {
      var j :| 0 <= j < |inp.services| && id in inp.services[j].ingressNodes && inp.services[j].slug == inp.services[k].slug;
      assert j == k;
    }
  }

  lemma CarriedList(inp: Input, configs: Configs, id: string) returns (all: seq<Service>)
    requires IsCompiled(inp, configs) && id in configs && configs[id].role == ROLE_INGRESS
    ensures multiset(all) == multiset(CompiledServices(NodeTable(inp.nodes), inp.services))
    ensures configs[id].services == Filter(all, Carried(inp.services, id))
  {
    var nt := NodeTable(inp.nodes);
    NodeTableRows(inp.nodes);
    all := CompiledList(inp, configs);
    assert ConfigFor(inp, nt, all, nt[id], configs[id]);
    hide IsCompiled, NodeTable, CompiledServices, Filter, EgressFor;
  }

  /** The services in an ingress node's configuration are the compiled ones it carries. */
  lemma IngressServices(inp: Input, configs: Configs, id: string)
    requires IsCompiled(inp, configs)
    requires id in configs && configs[id].role == ROLE_INGRESS
    ensures forall x :: x in configs[id].services <==>
              exists k: nat :: k < |inp.services| && Carries(inp, k, id) && x == CompiledService(NodeTable(inp.nodes), inp.services[k])
  {
    var nt := NodeTable(inp.nodes);
    var all := CarriedList(inp, configs, id);
    FilterMembers(all, Carried(inp.services, id));
    SameMultisetMembers(CompiledServices(nt, inp.services), all);
    assert forall x: Service :: Carried(inp.services, id)(x) <==> x.slug in CarriedSlugs(inp.services, id);
    hide *;
    forall x
      ensures x in configs[id].services <==>
              exists k: nat :: k < |inp.services| && Carries(inp, k, id) && x == CompiledService(nt, inp.services[k])
    {
      CarriedCompiled(inp, nt, id, x);
    }
  }

  lemma CarriedCompiled(inp: Input, nt: map<string, NodeInput>, id: string, x: Service)
    ensures x in CompiledServices(nt, inp.services) && x.slug in CarriedSlugs(inp.services, id) <==>
            exists k: nat :: k < |inp.services| && Carries(inp, k, id) && x == CompiledService(nt, inp.services[k])
  {
    var cs := CompiledServices(nt, inp.services);
    assert forall k :: 0 <= k < |cs| ==> cs[k].slug == inp.services[k].slug;
    hide CompiledService, CarriedSlugs;
    if x in cs && x.slug in CarriedSlugs(inp.services, id) {
      var k :| 0 <= k < |cs| && cs[k] == x;
      assert Carries(inp, k, id) && x == CompiledService(nt, inp.services[k]);
    }
    if k: nat :| k < |inp.services| && Carries(inp, k, id) && x == CompiledService(nt, inp.services[k]) {
      assert cs[k] == x;
    }
  }

  lemma ConfigShape(inp: Input, configs: Configs, id: string)
    requires IsCompiled(inp, configs)
    ensures configs.Keys == NodeTable(inp.nodes).Keys
    ensures id in configs ==>
              var n, c := NodeTable(inp.nodes)[id], configs[id];
              && c.role == n.role && c.nodeId == id && c.schemaVersion == 1 && c.revisionId == inp.revisionId
              && (c.role == ROLE_INGRESS || c.role == ROLE_EGRESS)
              && (c.role == ROLE_INGRESS ==> c.egress == NO_EGRESS)
              && (c.role == ROLE_EGRESS ==> EgressFor(inp, NodeTable(inp.nodes), id, c.egress))
  {
    var nt := NodeTable(inp.nodes);
    NodeTableRows(inp.nodes);
    var all: seq<Service> :| SortOf(CompiledServices(nt, inp.services), all, SlugBefore)
                             && ConfigsFor(inp, nt, all, nt, configs);
    if id in configs {
      assert ConfigFor(inp, nt, all, nt[id], configs[id]);
      assert ROLE_INGRESS[0] != ROLE_EGRESS[0];
    }
  }

  // ----- agreement -----

  /** A service's rules cover the host, and the service sends traffic to the node. */
  ghost predicate HostVia(re: RegexEngine, inp: Input, id: string, host: string) {
    exists k :: 0 <= k < |inp.services| && Targets(NodeTable(inp.nodes), inp.services[k], id)
                && Covers(re, inp.services[k].entries, host)
  }

  lemma AllowlistCovers(re: RegexEngine, inp: Input, id: string, eg: EgressConfig, host: string)
    requires EgressFor(inp, NodeTable(inp.nodes), id, eg)
    ensures MatcherCovers(re, MatcherOf(re, eg.allow), host) <==> HostVia(re, inp, id, host)
  {
    var nt := NodeTable(inp.nodes);
    var entries: seq<Entry> :|
      && StrictlySorted(entries)
      && (forall e :: e in entries <==> MayReach(nt, inp.services, id, e))
      && StrictlyAscending(eg.allowedPorts)
      && (forall p :: p in eg.allowedPorts <==> MayUsePort(nt, inp.services, id, p))
      && eg == inp.egressTuning.(allow := SetOf(entries), allowedPorts := eg.allowedPorts, allowPrivate := inp.labMode);
    MatcherRefinesRule(re, entries, host);
    hide MatcherCovers, MatcherOf, EntryCovers, Targets, NodeTable, StrictlySorted, StrictlyAscending, SetOf, MayUsePort;
    if Covers(re, entries, host) {
      var e :| e in entries && EntryCovers(re, e, host);
      var k :| 0 <= k < |inp.services| && Targets(nt, inp.services[k], id) && e in inp.services[k].entries;
      assert Covers(re, inp.services[k].entries, host);
    }
    if HostVia(re, inp, id, host) {
      var k :| 0 <= k < |inp.services| && Targets(nt, inp.services[k], id) && Covers(re, inp.services[k].entries, host);
      var e :| e in inp.services[k].entries && EntryCovers(re, e, host);
      assert MayReach(nt, inp.services, id, e);
    }
  }

  lemma AllowedPortsMeaning(inp: Input, id: string, eg: EgressConfig)
    requires EgressFor(inp, NodeTable(inp.nodes), id, eg)
    ensures forall p :: p in eg.allowedPorts <==> MayUsePort(NodeTable(inp.nodes), inp.services, id, p)
  {
  }

  lemma PortsNonEmpty(ps: seq<int>)
    ensures PortsOrDefault(ps) != []
  {
    SortMultiset(ps, IntLess());
  }

  /**
   * What an egress relay lets through, exactly: the host must be covered by some service
   * that targets the node, and the port opened by some service that targets it. The two
   * services need not be the same.
   */
  lemma RelayAllowsExactly(re: RegexEngine, inp: Input, configs: Configs, id: string, host: string, port: int)
    requires IsCompiled(inp, configs)
    requires id in configs && configs[id].role == ROLE_EGRESS
    ensures AllowedBy(re, configs[id], host, port) <==>
            HostVia(re, inp, id, host) && MayUsePort(NodeTable(inp.nodes), inp.services, id, port)
  {
    var nt := NodeTable(inp.nodes);
    ConfigShape(inp, configs, id);
    AllowlistCovers(re, inp, id, configs[id].egress, host);
    AllowedPortsMeaning(inp, id, configs[id].egress);
    if HostVia(re, inp, id, host) {
      var k :| 0 <= k < |inp.services| && Targets(nt, inp.services[k], id) && Covers(re, inp.services[k].entries, host);
      PortsNonEmpty(inp.services[k].allowedPorts);
      var p := PortsOrDefault(inp.services[k].allowedPorts)[0];
      assert p in PortsOrDefault(inp.services[k].allowedPorts);
      assert MayUsePort(nt, inp.services, id, p);
      assert configs[id].egress.allowedPorts != [];
    }
  }

  /**
   * Whatever they ran before, a router and a proxy that have applied one configuration give
   * the same answer for every host, the owner in that configuration.
   */
  method SameOwnerEverywhere(re: RegexEngine, router: Router, proxy: Proxy, c: NodeConfig, host: string)
    returns (dns: Option<nat>, https: Option<nat>)
    requires proxy.Valid()
    modifies router, proxy
    ensures proxy.Valid()
    ensures dns == https && IsOwner(re, RoutesOf(re, c.services), host, dns)
  {
    router.Apply(re, c);
    proxy.Apply(re, c);
    dns := router.Lookup(re, host);
    https := proxy.Lookup(re, host);
    OwnerUnique(re, RoutesOf(re, c.services), host, dns, https);
  }

  /**
   * One source of truth: when a host is owned by a service on an ingress node, that
   * service has at least one egress target, every target has a compiled configuration,
   * and for every port of the service the target lets the host through exactly when its
   * node has the egress role.
   */
  lemma OwnedHostsAreAllowed(re: RegexEngine, inp: Input, configs: Configs, id: string, host: string, row: nat)
    requires Compilable(inp) && IsCompiled(inp, configs)
    requires id in configs && configs[id].role == ROLE_INGRESS
    requires IsOwner(re, RoutesOf(re, configs[id].services), host, Some(row))
    ensures var svc := configs[id].services[row];
            && svc.egress.targets != []
            && forall t, p :: t in svc.egress.targets && PortIn(svc.allowedPorts, p) ==>
                 && t.nodeId in configs
                 && (AllowedBy(re, configs[t.nodeId], host, p) <==> configs[t.nodeId].role == ROLE_EGRESS)
  {
    var nt := NodeTable(inp.nodes);
    NodeTableRows(inp.nodes);
    var svc := configs[id].services[row];
    IngressServices(inp, configs, id);
    assert svc in configs[id].services;
    var k: nat :| k < |inp.services| && Carries(inp, k, id) && svc == CompiledService(nt, inp.services[k]);
    var s := inp.services[k];
    OwnedIsCovered(re, configs[id].services, s, host, row);
    CompiledTargets(nt, s);
    PortsNonEmpty(s.allowedPorts);
    assert HasTarget(nt, s);
    forall t, p | t in svc.egress.targets && PortIn(svc.allowedPorts, p)
      ensures t.nodeId in configs
      ensures AllowedBy(re, configs[t.nodeId], host, p) <==> configs[t.nodeId].role == ROLE_EGRESS
    {
      TargetAllows(re, inp, configs, k, t.nodeId, host, p);
    }
  }

  /** The owner's rules cover the host. */
  lemma OwnedIsCovered(re: RegexEngine, services: seq<Service>, s: ServiceInput, host: string, row: nat)
    requires IsOwner(re, RoutesOf(re, services), host, Some(row))
    requires services[row].rules == SetOf(s.entries)
    ensures Covers(re, s.entries, host)
  {
    SpecificityVersusMatch(re, MatcherOf(re, SetOf(s.entries)), host);
    MatcherRefinesRule(re, s.entries, host);
  }

  lemma TargetAllows(re: RegexEngine, inp: Input, configs: Configs, k: nat, id: string, host: string, p: int)
    requires IsCompiled(inp, configs)
    requires k < |inp.services| && Targets(NodeTable(inp.nodes), inp.services[k], id)
    requires Covers(re, inp.services[k].entries, host)
    requires p in PortsOrDefault(inp.services[k].allowedPorts)
    ensures id in configs && (AllowedBy(re, configs[id], host, p) <==> configs[id].role == ROLE_EGRESS)
  {
    ConfigShape(inp, configs, id);
    assert ROLE_INGRESS[0] != ROLE_EGRESS[0];
    if configs[id].role == ROLE_EGRESS {
      RelayAllowsExactly(re, inp, configs, id, host, p);
      assert HostVia(re, inp, id, host);
      assert MayUsePort(NodeTable(inp.nodes), inp.services, id, p);
    }
  }

  // ----- what the agents accept -----

  /** The service has an eligible listed ingress node with a public address. */
  ghost predicate HasAddress(nt: map<string, NodeInput>, s: ServiceInput) {
    exists k :: 0 <= k < |s.ingressNodes| && s.ingressNodes[k] in nt && nt[s.ingressNodes[k]].eligible
      && (nt[s.ingressNodes[k]].publicIPv4 != "" || nt[s.ingressNodes[k]].publicIPv6 != "")
  }

  lemma PublishableIffAddress(nt: map<string, NodeInput>, s: ServiceInput)
    requires forall id :: id in nt ==> nt[id].id == id
    requires HasTarget(nt, s)
    ensures Publishable(CompiledService(nt, s)) <==> HasAddress(nt, s)
  {
    AddressListMeaning(nt, s.ingressNodes, V4());
    AddressListMeaning(nt, s.ingressNodes, V6());
    SortEmpty(AddressList(nt, s.ingressNodes, V4()), StringLess);
    SortEmpty(AddressList(nt, s.ingressNodes, V6()), StringLess);
    CompiledTargets(nt, s);
  }

  /**
   * An ingress artifact passes the agent's check exactly when the node carries some
   * service and every service it carries has an address to publish.
   */
  lemma IngressArtifactAccepted(inp: Input, configs: Configs, id: string)
    requires Compilable(inp) && IsCompiled(inp, configs)
    requires id in configs && configs[id].role == ROLE_INGRESS
    ensures Acceptable(configs[id], id, ROLE_INGRESS) <==>
            && (exists k: nat :: k < |inp.services| && Carries(inp, k, id))
            && (forall k: nat :: k < |inp.services| && Carries(inp, k, id) ==>
                  HasAddress(NodeTable(inp.nodes), inp.services[k]))
  {
    var nt, c := NodeTable(inp.nodes), configs[id];
    NodeTableRows(inp.nodes);
    ConfigShape(inp, configs, id);
    IngressServices(inp, configs, id);
    assert ROLE_INGRESS[0] != ROLE_EGRESS[0];
    forall k: nat | k < |inp.services|
      ensures Publishable(CompiledService(nt, inp.services[k])) <==> HasAddress(nt, inp.services[k])
    {
      assert HasTarget(nt, inp.services[k]);
      PublishableIffAddress(nt, inp.services[k]);
    }
    if c.services != [] { assert c.services[0] in c.services; }
    if k: nat :| k < |inp.services| && Carries(inp, k, id) {
      assert CompiledService(nt, inp.services[k]) in c.services;
    }
    assert (forall x :: x in c.services ==> Publishable(x)) <==>
           (forall k: nat :: k < |inp.services| && Carries(inp, k, id) ==> Publishable(CompiledService(nt, inp.services[k])));
  }

  /** Whoever receives a compiled artifact accepts it only as the node, and in the role, it is for; an empty id or role is not compared. */
  lemma ArtifactIsAddressed(inp: Input, configs: Configs, id: string, nodeId: string, role: string)
    requires IsCompiled(inp, configs) && id in configs
    ensures Acceptable(configs[id], nodeId, role) <==>
            && (nodeId == "" || nodeId == id) && (role == "" || role == configs[id].role)
            && Acceptable(configs[id], id, configs[id].role)
  {
    ConfigShape(inp, configs, id);
    hide IsCompiled, NodeTable, EgressFor;
  }

  /** An egress artifact passes exactly when some service targets the node. */
  lemma EgressArtifactAccepted(inp: Input, configs: Configs, id: string)
    requires Compilable(inp) && IsCompiled(inp, configs)
    requires id in configs && configs[id].role == ROLE_EGRESS
    ensures Acceptable(configs[id], id, ROLE_EGRESS) <==>
            exists k :: 0 <= k < |inp.services| && Targets(NodeTable(inp.nodes), inp.services[k], id)
  {
    var nt, eg := NodeTable(inp.nodes), configs[id].egress;
    ConfigShape(inp, configs, id);
    AllowedPortsMeaning(inp, id, eg);
    assert ROLE_INGRESS[0] != ROLE_EGRESS[0];
    if eg.allowedPorts != [] {
      assert eg.allowedPorts[0] in eg.allowedPorts;
      assert MayUsePort(nt, inp.services, id, eg.allowedPorts[0]);
    }
    if k :| 0 <= k < |inp.services| && Targets(nt, inp.services[k], id) {
      PortsNonEmpty(inp.services[k].allowedPorts);
      var p := PortsOrDefault(inp.services[k].allowedPorts)[0];
      assert p in PortsOrDefault(inp.services[k].allowedPorts);
      assert MayUsePort(nt, inp.services, id, p);
    }
  }
}
