/** Turning services and nodes into one configuration per node. */
module Compiler {
  import opened Collections
  import opened DomainSet
  import opened RuleList
  import opened Model
  import opened Conflicts

  datatype NodeInput = NodeInput(
    id: string, name: string, role: string, publicIPv4: string, publicIPv6: string,
    relayEndpoint: string, relaySNI: string, eligible: bool)

  datatype Input = Input(
    revisionId: string, sequence: int, services: seq<ServiceInput>, nodes: seq<NodeInput>,
    dns: DnsConfig, ingress: IngressConfig, egressTuning: EgressConfig, labMode: bool, logLevel: string)

  datatype CompileError =
    | MissingRevision
    | RuleConflict(conflicts: seq<Conflict>)
    | NoUsableEgress(slug: string)
    | UnknownRole(name: string, role: string)

  type Configs = map<string, NodeConfig>

  const AAAA_NOTE := "AAAA publication disabled: this ingress has no IPv6 address"
  const LAB_NOTE := "LAB MODE: private and loopback destinations are reachable; never use this configuration in production"

  // ----- per-service shape -----

  /** Registered nodes by id; a later row replaces an earlier one. */
  function NodeTable(nodes: seq<NodeInput>): map<string, NodeInput> {
    if nodes == [] then map[]
    else NodeTable(nodes[..|nodes| - 1])[nodes[|nodes| - 1].id := nodes[|nodes| - 1]]
  }

  lemma {:induction false} NodeTableRows(nodes: seq<NodeInput>)
    ensures forall id :: id in NodeTable(nodes) ==> NodeTable(nodes)[id].id == id && NodeTable(nodes)[id] in nodes
    ensures forall n :: n in nodes ==> n.id in NodeTable(nodes)
  {
    if nodes != [] {
      NodeTableRows(nodes[..|nodes| - 1]);
      assert nodes == nodes[..|nodes| - 1] + [nodes[|nodes| - 1]];
    }
  }

  function OrDefault(v: string, default: string): string {
    if v == "" then default else v
  }

  function Endpoint(n: NodeInput): string {
    if n.relayEndpoint != "" then n.relayEndpoint
    else if n.publicIPv4 != "" then n.publicIPv4 + ":8443"
    else ""
  }

  /** A member becomes a target when its node is registered, eligible and reachable. */
  predicate Usable(nt: map<string, NodeInput>, m: EgressMember) {
    m.nodeId in nt && nt[m.nodeId].eligible && Endpoint(nt[m.nodeId]) != ""
  }

  function TargetOf(n: NodeInput, m: EgressMember): EgressTarget {
    EgressTarget(n.id, n.name, Endpoint(n), OrDefault(n.relaySNI, n.name), m.priority, m.weight)
  }

  function TargetList(nt: map<string, NodeInput>, ms: seq<EgressMember>): seq<EgressTarget> {
    if ms == [] then []
    else
      var m := ms[|ms| - 1];
      TargetList(nt, ms[..|ms| - 1]) + (if Usable(nt, m) then [TargetOf(nt[m.nodeId], m)] else [])
  }

  predicate TargetBefore(a: EgressTarget, b: EgressTarget) {
    a.priority < b.priority
  }

  function IntLess(): (int, int) -> bool {
    (a, b) => a < b
  }

  /** No port list means 443. */
  function PortsOrDefault(ps: seq<int>): seq<int> {
    if ps == [] then [443] else Sort(ps, IntLess())
  }

  function ClampTTL(t: nat): nat {
    if t < 30 then 30 else if t > 300 then 300 else t
  }

  function Positive(v: int, default: int): int {
    if v == 0 then default else v
  }

  function AddressList(nt: map<string, NodeInput>, ids: seq<string>, address: NodeInput -> string): seq<string> {
    if ids == [] then []
    else
      var id := ids[|ids| - 1];
      AddressList(nt, ids[..|ids| - 1], address) +
      (if id in nt && nt[id].eligible && address(nt[id]) != "" then [address(nt[id])] else [])
  }

  function V4(): NodeInput -> string { (n: NodeInput) => n.publicIPv4 }
  function V6(): NodeInput -> string { (n: NodeInput) => n.publicIPv6 }

  function PolicyOf(nt: map<string, NodeInput>, s: ServiceInput): EgressPolicy {
    s.policy.(
      mode := OrDefault(s.egressMode, "primary_fallback"),
      targets := Sort(TargetList(nt, s.egressMembers), TargetBefore),
      failThreshold := Positive(s.policy.failThreshold, 3),
      riseThreshold := Positive(s.policy.riseThreshold, 2),
      probeInterval := Positive(s.policy.probeInterval, 30))
  }

  function CompiledService(nt: map<string, NodeInput>, s: ServiceInput): Service {
    Service(s.slug, s.name, s.priority, ClampTTL(s.ttl), PortsOrDefault(s.allowedPorts),
            OrDefault(s.udpMode, "disabled_fallback"), SetOf(s.entries), s.ruleSetHash,
            Sort(AddressList(nt, s.ingressNodes, V4()), StringLess),
            Sort(AddressList(nt, s.ingressNodes, V6()), StringLess),
            PolicyOf(nt, s))
  }

  function CompiledServices(nt: map<string, NodeInput>, services: seq<ServiceInput>): (cs: seq<Service>)
    ensures |cs| == |services|
  {
    seq(|services|, i requires 0 <= i < |services| => CompiledService(nt, services[i]))
  }

  predicate SlugBefore(a: Service, b: Service) {
    StringLess(a.slug, b.slug)
  }

  // ----- what each node's configuration must be -----

  /** The service sends traffic to the node. */
  ghost predicate Targets(nt: map<string, NodeInput>, s: ServiceInput, id: string) {
    exists k :: 0 <= k < |s.egressMembers| && s.egressMembers[k].nodeId == id && Usable(nt, s.egressMembers[k])
  }

  ghost predicate MayReach(nt: map<string, NodeInput>, services: seq<ServiceInput>, id: string, e: Entry) {
    exists k :: 0 <= k < |services| && Targets(nt, services[k], id) && e in services[k].entries
  }

  ghost predicate MayUsePort(nt: map<string, NodeInput>, services: seq<ServiceInput>, id: string, p: int) {
    exists k :: 0 <= k < |services| && Targets(nt, services[k], id) && p in PortsOrDefault(services[k].allowedPorts)
  }

  /** Slugs of the services that list the node as an ingress. */
  function CarriedSlugs(services: seq<ServiceInput>, id: string): set<string> {
    set k | 0 <= k < |services| && id in services[k].ingressNodes :: services[k].slug
  }

  function Carried(services: seq<ServiceInput>, id: string): Service -> bool {
    (s: Service) => s.slug in CarriedSlugs(services, id)
  }

  function NodeDns(dns: DnsConfig, n: NodeInput): DnsConfig {
    if dns.publishAAAA && n.publicIPv6 == "" then dns.(publishAAAA := false) else dns
  }

  function NodeNotes(inp: Input, n: NodeInput): seq<string> {
    (if n.role == ROLE_INGRESS && inp.dns.publishAAAA && n.publicIPv6 == "" then [AAAA_NOTE] else []) +
    (if inp.labMode then [LAB_NOTE] else [])
  }

  function Frame(inp: Input, n: NodeInput): NodeConfig {
    NodeConfig(1, inp.revisionId, inp.sequence, n.id, n.name, n.role,
               [], NO_DNS, NO_INGRESS, NO_EGRESS, inp.logLevel, NodeNotes(inp, n))
  }

  ghost predicate StrictlyAscending(ps: seq<int>) {
    forall i, j :: 0 <= i < j < |ps| ==> ps[i] < ps[j]
  }

  /** The allowlist of an egress node: the union over the services that target it, once each, sorted. */
  ghost predicate EgressFor(inp: Input, nt: map<string, NodeInput>, id: string, eg: EgressConfig) {
    exists entries: seq<Entry> ::
      && StrictlySorted(entries)
      && (forall e :: e in entries <==> MayReach(nt, inp.services, id, e))
      && StrictlyAscending(eg.allowedPorts)
      && (forall p :: p in eg.allowedPorts <==> MayUsePort(nt, inp.services, id, p))
      && eg == inp.egressTuning.(allow := SetOf(entries), allowedPorts := eg.allowedPorts, allowPrivate := inp.labMode)
  }

  ghost predicate ConfigFor(inp: Input, nt: map<string, NodeInput>, all: seq<Service>, n: NodeInput, c: NodeConfig) {
    if n.role == ROLE_INGRESS then
      c == Frame(inp, n).(services := Filter(all, Carried(inp.services, n.id)),
                          dns := NodeDns(inp.dns, n), ingress := inp.ingress)
    else
      && n.role == ROLE_EGRESS
      && c == Frame(inp, n).(egress := c.egress)
      && EgressFor(inp, nt, n.id, c.egress)
  }

  /** `configs` is a compilation of `inp`: one configuration per node id, all from one service list. */
  ghost predicate IsCompiled(inp: Input, configs: Configs) {
    var nt := NodeTable(inp.nodes);
    exists all: seq<Service> ::
      && SortOf(CompiledServices(nt, inp.services), all, SlugBefore)
      && ConfigsFor(inp, nt, all, nt, configs)
  }

  /** The list of compiled services behind a compilation. */
  lemma CompiledList(inp: Input, configs: Configs) returns (all: seq<Service>)
    requires IsCompiled(inp, configs)
    ensures var nt := NodeTable(inp.nodes);
            SortOf(CompiledServices(nt, inp.services), all, SlugBefore) && ConfigsFor(inp, nt, all, nt, configs)
  {
    var nt := NodeTable(inp.nodes);
    hide SortOf, ConfigsFor, CompiledServices, NodeTable;
    all :| SortOf(CompiledServices(nt, inp.services), all, SlugBefore) && ConfigsFor(inp, nt, all, nt, configs);
  }

  /** The conditions under which there is something to compile. */
  ghost predicate Compilable(inp: Input) {
    var nt := NodeTable(inp.nodes);
    && inp.revisionId != ""
    && (forall e :: !TiedAtTop(OwnersOf(ClaimsOf(inp.services), e)))
    && (forall k :: 0 <= k < |inp.services| ==> HasTarget(nt, inp.services[k]))
    && (forall k :: 0 <= k < |inp.nodes| ==> KnownRole(inp.nodes[k]))
  }

  // ----- the loops -----

  function EntriesAt(allow: map<string, seq<Entry>>, id: string): seq<Entry> {
    if id in allow then allow[id] else []
  }

  function PortsAt(ports: map<string, set<int>>, id: string): set<int> {
    if id in ports then ports[id] else {}
  }

  /** The addresses of the eligible ingress nodes of one service, both families in one pass. */
  method CollectAddresses(nt: map<string, NodeInput>, ids: seq<string>) returns (v4: seq<string>, v6: seq<string>)
    ensures v4 == AddressList(nt, ids, V4()) && v6 == AddressList(nt, ids, V6())
  {
    v4, v6 := [], [];
    for i := 0 to |ids|
      invariant v4 == AddressList(nt, ids[..i], V4())
      invariant v6 == AddressList(nt, ids[..i], V6())
    {
      assert ids[..i + 1][..i] == ids[..i];
      var id := ids[i];
      if id !in nt || !nt[id].eligible { continue; }
      if nt[id].publicIPv4 != "" { v4 := v4 + [nt[id].publicIPv4]; }
      if nt[id].publicIPv6 != "" { v6 := v6 + [nt[id].publicIPv6]; }
    }
    assert ids[..|ids|] == ids;
  }

  /** Some member among the first `j` makes the node a target. */
  ghost predicate TargetsBy(nt: map<string, NodeInput>, s: ServiceInput, id: string, j: nat)
    requires j <= |s.egressMembers|
  {
    exists k :: 0 <= k < j && s.egressMembers[k].nodeId == id && Usable(nt, s.egressMembers[k])
  }

  lemma TargetsByStep(nt: map<string, NodeInput>, s: ServiceInput, j: nat)
    requires j < |s.egressMembers|
    ensures forall id :: TargetsBy(nt, s, id, j + 1) <==>
              TargetsBy(nt, s, id, j) || (id == s.egressMembers[j].nodeId && Usable(nt, s.egressMembers[j]))
  {
    var m := s.egressMembers[j];
    forall id
      ensures TargetsBy(nt, s, id, j + 1) <==> TargetsBy(nt, s, id, j) || (id == m.nodeId && Usable(nt, m))
    {
      if id == m.nodeId && Usable(nt, m) { assert s.egressMembers[j].nodeId == id; }
    }
  }

  /** What the first `j` members of a service add to the allowlists. */
  ghost predicate Granted(nt: map<string, NodeInput>, s: ServiceInput, j: nat,
                          allow: map<string, seq<Entry>>, ports: map<string, set<int>>,
                          allow': map<string, seq<Entry>>, ports': map<string, set<int>>)
    requires j <= |s.egressMembers|
  {
    && (forall id :: ToSet(EntriesAt(allow', id)) ==
          ToSet(EntriesAt(allow, id)) + if TargetsBy(nt, s, id, j) then ToSet(s.entries) else {})
    && (forall id :: PortsAt(ports', id) ==
          PortsAt(ports, id) + if TargetsBy(nt, s, id, j) then ToSet(PortsOrDefault(s.allowedPorts)) else {})
  }

  lemma ToSetConcat<T>(a: seq<T>, b: seq<T>)
    ensures ToSet(a + b) == ToSet(a) + ToSet(b)
  {
  }

  /** Adds one service's rules and ports to the allowlist of one node. */
  method Grant(s: ServiceInput, id: string, allow: map<string, seq<Entry>>, ports: map<string, set<int>>)
    returns (allow': map<string, seq<Entry>>, ports': map<string, set<int>>)
    ensures allow' == allow[id := EntriesAt(allow, id) + s.entries]
    ensures ports' == ports[id := PortsAt(ports, id) + ToSet(PortsOrDefault(s.allowedPorts))]
  {
    allow' := allow[id := EntriesAt(allow, id) + s.entries];
    var mine := PortsAt(ports, id);
    var add := PortsOrDefault(s.allowedPorts);
    for i := 0 to |add|
      invariant mine == PortsAt(ports, id) + ToSet(add[..i])
    {
      mine := mine + {add[i]};
      assert add[..i + 1] == add[..i] + [add[i]];
    }
    assert add[..|add|] == add;
    ports' := ports[id := mine];
  }

  lemma GrantStep(nt: map<string, NodeInput>, s: ServiceInput, j: nat,
                  allow: map<string, seq<Entry>>, ports: map<string, set<int>>,
                  mid: map<string, seq<Entry>>, midPorts: map<string, set<int>>,
                  last: map<string, seq<Entry>>, lastPorts: map<string, set<int>>)
    requires j < |s.egressMembers|
    requires Granted(nt, s, j, allow, ports, mid, midPorts)
    requires var m := s.egressMembers[j];
             if Usable(nt, m) then
               && last == mid[m.nodeId := EntriesAt(mid, m.nodeId) + s.entries]
               && lastPorts == midPorts[m.nodeId := PortsAt(midPorts, m.nodeId) + ToSet(PortsOrDefault(s.allowedPorts))]
             else last == mid && lastPorts == midPorts
    ensures Granted(nt, s, j + 1, allow, ports, last, lastPorts)
  {
    TargetsByStep(nt, s, j);
    var m := s.egressMembers[j];
    ToSetConcat(EntriesAt(mid, m.nodeId), s.entries);
    hide ToSet, TargetsBy, PortsOrDefault, Endpoint;
    forall id
      ensures ToSet(EntriesAt(last, id)) ==
              ToSet(EntriesAt(allow, id)) + if TargetsBy(nt, s, id, j + 1) then ToSet(s.entries) else {}
      ensures PortsAt(lastPorts, id) ==
              PortsAt(ports, id) + if TargetsBy(nt, s, id, j + 1) then ToSet(PortsOrDefault(s.allowedPorts)) else {}
    {
      assert ToSet(EntriesAt(mid, id)) ==
             ToSet(EntriesAt(allow, id)) + if TargetsBy(nt, s, id, j) then ToSet(s.entries) else {};
    }
  }

  /** Collects the targets of one service and adds its rules and ports to those nodes' allowlists. */
  method CollectTargets(nt: map<string, NodeInput>, s: ServiceInput,
                        allow: map<string, seq<Entry>>, ports: map<string, set<int>>)
    returns (targets: seq<EgressTarget>, allow': map<string, seq<Entry>>, ports': map<string, set<int>>)
    requires forall id :: id in nt ==> nt[id].id == id
    ensures targets == TargetList(nt, s.egressMembers)
    ensures Granted(nt, s, |s.egressMembers|, allow, ports, allow', ports')
  {
    targets, allow', ports' := [], allow, ports;
    for j := 0 to |s.egressMembers|
      invariant targets == TargetList(nt, s.egressMembers[..j])
      invariant Granted(nt, s, j, allow, ports, allow', ports')
    {
      var m := s.egressMembers[j];
      ghost var mid, midPorts := allow', ports';
      assert s.egressMembers[..j + 1][..j] == s.egressMembers[..j];
      if m.nodeId in nt && nt[m.nodeId].eligible {
        var n := nt[m.nodeId];
        var ep := n.relayEndpoint;
        if ep == "" && n.publicIPv4 != "" { ep := n.publicIPv4 + ":8443"; }
        if ep != "" {
          targets := targets + [EgressTarget(n.id, n.name, ep, OrDefault(n.relaySNI, n.name), m.priority, m.weight)];
          allow', ports' := Grant(s, n.id, allow', ports');
        }
      }
      GrantStep(nt, s, j, allow, ports, mid, midPorts, allow', ports');
    }
    assert s.egressMembers[..|s.egressMembers|] == s.egressMembers;
  }

  lemma {:induction false} TargetListMembers(nt: map<string, NodeInput>, ms: seq<EgressMember>)
    ensures forall t :: t in TargetList(nt, ms) <==>
              exists k :: 0 <= k < |ms| && Usable(nt, ms[k]) && t == TargetOf(nt[ms[k].nodeId], ms[k])
  {
    if ms != [] {
      var front, m := ms[..|ms| - 1], ms[|ms| - 1];
      TargetListMembers(nt, front);
      forall t
        ensures t in TargetList(nt, ms) <==>
                exists k :: 0 <= k < |ms| && Usable(nt, ms[k]) && t == TargetOf(nt[ms[k].nodeId], ms[k])
      {
        if t in TargetList(nt, front) {
          var k :| 0 <= k < |front| && Usable(nt, front[k]) && t == TargetOf(nt[front[k].nodeId], front[k]);
          assert ms[k] == front[k];
        }
        if k :| 0 <= k < |ms| && Usable(nt, ms[k]) && t == TargetOf(nt[ms[k].nodeId], ms[k]) {
          if k < |front| { assert front[k] == ms[k]; }
        }
      }
    }
  }

  lemma TargetsNonEmpty(nt: map<string, NodeInput>, s: ServiceInput)
    ensures TargetList(nt, s.egressMembers) != [] <==> HasTarget(nt, s)
  {
    TargetListMembers(nt, s.egressMembers);
    if TargetList(nt, s.egressMembers) != [] {
      var t := TargetList(nt, s.egressMembers)[0];
      assert t in TargetList(nt, s.egressMembers);
      var k :| 0 <= k < |s.egressMembers| && Usable(nt, s.egressMembers[k])
               && t == TargetOf(nt[s.egressMembers[k].nodeId], s.egressMembers[k]);
      assert Targets(nt, s, s.egressMembers[k].nodeId);
    }
    if id :| Targets(nt, s, id) {
      var k :| 0 <= k < |s.egressMembers| && s.egressMembers[k].nodeId == id && Usable(nt, s.egressMembers[k]);
      assert TargetOf(nt[id], s.egressMembers[k]) in TargetList(nt, s.egressMembers);
    }
  }

  method ServicesForIngress(all: seq<Service>, id: string, inputs: seq<ServiceInput>) returns (out: seq<Service>)
    ensures out == Filter(all, Carried(inputs, id))
  {
    var member: set<string> := {};
    for i := 0 to |inputs|
      invariant member == CarriedSlugs(inputs[..i], id)
    {
      assert inputs[..i + 1][..i] == inputs[..i];
      CarriedStep(inputs[..i + 1], id);
      for j := 0 to |inputs[i].ingressNodes|
        invariant member == CarriedSlugs(inputs[..i], id) +
                            if id in inputs[i].ingressNodes[..j] then {inputs[i].slug} else {}
      {
        if inputs[i].ingressNodes[j] == id {
          member := member + {inputs[i].slug};
        }
      }
      assert inputs[i].ingressNodes[..|inputs[i].ingressNodes|] == inputs[i].ingressNodes;
    }
    assert inputs[..|inputs|] == inputs;
    out := [];
    for i := 0 to |all|
      invariant out == Filter(all[..i], Carried(inputs, id))
    {
      assert all[..i + 1][..i] == all[..i];
      if all[i].slug in member {
        out := out + [all[i]];
      }
    }
    assert all[..|all|] == all;
  }

  lemma CarriedStep(inputs: seq<ServiceInput>, id: string)
    requires inputs != []
    ensures CarriedSlugs(inputs, id) == CarriedSlugs(inputs[..|inputs| - 1], id) +
                                        if id in inputs[|inputs| - 1].ingressNodes then {inputs[|inputs| - 1].slug} else {}
  {
    var front, last := inputs[..|inputs| - 1], inputs[|inputs| - 1];
    forall x ensures x in CarriedSlugs(inputs, id) <==>
                     x in CarriedSlugs(front, id) || (id in last.ingressNodes && x == last.slug)
    {
      if x in CarriedSlugs(inputs, id) {
        var k :| 0 <= k < |inputs| && id in inputs[k].ingressNodes && inputs[k].slug == x;
        if k < |front| { assert front[k] == inputs[k]; }
      }
      if x in CarriedSlugs(front, id) {
        var k :| 0 <= k < |front| && id in front[k].ingressNodes && front[k].slug == x;
        assert inputs[k] == front[k];
      }
      if id in last.ingressNodes && x == last.slug {
        assert inputs[|inputs| - 1].slug == x;
      }
    }
  }

  /** The port set of a node as the sorted list the artifact carries. */
  method SortedPorts(ports: set<int>) returns (ps: seq<int>)
    ensures StrictlyAscending(ps)
    ensures forall p :: p in ps <==> p in ports
  {
    var list: seq<int> := [];
    var rest := ports;
    while rest != {}
      invariant Distinct(list)
      invariant rest <= ports
      invariant forall p :: p in list <==> p in ports && p !in rest
      decreases |rest|
    {
      var p := AnyOf(rest);
      list := list + [p];
      rest := rest - {p};
    }
    ps := Sort(list, IntLess());
    SortIsSortOf(list, IntLess());
    PermutationDistinct(list, ps);
    SameMultisetMembers(list, ps);
    forall i, j | 0 <= i < j < |ps| ensures ps[i] < ps[j] {
      assert !IntLess()(ps[j], ps[i]);
    }
  }

  /** The allowlists collected from a list of services. */
  ghost predicate Collected(nt: map<string, NodeInput>, services: seq<ServiceInput>,
                            allow: map<string, seq<Entry>>, ports: map<string, set<int>>)
  {
    && (forall id, e :: e in EntriesAt(allow, id) <==> MayReach(nt, services, id, e))
    && (forall id, p :: p in PortsAt(ports, id) <==> MayUsePort(nt, services, id, p))
  }

  lemma CollectedNone(nt: map<string, NodeInput>)
    ensures Collected(nt, [], map[], map[])
  {
  }

  lemma CollectedStep(nt: map<string, NodeInput>, services: seq<ServiceInput>, s: ServiceInput,
                      allow: map<string, seq<Entry>>, ports: map<string, set<int>>,
                      allow': map<string, seq<Entry>>, ports': map<string, set<int>>)
    requires Collected(nt, services, allow, ports)
    requires Granted(nt, s, |s.egressMembers|, allow, ports, allow', ports')
    ensures Collected(nt, services + [s], allow', ports')
  {
    MayStep(nt, services, s);
    forall id ensures Targets(nt, s, id) <==> TargetsBy(nt, s, id, |s.egressMembers|) {
    }
    forall id, e ensures e in EntriesAt(allow', id) <==> MayReach(nt, services + [s], id, e) {
      assert e in EntriesAt(allow', id) <==> e in ToSet(EntriesAt(allow', id));
      assert e in EntriesAt(allow, id) <==> e in ToSet(EntriesAt(allow, id));
      assert e in s.entries <==> e in ToSet(s.entries);
    }
    forall id, p ensures p in PortsAt(ports', id) <==> MayUsePort(nt, services + [s], id, p) {
      assert p in PortsOrDefault(s.allowedPorts) <==> p in ToSet(PortsOrDefault(s.allowedPorts));
    }
  }

  ghost predicate HasTarget(nt: map<string, NodeInput>, s: ServiceInput) {
    exists id :: Targets(nt, s, id)
  }

  /** The service has no target, and every one before it has. */
  ghost predicate FirstStranded(nt: map<string, NodeInput>, services: seq<ServiceInput>, k: nat) {
    k < |services| && !HasTarget(nt, services[k]) && forall j :: 0 <= j < k ==> HasTarget(nt, services[j])
  }

  /** The compiled form of one service, from the targets and addresses collected for it. */
  method BuildService(nt: map<string, NodeInput>, s: ServiceInput, targets: seq<EgressTarget>) returns (cs: Service)
    requires targets == TargetList(nt, s.egressMembers)
    ensures cs == CompiledService(nt, s)
    ensures cs.slug == s.slug && cs.priority == s.priority
  {
    var v4, v6 := CollectAddresses(nt, s.ingressNodes);
    v4, v6 := Sort(v4, StringLess), Sort(v6, StringLess);
    var policy := s.policy.(mode := OrDefault(s.egressMode, "primary_fallback"),
                            targets := Sort(targets, TargetBefore));
    if policy.failThreshold == 0 { policy := policy.(failThreshold := 3); }
    if policy.riseThreshold == 0 { policy := policy.(riseThreshold := 2); }
    if policy.probeInterval == 0 { policy := policy.(probeInterval := 30); }
    var rules := NewSet(s.entries);
    cs := Service(s.slug, s.name, s.priority, ClampTTL(s.ttl), PortsOrDefault(s.allowedPorts),
                  OrDefault(s.udpMode, "disabled_fallback"), rules, s.ruleSetHash, v4, v6, policy);
  }

  /** One round of the service loop. */
  method AddService(nt: map<string, NodeInput>, services: seq<ServiceInput>, i: nat,
                    allow: map<string, seq<Entry>>, ports: map<string, set<int>>)
    returns (cs: Option<Service>, allow': map<string, seq<Entry>>, ports': map<string, set<int>>)
    requires i < |services|
    requires forall id :: id in nt ==> nt[id].id == id
    requires Collected(nt, services[..i], allow, ports)
    ensures Collected(nt, services[..i + 1], allow', ports')
    ensures cs == if HasTarget(nt, services[i]) then Some(CompiledService(nt, services[i])) else None
    ensures cs.Some? ==> cs.value.slug == services[i].slug && cs.value.priority == services[i].priority
  {
    var s := services[i];
    var targets;
    targets, allow', ports' := CollectTargets(nt, s, allow, ports);
    assert Collected(nt, services[..i + 1], allow', ports') by {
      CollectedStep(nt, services[..i], s, allow, ports, allow', ports');
      assert services[..i + 1] == services[..i] + [s];
    }
    TargetsNonEmpty(nt, s);
    if targets == [] { return None, allow', ports'; }
    var built := BuildService(nt, s, targets);
    cs := Some(built);
  }

  method CompileServices(nt: map<string, NodeInput>, services: seq<ServiceInput>)
    returns (r: Result<seq<Service>, CompileError>, allow: map<string, seq<Entry>>, ports: map<string, set<int>>)
    requires forall id :: id in nt ==> nt[id].id == id
    ensures r.Ok? <==> forall k :: 0 <= k < |services| ==> HasTarget(nt, services[k])
    ensures r.Err? ==> exists k :: 0 <= k < |services| && FirstStranded(nt, services, k) && r.error == NoUsableEgress(services[k].slug)
    ensures r.Ok? ==> r.value == CompiledServices(nt, services) && Collected(nt, services, allow, ports)
    ensures r.Ok? ==> forall k :: 0 <= k < |services| ==>
              r.value[k].slug == services[k].slug && r.value[k].priority == services[k].priority
  {
    hide Collected, CompiledService, HasTarget;
    var compiled: seq<Service> := [];
    allow, ports := map[], map[];
    assert Collected(nt, services[..0], allow, ports) by { CollectedNone(nt); }
    for i := 0 to |services|
      invariant |compiled| == i
      invariant forall k :: 0 <= k < i ==> HasTarget(nt, services[k]) && compiled[k] == CompiledService(nt, services[k])
      invariant forall k :: 0 <= k < i ==> compiled[k].slug == services[k].slug && compiled[k].priority == services[k].priority
      invariant Collected(nt, services[..i], allow, ports)
    {
      var cs;
      cs, allow, ports := AddService(nt, services, i, allow, ports);
      if cs.None? {
        assert FirstStranded(nt, services, i);
        return Err(NoUsableEgress(services[i].slug)), allow, ports;
      }
      compiled := compiled + [cs.value];
    }
    assert services[..|services|] == services;
    r := Ok(compiled);
  }

  lemma MayStep(nt: map<string, NodeInput>, services: seq<ServiceInput>, s: ServiceInput)
    ensures forall id, e :: MayReach(nt, services + [s], id, e) <==>
              MayReach(nt, services, id, e) || (Targets(nt, s, id) && e in s.entries)
    ensures forall id, p :: MayUsePort(nt, services + [s], id, p) <==>
              MayUsePort(nt, services, id, p) || (Targets(nt, s, id) && p in PortsOrDefault(s.allowedPorts))
  {
    var more := services + [s];
    assert more[|services|] == s;
    assert forall k :: 0 <= k < |services| ==> more[k] == services[k];
  }

  lemma SlugWeakOrder(cs: seq<Service>)
    ensures WeakOrderOn(cs, SlugBefore)
  {
    forall x, y | x in cs && y in cs && SlugBefore(x, y) ensures !SlugBefore(y, x) {
      StringLessTrichotomy(x.slug, y.slug);
    }
    forall x, y, z | x in cs && y in cs && z in cs && !SlugBefore(x, y) && !SlugBefore(y, z)
      ensures !SlugBefore(x, z)
    {
      StringLessTrichotomy(x.slug, y.slug);
      StringLessTrichotomy(y.slug, z.slug);
      StringLessTrichotomy(x.slug, z.slug);
      if StringLess(y.slug, x.slug) && StringLess(z.slug, y.slug) {
        StringLessTransitive(z.slug, y.slug, x.slug);
      }
    }
  }

  method NodeConfigFor(inp: Input, nt: map<string, NodeInput>, all: seq<Service>, n: NodeInput,
                       allow: map<string, seq<Entry>>, ports: map<string, set<int>>)
    returns (c: NodeConfig)
    requires n.role == ROLE_INGRESS || n.role == ROLE_EGRESS
    requires Collected(nt, inp.services, allow, ports)
    ensures ConfigFor(inp, nt, all, n, c)
  {
    var notes: seq<string> := [];
    c := NodeConfig(1, inp.revisionId, inp.sequence, n.id, n.name, n.role,
                    [], NO_DNS, NO_INGRESS, NO_EGRESS, inp.logLevel, []);
    if n.role == ROLE_INGRESS {
      var services := ServicesForIngress(all, n.id, inp.services);
      c := c.(services := services, dns := inp.dns, ingress := inp.ingress);
      if c.dns.publishAAAA && n.publicIPv6 == "" {
        c := c.(dns := c.dns.(publishAAAA := false));
        notes := notes + [AAAA_NOTE];
      }
    } else {
      var entries := Merge(EntriesAt(allow, n.id), []);
      var ps := SortedPorts(PortsAt(ports, n.id));
      c := c.(egress := inp.egressTuning.(allow := SetOf(entries), allowedPorts := ps, allowPrivate := inp.labMode));
      assert forall e :: e in entries <==> MayReach(nt, inp.services, n.id, e);
      assert EgressFor(inp, nt, n.id, c.egress);
    }
    if inp.labMode { notes := notes + [LAB_NOTE]; }
    c := c.(notes := notes);
  }

  /** `configs` holds the right configuration for every node of a list. */
  ghost predicate ConfigsFor(inp: Input, nt: map<string, NodeInput>, all: seq<Service>,
                             table: map<string, NodeInput>, configs: Configs)
  {
    && configs.Keys == table.Keys
    && forall id :: id in table ==> ConfigFor(inp, nt, all, table[id], configs[id])
  }

  predicate KnownRole(n: NodeInput) {
    n.role == ROLE_INGRESS || n.role == ROLE_EGRESS
  }

  method CompileNodes(inp: Input, nt: map<string, NodeInput>, all: seq<Service>,
                      allow: map<string, seq<Entry>>, ports: map<string, set<int>>)
    returns (r: Result<Configs, CompileError>)
    requires Collected(nt, inp.services, allow, ports)
    ensures r.Ok? <==> forall k :: 0 <= k < |inp.nodes| ==> KnownRole(inp.nodes[k])
    ensures r.Ok? ==> ConfigsFor(inp, nt, all, NodeTable(inp.nodes), r.value)
    ensures r.Err? ==> r.error.UnknownRole?
  {
    var configs: Configs := map[];
    for i := 0 to |inp.nodes|
      invariant ConfigsFor(inp, nt, all, NodeTable(inp.nodes[..i]), configs)
      invariant forall k :: 0 <= k < i ==> KnownRole(inp.nodes[k])
    {
      var n := inp.nodes[i];
      if !KnownRole(n) { return Err(UnknownRole(n.name, n.role)); }
      var c := NodeConfigFor(inp, nt, all, n, allow, ports);
      configs := configs[n.id := c];
      assert inp.nodes[..i + 1][..i] == inp.nodes[..i];
    }
    assert inp.nodes[..|inp.nodes|] == inp.nodes;
    r := Ok(configs);
  }

  method BuildNodeTable(nodes: seq<NodeInput>) returns (nt: map<string, NodeInput>)
    ensures nt == NodeTable(nodes)
  {
    nt := map[];
    for i := 0 to |nodes|
      invariant nt == NodeTable(nodes[..i])
    {
      assert nodes[..i + 1][..i] == nodes[..i];
      nt := nt[nodes[i].id := nodes[i]];
    }
    assert nodes[..|nodes|] == nodes;
  }

  /** Succeeds exactly on compilable inputs, with a configuration for every node id. */
  method Compile(inp: Input) returns (r: Result<Configs, CompileError>)
    ensures r.Ok? <==> Compilable(inp)
    ensures r.Ok? ==> IsCompiled(inp, r.value)
    ensures r.Err? && r.error.NoUsableEgress? ==>
              exists k :: 0 <= k < |inp.services| && FirstStranded(NodeTable(inp.nodes), inp.services, k)
                          && r.error.slug == inp.services[k].slug
  {
    if inp.revisionId == "" { return Err(MissingRevision); }
    var nt := BuildNodeTable(inp.nodes);
    NodeTableRows(inp.nodes);
    var conflicts := DetectConflicts(inp.services);
    if conflicts != [] { return Err(RuleConflict(conflicts)); }
    var compiled, allow, ports := CompileServices(nt, inp.services);
    if compiled.Err? { return Err(compiled.error); }
    var all := Sort(compiled.value, SlugBefore);
    SlugWeakOrder(compiled.value);
    SortIsSortOf(compiled.value, SlugBefore);
    r := CompileNodes(inp, nt, all, allow, ports);
  }
}
