/** What a compiled configuration holds, in terms of the input alone. */
module CompiledMeaning {
  import opened Collections
  import opened DomainSet
  import opened RuleList
  import opened Model
  import opened Conflicts
  import opened Compiler
  import opened Ownership
  import opened Determinism
  import opened SourceOfTruth

  // ----- the registered nodes -----

  /** `n` is a registered node: the last row with its id. */
  ghost predicate Registered(nodes: seq<NodeInput>, n: NodeInput) {
    exists k :: 0 <= k < |nodes| && nodes[k] == n && forall j :: k < j < |nodes| ==> nodes[j].id != n.id
  }

  /** The table holds exactly the registered nodes. */
  ghost predicate TableTells(nodes: seq<NodeInput>, nt: map<string, NodeInput>) {
    && (forall id :: id in nt ==> nt[id].id == id)
    && (forall n :: Registered(nodes, n) <==> n.id in nt && nt[n.id] == n)
  }

  lemma {:induction false} NodeTableMeaning(nodes: seq<NodeInput>)
    ensures TableTells(nodes, NodeTable(nodes))
  {
    if nodes != [] {
      var front, last := nodes[..|nodes| - 1], nodes[|nodes| - 1];
      NodeTableMeaning(front);
      assert nodes == front + [last];
      TableStep(front, last, NodeTable(front));
    }
  }

  lemma TableStep(front: seq<NodeInput>, last: NodeInput, nt: map<string, NodeInput>)
    requires TableTells(front, nt)
    ensures TableTells(front + [last], nt[last.id := last])
  {
    var nodes, table := front + [last], nt[last.id := last];
    hide Registered;
    forall n ensures Registered(nodes, n) <==> n.id in table && table[n.id] == n {
      RegisteredStep(front, last, n);
    }
  }

  lemma RegisteredStep(front: seq<NodeInput>, last: NodeInput, n: NodeInput)
    ensures Registered(front + [last], n) <==> n == last || (n.id != last.id && Registered(front, n))
  {
    var nodes := front + [last];
    if Registered(nodes, n) {
      var k :| 0 <= k < |nodes| && nodes[k] == n && forall j :: k < j < |nodes| ==> nodes[j].id != n.id;
      if k < |front| {
        assert nodes[|front|] == last;
        assert front[k] == n && forall j :: k < j < |front| ==> front[j].id != n.id by {
          forall j | k < j < |front| ensures front[j].id != n.id { assert nodes[j] == front[j]; }
        }
      }
    }
    if n == last { assert nodes[|front|] == n; }
    if n.id != last.id && Registered(front, n) {
      var k :| 0 <= k < |front| && front[k] == n && forall j :: k < j < |front| ==> front[j].id != n.id;
      assert nodes[k] == n;
      forall j | k < j < |nodes| ensures nodes[j].id != n.id {
        if j < |front| { assert nodes[j] == front[j]; }
      }
    }
  }

  // ----- one compiled service -----

  /** The node behind a member: registered under the member's id, eligible, and with a way to reach its relay. */
  ghost predicate Serves(nodes: seq<NodeInput>, m: EgressMember, n: NodeInput) {
    Registered(nodes, n) && n.id == m.nodeId && n.eligible && (n.relayEndpoint != "" || n.publicIPv4 != "")
  }

  /** The target a member becomes. */
  ghost predicate TargetTells(m: EgressMember, n: NodeInput, t: EgressTarget) {
    && t.nodeId == n.id && t.name == n.name && t.priority == m.priority && t.weight == m.weight
    && t.endpoint == (if n.relayEndpoint != "" then n.relayEndpoint else n.publicIPv4 + ":8443")
    && t.sni == (if n.relaySNI != "" then n.relaySNI else n.name)
  }

  ghost predicate Served(nodes: seq<NodeInput>, m: EgressMember) {
    exists n :: Serves(nodes, m, n)
  }

  ghost predicate TargetFrom(nodes: seq<NodeInput>, m: EgressMember, t: EgressTarget) {
    exists n :: Serves(nodes, m, n) && TargetTells(m, n, t)
  }

  /**
   * `src` says which member each target comes from: every member with a serving node once,
   * by ascending priority, and in the order of the list where priorities are equal.
   */
  ghost predicate TargetsFrom(nodes: seq<NodeInput>, ms: seq<EgressMember>, ts: seq<EgressTarget>, src: seq<nat>) {
    && |src| == |ts| && Distinct(src)
    && (forall k: nat :: k in src <==> k < |ms| && Served(nodes, ms[k]))
    && (forall i :: 0 <= i < |ts| ==> src[i] < |ms| && TargetFrom(nodes, ms[src[i]], ts[i]))
    && (forall i, j :: 0 <= i < j < |ts| ==>
          ts[i].priority < ts[j].priority || (ts[i].priority == ts[j].priority && src[i] < src[j]))
  }

  /** The listed ingress node is registered, eligible, and has this public address. */
  ghost predicate Publishes(nodes: seq<NodeInput>, id: string, v6: bool, a: string) {
    a != "" && exists n :: Registered(nodes, n) && n.id == id && n.eligible && a == if v6 then n.publicIPv6 else n.publicIPv4
  }

  ghost predicate Published(nodes: seq<NodeInput>, id: string, v6: bool) {
    exists a :: Publishes(nodes, id, v6, a)
  }

  /** `src` says which listed node each address comes from: every node with an address once, addresses sorted. */
  ghost predicate AddressesFrom(nodes: seq<NodeInput>, ids: seq<string>, v6: bool, addresses: seq<string>, src: seq<nat>) {
    && |src| == |addresses| && Distinct(src)
    && (forall k: nat :: k in src <==> k < |ids| && Published(nodes, ids[k], v6))
    && (forall i :: 0 <= i < |addresses| ==> src[i] < |ids| && Publishes(nodes, ids[src[i]], v6, addresses[i]))
    && (forall i, j :: 0 <= i < j < |addresses| ==> !StringLess(addresses[j], addresses[i]))
  }

  /** What the artifact says of a service itself. */
  ghost predicate PlainTells(s: ServiceInput, c: Service) {
    && c.slug == s.slug && c.name == s.name && c.priority == s.priority && c.ruleSetHash == s.ruleSetHash
    && 30 <= c.ttl <= 300
    && (s.ttl < 30 ==> c.ttl == 30) && (30 <= s.ttl <= 300 ==> c.ttl == s.ttl) && (300 < s.ttl ==> c.ttl == 300)
    && multiset(c.allowedPorts) == (if s.allowedPorts == [] then multiset{443} else multiset(s.allowedPorts))
    && (forall i, j :: 0 <= i < j < |c.allowedPorts| ==> c.allowedPorts[i] <= c.allowedPorts[j])
    && c.udpMode == (if s.udpMode == "" then "disabled_fallback" else s.udpMode)
    && (forall v :: v in c.rules.exact <==> Entry("exact", v) in s.entries)
    && (forall v :: v in c.rules.suffix <==> Entry("suffix", v) in s.entries)
    && (forall v :: v in c.rules.regex <==> Entry("regex", v) in s.entries)
  }

  /** What the artifact says of the way a service's traffic leaves, apart from the targets. */
  ghost predicate PolicyTells(s: ServiceInput, p: EgressPolicy) {
    && p.mode == (if s.egressMode == "" then "primary_fallback" else s.egressMode)
    && p.failThreshold == (if s.policy.failThreshold == 0 then 3 else s.policy.failThreshold)
    && p.riseThreshold == (if s.policy.riseThreshold == 0 then 2 else s.policy.riseThreshold)
    && p.probeInterval == (if s.policy.probeInterval == 0 then 30 else s.policy.probeInterval)
    && p.hysteresisPct == s.policy.hysteresisPct && p.hysteresisMs == s.policy.hysteresisMs
  }

  /** A row of a configuration, from the service and the nodes of the input. */
  ghost predicate RowTells(nodes: seq<NodeInput>, s: ServiceInput, c: Service) {
    && PlainTells(s, c)
    && PolicyTells(s, c.egress)
    && (exists src: seq<nat> :: TargetsFrom(nodes, s.egressMembers, c.egress.targets, src))
    && (exists src: seq<nat> :: AddressesFrom(nodes, s.ingressNodes, false, c.ingressV4, src))
    && (exists src: seq<nat> :: AddressesFrom(nodes, s.ingressNodes, true, c.ingressV6, src))
  }

  lemma PortsMeaning(ps: seq<int>)
    ensures multiset(PortsOrDefault(ps)) == (if ps == [] then multiset{443} else multiset(ps))
    ensures forall i, j :: 0 <= i < j < |PortsOrDefault(ps)| ==> PortsOrDefault(ps)[i] <= PortsOrDefault(ps)[j]
    ensures forall p :: p in PortsOrDefault(ps) <==> p in ps || (ps == [] && p == 443)
  {
    if ps != [] {
      SortIsSortOf(ps, IntLess());
      SortMultiset(ps, IntLess());
      var sorted := Sort(ps, IntLess());
      forall i, j | 0 <= i < j < |sorted| ensures sorted[i] <= sorted[j] {
        assert !IntLess()(sorted[j], sorted[i]);
      }
    }
  }

  lemma PlainMeaning(nt: map<string, NodeInput>, s: ServiceInput)
    ensures PlainTells(s, CompiledService(nt, s)) && PolicyTells(s, CompiledService(nt, s).egress)
  {
    PortsMeaning(s.allowedPorts);
    forall v ensures v in SetOf(s.entries).exact <==> Entry("exact", v) in s.entries { ValuesOfMembers(s.entries, KIND_EXACT, v); }
    forall v ensures v in SetOf(s.entries).suffix <==> Entry("suffix", v) in s.entries { ValuesOfMembers(s.entries, KIND_SUFFIX, v); }
    forall v ensures v in SetOf(s.entries).regex <==> Entry("regex", v) in s.entries { ValuesOfMembers(s.entries, KIND_REGEX, v); }
    hide ValuesOf, PortsOrDefault, Sort, TargetList, AddressList;
  }

  // ----- which element of a list each part comes from -----

  ghost predicate Ascends(q: seq<nat>) {
    forall i, j :: 0 <= i < j < |q| ==> q[i] < q[j]
  }

  ghost predicate TargetsAt(nt: map<string, NodeInput>, ms: seq<EgressMember>, list: seq<EgressTarget>, q: seq<nat>) {
    && |q| == |list| && Ascends(q)
    && (forall k: nat :: k in q <==> k < |ms| && Usable(nt, ms[k]))
    && (forall i :: 0 <= i < |q| ==>
          q[i] < |ms| && Usable(nt, ms[q[i]]) && list[i] == TargetOf(nt[ms[q[i]].nodeId], ms[q[i]]))
  }

  lemma {:induction false} TargetPositions(nt: map<string, NodeInput>, ms: seq<EgressMember>) returns (q: seq<nat>)
    ensures TargetsAt(nt, ms, TargetList(nt, ms), q)
  {
    q := [];
    if ms != [] {
      var n := |ms| - 1;
      q := TargetPositions(nt, ms[..n]);
      TargetNext(nt, ms, TargetList(nt, ms[..n]), q);
      hide Usable, TargetOf, TargetsAt;
      if Usable(nt, ms[n]) { q := q + [n]; }
    }
  }

  lemma TargetNext(nt: map<string, NodeInput>, ms: seq<EgressMember>, list: seq<EgressTarget>, q: seq<nat>)
    requires ms != [] && TargetsAt(nt, ms[..|ms| - 1], list, q)
    ensures var n := |ms| - 1;
            if Usable(nt, ms[n]) then TargetsAt(nt, ms, list + [TargetOf(nt[ms[n].nodeId], ms[n])], q + [n])
            else TargetsAt(nt, ms, list, q)
  {
    var n := |ms| - 1;
    assert forall k: nat :: k < n ==> ms[..n][k] == ms[k];
    assert forall k :: 0 <= k < |ms| && Usable(nt, ms[k]) ==> ms[k].nodeId in nt;
    hide Usable, TargetOf;
    assert forall i :: 0 <= i < |q| ==> q[i] < n;
  }

  predicate HasAddressOf(nt: map<string, NodeInput>, id: string, address: NodeInput -> string) {
    id in nt && nt[id].eligible && address(nt[id]) != ""
  }

  ghost predicate AddressesAt(nt: map<string, NodeInput>, ids: seq<string>, address: NodeInput -> string,
                              list: seq<string>, q: seq<nat>)
  {
    && |q| == |list| && Ascends(q)
    && (forall k: nat :: k in q <==> k < |ids| && HasAddressOf(nt, ids[k], address))
    && (forall i :: 0 <= i < |q| ==>
          q[i] < |ids| && HasAddressOf(nt, ids[q[i]], address) && list[i] == address(nt[ids[q[i]]]))
  }

  lemma {:induction false} AddressPositions(nt: map<string, NodeInput>, ids: seq<string>, address: NodeInput -> string)
    returns (q: seq<nat>)
    ensures AddressesAt(nt, ids, address, AddressList(nt, ids, address), q)
  {
    q := [];
    if ids != [] {
      var n := |ids| - 1;
      q := AddressPositions(nt, ids[..n], address);
      AddressStep(nt, ids, address);
      AddressNext(nt, ids, address, AddressList(nt, ids[..n], address), q);
      hide HasAddressOf, AddressList, AddressesAt;
      if HasAddressOf(nt, ids[n], address) { q := q + [n]; }
    }
  }

  lemma AddressNext(nt: map<string, NodeInput>, ids: seq<string>, address: NodeInput -> string,
                    list: seq<string>, q: seq<nat>)
    requires ids != [] && AddressesAt(nt, ids[..|ids| - 1], address, list, q)
    ensures var n := |ids| - 1;
            if HasAddressOf(nt, ids[n], address) then AddressesAt(nt, ids, address, list + [address(nt[ids[n]])], q + [n])
            else AddressesAt(nt, ids, address, list, q)
  {
    var n := |ids| - 1;
    assert forall k: nat :: k < n ==> ids[..n][k] == ids[k];
    assert HasAddressOf(nt, ids[n], address) ==> ids[n] in nt;
    hide HasAddressOf;
    assert forall i :: 0 <= i < |q| ==> q[i] < n;
  }

  lemma AddressStep(nt: map<string, NodeInput>, ids: seq<string>, address: NodeInput -> string)
    requires ids != []
    ensures AddressList(nt, ids, address) == AddressList(nt, ids[..|ids| - 1], address) +
              if HasAddressOf(nt, ids[|ids| - 1], address) then [address(nt[ids[|ids| - 1]])] else []
  {
  }

  /** `ys` rearranges `xs`, each element with its position: `q` gives those of `xs` and `src` those of `ys`. */
  ghost predicate Rearranges<T>(xs: seq<T>, q: seq<nat>, ys: seq<T>, src: seq<nat>) {
    && |q| == |xs| && |src| == |ys| && Distinct(src)
    && (forall k: nat :: k in src <==> k in q)
    && (forall i :: 0 <= i < |src| ==> exists m :: 0 <= m < |q| && q[m] == src[i] && xs[m] == ys[i])
  }

  /** Sorting a list drawn from ascending positions. */
  lemma SortDrawn<T>(xs: seq<T>, q: seq<nat>, less: (T, T) -> bool) returns (src: seq<nat>, ys: seq<T>)
    requires WeakOrderOn(xs, less) && |q| == |xs| && Ascends(q)
    ensures ys == Sort(xs, less) && Rearranges(xs, q, ys, src)
    ensures forall i, j :: 0 <= i < j < |ys| ==> !less(ys[j], ys[i]) && (less(ys[i], ys[j]) || src[i] < src[j])
  {
    var p := SortPositions(xs, less);
    ys := Sort(xs, less);
    hide Sort, WeakOrderOn;
    src := seq(|p|, i requires 0 <= i < |p| => q[p[i]]);
    forall k: nat ensures k in src <==> k in q {
      if k in q {
        var m :| 0 <= m < |q| && q[m] == k;
        assert m in p;
        var i :| 0 <= i < |p| && p[i] == m;
        assert src[i] == k;
      }
    }
    forall i | 0 <= i < |src| ensures exists m :: 0 <= m < |q| && q[m] == src[i] && xs[m] == ys[i] {
      assert q[p[i]] == src[i];
    }
  }

  lemma TargetsDrawn(nodes: seq<NodeInput>, nt: map<string, NodeInput>, ms: seq<EgressMember>,
                     list: seq<EgressTarget>, q: seq<nat>, ts: seq<EgressTarget>, src: seq<nat>)
    requires TableTells(nodes, nt) && Rearranges(list, q, ts, src)
    requires TargetsAt(nt, ms, list, q)
    requires forall i, j :: 0 <= i < j < |ts| ==>
               !TargetBefore(ts[j], ts[i]) && (TargetBefore(ts[i], ts[j]) || src[i] < src[j])
    ensures TargetsFrom(nodes, ms, ts, src)
  {
    forall k: nat | k < |ms|
      ensures Usable(nt, ms[k]) <==> Served(nodes, ms[k])
      ensures Usable(nt, ms[k]) ==> TargetFrom(nodes, ms[k], TargetOf(nt[ms[k].nodeId], ms[k])) {
      UsableServes(nodes, nt, ms[k]);
    }
    assert forall i, j :: 0 <= i < j < |ts| ==>
      ts[i].priority < ts[j].priority || (ts[i].priority == ts[j].priority && src[i] < src[j]);
    hide Usable, Served, TargetFrom, TargetOf, TableTells, TargetBefore;
    forall i | 0 <= i < |ts| ensures src[i] < |ms| && TargetFrom(nodes, ms[src[i]], ts[i]) {
      var m :| 0 <= m < |q| && q[m] == src[i] && list[m] == ts[i];
    }
  }

  lemma CompiledTargetsFrom(nodes: seq<NodeInput>, s: ServiceInput) returns (src: seq<nat>)
    ensures TargetsFrom(nodes, s.egressMembers, CompiledService(NodeTable(nodes), s).egress.targets, src)
  {
    var nt, ms := NodeTable(nodes), s.egressMembers;
    NodeTableMeaning(nodes);
    var list := TargetList(nt, ms);
    var q := TargetPositions(nt, ms);
    var ts;
    src, ts := SortDrawn(list, q, TargetBefore);
    assert CompiledService(nt, s).egress.targets == ts by { hide Sort, AddressList, SetOf, TargetList; }
    TargetsDrawn(nodes, nt, ms, list, q, ts, src);
  }

  lemma UsableServes(nodes: seq<NodeInput>, nt: map<string, NodeInput>, m: EgressMember)
    requires TableTells(nodes, nt)
    ensures Usable(nt, m) <==> Served(nodes, m)
    ensures Usable(nt, m) ==> Serves(nodes, m, nt[m.nodeId]) && TargetFrom(nodes, m, TargetOf(nt[m.nodeId], m))
  {
    hide Registered;
    if Usable(nt, m) {
      var n := nt[m.nodeId];
      assert Registered(nodes, n);
      assert |n.publicIPv4 + ":8443"| > 0;
      assert Serves(nodes, m, n);
      assert Endpoint(n) == if n.relayEndpoint != "" then n.relayEndpoint else n.publicIPv4 + ":8443";
      assert TargetTells(m, n, TargetOf(n, m));
    }
    if n :| Serves(nodes, m, n) {
      assert nt[n.id] == n;
      assert |n.publicIPv4 + ":8443"| > 0;
    }
  }

  function AddressOf(v6: bool): NodeInput -> string {
    if v6 then V6() else V4()
  }

  lemma AddressesDrawn(nodes: seq<NodeInput>, nt: map<string, NodeInput>, ids: seq<string>, v6: bool,
                       list: seq<string>, q: seq<nat>, addresses: seq<string>, src: seq<nat>)
    requires TableTells(nodes, nt) && AddressesAt(nt, ids, AddressOf(v6), list, q)
    requires Rearranges(list, q, addresses, src)
    requires forall i, j :: 0 <= i < j < |addresses| ==> !StringLess(addresses[j], addresses[i])
    ensures AddressesFrom(nodes, ids, v6, addresses, src)
  {
    forall k: nat | k < |ids|
      ensures HasAddressOf(nt, ids[k], AddressOf(v6)) <==> Published(nodes, ids[k], v6)
      ensures HasAddressOf(nt, ids[k], AddressOf(v6)) ==> Publishes(nodes, ids[k], v6, AddressOf(v6)(nt[ids[k]])) {
      AddressPublished(nodes, nt, ids[k], v6);
    }
    hide TableTells, HasAddressOf, Publishes, Published, AddressOf, StringLess;
    forall i | 0 <= i < |addresses| ensures src[i] < |ids| && Publishes(nodes, ids[src[i]], v6, addresses[i]) {
      var m :| 0 <= m < |q| && q[m] == src[i] && list[m] == addresses[i];
    }
  }

  lemma CompiledAddressesFrom(nodes: seq<NodeInput>, ids: seq<string>, v6: bool) returns (src: seq<nat>)
    ensures AddressesFrom(nodes, ids, v6, Sort(AddressList(NodeTable(nodes), ids, AddressOf(v6)), StringLess), src)
  {
    var nt := NodeTable(nodes);
    NodeTableMeaning(nodes);
    var list := AddressList(nt, ids, AddressOf(v6));
    var q := AddressPositions(nt, ids, AddressOf(v6));
    StringWeakOrder(list);
    hide Sort, AddressList, NodeTable, StringLess, WeakOrderOn, TableTells, AddressOf;
    var addresses;
    src, addresses := SortDrawn(list, q, StringLess);
    hide AddressesAt, Ascends, Rearranges;
    AddressesDrawn(nodes, nt, ids, v6, list, q, addresses, src);
  }

  lemma AddressPublished(nodes: seq<NodeInput>, nt: map<string, NodeInput>, id: string, v6: bool)
    requires TableTells(nodes, nt)
    ensures HasAddressOf(nt, id, AddressOf(v6)) <==> Published(nodes, id, v6)
    ensures HasAddressOf(nt, id, AddressOf(v6)) ==> Publishes(nodes, id, v6, AddressOf(v6)(nt[id]))
  {
    hide Registered;
    if HasAddressOf(nt, id, AddressOf(v6)) {
      assert Registered(nodes, nt[id]);
      assert Publishes(nodes, id, v6, AddressOf(v6)(nt[id]));
    }
  }

  lemma StringWeakOrder(xs: seq<string>)
    ensures WeakOrderOn(xs, StringLess)
  {
    hide StringLess;
    forall x, y {:trigger StringLess(x, y)} | x in xs && y in xs ensures StringLess(x, y) ==> !StringLess(y, x) {
      StringLessTrichotomy(x, y);
    }
    forall x, y, z {:trigger StringLess(x, y), StringLess(y, z)} | x in xs && y in xs && z in xs
      ensures !StringLess(x, y) && !StringLess(y, z) ==> !StringLess(x, z) {
      StringLessTrichotomy(x, y);
      StringLessTrichotomy(y, z);
      StringLessTrichotomy(x, z);
      if StringLess(y, x) && StringLess(z, y) { StringLessTransitive(z, y, x); }
    }
  }

  lemma ServiceMeaning(nodes: seq<NodeInput>, s: ServiceInput)
    ensures RowTells(nodes, s, CompiledService(NodeTable(nodes), s))
  {
    var nt := NodeTable(nodes);
    PlainMeaning(nt, s);
    var ts := CompiledTargetsFrom(nodes, s);
    var a := CompiledAddressesFrom(nodes, s.ingressNodes, false);
    var b := CompiledAddressesFrom(nodes, s.ingressNodes, true);
    hide PlainTells, PolicyTells, TargetsFrom, AddressesFrom, Sort, AddressList, TargetList, SetOf, NodeTable;
  }

  // ----- one configuration -----

  /** What a configuration says of its node, apart from the rows and the allowlist. */
  ghost predicate FrameTells(inp: Input, n: NodeInput, c: NodeConfig) {
    && c.schemaVersion == 1 && c.revisionId == inp.revisionId && c.sequence == inp.sequence
    && c.nodeId == n.id && c.nodeName == n.name && c.role == n.role && c.logLevel == inp.logLevel
    && (c.role == "ingress" || c.role == "egress")
    && c.notes == (if n.role == "ingress" && inp.dns.publishAAAA && n.publicIPv6 == "" then [AAAA_NOTE] else []) +
                  (if inp.labMode then [LAB_NOTE] else [])
    && (c.role == "ingress" ==>
          && c.ingress == inp.ingress && c.egress == NO_EGRESS
          && (c.dns.publishAAAA <==> inp.dns.publishAAAA && n.publicIPv6 != "")
          && c.dns.rateLimitQps == inp.dns.rateLimitQps && c.dns.rateLimitBurst == inp.dns.rateLimitBurst)
    && (c.role == "egress" ==>
          && c.services == [] && c.dns == NO_DNS && c.ingress == NO_INGRESS
          && c.egress.resolver == inp.egressTuning.resolver && c.egress.maxSessions == inp.egressTuning.maxSessions
          && c.egress.allowPrivate == inp.labMode)
  }

  /** One configuration for every registered node, with its node's particulars. */
  lemma ConfigMeaning(inp: Input, configs: Configs, id: string)
    requires IsCompiled(inp, configs)
    ensures id in configs <==> exists n :: Registered(inp.nodes, n) && n.id == id
    ensures forall n :: Registered(inp.nodes, n) && n.id == id ==> FrameTells(inp, n, configs[id])
  {
    var nt := NodeTable(inp.nodes);
    NodeTableMeaning(inp.nodes);
    var all := CompiledList(inp, configs);
    if id in nt {
      assert ConfigFor(inp, nt, all, nt[id], configs[id]);
      assert Registered(inp.nodes, nt[id]);
      assert ROLE_INGRESS[0] != ROLE_EGRESS[0];
    }
    hide IsCompiled, SortOf, Registered, CompiledServices, Filter, NodeTable;
  }

  /** The service has a member whose serving node is this one. */
  ghost predicate SendsTo(nodes: seq<NodeInput>, s: ServiceInput, id: string) {
    exists k, n :: 0 <= k < |s.egressMembers| && Serves(nodes, s.egressMembers[k], n) && n.id == id
  }

  lemma TargetsMeaning(nodes: seq<NodeInput>, s: ServiceInput, id: string)
    ensures Targets(NodeTable(nodes), s, id) <==> SendsTo(nodes, s, id)
  {
    var nt := NodeTable(nodes);
    NodeTableMeaning(nodes);
    hide NodeTable;
    forall k | 0 <= k < |s.egressMembers|
      ensures s.egressMembers[k].nodeId == id && Usable(nt, s.egressMembers[k]) <==>
              exists n :: Serves(nodes, s.egressMembers[k], n) && n.id == id {
      UsableServes(nodes, nt, s.egressMembers[k]);
    }
    hide Usable, TableTells, Registered;
    if Targets(nt, s, id) {
      var k :| 0 <= k < |s.egressMembers| && s.egressMembers[k].nodeId == id && Usable(nt, s.egressMembers[k]);
      var n :| Serves(nodes, s.egressMembers[k], n) && n.id == id;
    }
    if SendsTo(nodes, s, id) {
      var k, n :| 0 <= k < |s.egressMembers| && Serves(nodes, s.egressMembers[k], n) && n.id == id;
    }
  }

  /** The port is one the service lists, or 443 when it lists none. */
  ghost predicate Opens(s: ServiceInput, p: int) {
    p in s.allowedPorts || (s.allowedPorts == [] && p == 443)
  }

  /**
   * The allowlist of an egress node: it covers a host exactly when the rules of some service
   * that sends to the node do, and its ports are those such services open, ascending, each once.
   */
  lemma AllowlistMeaning(re: RegexEngine, inp: Input, configs: Configs, id: string, host: string)
    requires IsCompiled(inp, configs) && id in configs && configs[id].role == "egress"
    ensures MatcherCovers(re, MatcherOf(re, configs[id].egress.allow), host) <==>
            exists k :: 0 <= k < |inp.services| && SendsTo(inp.nodes, inp.services[k], id) && Covers(re, inp.services[k].entries, host)
    ensures forall p :: p in configs[id].egress.allowedPorts <==>
            exists k :: 0 <= k < |inp.services| && SendsTo(inp.nodes, inp.services[k], id) && Opens(inp.services[k], p)
    ensures forall i, j :: 0 <= i < j < |configs[id].egress.allowedPorts| ==>
              configs[id].egress.allowedPorts[i] < configs[id].egress.allowedPorts[j]
  {
    ConfigShape(inp, configs, id);
    AllowlistCovers(re, inp, id, configs[id].egress, host);
    AllowedPortsMeaning(inp, id, configs[id].egress);
    forall k | 0 <= k < |inp.services|
      ensures Targets(NodeTable(inp.nodes), inp.services[k], id) <==> SendsTo(inp.nodes, inp.services[k], id)
      ensures forall p :: p in PortsOrDefault(inp.services[k].allowedPorts) <==> Opens(inp.services[k], p) {
      TargetsMeaning(inp.nodes, inp.services[k], id);
      PortsMeaning(inp.services[k].allowedPorts);
    }
    hide Targets, SendsTo, Covers, MatcherCovers, IsCompiled, NodeTable, PortsOrDefault, Opens;
  }

  // ----- what compiles -----

  /** How often services of the given priority list the rule. */
  function ListedAt(services: seq<ServiceInput>, e: Entry, priority: int): nat {
    if services == [] then 0
    else
      var n := |services| - 1;
      ListedAt(services[..n], e, priority) +
      (if services[n].priority == priority then multiset(services[n].entries)[e] else 0)
  }

  /** The rule is listed twice at a priority no service listing it exceeds. */
  ghost predicate Contested(services: seq<ServiceInput>, e: Entry) {
    exists p :: ListedAt(services, e, p) >= 2 &&
      forall k :: 0 <= k < |services| && e in services[k].entries ==> services[k].priority <= p
  }

  lemma {:induction false} ServicePriorities(cs: seq<Claim>, o: Owner, e: Entry, entries: seq<Entry>)
    requires |cs| == |entries| && forall k :: 0 <= k < |cs| ==> cs[k] == Claim(entries[k], o)
    ensures forall p :: multiset(Priorities(OwnersOf(cs, e)))[p] == if p == o.priority then multiset(entries)[e] else 0
  {
    if cs != [] {
      var n := |cs| - 1;
      ServicePriorities(cs[..n], o, e, entries[..n]);
      assert entries == entries[..n] + [entries[n]];
      PrioritiesConcat(OwnersOf(cs[..n], e), if entries[n] == e then [o] else []);
      assert Priorities([o]) == [o.priority] && Priorities([]) == [];
    }
  }

  lemma {:induction false} ListedIsClaimed(services: seq<ServiceInput>, e: Entry, p: int)
    ensures multiset(Priorities(OwnersOf(ClaimsOf(services), e)))[p] == ListedAt(services, e, p)
  {
    if services != [] {
      var n := |services| - 1;
      var s := services[n];
      ListedIsClaimed(services[..n], e, p);
      OwnersConcat(ClaimsOf(services[..n]), ServiceClaims(s), e);
      PrioritiesConcat(OwnersOf(ClaimsOf(services[..n]), e), OwnersOf(ServiceClaims(s), e));
      ServicePriorities(ServiceClaims(s), Owner(s.slug, s.priority), e, s.entries);
      hide OwnersOf, Priorities;
    }
  }

  lemma {:induction false} ListedSomewhere(services: seq<ServiceInput>, e: Entry, p: int)
    ensures ListedAt(services, e, p) > 0 <==>
            exists k :: 0 <= k < |services| && e in services[k].entries && services[k].priority == p
  {
    if services != [] {
      var n := |services| - 1;
      ListedSomewhere(services[..n], e, p);
      MultisetMember(services[n].entries, e);
      if k :| 0 <= k < n && e in services[..n][k].entries && services[..n][k].priority == p { assert services[k] == services[..n][k]; }
      if k :| 0 <= k < |services| && e in services[k].entries && services[k].priority == p {
        if k < n { assert services[k] == services[..n][k]; }
      }
    }
  }

  lemma ContestedIff(services: seq<ServiceInput>, e: Entry)
    ensures TiedAtTop(OwnersOf(ClaimsOf(services), e)) <==> Contested(services, e)
  {
    var os := OwnersOf(ClaimsOf(services), e);
    var ps := multiset(Priorities(os));
    forall p ensures ps[p] == ListedAt(services, e, p) { ListedIsClaimed(services, e, p); }
    forall p ensures p in ps <==> exists k :: 0 <= k < |services| && e in services[k].entries && services[k].priority == p {
      ListedSomewhere(services, e, p);
    }
    if TiedAtTop(os) { TiedRepeats(os); }
    if TopRepeats(ps) { RepeatsTied(os); }
    hide TiedAtTop, Priorities, OwnersOf, ClaimsOf, ListedAt;
    if p :| ps[p] >= 2 && forall q :: q in ps ==> q <= p {
      forall k | 0 <= k < |services| && e in services[k].entries ensures services[k].priority <= p {
        assert services[k].priority in ps;
      }
      assert ListedAt(services, e, p) >= 2;
    }
    if p :| ListedAt(services, e, p) >= 2 && forall k :: 0 <= k < |services| && e in services[k].entries ==> services[k].priority <= p {
      assert ps[p] >= 2;
    }
  }

  /** Some member of the service has a serving node. */
  ghost predicate Sends(nodes: seq<NodeInput>, s: ServiceInput) {
    exists id :: SendsTo(nodes, s, id)
  }

  lemma HasTargetMeaning(nodes: seq<NodeInput>, s: ServiceInput)
    ensures HasTarget(NodeTable(nodes), s) <==> Sends(nodes, s)
  {
    forall id ensures Targets(NodeTable(nodes), s, id) <==> SendsTo(nodes, s, id) {
      TargetsMeaning(nodes, s, id);
    }
    hide Targets, SendsTo;
  }

  /**
   * What compiles: a named revision, no rule contested, a serving member in every service,
   * and nodes of known roles only.
   */
  lemma CompilableMeaning(inp: Input)
    ensures Compilable(inp) <==>
            && inp.revisionId != ""
            && (forall e :: !Contested(inp.services, e))
            && (forall k :: 0 <= k < |inp.services| ==> Sends(inp.nodes, inp.services[k]))
            && (forall k :: 0 <= k < |inp.nodes| ==> inp.nodes[k].role == "ingress" || inp.nodes[k].role == "egress")
  {
    forall e ensures TiedAtTop(OwnersOf(ClaimsOf(inp.services), e)) <==> Contested(inp.services, e) {
      ContestedIff(inp.services, e);
    }
    forall k | 0 <= k < |inp.services|
      ensures HasTarget(NodeTable(inp.nodes), inp.services[k]) <==> Sends(inp.nodes, inp.services[k]) {
      HasTargetMeaning(inp.nodes, inp.services[k]);
    }
    assert forall k :: 0 <= k < |inp.nodes| ==>
      (KnownRole(inp.nodes[k]) <==> inp.nodes[k].role == "ingress" || inp.nodes[k].role == "egress");
    hide TiedAtTop, Contested, HasTarget, Sends, OwnersOf, ClaimsOf, NodeTable, KnownRole;
  }

  // ----- what a conflict report says -----

  lemma {:induction false} OwnersOfService(cs: seq<Claim>, o: Owner, entries: seq<Entry>, e: Entry, x: Owner)
    requires |cs| == |entries| && forall k :: 0 <= k < |cs| ==> cs[k] == Claim(entries[k], o)
    ensures x in OwnersOf(cs, e) <==> x == o && e in entries
  {
    if cs != [] {
      var n := |cs| - 1;
      OwnersOfService(cs[..n], o, entries[..n], e, x);
      assert entries == entries[..n] + [entries[n]];
    }
  }

  lemma {:induction false} OwnerSource(services: seq<ServiceInput>, e: Entry, o: Owner)
    ensures o in OwnersOf(ClaimsOf(services), e) <==>
            exists k :: 0 <= k < |services| && services[k].slug == o.slug && services[k].priority == o.priority
                        && e in services[k].entries
  {
    if services != [] {
      var n := |services| - 1;
      var s := services[n];
      OwnerSource(services[..n], e, o);
      OwnersConcat(ClaimsOf(services[..n]), ServiceClaims(s), e);
      OwnersOfService(ServiceClaims(s), Owner(s.slug, s.priority), s.entries, e, o);
      hide OwnersOf, ClaimsOf, ServiceClaims;
      assert forall k :: 0 <= k < n ==> services[..n][k] == services[k];
      if k :| 0 <= k < |services| && services[k].slug == o.slug && services[k].priority == o.priority && e in services[k].entries {
        assert k < n ==> services[..n][k] == services[k];
      }
    }
  }

  lemma {:induction false} AtPriorityCount(os: seq<Owner>, p: int)
    ensures |Filter(os, AtPriority(p))| == multiset(Priorities(os))[p]
  {
    if os != [] {
      var n := |os| - 1;
      AtPriorityCount(os[..n], p);
      assert os == os[..n] + [os[n]];
      PrioritiesConcat(os[..n], [os[n]]);
      assert Priorities([os[n]]) == [os[n].priority];
    }
  }

  /**
   * A conflict names the highest priority at which its rule is listed and, sorted, the slug of
   * every listing at it.
   */
  lemma {:induction false} ConflictMeaning(services: seq<ServiceInput>, c: Conflict)
    requires Tells(c, OwnersOf(ClaimsOf(services), c.entry))
    ensures forall k :: 0 <= k < |services| && c.entry in services[k].entries ==> services[k].priority <= c.priority
    ensures forall slug :: slug in c.services <==>
              exists k :: 0 <= k < |services| && services[k].slug == slug && services[k].priority == c.priority
                          && c.entry in services[k].entries
    ensures |c.services| == ListedAt(services, c.entry, c.priority)
    ensures forall i, j :: 0 <= i < j < |c.services| ==> !StringLess(c.services[j], c.services[i])
  {
    var e, p := c.entry, c.priority;
    var os := OwnersOf(ClaimsOf(services), e);
    forall o ensures o in os <==> exists k :: 0 <= k < |services| && services[k].slug == o.slug
                                              && services[k].priority == o.priority && e in services[k].entries {
      OwnerSource(services, e, o);
    }
    var slugs := SlugsAt(os, p);
    SortMultiset(slugs, StringLess);
    StringWeakOrder(slugs);
    SortSorts(slugs, StringLess);
    AtPriorityCount(os, p);
    ListedIsClaimed(services, e, p);
    forall slug ensures slug in c.services <==> Owner(slug, p) in os { SlugsAtMembers(os, p, slug); }
    hide OwnersOf, ClaimsOf, SlugsAt, Sort, StringLess, ListedAt, WeakOrderOn, Priorities;
    forall k | 0 <= k < |services| && e in services[k].entries ensures services[k].priority <= p {
      assert Owner(services[k].slug, services[k].priority) in os;
    }
  }
}
