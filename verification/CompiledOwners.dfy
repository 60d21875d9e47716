/** Which service a compiled ingress answers with, in terms of the input alone. */
module CompiledOwners {
  import opened Collections
  import opened DomainSet
  import opened Model
  import opened Conflicts
  import opened Compiler
  import opened Routing
  import opened Ownership
  import opened Determinism
  import opened SourceOfTruth
  import opened CompiledMeaning

  // ----- the rows of an ingress node -----

  /** `src` says which service each row comes from: every service listing the node once, by ascending slug. */
  ghost predicate RowsFrom(inp: Input, id: string, rows: seq<Service>, src: seq<nat>) {
    && |src| == |rows| && Distinct(src)
    && (forall k: nat :: k in src <==> k < |inp.services| && id in inp.services[k].ingressNodes)
    && (forall i :: 0 <= i < |rows| ==> src[i] < |inp.services| && RowTells(inp.nodes, inp.services[src[i]], rows[i]))
    && (forall i, j :: 0 <= i < j < |rows| ==> StringLess(rows[i].slug, rows[j].slug))
  }

  /** Row `x` of the node is the compiled form of service `k`, which lists the node. */
  ghost predicate IsRowOf(inp: Input, id: string, x: Service, k: nat) {
    k < |inp.services| && id in inp.services[k].ingressNodes && x == CompiledService(NodeTable(inp.nodes), inp.services[k])
  }

  lemma RowSource(inp: Input, configs: Configs, id: string, x: Service) returns (k: nat)
    requires IsCompiled(inp, configs) && SlugsApart(inp.services)
    requires id in configs && configs[id].role == ROLE_INGRESS && x in configs[id].services
    ensures IsRowOf(inp, id, x, k)
  {
    IngressServices(inp, configs, id);
    hide IsCompiled, Carries, CompiledService, NodeTable;
    k :| k < |inp.services| && Carries(inp, k, id) && x == CompiledService(NodeTable(inp.nodes), inp.services[k]);
    CarriesIffListed(inp, k, id);
  }

  lemma {:induction false} RowSources(inp: Input, configs: Configs, id: string, n: nat) returns (src: seq<nat>)
    requires IsCompiled(inp, configs) && SlugsApart(inp.services)
    requires id in configs && configs[id].role == ROLE_INGRESS && n <= |configs[id].services|
    ensures |src| == n
    ensures forall i :: 0 <= i < n ==> IsRowOf(inp, id, configs[id].services[i], src[i])
  {
    hide IsCompiled, SlugsApart, IsRowOf;
    src := [];
    if n > 0 {
      src := RowSources(inp, configs, id, n - 1);
      var k := RowSource(inp, configs, id, configs[id].services[n - 1]);
      src := src + [k];
    }
  }

  /** An ingress node carries one row for every service that lists it, with that service's particulars. */
  lemma IngressRows(inp: Input, configs: Configs, id: string) returns (src: seq<nat>)
    requires IsCompiled(inp, configs) && SlugsApart(inp.services)
    requires id in configs && configs[id].role == ROLE_INGRESS
    ensures RowsFrom(inp, id, configs[id].services, src)
    ensures forall i :: 0 <= i < |src| ==> configs[id].services[i].rules == SetOf(inp.services[src[i]].entries)
  {
    var rows, nt := configs[id].services, NodeTable(inp.nodes);
    src := RowSources(inp, configs, id, |rows|);
    RowsAscend(inp, configs, id);
    IngressServices(inp, configs, id);
    forall i | 0 <= i < |src|
      ensures RowTells(inp.nodes, inp.services[src[i]], rows[i])
      ensures rows[i].rules == SetOf(inp.services[src[i]].entries) {
      ServiceMeaning(inp.nodes, inp.services[src[i]]);
    }
    hide SlugsApart;
    forall i | 0 <= i < |src|
      ensures src[i] < |inp.services| && id in inp.services[src[i]].ingressNodes
      ensures rows[i] == CompiledService(nt, inp.services[src[i]]) {
      assert IsRowOf(inp, id, rows[i], src[i]);
    }
    forall i, j | 0 <= i < j < |src| ensures src[i] != src[j] {
      StringLessTrichotomy(rows[i].slug, rows[j].slug);
    }
    hide IsCompiled, NodeTable, RowTells, StringLess, CompiledService;
    assert forall i, j :: 0 <= i < j < |src| ==> rows[i] != rows[j];
    forall k: nat ensures k in src <==> k < |inp.services| && id in inp.services[k].ingressNodes {
      if k < |inp.services| && id in inp.services[k].ingressNodes {
        CarriesIffListed(inp, k, id);
        var x := CompiledService(nt, inp.services[k]);
        assert x in rows;
        var i :| 0 <= i < |rows| && rows[i] == x;
        assert inp.services[src[i]].slug == inp.services[k].slug;
        assert src[i] == k;
      }
    }
  }

  // ----- the owner of a host -----

  /** How well a service's own rules match a host. */
  function EntryScore(re: RegexEngine, s: ServiceInput, host: string): int {
    SpecificityOf(re, MatcherOf(re, SetOf(s.entries)), host)
  }

  /**
   * Service `s` is a worse answer than `t`: it matches worse, or as well with a lower
   * priority, or with the same priority and a later slug.
   */
  ghost predicate Worse(re: RegexEngine, s: ServiceInput, t: ServiceInput, host: string) {
    || EntryScore(re, s, host) < EntryScore(re, t, host)
    || (EntryScore(re, s, host) == EntryScore(re, t, host)
        && (|| s.priority < t.priority
            || (s.priority == t.priority && StringLess(t.slug, s.slug))))
  }

  /** The service lists the node and matches the host, and every other service that lists the node is a worse answer. */
  ghost predicate BestListed(re: RegexEngine, services: seq<ServiceInput>, id: string, host: string, k: nat) {
    && k < |services| && id in services[k].ingressNodes && EntryScore(re, services[k], host) >= 0
    && forall j :: 0 <= j < |services| && j != k && id in services[j].ingressNodes ==> Worse(re, services[j], services[k], host)
  }

  /**
   * The owner of a host on a compiled ingress: none exactly when no service that lists the
   * node matches, and otherwise the best of those, from the input's own rules and priorities.
   */
  lemma OwnerIsBestListed(re: RegexEngine, inp: Input, configs: Configs, id: string, host: string, r: Option<nat>)
    returns (k: nat)
    requires IsCompiled(inp, configs) && SlugsApart(inp.services)
    requires id in configs && configs[id].role == ROLE_INGRESS
    requires IsOwner(re, RoutesOf(re, configs[id].services), host, r)
    ensures r.None? <==>
            forall j :: 0 <= j < |inp.services| && id in inp.services[j].ingressNodes ==> EntryScore(re, inp.services[j], host) < 0
    ensures r.Some? ==>
              && BestListed(re, inp.services, id, host, k)
              && configs[id].services[r.value].slug == inp.services[k].slug
              && RowTells(inp.nodes, inp.services[k], configs[id].services[r.value])
  {
    var rows := configs[id].services;
    var src := IngressRows(inp, configs, id);
    var routes := RoutesOf(re, rows);
    forall i | 0 <= i < |rows|
      ensures Score(re, routes[i], host) == EntryScore(re, inp.services[src[i]], host)
      ensures rows[i].priority == inp.services[src[i]].priority && rows[i].slug == inp.services[src[i]].slug { }
    hide IsCompiled, RowTells, SpecificityOf, MatcherOf, SetOf, SlugsApart;
    forall j: nat | j < |inp.services| && id in inp.services[j].ingressNodes
      ensures exists i :: 0 <= i < |rows| && src[i] == j {
      assert j in src;
    }
    k := 0;
    match r {
      case None =>
      case Some(row) =>
        k := src[row];
        assert k in src;
        BestRow(re, inp, id, host, rows, src, row);
    }
  }

  lemma BestRow(re: RegexEngine, inp: Input, id: string, host: string, rows: seq<Service>, src: seq<nat>, row: nat)
    requires RowsFrom(inp, id, rows, src)
    requires forall i :: 0 <= i < |rows| ==>
               && Score(re, RoutesOf(re, rows)[i], host) == EntryScore(re, inp.services[src[i]], host)
               && rows[i].priority == inp.services[src[i]].priority && rows[i].slug == inp.services[src[i]].slug
    requires IsOwner(re, RoutesOf(re, rows), host, Some(row))
    ensures BestListed(re, inp.services, id, host, src[row])
  {
    var k := src[row];
    assert k in src;
    hide RowTells, EntryScore, StringLess, Score, Worse;
    forall j | 0 <= j < |inp.services| && j != k && id in inp.services[j].ingressNodes
      ensures Worse(re, inp.services[j], inp.services[k], host)
    {
      assert j in src;
      var i :| 0 <= i < |rows| && src[i] == j;
      OtherRowIsWorse(re, inp.services, rows, src, host, row, i);
    }
  }

  lemma OtherRowIsWorse(re: RegexEngine, services: seq<ServiceInput>, rows: seq<Service>, src: seq<nat>, host: string, row: nat, i: nat)
    requires |src| == |rows| && row < |rows| && i < |rows| && i != row && src[row] < |services| && src[i] < |services|
    requires forall m, n :: 0 <= m < n < |rows| ==> StringLess(rows[m].slug, rows[n].slug)
    requires forall m | m == row || m == i ::
               && Score(re, RoutesOf(re, rows)[m], host) == EntryScore(re, services[src[m]], host)
               && rows[m].priority == services[src[m]].priority && rows[m].slug == services[src[m]].slug
    requires IsOwner(re, RoutesOf(re, rows), host, Some(row))
    ensures Worse(re, services[src[i]], services[src[row]], host)
  {
    var routes := RoutesOf(re, rows);
    hide EntryScore, StringLess, Score;
    assert !Loses(re, routes[row], routes[i], host);
    if i < row {
      assert !Maximal(re, routes, host, i);
      if Score(re, routes[i], host) == Score(re, routes[row], host) && rows[i].priority == rows[row].priority {
        TiedRowIsMaximal(re, routes, host, row, i);
      }
    }
  }

  /** A row that is as good as a maximal one is maximal. */
  lemma TiedRowIsMaximal(re: RegexEngine, routes: seq<Route>, host: string, i: nat, j: nat)
    requires Maximal(re, routes, host, i) && j < |routes|
    requires Score(re, routes[j], host) == Score(re, routes[i], host) && routes[j].svc.priority == routes[i].svc.priority
    ensures Maximal(re, routes, host, j)
  {
    hide SpecificityOf;
    forall k | 0 <= k < |routes| ensures !Loses(re, routes[j], routes[k], host) {
      assert !Loses(re, routes[i], routes[k], host);
    }
  }

  // ----- one owner, whatever the order -----

  function Lists(id: string): ServiceInput -> bool {
    (s: ServiceInput) => id in s.ingressNodes
  }

  /** The services listing a node, in the order of the node's rows. */
  lemma RowInputs(re: RegexEngine, inp: Input, configs: Configs, id: string) returns (ins: seq<ServiceInput>)
    requires IsCompiled(inp, configs) && SlugsApart(inp.services)
    requires id in configs && configs[id].role == ROLE_INGRESS
    ensures multiset(ins) == multiset(Filter(inp.services, Lists(id)))
    ensures TableOf(re, ins, RoutesOf(re, configs[id].services))
    ensures forall i :: 0 <= i < |ins| ==> ins[i].slug == configs[id].services[i].slug
  {
    var rows := configs[id].services;
    var src := IngressRows(inp, configs, id);
    ins := PickedRows(re, inp, id, rows, src);
    hide IsCompiled, RowTells, SetOf, MatcherOf, TableOf, RoutesOf;
    ServicesDistinct(inp.services);
    assert forall k: nat :: k in src <==> k < |inp.services| && Lists(id)(inp.services[k]);
    hide SlugsApart;
    Picked(inp.services, Lists(id), src, ins);
  }

  lemma PickedRows(re: RegexEngine, inp: Input, id: string, rows: seq<Service>, src: seq<nat>) returns (ins: seq<ServiceInput>)
    requires RowsFrom(inp, id, rows, src)
    requires forall i :: 0 <= i < |src| ==> rows[i].rules == SetOf(inp.services[src[i]].entries)
    ensures |ins| == |src| && forall i :: 0 <= i < |src| ==> ins[i] == inp.services[src[i]]
    ensures TableOf(re, ins, RoutesOf(re, rows))
    ensures forall i :: 0 <= i < |ins| ==> ins[i].slug == rows[i].slug
  {
    ins := seq(|src|, i requires 0 <= i < |src| => inp.services[src[i]]);
    hide SetOf, MatcherOf, TargetsFrom, AddressesFrom, StringLess, PolicyTells;
  }

  lemma PickedOnce<T>(xs: seq<T>, src: seq<nat>, ys: seq<T>)
    requires Distinct(xs) && |ys| == |src| && Distinct(src)
    requires forall i :: 0 <= i < |src| ==> src[i] < |xs| && ys[i] == xs[src[i]]
    ensures Distinct(ys)
  {
    forall i, j | 0 <= i < j < |ys| ensures ys[i] != ys[j] {
      assert src[i] != src[j];
      assert src[i] < src[j] ==> xs[src[i]] != xs[src[j]];
    }
  }

  lemma PickedMember<T>(xs: seq<T>, keep: T -> bool, src: seq<nat>, ys: seq<T>, x: T)
    requires |ys| == |src|
    requires forall k: nat :: k in src <==> k < |xs| && keep(xs[k])
    requires forall i :: 0 <= i < |src| ==> src[i] < |xs| && ys[i] == xs[src[i]]
    ensures x in ys <==> x in xs && keep(x)
  {
    if x in ys {
      var i :| 0 <= i < |ys| && ys[i] == x;
      assert src[i] in src;
    }
    if x in xs && keep(x) {
      var k :| 0 <= k < |xs| && xs[k] == x;
      assert k in src;
      var i :| 0 <= i < |src| && src[i] == k;
      assert ys[i] == x;
    }
  }

  /** Picking every element that qualifies, once each. */
  lemma Picked<T>(xs: seq<T>, keep: T -> bool, src: seq<nat>, ys: seq<T>)
    requires Distinct(xs) && |ys| == |src| && Distinct(src)
    requires forall k: nat :: k in src <==> k < |xs| && keep(xs[k])
    requires forall i :: 0 <= i < |src| ==> src[i] < |xs| && ys[i] == xs[src[i]]
    ensures multiset(ys) == multiset(Filter(xs, keep))
  {
    PickedOnce(xs, src, ys);
    FilterDistinct(xs, keep);
    FilterMembers(xs, keep);
    hide *;
    forall x ensures x in ys <==> x in Filter(xs, keep) {
      PickedMember(xs, keep, src, ys, x);
    }
    SameMembersDistinct(ys, Filter(xs, keep));
  }

  lemma ServicesDistinct(services: seq<ServiceInput>)
    requires SlugsApart(services)
    ensures Distinct(services)
  {
  }

  lemma SameMembersDistinct<T>(xs: seq<T>, ys: seq<T>)
    requires Distinct(xs) && Distinct(ys) && forall x :: x in xs <==> x in ys
    ensures multiset(xs) == multiset(ys)
  {
    DistinctMultiset(xs);
    DistinctMultiset(ys);
    forall x ensures multiset(xs)[x] == multiset(ys)[x] {
      MultisetMember(xs, x);
      MultisetMember(ys, x);
    }
  }

  lemma AcceptedPermutes(a: seq<ServiceInput>, b: seq<ServiceInput>)
    requires multiset(a) == multiset(b) && Accepted(a)
    ensures Accepted(b)
  {
    forall e ensures !TiedAtTop(OwnersOf(ClaimsOf(b), e)) {
      TiesIgnoreOrder(a, b, e);
    }
  }

  /**
   * On a compiled ingress whose own services pass the conflict check, a host of at most 99
   * labels that is best matched by name has exactly one best row.
   */
  lemma CompiledUniqueOwner(re: RegexEngine, inp: Input, configs: Configs, id: string, host: string, i: nat, j: nat)
    requires IsCompiled(inp, configs) && SlugsApart(inp.services)
    requires id in configs && configs[id].role == ROLE_INGRESS
    requires Accepted(Filter(inp.services, Lists(id))) && Labels(host) <= 99
    requires var routes := RoutesOf(re, configs[id].services);
             && Maximal(re, routes, host, i) && NamedHit(routes[i], host)
             && Maximal(re, routes, host, j)
    ensures i == j
  {
    var ins := RowInputs(re, inp, configs, id);
    AcceptedPermutes(Filter(inp.services, Lists(id)), ins);
    hide IsCompiled, Maximal, NamedHit, TableOf, Accepted;
    UniqueOwner(re, ins, RoutesOf(re, configs[id].services), host, i, j);
  }

  /**
   * Whatever order the rows of such an ingress are put in, the owner of the host is the
   * service it was.
   */
  lemma CompiledOwnerIgnoresOrder(re: RegexEngine, inp: Input, configs: Configs, id: string, host: string,
                                  rows: seq<Service>, a: Option<nat>, b: Option<nat>)
    requires IsCompiled(inp, configs) && SlugsApart(inp.services)
    requires id in configs && configs[id].role == ROLE_INGRESS
    requires Accepted(Filter(inp.services, Lists(id))) && Labels(host) <= 99
    requires multiset(rows) == multiset(configs[id].services)
    requires IsOwner(re, RoutesOf(re, configs[id].services), host, a) && IsOwner(re, RoutesOf(re, rows), host, b)
    requires a.Some? ==> NamedHit(RoutesOf(re, configs[id].services)[a.value], host)
    ensures a.Some? <==> b.Some?
    ensures a.Some? ==> configs[id].services[a.value] == rows[b.value]
  {
    var mine := configs[id].services;
    SameMultisetMembers(rows, mine);
    hide IsCompiled, SlugsApart, Accepted, Maximal, NamedHit, RoutesOf;
    if b.Some? {
      assert rows[b.value] in mine;
      var m :| 0 <= m < |mine| && mine[m] == rows[b.value];
      RowTransfers(re, rows, mine, host, b.value, m);
      if a.Some? { CompiledUniqueOwner(re, inp, configs, id, host, a.value, m); }
      else { OwnerExclusiveRow(re, mine, host, m); }
    } else if a.Some? {
      assert mine[a.value] in rows;
      var m :| 0 <= m < |rows| && rows[m] == mine[a.value];
      RowTransfers(re, mine, rows, host, a.value, m);
      OwnerExclusiveRow(re, rows, host, m);
    }
  }

  lemma OwnerExclusiveRow(re: RegexEngine, rows: seq<Service>, host: string, m: nat)
    requires Maximal(re, RoutesOf(re, rows), host, m)
    ensures !IsOwner(re, RoutesOf(re, rows), host, None)
  {
  }

  lemma RowTransfers(re: RegexEngine, a: seq<Service>, b: seq<Service>, host: string, i: nat, j: nat)
    requires multiset(a) == multiset(b) && i < |a| && j < |b| && a[i] == b[j]
    requires Maximal(re, RoutesOf(re, a), host, i)
    ensures Maximal(re, RoutesOf(re, b), host, j)
  {
    SameMultisetMembers(a, b);
    hide SpecificityOf, MatcherOf;
    var ra, rb := RoutesOf(re, a), RoutesOf(re, b);
    forall k | 0 <= k < |rb| ensures !Loses(re, rb[j], rb[k], host) {
      assert b[k] in a;
      var m :| 0 <= m < |a| && a[m] == b[k];
      assert !Loses(re, ra[i], ra[m], host);
    }
  }
}
