/** A compilation depends on which services there are, not on the order they are read in. */
module Determinism {
  import opened Collections
  import opened DomainSet
  import opened RuleList
  import opened Model
  import opened Conflicts
  import opened Compiler
  import opened Routing
  import opened Ownership

  // ----- sorting by distinct keys -----

  ghost predicate DistinctSlugs(cs: seq<Service>) {
    forall i, j :: 0 <= i < j < |cs| ==> cs[i].slug != cs[j].slug
  }

  lemma SlugsOfMultiset(xs: seq<Service>, ys: seq<Service>)
    requires multiset(xs) == multiset(ys) && DistinctSlugs(xs)
    ensures DistinctSlugs(ys)
  {
    assert Distinct(xs);
    PermutationDistinct(xs, ys);
    SameMultisetMembers(xs, ys);
    forall i, j | 0 <= i < j < |ys| ensures ys[i].slug != ys[j].slug {
      assert ys[i] in xs && ys[j] in xs;
    }
  }

  /** The first of a sorted list with distinct slugs is the least. */
  lemma HeadComesFirst(ys: seq<Service>, x: Service)
    requires SortedBy(ys, SlugBefore) && x in ys
    ensures x == ys[0] || !StringLess(x.slug, ys[0].slug)
  {
  }

  lemma HeadsMeet(ys: seq<Service>, zs: seq<Service>)
    requires multiset(ys) == multiset(zs) && DistinctSlugs(ys) && ys != [] && zs != []
    requires SortedBy(ys, SlugBefore) && SortedBy(zs, SlugBefore)
    ensures ys[0] == zs[0]
  {
    SameMultisetMembers(ys, zs);
    assert ys[0] in zs && zs[0] in ys;
    HeadComesFirst(ys, zs[0]);
    HeadComesFirst(zs, ys[0]);
    StringLessTrichotomy(ys[0].slug, zs[0].slug);
    hide StringLess;
    var i :| 0 <= i < |ys| && ys[i] == zs[0];
    assert ys[i].slug == ys[0].slug;
  }

  lemma TailMultiset<T>(ys: seq<T>)
    requires ys != []
    ensures multiset(ys[1..]) == multiset(ys) - multiset{ys[0]}
  {
    assert ys == [ys[0]] + ys[1..];
  }

  /** Two sorted arrangements of services with distinct slugs are the same. */
  lemma {:induction false} SortedOnce(ys: seq<Service>, zs: seq<Service>)
    requires multiset(ys) == multiset(zs) && DistinctSlugs(ys)
    requires SortedBy(ys, SlugBefore) && SortedBy(zs, SlugBefore)
    ensures ys == zs
  {
    SameMultisetMembers(ys, zs);
    if ys != [] {
      HeadsMeet(ys, zs);
      TailMultiset(ys);
      TailMultiset(zs);
      hide SlugBefore;
      SortedOnce(ys[1..], zs[1..]);
      assert ys == [ys[0]] + ys[1..] && zs == [zs[0]] + zs[1..];
    }
  }

  // ----- what the order of the services does not change -----

  ghost predicate SlugsApart(services: seq<ServiceInput>) {
    forall i, j :: 0 <= i < j < |services| ==> services[i].slug != services[j].slug
  }

  /** Without position `j`. */
  lemma RemovedOne<T>(b: seq<T>, j: nat)
    requires j < |b|
    ensures multiset(b[..j] + b[j + 1..]) == multiset(b) - multiset{b[j]}
  {
    assert b == b[..j] + [b[j]] + b[j + 1..];
  }

  /** The sum of what each element of a list adds. */
  ghost function Gathered<T, U>(xs: seq<T>, part: T -> multiset<U>): multiset<U> {
    if xs == [] then multiset{} else Gathered(xs[..|xs| - 1], part) + part(xs[|xs| - 1])
  }

  lemma {:induction false} GatheredConcat<T, U>(xs: seq<T>, ys: seq<T>, part: T -> multiset<U>)
    ensures Gathered(xs + ys, part) == Gathered(xs, part) + Gathered(ys, part)
    decreases |ys|
  {
    if ys == [] {
      assert xs + ys == xs;
    } else {
      GatheredConcat(xs, ys[..|ys| - 1], part);
      assert (xs + ys)[..|xs + ys| - 1] == xs + ys[..|ys| - 1];
    }
  }

  lemma GatheredWithout<T, U>(ys: seq<T>, j: nat, part: T -> multiset<U>)
    requires j < |ys|
    ensures Gathered(ys, part) == Gathered(ys[..j] + ys[j + 1..], part) + part(ys[j])
  {
    GatheredConcat(ys[..j], ys[j + 1..], part);
    GatheredConcat(ys[..j + 1], ys[j + 1..], part);
    assert ys == ys[..j + 1] + ys[j + 1..] && ys[..j + 1][..j] == ys[..j];
  }

  lemma {:induction false} GatheredPermutes<T, U>(xs: seq<T>, ys: seq<T>, part: T -> multiset<U>)
    requires multiset(xs) == multiset(ys)
    ensures Gathered(xs, part) == Gathered(ys, part)
    decreases |xs|
  {
    SameMultisetMembers(xs, ys);
    if xs != [] {
      var n := |xs| - 1;
      assert xs == xs[..n] + [xs[n]] && xs[n] in ys;
      var j :| 0 <= j < |ys| && ys[j] == xs[n];
      RemovedOne(ys, j);
      GatheredWithout(ys, j, part);
      GatheredPermutes(xs[..n], ys[..j] + ys[j + 1..], part);
    }
  }

  lemma {:induction false} CompiledGathered(nt: map<string, NodeInput>, a: seq<ServiceInput>)
    ensures multiset(CompiledServices(nt, a)) == Gathered(a, s => multiset{CompiledService(nt, s)})
    decreases |a|
  {
    if a != [] {
      var n := |a| - 1;
      CompiledGathered(nt, a[..n]);
      hide CompiledService;
      assert CompiledServices(nt, a) == CompiledServices(nt, a[..n]) + [CompiledService(nt, a[n])];
    }
  }

  lemma CompiledMultiset(nt: map<string, NodeInput>, a: seq<ServiceInput>, b: seq<ServiceInput>)
    requires multiset(a) == multiset(b)
    ensures multiset(CompiledServices(nt, a)) == multiset(CompiledServices(nt, b))
  {
    CompiledGathered(nt, a);
    CompiledGathered(nt, b);
    GatheredPermutes(a, b, s => multiset{CompiledService(nt, s)});
  }

  lemma CarriedSame(a: seq<ServiceInput>, b: seq<ServiceInput>, id: string)
    requires multiset(a) == multiset(b)
    ensures CarriedSlugs(a, id) <= CarriedSlugs(b, id)
  {
    SameMultisetMembers(a, b);
    forall x | x in CarriedSlugs(a, id) ensures x in CarriedSlugs(b, id) {
      var k :| 0 <= k < |a| && id in a[k].ingressNodes && a[k].slug == x;
      assert a[k] in b;
      var j :| 0 <= j < |b| && b[j] == a[k];
      assert b[j].slug == x;
    }
  }

  lemma GrantsSame(nt: map<string, NodeInput>, a: seq<ServiceInput>, b: seq<ServiceInput>, id: string)
    requires multiset(a) == multiset(b)
    ensures forall e :: MayReach(nt, a, id, e) ==> MayReach(nt, b, id, e)
    ensures forall p :: MayUsePort(nt, a, id, p) ==> MayUsePort(nt, b, id, p)
  {
    SameMultisetMembers(a, b);
    hide Targets, PortsOrDefault;
    forall e | MayReach(nt, a, id, e) ensures MayReach(nt, b, id, e) {
      var k :| 0 <= k < |a| && Targets(nt, a[k], id) && e in a[k].entries;
      assert a[k] in b;
      var j :| 0 <= j < |b| && b[j] == a[k];
      assert Targets(nt, b[j], id);
    }
    forall p | MayUsePort(nt, a, id, p) ensures MayUsePort(nt, b, id, p) {
      var k :| 0 <= k < |a| && Targets(nt, a[k], id) && p in PortsOrDefault(a[k].allowedPorts);
      assert a[k] in b;
      var j :| 0 <= j < |b| && b[j] == a[k];
      assert Targets(nt, b[j], id);
    }
  }

  lemma {:induction false} AscendingUnique(a: seq<int>, b: seq<int>)
    requires StrictlyAscending(a) && StrictlyAscending(b)
    requires forall p :: p in a <==> p in b
    ensures a == b
  {
    assert a != [] ==> a[0] in a;
    assert b != [] ==> b[0] in b;
    if a != [] {
      assert a[0] in b && b[0] in a;
      assert a == [a[0]] + a[1..] && b == [b[0]] + b[1..];
      assert forall p :: p in a[1..] <==> p in a && p != a[0];
      assert forall p :: p in b[1..] <==> p in b && p != b[0];
      AscendingUnique(a[1..], b[1..]);
    }
  }

  /** An egress part is determined by what may be reached through the node. */
  lemma EgressUnique(x: Input, y: Input, nt: map<string, NodeInput>, id: string, eg: EgressConfig, eh: EgressConfig)
    requires EgressFor(x, nt, id, eg) && EgressFor(y, nt, id, eh)
    requires x.egressTuning == y.egressTuning && x.labMode == y.labMode
    requires forall e :: MayReach(nt, x.services, id, e) <==> MayReach(nt, y.services, id, e)
    requires forall p :: MayUsePort(nt, x.services, id, p) <==> MayUsePort(nt, y.services, id, p)
    ensures eg == eh
  {
    hide MayReach, MayUsePort;
    var es: seq<Entry> :|
      && StrictlySorted(es) && (forall e :: e in es <==> MayReach(nt, x.services, id, e))
      && StrictlyAscending(eg.allowedPorts) && (forall p :: p in eg.allowedPorts <==> MayUsePort(nt, x.services, id, p))
      && eg == x.egressTuning.(allow := SetOf(es), allowedPorts := eg.allowedPorts, allowPrivate := x.labMode);
    var fs: seq<Entry> :|
      && StrictlySorted(fs) && (forall e :: e in fs <==> MayReach(nt, y.services, id, e))
      && StrictlyAscending(eh.allowedPorts) && (forall p :: p in eh.allowedPorts <==> MayUsePort(nt, y.services, id, p))
      && eh == y.egressTuning.(allow := SetOf(fs), allowedPorts := eh.allowedPorts, allowPrivate := y.labMode);
    hide StrictlySorted, StrictlyAscending;
    assert ToSet(es) == ToSet(fs);
    CanonicalUnique(es, fs);
    assert forall p :: p in eg.allowedPorts <==> p in eh.allowedPorts;
    AscendingUnique(eg.allowedPorts, eh.allowedPorts);
  }

  /** Two inputs that differ in the order of their services only. */
  ghost predicate Rearranged(x: Input, y: Input) {
    y == x.(services := y.services) && multiset(x.services) == multiset(y.services)
  }

  /** Two compilations share the sorted list of compiled services. */
  lemma SameList(x: Input, y: Input, xs: seq<Service>, ys: seq<Service>)
    requires Rearranged(x, y) && SlugsApart(x.services)
    requires SortOf(CompiledServices(NodeTable(x.nodes), x.services), xs, SlugBefore)
    requires SortOf(CompiledServices(NodeTable(x.nodes), y.services), ys, SlugBefore)
    ensures xs == ys
  {
    var nt := NodeTable(x.nodes);
    CompiledMultiset(nt, x.services, y.services);
    assert DistinctSlugs(CompiledServices(nt, x.services));
    SlugsOfMultiset(CompiledServices(nt, x.services), xs);
    SortedOnce(xs, ys);
  }

  /**
   * Services with distinct slugs may be read in any order: two compilations of the same
   * services, other inputs being equal, are the same configurations, whole and for every node.
   */
  lemma CompileIgnoresOrder(x: Input, y: Input, a: Configs, b: Configs)
    requires Rearranged(x, y) && SlugsApart(x.services)
    requires IsCompiled(x, a) && IsCompiled(y, b)
    ensures a == b
  {
    var nt := NodeTable(x.nodes);
    assert NodeTable(y.nodes) == nt;
    hide IsCompiled, SortOf, ConfigFor, CompiledServices, NodeTable;
    var xs := CompiledList(x, a);
    var ys := CompiledList(y, b);
    SameList(x, y, xs, ys);
    hide Rearranged;
    forall id | id in nt ensures a[id] == b[id] {
      ConfigSame(x, y, nt, xs, nt[id], a[id], b[id]);
    }
  }

  lemma ConfigSame(x: Input, y: Input, nt: map<string, NodeInput>, all: seq<Service>, n: NodeInput, c: NodeConfig, d: NodeConfig)
    requires Rearranged(x, y) && ConfigFor(x, nt, all, n, c) && ConfigFor(y, nt, all, n, d)
    ensures c == d
  {
    CarriedSame(x.services, y.services, n.id);
    CarriedSame(y.services, x.services, n.id);
    GrantsSame(nt, x.services, y.services, n.id);
    GrantsSame(nt, y.services, x.services, n.id);
    assert ROLE_INGRESS[0] != ROLE_EGRESS[0];
    hide MayReach, MayUsePort, EgressFor;
    if n.role == ROLE_INGRESS {
      FilterSame(all, Carried(x.services, n.id), Carried(y.services, n.id));
    } else {
      EgressUnique(x, y, nt, n.id, c.egress, d.egress);
    }
  }

  lemma {:induction false} FilterSame<T>(xs: seq<T>, f: T -> bool, g: T -> bool)
    requires forall x :: x in xs ==> f(x) == g(x)
    ensures Filter(xs, f) == Filter(xs, g)
    decreases |xs|
  {
    if xs != [] {
      FilterSame(xs[..|xs| - 1], f, g);
    }
  }

  // ----- whether there is a compilation -----

  function Priorities(os: seq<Owner>): (ps: seq<int>)
    ensures |ps| == |os| && forall i :: 0 <= i < |os| ==> ps[i] == os[i].priority
  {
    seq(|os|, i requires 0 <= i < |os| => os[i].priority)
  }

  lemma {:induction false} CountTwo(xs: seq<int>, p: int)
    ensures multiset(xs)[p] >= 1 <==> p in xs
    ensures multiset(xs)[p] >= 2 <==> exists i, j :: 0 <= i < j < |xs| && xs[i] == p && xs[j] == p
  {
    MultisetMember(xs, p);
    if xs != [] {
      var n := |xs| - 1;
      assert xs == xs[..n] + [xs[n]];
      CountTwo(xs[..n], p);
      if p in xs[..n] && xs[n] == p {
        var i :| 0 <= i < n && xs[..n][i] == p;
        assert xs[i] == p && xs[n] == p;
      }
      if i, j :| 0 <= i < j < |xs| && xs[i] == p && xs[j] == p {
        assert xs[..n][i] == p && (j < n ==> xs[..n][j] == p);
      }
      if i, j :| 0 <= i < j < n && xs[..n][i] == p && xs[..n][j] == p {
        assert xs[i] == p && xs[j] == p;
      }
    }
  }

  /** A tie at the top, from how often each priority occurs. */
  ghost predicate TopRepeats(ps: multiset<int>) {
    exists p :: ps[p] >= 2 && forall q :: q in ps ==> q <= p
  }

  lemma TiedRepeats(os: seq<Owner>)
    requires TiedAtTop(os)
    ensures TopRepeats(multiset(Priorities(os)))
  {
    var ps := Priorities(os);
    var i, j :| 0 <= i < j < |os| && os[i].priority == os[j].priority
      && forall k :: 0 <= k < |os| ==> os[k].priority <= os[i].priority;
    var p := os[i].priority;
    CountTwo(ps, p);
    assert ps[i] == p && ps[j] == p;
    forall q | q in multiset(ps) ensures q <= p {
      CountTwo(ps, q);
      var k :| 0 <= k < |ps| && ps[k] == q;
      assert os[k].priority == q;
    }
    assert multiset(ps)[p] >= 2;
  }

  lemma RepeatsTied(os: seq<Owner>)
    requires TopRepeats(multiset(Priorities(os)))
    ensures TiedAtTop(os)
  {
    var ps := Priorities(os);
    var p :| multiset(ps)[p] >= 2 && forall q :: q in multiset(ps) ==> q <= p;
    CountTwo(ps, p);
    var i, j :| 0 <= i < j < |ps| && ps[i] == p && ps[j] == p;
    forall k | 0 <= k < |os| ensures os[k].priority <= os[i].priority {
      CountTwo(ps, ps[k]);
      assert os[k].priority == ps[k] && ps[k] in ps;
    }
    assert os[i].priority == os[j].priority;
  }

  lemma PrioritiesConcat(os: seq<Owner>, more: seq<Owner>)
    ensures multiset(Priorities(os + more)) == multiset(Priorities(os)) + multiset(Priorities(more))
  {
    assert Priorities(os + more) == Priorities(os) + Priorities(more);
  }

  lemma {:induction false} PrioritiesGathered(a: seq<ServiceInput>, e: Entry)
    ensures multiset(Priorities(OwnersOf(ClaimsOf(a), e))) ==
            Gathered(a, s => multiset(Priorities(OwnersOf(ServiceClaims(s), e))))
    decreases |a|
  {
    if a != [] {
      var n := |a| - 1;
      PrioritiesGathered(a[..n], e);
      OwnersConcat(ClaimsOf(a[..n]), ServiceClaims(a[n]), e);
      PrioritiesConcat(OwnersOf(ClaimsOf(a[..n]), e), OwnersOf(ServiceClaims(a[n]), e));
      hide OwnersOf, Priorities;
    }
  }

  /** Whether a rule has two claims at the top does not depend on the order of the services. */
  lemma TiesIgnoreOrder(a: seq<ServiceInput>, b: seq<ServiceInput>, e: Entry)
    requires multiset(a) == multiset(b)
    ensures TiedAtTop(OwnersOf(ClaimsOf(a), e)) <==> TiedAtTop(OwnersOf(ClaimsOf(b), e))
  {
    PrioritiesGathered(a, e);
    PrioritiesGathered(b, e);
    GatheredPermutes(a, b, s => multiset(Priorities(OwnersOf(ServiceClaims(s), e))));
    var os, qs := OwnersOf(ClaimsOf(a), e), OwnersOf(ClaimsOf(b), e);
    hide OwnersOf, ClaimsOf, Gathered, TiedAtTop, TopRepeats, Priorities;
    if TiedAtTop(os) { TiedRepeats(os); RepeatsTied(qs); }
    if TiedAtTop(qs) { TiedRepeats(qs); RepeatsTied(os); }
  }

  /** Whether the input compiles does not depend on the order of its services either. */
  lemma CompilableIgnoresOrder(x: Input, y: Input)
    requires Rearranged(x, y)
    ensures Compilable(x) <==> Compilable(y)
  {
    SameMultisetMembers(x.services, y.services);
    forall e ensures TiedAtTop(OwnersOf(ClaimsOf(x.services), e)) <==> TiedAtTop(OwnersOf(ClaimsOf(y.services), e)) {
      TiesIgnoreOrder(x.services, y.services, e);
    }
    hide TiedAtTop, OwnersOf, ClaimsOf, HasTarget, KnownRole;
    if Compilable(x) { TargetsTransfer(x, y); }
    if Compilable(y) { TargetsTransfer(y, x); }
  }

  lemma TargetsTransfer(x: Input, y: Input)
    requires y == x.(services := y.services) && forall s :: s in y.services ==> s in x.services
    requires forall k :: 0 <= k < |x.services| ==> HasTarget(NodeTable(x.nodes), x.services[k])
    ensures forall k :: 0 <= k < |y.services| ==> HasTarget(NodeTable(y.nodes), y.services[k])
  {
    hide HasTarget;
    forall k | 0 <= k < |y.services| ensures HasTarget(NodeTable(y.nodes), y.services[k]) {
      assert y.services[k] in x.services;
    }
  }

  // ----- the service a tie goes to -----

  lemma {:induction false} FilterKeepsOrder(xs: seq<Service>, keep: Service -> bool)
    requires forall i, j :: 0 <= i < j < |xs| ==> StringLess(xs[i].slug, xs[j].slug)
    ensures forall i, j :: 0 <= i < j < |Filter(xs, keep)| ==> StringLess(Filter(xs, keep)[i].slug, Filter(xs, keep)[j].slug)
    decreases |xs|
  {
    if xs != [] {
      var n := |xs| - 1;
      FilterKeepsOrder(xs[..n], keep);
      FilterMembers(xs[..n], keep);
      forall i | 0 <= i < |Filter(xs[..n], keep)| ensures StringLess(Filter(xs[..n], keep)[i].slug, xs[n].slug) {
        var x := Filter(xs[..n], keep)[i];
        assert x in xs[..n];
      }
    }
  }

  /** The rows of an ingress node ascend by slug. */
  lemma RowsAscend(x: Input, a: Configs, id: string)
    requires SlugsApart(x.services) && IsCompiled(x, a) && id in a && a[id].role == ROLE_INGRESS
    ensures forall i, j :: 0 <= i < j < |a[id].services| ==> StringLess(a[id].services[i].slug, a[id].services[j].slug)
  {
    var nt := NodeTable(x.nodes);
    NodeTableRows(x.nodes);
    var all: seq<Service> :| SortOf(CompiledServices(nt, x.services), all, SlugBefore) && ConfigsFor(x, nt, all, nt, a);
    assert DistinctSlugs(CompiledServices(nt, x.services));
    SlugsOfMultiset(CompiledServices(nt, x.services), all);
    forall i, j | 0 <= i < j < |all| ensures StringLess(all[i].slug, all[j].slug) {
      assert !SlugBefore(all[j], all[i]);
      StringLessTrichotomy(all[i].slug, all[j].slug);
    }
    assert ConfigFor(x, nt, all, nt[id], a[id]);
    FilterKeepsOrder(all, Carried(x.services, id));
    assert ROLE_INGRESS[0] != ROLE_EGRESS[0];
  }

  /**
   * A tie goes to the least slug: of all rows that match a host and are beaten by none, the
   * owner is the one whose slug comes first.
   */
  lemma TieGoesToLeastSlug(re: RegexEngine, x: Input, a: Configs, id: string, host: string, i: nat, j: nat)
    requires SlugsApart(x.services) && IsCompiled(x, a) && id in a && a[id].role == ROLE_INGRESS
    requires IsOwner(re, RoutesOf(re, a[id].services), host, Some(i))
    requires Maximal(re, RoutesOf(re, a[id].services), host, j)
    ensures i == j || StringLess(a[id].services[i].slug, a[id].services[j].slug)
  {
    RowsAscend(x, a, id);
  }
}
