/** The three consumers of a node configuration: DNS router, ingress proxy and egress relay. */
module Routing {
  import opened Collections
  import opened DomainSet
  import opened Model
  import opened Ordering
  import opened Selector

  // ----- which service owns a host -----

  /** One row of a routing table. */
  datatype Route = Route(svc: Service, matcher: Matcher)

  function RoutesOf(re: RegexEngine, services: seq<Service>): (routes: seq<Route>)
    ensures |routes| == |services|
  {
    seq(|services|, i requires 0 <= i < |services| => Route(services[i], MatcherOf(re, services[i].rules)))
  }

  function Score(re: RegexEngine, r: Route, host: string): int {
    SpecificityOf(re, r.matcher, host)
  }

  /** Row `a` loses against row `b`: less specific, or as specific with a lower priority. */
  predicate Loses(re: RegexEngine, a: Route, b: Route, host: string) {
    || Score(re, a, host) < Score(re, b, host)
    || (Score(re, a, host) == Score(re, b, host) && a.svc.priority < b.svc.priority)
  }

  /** Row `i` matches and no row beats it. */
  ghost predicate Maximal(re: RegexEngine, routes: seq<Route>, host: string, i: nat) {
    && i < |routes|
    && Score(re, routes[i], host) >= 0
    && forall j :: 0 <= j < |routes| ==> !Loses(re, routes[i], routes[j], host)
  }

  /** The owner of a host: the first maximal row, if any row matches. */
  ghost predicate IsOwner(re: RegexEngine, routes: seq<Route>, host: string, r: Option<nat>) {
    match r
    case None => forall j :: 0 <= j < |routes| ==> Score(re, routes[j], host) < 0
    case Some(i) => Maximal(re, routes, host, i) && forall j: nat :: j < i ==> !Maximal(re, routes, host, j)
  }

  lemma OwnerUnique(re: RegexEngine, routes: seq<Route>, host: string, a: Option<nat>, b: Option<nat>)
    requires IsOwner(re, routes, host, a) && IsOwner(re, routes, host, b)
    ensures a == b
  {
    if a.Some? && b.Some? {
      assert !(a.value < b.value) && !(b.value < a.value);
    }
  }

  /** The scan's state after `n` rows: the first best row so far. */
  ghost predicate BestSoFar(re: RegexEngine, routes: seq<Route>, host: string, n: nat,
                            best: Option<nat>, spec: int, prio: int)
    requires n <= |routes|
  {
    match best
    case None => spec == -1 && forall j :: 0 <= j < n ==> Score(re, routes[j], host) < 0
    case Some(i) =>
      && i < n && spec == Score(re, routes[i], host) >= 0 && prio == routes[i].svc.priority
      && (forall j :: 0 <= j < n ==> !Loses(re, routes[i], routes[j], host))
      && (forall j :: 0 <= j < i ==> Loses(re, routes[j], routes[i], host))
  }

  lemma BestIsOwner(re: RegexEngine, routes: seq<Route>, host: string, best: Option<nat>, spec: int, prio: int)
    requires BestSoFar(re, routes, host, |routes|, best, spec, prio)
    ensures IsOwner(re, routes, host, best)
  {
  }

  /** The DNS frontend's routing table. */
  class Router {
    var routes: seq<Route>

    constructor (re: RegexEngine, c: NodeConfig)
      ensures routes == RoutesOf(re, c.services)
    {
      routes := [];
      new;
      Apply(re, c);
    }

    method Apply(re: RegexEngine, c: NodeConfig)
      modifies this
      ensures routes == RoutesOf(re, c.services)
    {
      var table := [];
      for i := 0 to |c.services|
        invariant table == RoutesOf(re, c.services)[..i]
      {
        var m := CompileSet(re, c.services[i].rules);
        table := table + [Route(c.services[i], m)];
      }
      routes := table;
    }

    /** The row of the service owning `host`, if any. */
    method Lookup(re: RegexEngine, host: string) returns (best: Option<nat>)
      ensures IsOwner(re, routes, host, best)
    {
      best := None;
      var bestSpec, bestPrio := -1, -1;
      for i := 0 to |routes|
        invariant BestSoFar(re, routes, host, i, best, bestSpec, bestPrio)
      {
        var spec := Specificity(re, routes[i].matcher, host);
        if spec < 0 { continue; }
        var p := routes[i].svc.priority;
        if spec > bestSpec || (spec == bestSpec && p > bestPrio) {
          best, bestSpec, bestPrio := Some(i), spec, p;
        }
      }
      BestIsOwner(re, routes, host, best, bestSpec, bestPrio);
    }
  }

  datatype Decision = NotManaged | ForwardToDoh | PortNotAllowed | Proxied(row: nat)

  predicate PortIn(allowed: seq<int>, port: int) {
    if allowed == [] then port == 443 else port in allowed
  }

  method PortAllowed(allowed: seq<int>, port: int) returns (ok: bool)
    ensures ok <==> PortIn(allowed, port)
    ensures ok <==> port in allowed || (allowed == [] && port == 443)
  {
    if |allowed| == 0 { return port == 443; }
    for i := 0 to |allowed|
      invariant port !in allowed[..i]
    {
      if allowed[i] == port { return true; }
    }
    return false;
  }

  /** The ingress proxy: its routing table, with one egress pool per row. */
  class Proxy {
    var routes: seq<Route>
    var pools: seq<Pool>
    var maxSessions: int
    var dohHost: string
    var dohBackend: string

    ghost predicate Valid()
      reads this
    {
      |routes| == |pools|
    }

    ghost function PoolTargets(): set<object>
      reads this, pools
    {
      set k, t | 0 <= k < |pools| && t in pools[k].targets :: t
    }

    /** Health records of the pools of the first `n` rows, by service slug; a later row wins. */
    function Known(n: nat): map<string, seq<Member>>
      requires Valid() && n <= |routes|
      reads this, pools, PoolTargets()
    {
      if n == 0 then map[]
      else
        assert forall t :: t in pools[n - 1].targets ==> t in PoolTargets();
        Known(n - 1)[routes[n - 1].svc.slug := pools[n - 1].Members()]
    }

    constructor (re: RegexEngine, c: NodeConfig, dohHost: string, dohBackend: string)
      ensures Valid() && routes == RoutesOf(re, c.services)
      ensures this.dohHost == dohHost && this.dohBackend == dohBackend
    {
      routes, pools := [], [];
      this.dohHost, this.dohBackend := dohHost, dohBackend;
      new;
      Apply(re, c);
    }

    /**
     * Swaps in a new revision. Each new pool takes over the verdict and latency that the
     * pool of the same service had for its nodes.
     */
    method Apply(re: RegexEngine, c: NodeConfig)
      requires Valid()
      modifies this`routes, this`pools, this`maxSessions
      ensures Valid() && routes == RoutesOf(re, c.services)
      ensures maxSessions == if c.ingress.maxSessions <= 0 then 10000 else c.ingress.maxSessions
      ensures fresh(pools)
      ensures forall i :: 0 <= i < |pools| ==>
                var s := c.services[i];
                var known := old(Known(|routes|));
                && pools[i].Valid() && pools[i].policy == s.egress && pools[i].sticky == ""
                && Built(s.egress.targets, if s.slug in known then known[s.slug] else [], pools[i].Members())
    {
      var prev := map[];
      for i := 0 to |routes|
        invariant prev == Known(i)
      {
        prev := prev[routes[i].svc.slug := pools[i].Members()];
      }
      var table, built := BuildRoutes(re, c.services, prev);
      routes, pools := table, built;
      maxSessions := c.ingress.maxSessions;
      if maxSessions <= 0 { maxSessions := 10000; }
    }

    static method BuildRoutes(re: RegexEngine, services: seq<Service>, prev: map<string, seq<Member>>)
      returns (table: seq<Route>, built: seq<Pool>)
      ensures table == RoutesOf(re, services)
      ensures |built| == |services| && fresh(built)
      ensures forall k :: 0 <= k < |built| ==>
                var s := services[k];
                && built[k].Valid() && built[k].policy == s.egress && built[k].sticky == ""
                && Built(s.egress.targets, if s.slug in prev then prev[s.slug] else [], built[k].Members())
    {
      table, built := [], [];
      for i := 0 to |services|
        invariant table == RoutesOf(re, services)[..i]
        invariant |built| == i && fresh(built)
        invariant forall k :: 0 <= k < i ==> fresh(built[k].targets)
        invariant forall k :: 0 <= k < i ==>
                    var s := services[k];
                    && built[k].Valid() && built[k].policy == s.egress && built[k].sticky == ""
                    && Built(s.egress.targets, if s.slug in prev then prev[s.slug] else [], built[k].Members())
      {
        hide Built, RoutesOf;
        var s := services[i];
        var m := CompileSet(re, s.rules);
        var pool := new Pool(s.egress, if s.slug in prev then prev[s.slug] else []);
        table := table + [Route(s, m)];
        built := built + [pool];
      }
    }

    method Lookup(re: RegexEngine, host: string) returns (best: Option<nat>)
      ensures IsOwner(re, routes, host, best)
    {
      best := None;
      var bestSpec, bestPrio := -1, -1;
      for i := 0 to |routes|
        invariant BestSoFar(re, routes, host, i, best, bestSpec, bestPrio)
      {
        var spec := Specificity(re, routes[i].matcher, host);
        if spec < 0 { continue; }
        var prio := routes[i].svc.priority;
        if spec > bestSpec || (spec == bestSpec && prio > bestPrio) {
          best, bestSpec, bestPrio := Some(i), spec, prio;
        }
      }
      BestIsOwner(re, routes, host, best, bestSpec, bestPrio);
    }

    /** What becomes of a connection that asked for `host` on `port`. */
    method Decide(re: RegexEngine, host: string, port: int) returns (d: Decision)
      ensures d.Proxied? ==>
                && IsOwner(re, routes, host, Some(d.row))
                && var allowed := routes[d.row].svc.allowedPorts;
                   port in allowed || (allowed == [] && port == 443)
      ensures d.PortNotAllowed? ==>
                exists i: nat :: IsOwner(re, routes, host, Some(i)) && port !in routes[i].svc.allowedPorts
                                 && (routes[i].svc.allowedPorts == [] ==> port != 443)
      ensures d.NotManaged? || d.ForwardToDoh? <==> IsOwner(re, routes, host, None)
      ensures d.ForwardToDoh? <==> IsOwner(re, routes, host, None) && host == dohHost != "" && dohBackend != ""
    {
      var row := Lookup(re, host);
      match row {
        case None =>
          if dohHost == "" || dohBackend == "" || host != dohHost {
            return NotManaged;
          }
          return ForwardToDoh;
        case Some(i) =>
          OwnerExclusive(re, routes, host, i);
          var ok := PortAllowed(routes[i].svc.allowedPorts, port);
          if !ok {
            assert IsOwner(re, routes, host, Some(i));
            return PortNotAllowed;
          }
          return Proxied(i);
      }
    }
  }

  lemma OwnerExclusive(re: RegexEngine, routes: seq<Route>, host: string, i: nat)
    requires IsOwner(re, routes, host, Some(i))
    ensures !IsOwner(re, routes, host, None)
  {
    assert Score(re, routes[i], host) >= 0;
  }

  /** Ports a relay opens for a configuration. */
  function RelayPorts(c: NodeConfig): set<int> {
    if c.egress.allowedPorts == [] then {443} else ToSet(c.egress.allowedPorts)
  }

  /** What a relay running this configuration lets through. */
  ghost predicate AllowedBy(re: RegexEngine, c: NodeConfig, host: string, port: int) {
    port in RelayPorts(c) && MatcherCovers(re, MatcherOf(re, c.egress.allow), host)
  }

  class Relay {
    var allow: Matcher
    var ports: set<int>
    var maxSessions: int

    constructor (re: RegexEngine, c: NodeConfig)
      ensures allow == MatcherOf(re, c.egress.allow) && ports == RelayPorts(c)
    {
      allow, ports, maxSessions := Matcher({}, {}, []), {}, 0;
      new;
      Apply(re, c);
    }

    method Apply(re: RegexEngine, c: NodeConfig)
      modifies this
      ensures allow == MatcherOf(re, c.egress.allow) && ports == RelayPorts(c)
      ensures forall p :: p in ports <==> p in c.egress.allowedPorts || (c.egress.allowedPorts == [] && p == 443)
      ensures maxSessions == if c.egress.maxSessions <= 0 then 10000 else c.egress.maxSessions
    {
      var portSet: set<int> := {};
      for i := 0 to |c.egress.allowedPorts|
        invariant portSet == ToSet(c.egress.allowedPorts[..i])
      {
        portSet := portSet + {c.egress.allowedPorts[i]};
      }
      assert c.egress.allowedPorts[..|c.egress.allowedPorts|] == c.egress.allowedPorts;
      assert c.egress.allowedPorts != [] ==> c.egress.allowedPorts[0] in portSet;
      if portSet == {} {
        portSet := {443};
      }
      allow := CompileSet(re, c.egress.allow);
      ports := portSet;
      maxSessions := c.egress.maxSessions;
      if maxSessions <= 0 { maxSessions := 10000; }
    }

    /** A relay that applied `c` answers exactly what `c` allows. */
    method Allowed(re: RegexEngine, host: string, port: int) returns (ok: bool)
      ensures ok <==> port in ports && MatcherCovers(re, allow, host)
      ensures forall c: NodeConfig :: allow == MatcherOf(re, c.egress.allow) && ports == RelayPorts(c) ==>
                (ok <==> AllowedBy(re, c, host, port))
    {
      if port !in ports { return false; }
      ok := Match(re, allow, host);
    }
  }
}
