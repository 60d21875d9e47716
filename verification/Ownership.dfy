/** When a host has one owner whatever the order of the routing table. */
module Ownership {
  import opened Collections
  import opened DomainSet
  import opened Model
  import opened Conflicts
  import opened Routing

  /** `routes` is the routing table of these services, in this order. */
  ghost predicate TableOf(re: RegexEngine, services: seq<ServiceInput>, routes: seq<Route>) {
    && |routes| == |services|
    && forall i :: 0 <= i < |routes| ==>
         && routes[i].svc.priority == services[i].priority
         && routes[i].matcher == MatcherOf(re, SetOf(services[i].entries))
  }

  /** The services were accepted by the conflict check. */
  ghost predicate Accepted(services: seq<ServiceInput>) {
    forall e :: !TiedAtTop(OwnersOf(ClaimsOf(services), e))
  }

  /** The row hits the host through an exact or a suffix entry. */
  ghost predicate NamedHit(r: Route, host: string) {
    host in r.matcher.exact || HitDepth(r.matcher.suffix, host) >= 0
  }

  // ----- from services to claims -----

  lemma {:induction false} OwnersConcat(a: seq<Claim>, b: seq<Claim>, e: Entry)
    ensures OwnersOf(a + b, e) == OwnersOf(a, e) + OwnersOf(b, e)
  {
    if b == [] {
      assert a + b == a;
    } else {
      OwnersConcat(a, b[..|b| - 1], e);
      assert (a + b)[..|a + b| - 1] == a + b[..|b| - 1];
    }
  }

  lemma {:induction false} ServiceOwners(s: ServiceInput, cs: seq<Claim>, e: Entry)
    requires forall k :: 0 <= k < |cs| ==> cs[k].owner == Owner(s.slug, s.priority)
    ensures forall o :: o in OwnersOf(cs, e) ==> o.priority == s.priority
    ensures OwnersOf(cs, e) != [] <==> exists k :: 0 <= k < |cs| && cs[k].entry == e
  {
    if cs != [] {
      ServiceOwners(s, cs[..|cs| - 1], e);
    }
  }

  /** Number of claims on `e` before the services from `i` on. */
  ghost function OwnersBefore(services: seq<ServiceInput>, i: nat, e: Entry): nat
    requires i <= |services|
  {
    |OwnersOf(ClaimsOf(services[..i]), e)|
  }

  lemma OwnersAtService(services: seq<ServiceInput>, i: nat, e: Entry)
    requires i < |services|
    ensures OwnersOf(ClaimsOf(services[..i + 1]), e) ==
            OwnersOf(ClaimsOf(services[..i]), e) + OwnersOf(ServiceClaims(services[i]), e)
  {
    ClaimsStep(services, i);
    OwnersConcat(ClaimsOf(services[..i]), ServiceClaims(services[i]), e);
  }

  lemma {:induction false} OwnersPrefix(services: seq<ServiceInput>, i: nat, j: nat, e: Entry)
    requires i <= j <= |services|
    ensures OwnersOf(ClaimsOf(services[..i]), e) <= OwnersOf(ClaimsOf(services[..j]), e)
    decreases j
  {
    if i < j {
      OwnersPrefix(services, i, j - 1, e);
      OwnersAtService(services, j - 1, e);
    }
  }

  /** A service that lists `e` has a claim on it, at a place of its own, with its priority. */
  lemma ClaimPlace(services: seq<ServiceInput>, i: nat, e: Entry) returns (k: nat)
    requires i < |services| && e in services[i].entries
    ensures var os := OwnersOf(ClaimsOf(services), e);
            && OwnersBefore(services, i, e) <= k < OwnersBefore(services, i + 1, e) <= |os|
            && os[k].priority == services[i].priority
  {
    var mine := ServiceClaims(services[i]);
    var x :| 0 <= x < |services[i].entries| && services[i].entries[x] == e;
    assert mine[x].entry == e;
    ServiceOwners(services[i], mine, e);
    OwnersAtService(services, i, e);
    OwnersPrefix(services, i + 1, |services|, e);
    assert services[..|services|] == services;
    k := OwnersBefore(services, i, e);
    var own := OwnersOf(mine, e);
    assert own[0] in own;
    assert OwnersOf(ClaimsOf(services[..i + 1]), e)[k] == own[0];
  }

  /** Every claim on `e` comes from a service that lists it. */
  lemma {:induction false} ClaimSource(services: seq<ServiceInput>, e: Entry, o: Owner)
    requires o in OwnersOf(ClaimsOf(services), e)
    ensures exists i :: 0 <= i < |services| && e in services[i].entries && services[i].priority == o.priority
  {
    if services != [] {
      var n := |services| - 1;
      var front, last := services[..n], services[n];
      OwnersConcat(ClaimsOf(front), ServiceClaims(last), e);
      ServiceOwners(last, ServiceClaims(last), e);
      if o in OwnersOf(ClaimsOf(front), e) {
        ClaimSource(front, e, o);
        var i :| 0 <= i < |front| && e in front[i].entries && front[i].priority == o.priority;
        assert services[i] == front[i];
      } else {
        assert o in OwnersOf(ServiceClaims(last), e);
        var k :| 0 <= k < |ServiceClaims(last)| && ServiceClaims(last)[k].entry == e;
        assert e in last.entries;
      }
    }
  }

  /** Two services sharing an entry at a priority no claimant exceeds are a conflict. */
  lemma SharedTopIsConflict(services: seq<ServiceInput>, i: nat, j: nat, e: Entry)
    requires i < j < |services|
    requires e in services[i].entries && e in services[j].entries
    requires services[i].priority == services[j].priority
    requires forall k :: 0 <= k < |services| && e in services[k].entries ==> services[k].priority <= services[i].priority
    ensures TiedAtTop(OwnersOf(ClaimsOf(services), e))
  {
    var os := OwnersOf(ClaimsOf(services), e);
    var a := ClaimPlace(services, i, e);
    var b := ClaimPlace(services, j, e);
    OwnersPrefix(services, i + 1, j, e);
    assert a < b;
    forall k | 0 <= k < |os| ensures os[k].priority <= os[a].priority {
      assert os[k] in os;
      ClaimSource(services, e, os[k]);
    }
  }

  // ----- the entry behind a score -----

  function StripLabels(h: string, d: nat): string {
    if d == 0 || IndexDot(h) < 0 then h else StripLabels(h[IndexDot(h) + 1..], d - 1)
  }

  lemma {:induction false} HitDepthStrips(suffix: set<string>, h: string)
    ensures HitDepth(suffix, h) >= 0 ==> StripLabels(h, HitDepth(suffix, h)) in suffix
    decreases |h|
  {
    if h !in suffix && IndexDot(h) >= 0 {
      HitDepthStrips(suffix, h[IndexDot(h) + 1..]);
    }
  }

  /** A suffix entry `d` labels up stops the walk at depth `d` at the latest. */
  lemma {:induction false} StripBoundsDepth(suffix: set<string>, h: string, d: nat)
    requires StripLabels(h, d) in suffix
    ensures 0 <= HitDepth(suffix, h) <= d
    decreases d
  {
    if h !in suffix && IndexDot(h) >= 0 && d > 0 {
      StripBoundsDepth(suffix, h[IndexDot(h) + 1..], d - 1);
    }
  }

  lemma {:induction false} HitDepthBelowLabels(suffix: set<string>, h: string)
    ensures HitDepth(suffix, h) < Labels(h)
    decreases |h|
  {
    LabelsPositive(h);
    var i := IndexDot(h);
    if h !in suffix && i >= 0 {
      HitDepthBelowLabels(suffix, h[i + 1..]);
      LabelsSplit(h, i);
    }
  }

  /** The entry through which a named hit gets its score. */
  function DecidingEntry(r: Route, host: string): Entry
    requires host in r.matcher.exact || HitDepth(r.matcher.suffix, host) >= 0
  {
    if host in r.matcher.exact then Entry(KIND_EXACT, host)
    else Entry(KIND_SUFFIX, StripLabels(host, HitDepth(r.matcher.suffix, host)))
  }

  lemma RowEntries(re: RegexEngine, services: seq<ServiceInput>, routes: seq<Route>, i: nat, v: string)
    requires TableOf(re, services, routes) && i < |routes|
    ensures v in routes[i].matcher.exact <==> Entry(KIND_EXACT, v) in services[i].entries
    ensures v in routes[i].matcher.suffix <==> Entry(KIND_SUFFIX, v) in services[i].entries
  {
    ValuesOfMembers(services[i].entries, KIND_EXACT, v);
    ValuesOfMembers(services[i].entries, KIND_SUFFIX, v);
  }

  /** A row holding the deciding entry of another row scores at least as much. */
  lemma HolderScores(re: RegexEngine, services: seq<ServiceInput>, routes: seq<Route>, host: string, i: nat, j: nat)
    requires TableOf(re, services, routes) && i < |routes| && j < |routes|
    requires host != "" && Labels(host) <= 99 && NamedHit(routes[i], host)
    requires DecidingEntry(routes[i], host) in services[j].entries
    ensures Score(re, routes[j], host) >= Score(re, routes[i], host) >= 2
  {
    var e := DecidingEntry(routes[i], host);
    RowEntries(re, services, routes, j, e.value);
    HitDepthBelowLabels(routes[i].matcher.suffix, host);
    if e.kind == KIND_SUFFIX {
      StripBoundsDepth(routes[j].matcher.suffix, host, HitDepth(routes[i].matcher.suffix, host));
    }
  }

  /** What a score says about the hit, on a host of at most 99 labels. */
  lemma ScoreCases(re: RegexEngine, m: Matcher, host: string)
    requires host != "" && Labels(host) <= 99
    ensures var n := SpecificityOf(re, m, host);
            && (n == 1000 <==> host in m.exact)
            && (2 <= n <= 100 <==> host !in m.exact && HitDepth(m.suffix, host) >= 0)
            && (2 <= n <= 100 ==> HitDepth(m.suffix, host) == 100 - n)
            && (n <= 100 || n == 1000)
  {
    HitDepthBelowLabels(m.suffix, host);
  }

  /** Rows with the score of a named hit hold that hit's deciding entry. */
  lemma SameScoreSameEntry(re: RegexEngine, services: seq<ServiceInput>, routes: seq<Route>, host: string, i: nat, j: nat)
    requires TableOf(re, services, routes) && i < |routes| && j < |routes|
    requires host != "" && Labels(host) <= 99 && NamedHit(routes[i], host)
    requires Score(re, routes[j], host) == Score(re, routes[i], host)
    ensures DecidingEntry(routes[i], host) in services[j].entries
  {
    ScoreCases(re, routes[i].matcher, host);
    ScoreCases(re, routes[j].matcher, host);
    RowEntries(re, services, routes, j, DecidingEntry(routes[i], host).value);
    HitDepthStrips(routes[j].matcher.suffix, host);
  }

  /** Holding one's own deciding entry. */
  lemma DecidingEntryHeld(re: RegexEngine, services: seq<ServiceInput>, routes: seq<Route>, host: string, i: nat)
    requires TableOf(re, services, routes) && i < |routes|
    requires host != "" && Labels(host) <= 99 && NamedHit(routes[i], host)
    ensures DecidingEntry(routes[i], host) in services[i].entries
  {
    SameScoreSameEntry(re, services, routes, host, i, i);
  }

  /**
   * If the conflict check accepts the services, a host of at most 99 labels whose best
   * hit is an exact or suffix entry has exactly one maximal row.
   */
  lemma UniqueOwner(re: RegexEngine, services: seq<ServiceInput>, routes: seq<Route>, host: string, i: nat, j: nat)
    requires TableOf(re, services, routes) && Accepted(services)
    requires Labels(host) <= 99
    requires Maximal(re, routes, host, i) && NamedHit(routes[i], host)
    requires Maximal(re, routes, host, j)
    ensures i == j
  {
    if i != j {
      assert !Loses(re, routes[i], routes[j], host) && !Loses(re, routes[j], routes[i], host);
      var e := DecidingEntry(routes[i], host);
      DecidingEntryHeld(re, services, routes, host, i);
      SameScoreSameEntry(re, services, routes, host, i, j);
      forall k | 0 <= k < |services| && e in services[k].entries
        ensures services[k].priority <= services[i].priority
      {
        HolderScores(re, services, routes, host, i, k);
        assert !Loses(re, routes[i], routes[k], host);
      }
      SharedTopIsConflict(services, if i < j then i else j, if i < j then j else i, e);
    }
  }

  /** Rows of two tables for the same service score alike. */
  lemma SameServiceSameRow(re: RegexEngine, a: seq<ServiceInput>, ra: seq<Route>, i: nat,
                           b: seq<ServiceInput>, rb: seq<Route>, j: nat, host: string)
    requires TableOf(re, a, ra) && TableOf(re, b, rb)
    requires i < |a| && j < |b| && a[i] == b[j]
    ensures ra[i].matcher == rb[j].matcher && ra[i].svc.priority == rb[j].svc.priority
  {
  }

  /** A maximal row of one table is maximal wherever its service stands in a rearranged table. */
  lemma MaximalTransfers(re: RegexEngine, a: seq<ServiceInput>, ra: seq<Route>, i: nat,
                         b: seq<ServiceInput>, rb: seq<Route>, j: nat, host: string)
    requires TableOf(re, a, ra) && TableOf(re, b, rb)
    requires multiset(a) == multiset(b)
    requires j < |b| && i < |a| && a[i] == b[j]
    requires Maximal(re, rb, host, j)
    ensures Maximal(re, ra, host, i)
  {
    SameServiceSameRow(re, a, ra, i, b, rb, j, host);
    SameMultisetMembers(a, b);
    forall k | 0 <= k < |ra| ensures !Loses(re, ra[i], ra[k], host) {
      assert a[k] in b;
      var m :| 0 <= m < |b| && b[m] == a[k];
      SameServiceSameRow(re, a, ra, k, b, rb, m, host);
      assert !Loses(re, rb[j], rb[m], host);
    }
  }

  /** If no row of a table matches, none of a rearranged table does. */
  lemma NoOwnerTransfers(re: RegexEngine, a: seq<ServiceInput>, ra: seq<Route>,
                         b: seq<ServiceInput>, rb: seq<Route>, host: string)
    requires TableOf(re, a, ra) && TableOf(re, b, rb)
    requires multiset(a) == multiset(b)
    requires IsOwner(re, rb, host, None)
    ensures IsOwner(re, ra, host, None)
  {
    SameMultisetMembers(a, b);
    forall k | 0 <= k < |ra| ensures Score(re, ra[k], host) < 0 {
      assert a[k] in b;
      var m :| 0 <= m < |b| && b[m] == a[k];
      SameServiceSameRow(re, a, ra, k, b, rb, m, host);
      assert Score(re, rb[m], host) < 0;
    }
  }

  /**
   * Rearranging the services never changes the owner: over any permutation the lookup
   * returns the same service, or none in both.
   */
  lemma OwnerIgnoresOrder(re: RegexEngine, a: seq<ServiceInput>, ra: seq<Route>,
                          b: seq<ServiceInput>, rb: seq<Route>, host: string,
                          oa: Option<nat>, ob: Option<nat>)
    requires TableOf(re, a, ra) && TableOf(re, b, rb)
    requires multiset(a) == multiset(b) && Accepted(a)
    requires Labels(host) <= 99
    requires IsOwner(re, ra, host, oa) && IsOwner(re, rb, host, ob)
    requires oa.Some? ==> NamedHit(ra[oa.value], host)
    ensures oa.Some? <==> ob.Some?
    ensures oa.Some? ==> a[oa.value] == b[ob.value]
  {
    SameMultisetMembers(a, b);
    if oa.None? {
      NoOwnerTransfers(re, b, rb, a, ra, host);
      OwnerUnique(re, rb, host, ob, None);
    } else if ob.None? {
      NoOwnerTransfers(re, a, ra, b, rb, host);
      OwnerUnique(re, ra, host, oa, None);
    } else {
      assert b[ob.value] in a;
      var i :| 0 <= i < |a| && a[i] == b[ob.value];
      MaximalTransfers(re, a, ra, i, b, rb, ob.value, host);
      UniqueOwner(re, a, ra, host, oa.value, i);
    }
  }

  // ----- exactly when there is a tie -----

  /** Without a named hit a row scores 1 or does not match. */
  lemma UnnamedScore(re: RegexEngine, r: Route, host: string)
    requires Labels(host) <= 99
    ensures Score(re, r, host) >= 0 ==> host != "" && (NamedHit(r, host) || Score(re, r, host) == 1)
    ensures NamedHit(r, host) && host != "" ==> Score(re, r, host) >= 2
  {
    HitDepthBelowLabels(r.matcher.suffix, host);
  }

  /** Both rows match by a pattern alone, with a priority no other such row exceeds, and no row matches better. */
  ghost predicate PatternTie(re: RegexEngine, routes: seq<Route>, host: string, i: nat, j: nat)
    requires i < |routes| && j < |routes|
  {
    && Score(re, routes[i], host) == 1 && Score(re, routes[j], host) == 1
    && routes[i].svc.priority == routes[j].svc.priority
    && forall k :: 0 <= k < |routes| ==>
         Score(re, routes[k], host) <= 1
         && (Score(re, routes[k], host) == 1 ==> routes[k].svc.priority <= routes[i].svc.priority)
  }

  /**
   * Exactly when two rows of a table tie although the conflict check accepted its services:
   * on hosts of at most 99 labels, when both match by a pattern only, at the highest priority
   * that does, and no row matches by name.
   */
  lemma TieIff(re: RegexEngine, services: seq<ServiceInput>, routes: seq<Route>, host: string, i: nat, j: nat)
    requires TableOf(re, services, routes) && Accepted(services)
    requires Labels(host) <= 99 && i < j < |routes|
    ensures Maximal(re, routes, host, i) && Maximal(re, routes, host, j) <==> PatternTie(re, routes, host, i, j)
  {
    hide SpecificityOf, TableOf, Accepted, NamedHit;
    if Maximal(re, routes, host, i) && Maximal(re, routes, host, j) {
      assert !Loses(re, routes[i], routes[j], host) && !Loses(re, routes[j], routes[i], host);
      UnnamedScore(re, routes[i], host);
      if NamedHit(routes[i], host) { UniqueOwner(re, services, routes, host, i, j); }
      forall k | 0 <= k < |routes|
        ensures Score(re, routes[k], host) <= 1
        ensures Score(re, routes[k], host) == 1 ==> routes[k].svc.priority <= routes[i].svc.priority {
        assert !Loses(re, routes[i], routes[k], host);
      }
    }
  }

  /**
   * Both rows hit the host through the same named entry, with the same priority; no row
   * scores higher, and none that lists the entry has a higher priority.
   */
  ghost predicate NamedTie(re: RegexEngine, services: seq<ServiceInput>, routes: seq<Route>, host: string, i: nat, j: nat)
    requires |routes| == |services| && i < |routes| && j < |routes|
  {
    && host != "" && NamedHit(routes[i], host) && NamedHit(routes[j], host)
    && DecidingEntry(routes[i], host) == DecidingEntry(routes[j], host)
    && routes[i].svc.priority == routes[j].svc.priority
    && forall k :: 0 <= k < |routes| ==>
         Score(re, routes[k], host) <= Score(re, routes[i], host)
         && (DecidingEntry(routes[i], host) in services[k].entries ==> routes[k].svc.priority <= routes[i].svc.priority)
  }

  lemma SameScoreSameDecider(re: RegexEngine, a: Route, b: Route, host: string)
    requires host != "" && Labels(host) <= 99 && NamedHit(a, host) && NamedHit(b, host)
    requires Score(re, a, host) == Score(re, b, host)
    ensures DecidingEntry(a, host) == DecidingEntry(b, host)
  {
    ScoreCases(re, a.matcher, host);
    ScoreCases(re, b.matcher, host);
  }

  lemma NamedTieIsMaximal(re: RegexEngine, services: seq<ServiceInput>, routes: seq<Route>, host: string, i: nat, j: nat)
    requires TableOf(re, services, routes) && Labels(host) <= 99 && i < |routes| && j < |routes|
    requires NamedTie(re, services, routes, host, i, j)
    ensures Maximal(re, routes, host, i) && Maximal(re, routes, host, j)
  {
    DecidingEntryHeld(re, services, routes, host, j);
    HolderScores(re, services, routes, host, i, j);
    forall k | 0 <= k < |routes| ensures !Loses(re, routes[i], routes[k], host) {
      if Score(re, routes[k], host) == Score(re, routes[i], host) {
        SameScoreSameEntry(re, services, routes, host, i, k);
      }
    }
    hide SpecificityOf, TableOf, NamedHit, DecidingEntry;
  }

  /**
   * Exactly when two rows of any table tie, accepted or not, on a host of at most 99 labels:
   * through one named entry, or by patterns.
   */
  lemma AnyTieIff(re: RegexEngine, services: seq<ServiceInput>, routes: seq<Route>, host: string, i: nat, j: nat)
    requires TableOf(re, services, routes) && Labels(host) <= 99 && i < j < |routes|
    ensures Maximal(re, routes, host, i) && Maximal(re, routes, host, j) <==>
            NamedTie(re, services, routes, host, i, j) || PatternTie(re, routes, host, i, j)
  {
    if Maximal(re, routes, host, i) && Maximal(re, routes, host, j) {
      assert !Loses(re, routes[i], routes[j], host) && !Loses(re, routes[j], routes[i], host);
      UnnamedScore(re, routes[i], host);
      UnnamedScore(re, routes[j], host);
      forall k | 0 <= k < |routes| ensures !Loses(re, routes[i], routes[k], host) { }
      if NamedHit(routes[i], host) {
        SameScoreSameDecider(re, routes[i], routes[j], host);
        forall k | 0 <= k < |routes| && DecidingEntry(routes[i], host) in services[k].entries
          ensures routes[k].svc.priority <= routes[i].svc.priority {
          HolderScores(re, services, routes, host, i, k);
        }
      }
    }
    if NamedTie(re, services, routes, host, i, j) {
      NamedTieIsMaximal(re, services, routes, host, i, j);
    }
    hide SpecificityOf, TableOf, NamedHit, DecidingEntry;
  }

  // ----- what the check means for a table -----

  /** Rules for names only, each listed once, of at most 98 labels. */
  predicate PlainRules(es: seq<Entry>) {
    && (forall i, j :: 0 <= i < j < |es| ==> es[i] != es[j])
    && forall e :: e in es ==> e.kind in {KIND_EXACT, KIND_SUFFIX} && e.value != "" && Labels(e.value) <= 98
  }

  predicate AllPlain(services: seq<ServiceInput>) {
    forall s :: s in services ==> PlainRules(s.entries)
  }

  lemma {:induction false} ListedOnce(cs: seq<Claim>, e: Entry)
    requires forall i, j :: 0 <= i < j < |cs| ==> cs[i].entry != cs[j].entry
    ensures |OwnersOf(cs, e)| <= 1
    ensures OwnersOf(cs, e) != [] ==> exists k :: 0 <= k < |cs| && cs[k].entry == e
    decreases |cs|
  {
    if cs != [] {
      var front := cs[..|cs| - 1];
      ListedOnce(front, e);
      assert forall k :: 0 <= k < |front| ==> front[k] == cs[k];
    }
  }

  /** The claims of the last service, which lists an entry at most once. */
  lemma LastClaims(services: seq<ServiceInput>, e: Entry)
    requires services != [] && AllPlain(services)
    ensures var front, last := services[..|services| - 1], services[|services| - 1];
            var own := OwnersOf(ServiceClaims(last), e);
            && AllPlain(front) && OwnersOf(ClaimsOf(services), e) == OwnersOf(ClaimsOf(front), e) + own
            && |own| <= 1 && (own != [] ==> e in last.entries) && forall o :: o in own ==> o.priority == last.priority
  {
    var front, last := services[..|services| - 1], services[|services| - 1];
    OwnersConcat(ClaimsOf(front), ServiceClaims(last), e);
    assert last in services && PlainRules(last.entries);
    ListedOnce(ServiceClaims(last), e);
    ServiceOwners(last, ServiceClaims(last), e);
    assert forall s :: s in front ==> s in services;
    hide OwnersOf, PlainRules;
  }

  lemma Claimant(services: seq<ServiceInput>, e: Entry, o: Owner) returns (i: nat)
    requires o in OwnersOf(ClaimsOf(services), e)
    ensures i < |services| && e in services[i].entries && services[i].priority == o.priority
  {
    ClaimSource(services, e, o);
    i :| i < |services| && e in services[i].entries && services[i].priority == o.priority;
  }

  /** The services behind two claims on an entry that each service lists once. */
  lemma {:induction false} TwoClaimants(services: seq<ServiceInput>, e: Entry, x: nat, y: nat) returns (i: nat, j: nat)
    requires AllPlain(services) && x < y < |OwnersOf(ClaimsOf(services), e)|
    ensures i < j < |services| && e in services[i].entries && e in services[j].entries
    ensures var os := OwnersOf(ClaimsOf(services), e);
            services[i].priority == os[x].priority && services[j].priority == os[y].priority
    decreases |services|
  {
    NoOwners(e);
    var n := |services| - 1;
    var front, last := services[..n], services[n];
    LastClaims(services, e);
    hide *;
    var before, own := OwnersOf(ClaimsOf(front), e), OwnersOf(ServiceClaims(last), e);
    if y < |before| {
      i, j := TwoClaimants(front, e, x, y);
    } else {
      j := n;
      i := Claimant(front, e, before[x]);
      assert (before + own)[y] == own[y - |before|] && own[y - |before|] in own;
    }
    assert i < n && services[i] == front[i];
  }

  /** A label of `n` characters. */
  function LongLabel(n: nat): (l: string)
    ensures |l| == n && '.' !in l
  {
    seq(n, _ => 'x')
  }

  ghost predicate ShorterThan(services: seq<ServiceInput>, n: nat) {
    forall s, e :: s in services && e in s.entries ==> |e.value| < n
  }

  lemma {:induction false} LongestValue(es: seq<Entry>) returns (n: nat)
    ensures forall e :: e in es ==> |e.value| < n
    decreases |es|
  {
    n := 0;
    if es != [] {
      var m := LongestValue(es[1..]);
      n := Max(m, |es[0].value| + 1);
      assert es == [es[0]] + es[1..];
    }
  }

  lemma {:induction false} LongestOfAll(services: seq<ServiceInput>) returns (n: nat)
    ensures ShorterThan(services, n)
    decreases |services|
  {
    n := 0;
    if services != [] {
      var m := LongestOfAll(services[1..]);
      var k := LongestValue(services[0].entries);
      n := Max(m, k);
      assert services == [services[0]] + services[1..];
    }
  }

  lemma {:induction false} LabelsBelow(l: string, v: string)
    requires '.' !in l
    ensures Labels(l + "." + v) == Labels(v) + 1
    ensures IndexDot(l + "." + v) == |l| && (l + "." + v)[|l| + 1..] == v
  {
    var h := l + "." + v;
    assert h[|l|] == '.' && forall k :: 0 <= k < |l| ==> h[k] == l[k];
    assert h[|l| + 1..] == v;
    LabelsSplit(h, |l|);
  }

  /** The best rows for the host, scoring `top`, are those listing the entry. */
  ghost predicate BestList(re: RegexEngine, services: seq<ServiceInput>, routes: seq<Route>, host: string, e: Entry, top: nat) {
    |routes| == |services| && forall k :: 0 <= k < |routes| ==>
      Score(re, routes[k], host) <= top && (Score(re, routes[k], host) == top <==> e in services[k].entries)
  }

  /** A host whose best rows are those listing the entry: the value itself, or a new name below it. */
  lemma Witness(re: RegexEngine, services: seq<ServiceInput>, routes: seq<Route>, e: Entry) returns (host: string, top: nat)
    requires TableOf(re, services, routes)
    requires e.kind in {KIND_EXACT, KIND_SUFFIX} && e.value != "" && Labels(e.value) <= 98
    ensures Labels(host) <= 99 && BestList(re, services, routes, host, e, top)
  {
    if e.kind == KIND_EXACT {
      host, top := e.value, 1000;
      forall k | 0 <= k < |routes|
        ensures Score(re, routes[k], host) <= 1000 && (Score(re, routes[k], host) == 1000 <==> e in services[k].entries) {
        RowEntries(re, services, routes, k, host);
        ScoreCases(re, routes[k].matcher, host);
      }
    } else {
      var n := LongestOfAll(services);
      host, top := LongLabel(n) + "." + e.value, 99;
      LabelsBelow(LongLabel(n), e.value);
      forall k | 0 <= k < |routes|
        ensures Score(re, routes[k], host) <= 99 && (Score(re, routes[k], host) == 99 <==> e in services[k].entries) {
        BelowScore(re, services, routes, host, e.value, n, k);
      }
    }
  }

  /** The score of a new name one label below a value. */
  lemma BelowScore(re: RegexEngine, services: seq<ServiceInput>, routes: seq<Route>, host: string, v: string, n: nat, k: nat)
    requires TableOf(re, services, routes) && ShorterThan(services, n) && k < |routes|
    requires |host| > n && Labels(host) <= 99 && IndexDot(host) >= 0 && host[IndexDot(host) + 1..] == v
    ensures Score(re, routes[k], host) <= 99
    ensures Score(re, routes[k], host) == 99 <==> Entry(KIND_SUFFIX, v) in services[k].entries
  {
    var m := routes[k].matcher;
    RowEntries(re, services, routes, k, host);
    RowEntries(re, services, routes, k, v);
    assert services[k] in services;
    assert Entry(KIND_EXACT, host) !in services[k].entries && Entry(KIND_SUFFIX, host) !in services[k].entries;
    ScoreCases(re, m, host);
    assert HitDepth(m.suffix, host) == 1 <==> HitDepth(m.suffix, v) == 0;
    assert HitDepth(m.suffix, v) == 0 <==> v in m.suffix;
  }

  /** No host of at most 99 labels has two best rows. */
  ghost predicate NoTies(re: RegexEngine, routes: seq<Route>) {
    forall host, i: nat, j: nat :: Labels(host) <= 99 && Maximal(re, routes, host, i) && Maximal(re, routes, host, j) ==> i == j
  }

  lemma TieFound(re: RegexEngine, services: seq<ServiceInput>, routes: seq<Route>, e: Entry)
    requires TableOf(re, services, routes) && AllPlain(services) && TiedAtTop(OwnersOf(ClaimsOf(services), e))
    ensures !NoTies(re, routes)
  {
    var i, j := TiedServices(services, e);
    assert services[i] in services && PlainRules(services[i].entries);
    var host, top := Witness(re, services, routes, e);
    hide TiedAtTop, ClaimsOf, OwnersOf, AllPlain, SpecificityOf, Labels, NoTies;
    assert Maximal(re, routes, host, i) && Maximal(re, routes, host, j);
    TwoBest(re, routes, host, i, j);
  }

  lemma TwoBest(re: RegexEngine, routes: seq<Route>, host: string, i: nat, j: nat)
    requires Labels(host) <= 99 && i < j && Maximal(re, routes, host, i) && Maximal(re, routes, host, j)
    ensures !NoTies(re, routes)
  {
  }

  /** A tied entry is shared by two services at a priority no other that lists it exceeds. */
  lemma TiedServices(services: seq<ServiceInput>, e: Entry) returns (i: nat, j: nat)
    requires AllPlain(services) && TiedAtTop(OwnersOf(ClaimsOf(services), e))
    ensures i < j < |services| && e in services[i].entries && e in services[j].entries
    ensures services[i].priority == services[j].priority
    ensures forall k :: 0 <= k < |services| && e in services[k].entries ==> services[k].priority <= services[i].priority
  {
    var os := OwnersOf(ClaimsOf(services), e);
    var x, y :| 0 <= x < y < |os| && os[x].priority == os[y].priority
      && forall k :: 0 <= k < |os| ==> os[k].priority <= os[x].priority;
    hide ClaimsOf, OwnersOf, AllPlain;
    i, j := TwoClaimants(services, e, x, y);
    forall k | 0 <= k < |services| && e in services[k].entries ensures services[k].priority <= os[x].priority {
      var c := ClaimPlace(services, k, e);
    }
  }

  /** A row of plain rules matches by name only. */
  lemma PlainHits(re: RegexEngine, services: seq<ServiceInput>, routes: seq<Route>, host: string, i: nat)
    requires TableOf(re, services, routes) && AllPlain(services) && i < |routes| && Score(re, routes[i], host) >= 0
    ensures NamedHit(routes[i], host)
  {
    assert services[i] in services && PlainRules(services[i].entries);
    assert KIND_EXACT[0] != KIND_REGEX[0] && KIND_SUFFIX[0] != KIND_REGEX[0];
    var patterns := ValuesOf(services[i].entries, KIND_REGEX);
    if patterns != [] {
      ValuesOfMembers(services[i].entries, KIND_REGEX, patterns[0]);
    }
    assert patterns == [];
  }

  /**
   * For the list behind any table, be it all services or those one node carries: where the
   * rules are names of at most 98 labels, each listed once by a service, the list would pass
   * the conflict check if and only if no host of at most 99 labels has two best rows.
   */
  lemma AcceptedIffNoTies(re: RegexEngine, services: seq<ServiceInput>, routes: seq<Route>)
    requires TableOf(re, services, routes) && AllPlain(services)
    ensures Accepted(services) <==> NoTies(re, routes)
  {
    if Accepted(services) {
      forall host, i: nat, j: nat | Labels(host) <= 99 && Maximal(re, routes, host, i) && Maximal(re, routes, host, j) ensures i == j {
        PlainHits(re, services, routes, host, i);
        UniqueOwner(re, services, routes, host, i, j);
      }
    }
    if NoTies(re, routes) {
      forall e ensures !TiedAtTop(OwnersOf(ClaimsOf(services), e)) {
        if TiedAtTop(OwnersOf(ClaimsOf(services), e)) { TieFound(re, services, routes, e); }
      }
    }
  }

  // ----- where the claim stops -----

  function PlainService(slug: string, priority: int, entries: seq<Entry>): ServiceInput {
    ServiceInput(slug, slug, priority, 60, [], "", entries, "", [], [], "",
                 EgressPolicy("", [], 0, 0, 0, 0, 0))
  }

  function RowOf(re: RegexEngine, s: ServiceInput): Route {
    Route(Service(s.slug, s.name, s.priority, 60, [443], "", SetOf(s.entries), "", [], [], s.policy),
          MatcherOf(re, SetOf(s.entries)))
  }

  /** The claims of a service with one rule on an entry. */
  function Single(s: ServiceInput, e: Entry): seq<Owner>
    requires |s.entries| == 1
  {
    if s.entries[0] == e then [Owner(s.slug, s.priority)] else []
  }

  lemma OneClaim(s: ServiceInput, e: Entry)
    requires |s.entries| == 1
    ensures OwnersOf(ServiceClaims(s), e) == Single(s, e)
  {
    assert ServiceClaims(s)[..0] == [];
  }

  /** Adding a one-rule service at the end adds its claim. */
  lemma OwnersWithOneMore(services: seq<ServiceInput>, s: ServiceInput, e: Entry)
    requires |s.entries| == 1
    ensures OwnersOf(ClaimsOf(services + [s]), e) == OwnersOf(ClaimsOf(services), e) + Single(s, e)
  {
    hide ServiceClaims;
    assert (services + [s])[..|services|] == services;
    OwnersConcat(ClaimsOf(services), ServiceClaims(s), e);
    OneClaim(s, e);
  }

  lemma OneValue(e: Entry, kind: string)
    ensures ValuesOf([e], kind) == if e.kind == kind then [e.value] else []
  {
    assert [e][..0] == [];
  }

  lemma PatternSet(pattern: string)
    ensures SetOf([Entry(KIND_REGEX, pattern)]) == DomSet([], [], [pattern])
  {
    var e := Entry(KIND_REGEX, pattern);
    OneValue(e, KIND_EXACT);
    OneValue(e, KIND_SUFFIX);
    OneValue(e, KIND_REGEX);
    assert KIND_EXACT[0] != KIND_REGEX[0] && KIND_SUFFIX[0] != KIND_REGEX[0];
  }

  lemma FilterOne<T>(x: T, keep: T -> bool)
    ensures Filter([x], keep) == if keep(x) then [x] else []
  {
    assert [x][..0] == [];
  }

  lemma OnePattern(re: RegexEngine, pattern: string, host: string)
    requires host != "" && re.compiles(pattern) && re.accepts(pattern, host)
    ensures SpecificityOf(re, MatcherOf(re, SetOf([Entry(KIND_REGEX, pattern)])), host) == 1
  {
    PatternSet(pattern);
    FilterOne(pattern, re.compiles);
    var m := MatcherOf(re, DomSet([], [], [pattern]));
    HitDepthIsLongest(m.suffix, host);
    assert re.accepts(m.regex[0], host);
  }

  lemma TwoPatternsAccepted(s: ServiceInput, t: ServiceInput)
    requires |s.entries| == 1 && |t.entries| == 1 && s.entries[0] != t.entries[0]
    ensures Accepted([s, t])
  {
    hide ClaimsOf, OwnersOf;
    assert [] + [s] == [s] && [s] + [t] == [s, t];
    forall e ensures !TiedAtTop(OwnersOf(ClaimsOf([s, t]), e)) {
      NoOwners(e);
      OwnersWithOneMore([], s, e);
      OwnersWithOneMore([s], t, e);
    }
  }

  lemma NoOwners(e: Entry)
    ensures OwnersOf(ClaimsOf([]), e) == []
  {
  }

  /**
   * Pattern ties exist: two different patterns that accept one host pass the conflict check at
   * equal priority, both rows are best, and the first one in the table is the owner. The
   * compiler puts the row with the lesser slug first.
   */
  lemma PatternsMayTie(re: RegexEngine, host: string)
    requires host != ""
    requires re.compiles("a") && re.compiles("b") && re.accepts("a", host) && re.accepts("b", host)
    ensures var s, t := PlainService("s", 1, [Entry(KIND_REGEX, "a")]), PlainService("t", 1, [Entry(KIND_REGEX, "b")]);
            var st, ts := [RowOf(re, s), RowOf(re, t)], [RowOf(re, t), RowOf(re, s)];
            && Accepted([s, t]) && StringLess(s.slug, t.slug)
            && PatternTie(re, st, host, 0, 1)
            && IsOwner(re, st, host, Some(0)) && IsOwner(re, ts, host, Some(0))
  {
    var s, t := PlainService("s", 1, [Entry(KIND_REGEX, "a")]), PlainService("t", 1, [Entry(KIND_REGEX, "b")]);
    assert "a"[0] != "b"[0];
    TwoPatternsAccepted(s, t);
    OnePattern(re, "a", host);
    OnePattern(re, "b", host);
    assert Score(re, RowOf(re, s), host) == 1 && Score(re, RowOf(re, t), host) == 1;
    hide SpecificityOf, MatcherOf, TiedAtTop;
  }

  lemma ThreeClaimsAccepted(top: ServiceInput, s: ServiceInput, t: ServiceInput)
    requires |top.entries| == 1 && s.entries == top.entries && t.entries == top.entries
    requires top.priority > s.priority && top.priority > t.priority
    ensures Accepted([top, s, t])
  {
    hide ClaimsOf, OwnersOf;
    assert [] + [top] == [top] && [top] + [s] == [top, s] && [top, s] + [t] == [top, s, t];
    forall e ensures !TiedAtTop(OwnersOf(ClaimsOf([top, s, t]), e)) {
      NoOwners(e);
      OwnersWithOneMore([], top, e);
      OwnersWithOneMore([top], s, e);
      OwnersWithOneMore([top, s], t, e);
      var os := OwnersOf(ClaimsOf([top, s, t]), e);
      assert os != [] ==> os[0].priority == top.priority && os[1].priority == s.priority && os[2].priority == t.priority;
    }
  }

  /**
   * The check looks at the highest claimants only, so a node that carries just the lower
   * ones, a list that would not pass, may still hold a tie.
   */
  lemma LowerClaimantsMayTie(re: RegexEngine, host: string)
    requires host != ""
    ensures var es := [Entry(KIND_EXACT, host)];
            var top, s, t := PlainService("top", 10, es), PlainService("s", 5, es), PlainService("t", 5, es);
            && Accepted([top, s, t]) && !Accepted([s, t])
            && Maximal(re, [RowOf(re, s), RowOf(re, t)], host, 0)
            && Maximal(re, [RowOf(re, s), RowOf(re, t)], host, 1)
  {
    var es := [Entry(KIND_EXACT, host)];
    var top, s, t := PlainService("top", 10, es), PlainService("s", 5, es), PlainService("t", 5, es);
    ThreeClaimsAccepted(top, s, t);
    SharedTopIsConflict([s, t], 0, 1, es[0]);
    ValuesOfMembers(es, KIND_EXACT, host);
    assert Score(re, RowOf(re, s), host) == 1000 && Score(re, RowOf(re, t), host) == 1000;
  }
}
