/** Services as handed to the compiler, and the check that no rule has two equal owners. */
module Conflicts {
  import opened Collections
  import opened DomainSet
  import opened Model

  datatype EgressMember = EgressMember(nodeId: string, priority: int, weight: int)

  datatype ServiceInput = ServiceInput(
    slug: string, name: string, priority: int, ttl: nat, allowedPorts: seq<int>, udpMode: string,
    entries: seq<Entry>, ruleSetHash: string, ingressNodes: seq<string>,
    egressMembers: seq<EgressMember>, egressMode: string, policy: EgressPolicy)

  datatype Owner = Owner(slug: string, priority: int)
  datatype Claim = Claim(entry: Entry, owner: Owner)
  datatype Conflict = Conflict(entry: Entry, services: seq<string>, priority: int)

  function ServiceClaims(s: ServiceInput): (cs: seq<Claim>)
    ensures |cs| == |s.entries|
  {
    seq(|s.entries|, i requires 0 <= i < |s.entries| => Claim(s.entries[i], Owner(s.slug, s.priority)))
  }

  /** Every rule of every service, in order. */
  function ClaimsOf(services: seq<ServiceInput>): seq<Claim> {
    if services == [] then [] else ClaimsOf(services[..|services| - 1]) + ServiceClaims(services[|services| - 1])
  }

  function OwnersOf(claims: seq<Claim>, e: Entry): seq<Owner> {
    if claims == [] then []
    else
      var c := claims[|claims| - 1];
      OwnersOf(claims[..|claims| - 1], e) + (if c.entry == e then [c.owner] else [])
  }

  /** Two claims share the highest priority. */
  ghost predicate TiedAtTop(os: seq<Owner>) {
    exists i, j :: 0 <= i < j < |os| && os[i].priority == os[j].priority
      && forall k :: 0 <= k < |os| ==> os[k].priority <= os[i].priority
  }

  function AtPriority(p: int): Owner -> bool {
    (o: Owner) => o.priority == p
  }

  /** Two elements pass a filter exactly when two positions do. */
  lemma {:induction false} FilterHasTwo(os: seq<Owner>, keep: Owner -> bool)
    ensures |Filter(os, keep)| > 0 <==> exists i :: 0 <= i < |os| && keep(os[i])
    ensures |Filter(os, keep)| > 1 <==> exists i, j :: 0 <= i < j < |os| && keep(os[i]) && keep(os[j])
  {
    if os != [] {
      var front, last := os[..|os| - 1], os[|os| - 1];
      FilterHasTwo(front, keep);
      assert forall i :: 0 <= i < |front| ==> front[i] == os[i];
      if i :| 0 <= i < |front| && keep(front[i]) {
        assert keep(os[i]);
        if keep(last) { assert keep(os[|os| - 1]); }
      }
      if |Filter(front, keep)| > 1 {
        var i, j :| 0 <= i < j < |front| && keep(front[i]) && keep(front[j]);
        assert keep(os[i]) && keep(os[j]);
      }
      if i, j :| 0 <= i < j < |os| && keep(os[i]) && keep(os[j]) {
        assert keep(front[i]);
        if j < |front| { assert keep(front[j]); }
      }
    }
  }

  lemma TiedIffTwo(os: seq<Owner>, top: int)
    requires forall k :: 0 <= k < |os| ==> os[k].priority <= top
    requires exists k :: 0 <= k < |os| && os[k].priority == top
    ensures |Filter(os, AtPriority(top))| > 1 <==> TiedAtTop(os)
  {
    FilterHasTwo(os, AtPriority(top));
    if |Filter(os, AtPriority(top))| > 1 {
      var i, j :| 0 <= i < j < |os| && AtPriority(top)(os[i]) && AtPriority(top)(os[j]);
      assert os[i].priority == os[j].priority;
    }
    if TiedAtTop(os) {
      var i, j :| 0 <= i < j < |os| && os[i].priority == os[j].priority
        && forall k :: 0 <= k < |os| ==> os[k].priority <= os[i].priority;
      assert AtPriority(top)(os[i]) && AtPriority(top)(os[j]);
    }
  }

  method TopPriority(os: seq<Owner>) returns (top: int)
    requires os != []
    ensures forall k :: 0 <= k < |os| ==> os[k].priority <= top
    ensures exists k :: 0 <= k < |os| && os[k].priority == top
  {
    top := os[0].priority;
    for i := 0 to |os|
      invariant forall k :: 0 <= k < i ==> os[k].priority <= top
      invariant exists k :: 0 <= k < |os| && os[k].priority == top
    {
      if os[i].priority > top { top := os[i].priority; }
    }
  }

  /** The highest priority claimed. */
  ghost predicate IsTop(os: seq<Owner>, top: int) {
    (forall k :: 0 <= k < |os| ==> os[k].priority <= top) && exists k :: 0 <= k < |os| && os[k].priority == top
  }

  /** The slugs of the claims at a priority, in order. */
  function SlugsAt(os: seq<Owner>, p: int): (slugs: seq<string>)
    ensures |slugs| == |Filter(os, AtPriority(p))|
  {
    if os == [] then []
    else SlugsAt(os[..|os| - 1], p) + (if os[|os| - 1].priority == p then [os[|os| - 1].slug] else [])
  }

  lemma {:induction false} SlugsAtMembers(os: seq<Owner>, p: int, slug: string)
    ensures slug in SlugsAt(os, p) <==> Owner(slug, p) in os
  {
    if os != [] {
      var n := |os| - 1;
      SlugsAtMembers(os[..n], p, slug);
      assert os == os[..n] + [os[n]];
    }
  }

  /** The owners tied at the highest priority; more than one of them is a conflict. */
  method TopOwners(os: seq<Owner>) returns (top: int, tied: seq<string>)
    requires os != []
    ensures IsTop(os, top) && tied == SlugsAt(os, top)
    ensures |tied| > 1 <==> TiedAtTop(os)
  {
    top := TopPriority(os);
    tied := [];
    for i := 0 to |os|
      invariant tied == SlugsAt(os[..i], top)
    {
      assert os[..i + 1][..i] == os[..i];
      if os[i].priority == top { tied := tied + [os[i].slug]; }
    }
    assert os[..|os|] == os;
    TiedIffTwo(os, top);
  }

  function OwnersAt(claims: map<Entry, seq<Owner>>, e: Entry): seq<Owner> {
    if e in claims then claims[e] else []
  }

  lemma OwnersStep(claims: seq<Claim>, c: Claim, e: Entry)
    ensures OwnersOf(claims + [c], e) == OwnersOf(claims, e) + (if c.entry == e then [c.owner] else [])
  {
    assert (claims + [c])[..|claims|] == claims;
  }

  /** `table` holds the owners of every entry claimed so far. */
  ghost predicate Tabulates(table: map<Entry, seq<Owner>>, claims: seq<Claim>) {
    && (forall e :: OwnersAt(table, e) == OwnersOf(claims, e))
    && (forall e :: e in table ==> table[e] != [])
  }

  method AddClaim(table: map<Entry, seq<Owner>>, ghost claims: seq<Claim>, c: Claim)
    returns (table': map<Entry, seq<Owner>>)
    requires Tabulates(table, claims)
    ensures Tabulates(table', claims + [c])
  {
    table' := table[c.entry := OwnersAt(table, c.entry) + [c.owner]];
    forall e ensures OwnersAt(table', e) == OwnersOf(claims + [c], e) {
      OwnersStep(claims, c, e);
      assert OwnersAt(table, e) == OwnersOf(claims, e);
    }
  }

  method AddService(table: map<Entry, seq<Owner>>, ghost before: seq<Claim>, s: ServiceInput)
    returns (table': map<Entry, seq<Owner>>)
    requires Tabulates(table, before)
    ensures Tabulates(table', before + ServiceClaims(s))
  {
    ghost var mine := ServiceClaims(s);
    table' := table;
    assert before + mine[..0] == before;
    for j := 0 to |s.entries|
      invariant Tabulates(table', before + mine[..j])
    {
      table' := AddClaim(table', before + mine[..j], Claim(s.entries[j], Owner(s.slug, s.priority)));
      assert before + mine[..j] + [mine[j]] == before + mine[..j + 1];
    }
    assert mine[..|s.entries|] == mine;
  }

  lemma ClaimsStep(services: seq<ServiceInput>, i: nat)
    requires i < |services|
    ensures ClaimsOf(services[..i + 1]) == ClaimsOf(services[..i]) + ServiceClaims(services[i])
  {
    assert services[..i + 1][..i] == services[..i];
  }

  method CollectClaims(services: seq<ServiceInput>) returns (table: map<Entry, seq<Owner>>)
    ensures Tabulates(table, ClaimsOf(services))
  {
    table := map[];
    for i := 0 to |services|
      invariant Tabulates(table, ClaimsOf(services[..i]))
    {
      table := AddService(table, ClaimsOf(services[..i]), services[i]);
      ClaimsStep(services, i);
    }
    assert services[..|services|] == services;
  }

  /** The conflict names the top priority of its entry and, sorted, the slugs of the claims at it. */
  ghost predicate Tells(c: Conflict, os: seq<Owner>) {
    IsTop(os, c.priority) && c.services == Sort(SlugsAt(os, c.priority), StringLess)
  }

  ghost predicate AllTell(conflicts: seq<Conflict>, owners: Entry -> seq<Owner>) {
    forall c :: c in conflicts ==> Tells(c, owners(c.entry))
  }

  ghost predicate Reported(conflicts: seq<Conflict>, e: Entry) {
    exists c :: c in conflicts && c.entry == e
  }

  lemma ReportedStep(conflicts: seq<Conflict>, c: Conflict)
    ensures forall e :: Reported(conflicts + [c], e) <==> Reported(conflicts, e) || e == c.entry
  {
    assert c in conflicts + [c];
    forall e ensures Reported(conflicts + [c], e) <==> Reported(conflicts, e) || e == c.entry {
      if d :| d in conflicts && d.entry == e { assert d in conflicts + [c]; }
    }
  }

  predicate ConflictBefore(a: Conflict, b: Conflict) {
    StringLess(a.entry.value, b.entry.value)
  }

  lemma ReportedSorted(conflicts: seq<Conflict>)
    ensures forall e :: Reported(Sort(conflicts, ConflictBefore), e) <==> Reported(conflicts, e)
    ensures Sort(conflicts, ConflictBefore) == [] <==> forall e :: !Reported(conflicts, e)
  {
    var sorted := Sort(conflicts, ConflictBefore);
    SortMultiset(conflicts, ConflictBefore);
    SameMultisetMembers(conflicts, sorted);
    forall e ensures Reported(sorted, e) <==> Reported(conflicts, e) {
      if c :| c in conflicts && c.entry == e { assert c in sorted; }
      if c :| c in sorted && c.entry == e { assert c in conflicts; }
    }
    if conflicts != [] {
      assert conflicts[0] in conflicts;
      assert Reported(conflicts, conflicts[0].entry);
    }
  }

  ghost predicate OncePerEntry(conflicts: seq<Conflict>) {
    forall i, j :: 0 <= i < j < |conflicts| ==> conflicts[i].entry != conflicts[j].entry
  }

  method FindTies(claims: map<Entry, seq<Owner>>) returns (found: seq<Conflict>)
    requires forall e :: e in claims ==> claims[e] != []
    ensures forall e :: Reported(found, e) <==> TiedAtTop(OwnersAt(claims, e))
    ensures OncePerEntry(found) && AllTell(found, e => OwnersAt(claims, e))
  {
    found := [];
    var rest := claims.Keys;
    while rest != {}
      invariant rest <= claims.Keys
      invariant forall e :: Reported(found, e) <==> e in claims && e !in rest && TiedAtTop(claims[e])
      invariant OncePerEntry(found) && AllTell(found, e => OwnersAt(claims, e))
      decreases |rest|
    {
      var e :| e in rest;
      var top, tied := TopOwners(claims[e]);
      if |tied| > 1 {
        var c := Conflict(e, Sort(tied, StringLess), top);
        assert Tells(c, OwnersAt(claims, c.entry));
        AddTie(claims, found, c, rest);
        found := found + [c];
      }
      rest := rest - {e};
    }
  }

  lemma AddTie(claims: map<Entry, seq<Owner>>, found: seq<Conflict>, c: Conflict, rest: set<Entry>)
    requires forall e :: Reported(found, e) ==> e !in rest
    requires c.entry in rest && OncePerEntry(found)
    requires AllTell(found, e => OwnersAt(claims, e)) && Tells(c, OwnersAt(claims, c.entry))
    ensures OncePerEntry(found + [c]) && AllTell(found + [c], e => OwnersAt(claims, e))
    ensures forall e :: Reported(found + [c], e) <==> Reported(found, e) || e == c.entry
  {
    ReportedStep(found, c);
    forall i | 0 <= i < |found| ensures found[i].entry != c.entry {
      assert found[i] in found && Reported(found, found[i].entry);
    }
  }

  lemma SortedTell(found: seq<Conflict>, owners: Entry -> seq<Owner>)
    requires OncePerEntry(found) && AllTell(found, owners)
    ensures var sorted := Sort(found, ConflictBefore);
            OncePerEntry(sorted) && AllTell(sorted, owners) && SortedBy(sorted, ConflictBefore)
  {
    hide ConflictBefore, Sort, Tells;
    SortMultiset(found, ConflictBefore);
    ConflictWeakOrder(found);
    SortSorts(found, ConflictBefore);
    RearrangedOnce(found, Sort(found, ConflictBefore));
  }

  lemma RearrangedOnce(found: seq<Conflict>, sorted: seq<Conflict>)
    requires OncePerEntry(found) && multiset(found) == multiset(sorted)
    ensures OncePerEntry(sorted)
  {
    assert Distinct(found);
    PermutationDistinct(found, sorted);
    SameMultisetMembers(found, sorted);
    forall i, j | 0 <= i < j < |sorted| ensures sorted[i].entry != sorted[j].entry {
      assert sorted[i] in found && sorted[j] in found;
    }
  }

  lemma ConflictWeakOrder(cs: seq<Conflict>)
    ensures WeakOrderOn(cs, ConflictBefore)
  {
    forall x, y | x in cs && y in cs && ConflictBefore(x, y) ensures !ConflictBefore(y, x) {
      StringLessTrichotomy(x.entry.value, y.entry.value);
    }
    forall x, y, z | x in cs && y in cs && z in cs && !ConflictBefore(x, y) && !ConflictBefore(y, z)
      ensures !ConflictBefore(x, z)
    {
      StringLessTrichotomy(x.entry.value, y.entry.value);
      StringLessTrichotomy(y.entry.value, z.entry.value);
      if ConflictBefore(y, x) && ConflictBefore(z, y) {
        StringLessTransitive(z.entry.value, y.entry.value, x.entry.value);
        StringLessTrichotomy(x.entry.value, z.entry.value);
      }
    }
  }

  /**
   * Reports, once each and sorted by value, exactly the rules that two claims share at the
   * highest priority, with that priority and the slugs of the claims at it.
   */
  method DetectConflicts(services: seq<ServiceInput>) returns (conflicts: seq<Conflict>)
    ensures forall e :: Reported(conflicts, e) <==> TiedAtTop(OwnersOf(ClaimsOf(services), e))
    ensures conflicts == [] <==> forall e :: !TiedAtTop(OwnersOf(ClaimsOf(services), e))
    ensures OncePerEntry(conflicts) && SortedBy(conflicts, ConflictBefore)
    ensures AllTell(conflicts, e => OwnersOf(ClaimsOf(services), e))
  {
    var claims := CollectClaims(services);
    var found := FindTies(claims);
    conflicts := Sort(found, ConflictBefore);
    ReportedSorted(found);
    SortedTell(found, e => OwnersAt(claims, e));
    forall c | c in conflicts ensures Tells(c, OwnersOf(ClaimsOf(services), c.entry)) {
      assert Tells(c, OwnersAt(claims, c.entry));
    }
  }
}
