/** Canonical rule lists: merging, comparing and encoding them. */
module RuleList {
  import opened Collections
  import opened DomainSet

  // ----- the entry order -----

  predicate EntryLess(a: Entry, b: Entry) {
    if a.kind != b.kind then StringLess(a.kind, b.kind) else StringLess(a.value, b.value)
  }

  lemma EntryLessTrichotomy(a: Entry, b: Entry)
    ensures a == b <==> !EntryLess(a, b) && !EntryLess(b, a)
    ensures !(EntryLess(a, b) && EntryLess(b, a))
  {
    StringLessTrichotomy(a.kind, b.kind);
    StringLessTrichotomy(a.value, b.value);
  }

  lemma EntryLessTransitive(a: Entry, b: Entry, c: Entry)
    requires EntryLess(a, b) && EntryLess(b, c)
    ensures EntryLess(a, c)
  {
    StringLessTrichotomy(a.kind, b.kind);
    StringLessTrichotomy(b.kind, c.kind);
    if a.kind == b.kind && b.kind == c.kind {
      StringLessTransitive(a.value, b.value, c.value);
    } else if a.kind != b.kind && b.kind != c.kind {
      StringLessTransitive(a.kind, b.kind, c.kind);
      StringLessTrichotomy(a.kind, c.kind);
    }
  }

  lemma EntryWeakOrder(es: seq<Entry>)
    ensures WeakOrderOn(es, EntryLess)
  {
    forall x, y | x in es && y in es && EntryLess(x, y) ensures !EntryLess(y, x) {
      EntryLessTrichotomy(x, y);
    }
    forall x, y, z | x in es && y in es && z in es && !EntryLess(x, y) && !EntryLess(y, z)
      ensures !EntryLess(x, z)
    {
      EntryLessTrichotomy(x, y);
      EntryLessTrichotomy(y, z);
      EntryLessTrichotomy(x, z);
      if EntryLess(y, x) && EntryLess(z, y) {
        EntryLessTransitive(z, y, x);
      }
    }
  }

  ghost predicate StrictlySorted(es: seq<Entry>) {
    forall i, j :: 0 <= i < j < |es| ==> EntryLess(es[i], es[j])
  }

  lemma SortedDistinct(es: seq<Entry>)
    requires SortedBy(es, EntryLess) && Distinct(es)
    ensures StrictlySorted(es)
  {
    forall i, j | 0 <= i < j < |es| ensures EntryLess(es[i], es[j]) {
      EntryLessTrichotomy(es[i], es[j]);
    }
  }

  lemma StrictlySortedDistinct(es: seq<Entry>)
    requires StrictlySorted(es)
    ensures Distinct(es)
  {
    forall i, j | 0 <= i < j < |es| ensures es[i] != es[j] {
      EntryLessTrichotomy(es[i], es[j]);
    }
  }

  /** A strictly sorted list is determined by the set of its entries. */
  lemma {:induction false} CanonicalUnique(a: seq<Entry>, b: seq<Entry>)
    requires StrictlySorted(a) && StrictlySorted(b)
    requires ToSet(a) == ToSet(b)
    ensures a == b
  {
    assert forall e :: e in a <==> e in ToSet(a);
    assert forall e :: e in b <==> e in ToSet(b);
    assert b != [] ==> b[0] in b;
    if a != [] {
      assert a[0] in b && b[0] in a;
      HeadIsLeast(a, b[0]);
      HeadIsLeast(b, a[0]);
      EntryLessTrichotomy(a[0], b[0]);
      StrictlySortedDistinct(a);
      StrictlySortedDistinct(b);
      TailSet(a);
      TailSet(b);
      CanonicalUnique(a[1..], b[1..]);
      assert a == [a[0]] + a[1..] && b == [b[0]] + b[1..];
    }
  }

  lemma HeadIsLeast(a: seq<Entry>, e: Entry)
    requires StrictlySorted(a) && e in a
    ensures a[0] == e || EntryLess(a[0], e)
  {
  }

  lemma TailSet(a: seq<Entry>)
    requires a != [] && Distinct(a)
    ensures ToSet(a[1..]) == ToSet(a) - {a[0]}
  {
    forall e ensures e in ToSet(a[1..]) <==> e in ToSet(a) && e != a[0] {
      assert a == [a[0]] + a[1..];
    }
  }

  // ----- Merge -----

  /** What `Merge` is for: the includes, less the excludes and the exact entries below an excluded suffix. */
  ghost predicate Effective(includes: seq<Entry>, excludes: seq<Entry>, e: Entry) {
    && e in includes
    && e !in excludes
    && !(e.kind == KIND_EXACT && exists s :: Entry(KIND_SUFFIX, s) in excludes && Under(e.value, s))
  }

  method SuffixHit(suffix: set<string>, host: string) returns (hit: bool)
    ensures hit <==> exists s :: s in suffix && Under(host, s)
  {
    var h := host;
    while true
      invariant forall s :: s in suffix ==> (Under(host, s) <==> Under(h, s))
      decreases |h|
    {
      if h in suffix {
        assert Under(host, h);
        return true;
      }
      var i := IndexDot(h);
      forall s | s in suffix
        ensures if i < 0 then !Under(host, s) else Under(host, s) <==> Under(h[i + 1..], s)
      {
        UnderStrip(h, s);
      }
      if i < 0 { return false; }
      h := h[i + 1..];
    }
    assert false;
  }

  method Merge(includes: seq<Entry>, excludes: seq<Entry>) returns (merged: seq<Entry>)
    ensures StrictlySorted(merged)
    ensures forall e :: e in merged <==> Effective(includes, excludes, e)
  {
    var ex, exSuffix := {}, {};
    for i := 0 to |excludes|
      invariant ex == ToSet(excludes[..i])
      invariant forall s :: s in exSuffix <==> Entry(KIND_SUFFIX, s) in excludes[..i]
    {
      var e := excludes[i];
      assert excludes[..i + 1] == excludes[..i] + [e];
      ex := ex + {e};
      if e.kind == KIND_SUFFIX {
        exSuffix := exSuffix + {e.value};
      }
    }
    assert excludes[..|excludes|] == excludes;
    var out, seen := [], {};
    for i := 0 to |includes|
      invariant seen == ToSet(out) && Distinct(out)
      invariant forall e :: e in out <==> Effective(includes[..i], excludes, e)
    {
      var e := includes[i];
      assert includes[..i + 1] == includes[..i] + [e];
      if e in ex || e in seen { continue; }
      if e.kind == KIND_EXACT {
        var hit := SuffixHit(exSuffix, e.value);
        if hit { continue; }
      }
      seen := seen + {e};
      out := out + [e];
    }
    assert includes[..|includes|] == includes;
    merged := Sort(out, EntryLess);
    EntryWeakOrder(out);
    SortIsSortOf(out, EntryLess);
    PermutationDistinct(out, merged);
    SortedDistinct(merged);
    SameMultisetMembers(out, merged);
  }

  /** `merged` is what `Merge` returns for these lists. */
  ghost predicate IsMerge(includes: seq<Entry>, excludes: seq<Entry>, merged: seq<Entry>) {
    StrictlySorted(merged) && forall e :: e in merged <==> Effective(includes, excludes, e)
  }

  /** The result depends on the sets of includes and excludes only: order and repetition do not matter. */
  lemma MergeDependsOnSets(in1: seq<Entry>, ex1: seq<Entry>, m1: seq<Entry>,
                           in2: seq<Entry>, ex2: seq<Entry>, m2: seq<Entry>)
    requires IsMerge(in1, ex1, m1) && IsMerge(in2, ex2, m2)
    requires ToSet(in1) == ToSet(in2) && ToSet(ex1) == ToSet(ex2)
    ensures m1 == m2
  {
    forall e ensures e in ToSet(m1) <==> e in ToSet(m2) {
      EffectiveFromSets(in1, ex1, in2, ex2, e);
    }
    CanonicalUnique(m1, m2);
  }

  lemma EffectiveFromSets(in1: seq<Entry>, ex1: seq<Entry>, in2: seq<Entry>, ex2: seq<Entry>, e: Entry)
    requires ToSet(in1) == ToSet(in2) && ToSet(ex1) == ToSet(ex2)
    ensures Effective(in1, ex1, e) <==> Effective(in2, ex2, e)
  {
    assert forall x :: x in ToSet(in1) <==> x in in1;
    assert forall x :: x in ToSet(in2) <==> x in in2;
    assert forall x :: x in ToSet(ex1) <==> x in ex1;
    assert forall x :: x in ToSet(ex2) <==> x in ex2;
  }

  /** Merging a merged list again changes nothing. */
  lemma MergeIdempotent(includes: seq<Entry>, excludes: seq<Entry>, once: seq<Entry>, twice: seq<Entry>)
    requires IsMerge(includes, excludes, once) && IsMerge(once, excludes, twice)
    ensures twice == once
  {
    forall e ensures e in ToSet(once) <==> e in ToSet(twice) {
      assert Effective(once, excludes, e) <==> Effective(includes, excludes, e);
    }
    CanonicalUnique(once, twice);
  }

  /** Without excludes the merged list covers the same hosts as the list it came from. */
  lemma MergePreservesCovers(re: RegexEngine, includes: seq<Entry>, merged: seq<Entry>, host: string)
    requires IsMerge(includes, [], merged)
    ensures Covers(re, merged, host) <==> Covers(re, includes, host)
  {
    assert forall e :: e in merged <==> e in includes;
  }

  /**
   * With excludes, a covered host lost its cover exactly when every entry covering it
   * was excluded by name or is an exact entry below an excluded suffix.
   */
  lemma MergeLosesOnlyExcluded(re: RegexEngine, includes: seq<Entry>, excludes: seq<Entry>,
                               merged: seq<Entry>, host: string)
    requires IsMerge(includes, excludes, merged)
    requires Covers(re, includes, host)
    ensures !Covers(re, merged, host) <==>
            forall e :: e in includes && EntryCovers(re, e, host) ==>
              || e in excludes
              || (e.kind == KIND_EXACT && exists s :: Entry(KIND_SUFFIX, s) in excludes && Under(host, s))
  {
    forall e | e in includes && EntryCovers(re, e, host)
      ensures e in merged <==>
              !(|| e in excludes
                || (e.kind == KIND_EXACT && exists s :: Entry(KIND_SUFFIX, s) in excludes && Under(host, s)))
    {
    }
  }

  // ----- Diff -----

  method Diff(before: seq<Entry>, after: seq<Entry>) returns (added: seq<Entry>, removed: seq<Entry>)
    ensures added == Added(before, after)
    ensures removed == Added(after, before)
  {
    var o, n := {}, {};
    for i := 0 to |before|
      invariant o == ToSet(before[..i])
    {
      o := o + {before[i]};
      assert before[..i + 1] == before[..i] + [before[i]];
    }
    assert before[..|before|] == before;
    added, removed := [], [];
    for i := 0 to |after|
      invariant n == ToSet(after[..i])
      invariant added == Filter(after[..i], e => e !in before)
    {
      n := n + {after[i]};
      assert after[..i + 1] == after[..i] + [after[i]];
      assert after[..i + 1][..i] == after[..i];
      if after[i] !in o {
        added := added + [after[i]];
      }
    }
    assert after[..|after|] == after;
    for i := 0 to |before|
      invariant removed == Filter(before[..i], e => e !in after)
    {
      assert before[..i + 1][..i] == before[..i];
      if before[i] !in n {
        removed := removed + [before[i]];
      }
    }
    assert before[..|before|] == before;
    added := Sort(added, EntryLess);
    removed := Sort(removed, EntryLess);
  }

  /** The entries of `to` that `from` lacks, sorted. */
  function Added(from: seq<Entry>, to: seq<Entry>): seq<Entry> {
    Sort(Filter(to, e => e !in from), EntryLess)
  }

  lemma AddedMembers(from: seq<Entry>, to: seq<Entry>)
    ensures forall e :: e in Added(from, to) <==> e in to && e !in from
    ensures SortedBy(Added(from, to), EntryLess)
    ensures Distinct(to) ==> Distinct(Added(from, to))
  {
    var kept := Filter(to, e => e !in from);
    FilterMembers(to, e => e !in from);
    EntryWeakOrder(kept);
    SortIsSortOf(kept, EntryLess);
    SameMultisetMembers(kept, Added(from, to));
    if Distinct(to) {
      FilterDistinct(to, e => e !in from);
      PermutationDistinct(kept, Added(from, to));
    }
  }

  /** Taking the removals away and putting the additions in turns the old set into the new one. */
  lemma DiffIsAPatch(before: seq<Entry>, after: seq<Entry>)
    ensures (ToSet(before) - ToSet(Added(after, before))) + ToSet(Added(before, after)) == ToSet(after)
    ensures ToSet(Added(before, after)) !! ToSet(before)
    ensures ToSet(Added(after, before)) <= ToSet(before)
  {
    AddedMembers(before, after);
    AddedMembers(after, before);
  }

  /** On lists without repetition the counts balance. */
  lemma DiffCounts(before: seq<Entry>, after: seq<Entry>)
    requires Distinct(before) && Distinct(after)
    ensures |before| - |Added(after, before)| + |Added(before, after)| == |after|
    ensures |Added(after, before)| <= |before|
  {
    AddedMembers(before, after);
    AddedMembers(after, before);
    DiffIsAPatch(before, after);
    DistinctCardinality(before);
    DistinctCardinality(after);
    DistinctCardinality(Added(before, after));
    DistinctCardinality(Added(after, before));
    var kept := ToSet(before) - ToSet(Added(after, before));
    assert |kept| == |before| - |Added(after, before)|;
    assert kept !! ToSet(Added(before, after));
    assert |kept + ToSet(Added(before, after))| == |kept| + |Added(before, after)|;
  }

  // ----- the hashed encoding -----

  const NUL: char := '\0'

  function Encode(es: seq<Entry>): string {
    if es == [] then "" else es[0].kind + [NUL] + es[0].value + ['\n'] + Encode(es[1..])
  }

  /** The byte stream fed to the hash, written entry by entry. */
  method HashInput(es: seq<Entry>) returns (w: string)
    ensures w == Encode(es)
  {
    w := "";
    for i := 0 to |es|
      invariant w + Encode(es[i..]) == Encode(es)
    {
      var rest := es[i..];
      assert rest[0] == es[i] && rest[1..] == es[i + 1..];
      w := w + es[i].kind;
      w := w + [NUL];
      w := w + es[i].value;
      w := w + ['\n'];
    }
    assert es[|es|..] == [];
  }

  /** One record for each entry, in order: kind, NUL, value, newline. */
  lemma {:induction false} EncodeAppends(es: seq<Entry>, e: Entry)
    ensures Encode([]) == ""
    ensures Encode(es + [e]) == Encode(es) + e.kind + "\0" + e.value + "\n"
    decreases |es|
  {
    if es == [] {
      assert es + [e] == [e] && [e][1..] == [];
      assert Encode([e]) == e.kind + "\0" + e.value + "\n" + "";
    } else {
      assert (es + [e])[0] == es[0] && (es + [e])[1..] == es[1..] + [e];
      EncodeAppends(es[1..], e);
      var head, tail := es[0].kind + [NUL] + es[0].value + ['\n'], Encode(es[1..]);
      assert head + (tail + e.kind + "\0" + e.value + "\n") == (head + tail) + e.kind + "\0" + e.value + "\n";
    }
  }

  /** Kinds hold no NUL and values no newline. */
  predicate Encodable(es: seq<Entry>) {
    forall e :: e in es ==> NUL !in e.kind && '\n' !in e.value
  }

  /** Text cut at the first separator can be cut in one way only. */
  lemma CutUnique(a: string, x: string, b: string, y: string, sep: char)
    requires sep !in a && sep !in b
    requires a + [sep] + x == b + [sep] + y
    ensures a == b && x == y
  {
    var s, t := a + [sep] + x, b + [sep] + y;
    assert s[|a|] == sep && t[|b|] == sep;
    assert |a| == |b|;
    assert a == s[..|a|] && b == t[..|b|];
    assert x == s[|a| + 1..] && y == t[|b| + 1..];
  }

  /** Equal encodings mean equal lists, so the hash input determines the rule list. */
  lemma {:induction false} EncodeInjective(a: seq<Entry>, b: seq<Entry>)
    requires Encodable(a) && Encodable(b)
    requires Encode(a) == Encode(b)
    ensures a == b
  {
    assert a != [] ==> |Encode(a)| > 0;
    assert b != [] ==> |Encode(b)| > 0;
    if a != [] && b != [] {
      var ra := a[0].value + ['\n'] + Encode(a[1..]);
      var rb := b[0].value + ['\n'] + Encode(b[1..]);
      assert a[0] in a && b[0] in b;
      assert Encode(a) == a[0].kind + [NUL] + ra;
      assert Encode(b) == b[0].kind + [NUL] + rb;
      CutUnique(a[0].kind, ra, b[0].kind, rb, NUL);
      CutUnique(a[0].value, Encode(a[1..]), b[0].value, Encode(b[1..]), '\n');
      EncodeInjective(a[1..], b[1..]);
      assert a == [a[0]] + a[1..] && b == [b[0]] + b[1..];
    }
  }

  /** A newline inside a value lets two different lists share one encoding. */
  lemma NewlineBreaksEncoding()
    ensures var one := [Entry("exact", "a\nexact" + [NUL] + "b")];
            var two := [Entry("exact", "a"), Entry("exact", "b")];
            one != two && Encode(one) == Encode(two)
  {
    var one := [Entry("exact", "a\nexact" + [NUL] + "b")];
    var two := [Entry("exact", "a"), Entry("exact", "b")];
    assert one[1..] == [] && two[1..] == [Entry("exact", "b")] && two[1..][1..] == [];
    assert Encode(two[1..]) == "exact" + [NUL] + "b" + ['\n'];
    assert Encode(one) == "exact" + [NUL] + ("a\nexact" + [NUL] + "b") + ['\n'];
    assert Encode(two) == "exact" + [NUL] + "a" + ['\n'] + ("exact" + [NUL] + "b" + ['\n']);
  }
}
