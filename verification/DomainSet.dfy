/** Domain rules and the runtime matcher built from them. */
module DomainSet {
  import opened Collections

  const KIND_EXACT := "exact"
  const KIND_SUFFIX := "suffix"
  const KIND_REGEX := "regex"

  datatype Entry = Entry(kind: string, value: string)

  /** The serialised matcher artifact. */
  datatype DomSet = DomSet(exact: seq<string>, suffix: seq<string>, regex: seq<string>)

  /** The regular-expression library: which patterns compile, and what they accept. */
  datatype RegexEngine = RegexEngine(compiles: string -> bool, accepts: (string, string) -> bool)

  /** The runtime matcher; `regex` holds the patterns that compiled. */
  datatype Matcher = Matcher(exact: set<string>, suffix: set<string>, regex: seq<string>)

  // ----- the simple rule -----

  /** `host` is `s` itself or lies below it, at a label boundary. */
  predicate Under(host: string, s: string) {
    || host == s
    || (|host| > |s| && host[|host| - |s| - 1] == '.' && host[|host| - |s|..] == s)
  }

  /** One rule entry covers one host. */
  predicate EntryCovers(re: RegexEngine, e: Entry, host: string) {
    if e.kind == KIND_EXACT then host == e.value
    else if e.kind == KIND_SUFFIX then Under(host, e.value)
    else if e.kind == KIND_REGEX then re.compiles(e.value) && re.accepts(e.value, host)
    else false
  }

  /** A rule list covers a host when one of its entries does. */
  ghost predicate Covers(re: RegexEngine, es: seq<Entry>, host: string) {
    host != "" && exists e :: e in es && EntryCovers(re, e, host)
  }

  function Labels(host: string): nat {
    if host == "" then 1 else Labels(host[1..]) + (if host[0] == '.' then 1 else 0)
  }

  // ----- building the matcher -----

  function ValuesOf(es: seq<Entry>, kind: string): seq<string> {
    if es == [] then []
    else ValuesOf(es[..|es| - 1], kind) +
         (if es[|es| - 1].kind == kind then [es[|es| - 1].value] else [])
  }

  function SetOf(es: seq<Entry>): DomSet {
    DomSet(ValuesOf(es, KIND_EXACT), ValuesOf(es, KIND_SUFFIX), ValuesOf(es, KIND_REGEX))
  }

  method NewSet(es: seq<Entry>) returns (s: DomSet)
    ensures s == SetOf(es)
  {
    s := DomSet([], [], []);
    for i := 0 to |es|
      invariant s == SetOf(es[..i])
    {
      var e := es[i];
      assert es[..i + 1][..i] == es[..i];
      if e.kind == KIND_EXACT {
        s := s.(exact := s.exact + [e.value]);
      } else if e.kind == KIND_SUFFIX {
        s := s.(suffix := s.suffix + [e.value]);
      } else if e.kind == KIND_REGEX {
        s := s.(regex := s.regex + [e.value]);
      }
    }
    assert es[..|es|] == es;
  }

  lemma {:induction false} ValuesOfMembers(es: seq<Entry>, kind: string, v: string)
    ensures v in ValuesOf(es, kind) <==> Entry(kind, v) in es
  {
    if es != [] {
      ValuesOfMembers(es[..|es| - 1], kind, v);
      assert es == es[..|es| - 1] + [es[|es| - 1]];
    }
  }

  function MatcherOf(re: RegexEngine, s: DomSet): Matcher {
    Matcher(ToSet(s.exact), ToSet(s.suffix), Filter(s.regex, re.compiles))
  }

  /** Patterns that do not compile are skipped. */
  method CompileSet(re: RegexEngine, s: DomSet) returns (m: Matcher)
    ensures m == MatcherOf(re, s)
  {
    var exact, suffix, regex := {}, {}, [];
    for i := 0 to |s.exact|
      invariant exact == ToSet(s.exact[..i])
    {
      exact := exact + {s.exact[i]};
      assert s.exact[..i + 1] == s.exact[..i] + [s.exact[i]];
    }
    for i := 0 to |s.suffix|
      invariant suffix == ToSet(s.suffix[..i])
    {
      suffix := suffix + {s.suffix[i]};
      assert s.suffix[..i + 1] == s.suffix[..i] + [s.suffix[i]];
    }
    for i := 0 to |s.regex|
      invariant regex == Filter(s.regex[..i], re.compiles)
    {
      assert s.regex[..i + 1][..i] == s.regex[..i];
      if re.compiles(s.regex[i]) {
        regex := regex + [s.regex[i]];
      }
    }
    assert s.exact[..|s.exact|] == s.exact;
    assert s.suffix[..|s.suffix|] == s.suffix;
    assert s.regex[..|s.regex|] == s.regex;
    m := Matcher(exact, suffix, regex);
  }

  // ----- matching -----

  /** Position of the first dot, or -1. */
  function IndexDot(h: string): (i: int)
    ensures -1 <= i < |h|
    ensures i >= 0 ==> h[i] == '.' && forall k :: 0 <= k < i ==> h[k] != '.'
    ensures i < 0 ==> '.' !in h
  {
    IndexOf(h, '.')
  }

  ghost predicate MatcherCovers(re: RegexEngine, m: Matcher, host: string) {
    && host != ""
    && (|| host in m.exact
        || (exists s :: s in m.suffix && Under(host, s))
        || (exists r :: r in m.regex && re.accepts(r, host)))
  }

  lemma UnderAboveFirstDot(h: string, s: string)
    requires IndexDot(h) >= 0 && Under(h, s) && h != s
    ensures Under(h[IndexDot(h) + 1..], s)
  {
    var i := IndexDot(h);
    var t := h[i + 1..];
    var cut := |h| - |s| - 1;
    assert i <= cut;
    assert h[cut + 1..] == t[|t| - |s|..];
    if i < cut {
      assert t[|t| - |s| - 1] == h[cut];
    }
  }

  lemma UnderBelowFirstDot(h: string, s: string)
    requires IndexDot(h) >= 0 && Under(h[IndexDot(h) + 1..], s)
    ensures Under(h, s)
  {
    var t := h[IndexDot(h) + 1..];
    assert h[|h| - |s|..] == t[|t| - |s|..];
    if t != s {
      assert h[|h| - |s| - 1] == t[|t| - |s| - 1];
    }
  }

  /** Going one label up keeps exactly the suffixes other than the host itself. */
  lemma UnderStrip(h: string, s: string)
    ensures IndexDot(h) >= 0 ==> (Under(h, s) <==> h == s || Under(h[IndexDot(h) + 1..], s))
    ensures IndexDot(h) < 0 ==> (Under(h, s) <==> h == s)
  {
    if IndexDot(h) >= 0 {
      if Under(h, s) && h != s { UnderAboveFirstDot(h, s); }
      if Under(h[IndexDot(h) + 1..], s) { UnderBelowFirstDot(h, s); }
    }
  }

  method Match(re: RegexEngine, m: Matcher, host: string) returns (hit: bool)
    ensures hit <==> MatcherCovers(re, m, host)
  {
    if host == "" { return false; }
    if host in m.exact { return true; }
    var h := host;
    while true
      invariant forall s :: s in m.suffix ==> (Under(host, s) <==> Under(h, s))
      decreases |h|
    {
      if h in m.suffix {
        assert Under(host, h);
        return true;
      }
      var i := IndexDot(h);
      forall s | s in m.suffix
        ensures if i < 0 then !Under(host, s) else Under(host, s) <==> Under(h[i + 1..], s)
      {
        UnderStrip(h, s);
      }
      if i < 0 { break; }
      h := h[i + 1..];
    }
    for k := 0 to |m.regex|
      invariant forall j :: 0 <= j < k ==> !re.accepts(m.regex[j], host)
    {
      if re.accepts(m.regex[k], host) { return true; }
    }
    return false;
  }

  /** Labels removed before the first suffix hit, or -1. */
  function HitDepth(suffix: set<string>, h: string): (d: int)
    ensures d >= -1
    decreases |h|
  {
    if h in suffix then 0
    else
      var i := IndexDot(h);
      if i < 0 then -1
      else
        var d := HitDepth(suffix, h[i + 1..]);
        if d < 0 then -1 else d + 1
  }

  function SpecificityOf(re: RegexEngine, m: Matcher, host: string): int {
    if host == "" then -1
    else if host in m.exact then 1000
    else if HitDepth(m.suffix, host) >= 0 then 100 - HitDepth(m.suffix, host)
    else if exists k :: 0 <= k < |m.regex| && re.accepts(m.regex[k], host) then 1
    else -1
  }

  method Specificity(re: RegexEngine, m: Matcher, host: string) returns (n: int)
    ensures n == SpecificityOf(re, m, host)
  {
    if host == "" { return -1; }
    if host in m.exact { return 1000; }
    var h, depth := host, 0;
    while true
      invariant HitDepth(m.suffix, host) ==
                if HitDepth(m.suffix, h) < 0 then -1 else depth + HitDepth(m.suffix, h)
      decreases |h|
    {
      if h in m.suffix { return 100 - depth; }
      var i := IndexDot(h);
      if i < 0 { break; }
      h := h[i + 1..];
      depth := depth + 1;
    }
    for k := 0 to |m.regex|
      invariant forall j :: 0 <= j < k ==> !re.accepts(m.regex[j], host)
    {
      if re.accepts(m.regex[k], host) { return 1; }
    }
    return -1;
  }

  // ----- what specificity means -----

  /** `s` is the longest suffix entry at or above `host`. */
  ghost predicate LongestHit(suffix: set<string>, host: string, s: string) {
    s in suffix && Under(host, s) && forall t :: t in suffix && Under(host, t) ==> |t| <= |s|
  }

  lemma {:induction false} LabelsSplit(h: string, i: nat)
    requires i < |h| && h[i] == '.'
    requires forall k :: 0 <= k < i ==> h[k] != '.'
    ensures Labels(h) == Labels(h[i + 1..]) + 1
  {
    if i > 0 {
      LabelsSplit(h[1..], i - 1);
      assert h[1..][i..] == h[i + 1..];
    }
  }

  /**
   * The index walk finds the longest matching suffix: the depth counts the labels
   * that suffix is short of, and -1 means that no suffix entry covers the host.
   */
  lemma {:induction false} HitDepthIsLongest(suffix: set<string>, h: string)
    ensures HitDepth(suffix, h) >= 0 <==> exists s :: s in suffix && Under(h, s)
    ensures forall s :: LongestHit(suffix, h, s) ==> HitDepth(suffix, h) == Labels(h) - Labels(s)
    ensures HitDepth(suffix, h) >= 0 ==> exists s :: LongestHit(suffix, h, s)
    decreases |h|
  {
    if h in suffix {
      assert Under(h, h);
      assert LongestHit(suffix, h, h);
      forall s | LongestHit(suffix, h, s) ensures s == h {
      }
    } else {
      var i := IndexDot(h);
      forall s | s in suffix
        ensures Under(h, s) <==> i >= 0 && Under(h[i + 1..], s)
      {
        UnderStrip(h, s);
      }
      if i >= 0 {
        var t := h[i + 1..];
        HitDepthIsLongest(suffix, t);
        LabelsSplit(h, i);
        forall s ensures LongestHit(suffix, h, s) <==> LongestHit(suffix, t, s) {
        }
      }
    }
  }

  /** A label path is at least one label and never shorter than one of its suffixes. */
  lemma {:induction false} LabelsUnder(h: string, s: string)
    requires Under(h, s)
    ensures 1 <= Labels(s) <= Labels(h)
    ensures Labels(s) == Labels(h) ==> s == h
    decreases |h|
  {
    LabelsPositive(s);
    if h != s {
      UnderStrip(h, s);
      var i := IndexDot(h);
      LabelsSplit(h, i);
      LabelsUnder(h[i + 1..], s);
    }
  }

  lemma {:induction false} LabelsPositive(s: string)
    ensures Labels(s) >= 1
  {
    if s != "" { LabelsPositive(s[1..]); }
  }

  /**
   * Specificity against the rule: an exact hit scores 1000, otherwise the longest
   * matching suffix scores 100 less the labels it is short of, otherwise a regular
   * expression scores 1, and a host that nothing covers scores -1.
   */
  lemma SpecificityMeaning(re: RegexEngine, m: Matcher, host: string)
    requires host != ""
    ensures host in m.exact ==> SpecificityOf(re, m, host) == 1000
    ensures forall s :: host !in m.exact && LongestHit(m.suffix, host, s)
              ==> SpecificityOf(re, m, host) == 100 - (Labels(host) - Labels(s))
    ensures (host !in m.exact && !(exists s :: s in m.suffix && Under(host, s))) ==>
              SpecificityOf(re, m, host) == if MatcherCovers(re, m, host) then 1 else -1
  {
    HitDepthIsLongest(m.suffix, host);
  }

  /**
   * A non-negative score always means a match; the converse holds exactly when the
   * match is not a lone suffix hit more than 100 labels up.
   */
  lemma SpecificityVersusMatch(re: RegexEngine, m: Matcher, host: string)
    ensures SpecificityOf(re, m, host) >= 0 ==> MatcherCovers(re, m, host)
    ensures (SpecificityOf(re, m, host) >= 0 <==> MatcherCovers(re, m, host)) <==>
            (host == "" || host in m.exact || HitDepth(m.suffix, host) <= 100)
  {
    HitDepthIsLongest(m.suffix, host);
  }

  /** A host `n` labels below the single-label suffix "a". */
  function Chain(n: nat): string {
    if n == 0 then "a" else "a." + Chain(n - 1)
  }

  lemma {:induction false} ChainDepth(n: nat)
    ensures Chain(n + 1) != "" && HitDepth({"a.a"}, Chain(n + 1)) == n
    ensures |Chain(n + 1)| == 2 * n + 3
  {
    var h := Chain(n + 1);
    assert Chain(0) == "a";
    if n == 0 {
      assert h == "a.a";
    } else {
      ChainDepth(n - 1);
      assert h[0] != '.' && h[1] == '.';
      assert IndexDot(h) == 1;
      assert h[2..] == Chain(n);
      assert |h| != |"a.a"|;
    }
  }

  /** 101 labels below its suffix a host matches, yet scores like one that does not. */
  lemma DeepSuffixHitScoresNegative(re: RegexEngine)
    ensures MatcherCovers(re, Matcher({}, {"a.a"}, []), Chain(102))
    ensures SpecificityOf(re, Matcher({}, {"a.a"}, []), Chain(102)) == -1
  {
    ChainDepth(101);
    HitDepthIsLongest({"a.a"}, Chain(102));
  }

  /** On hosts of at most 101 labels the two agree. */
  lemma SpecificityIffMatch(re: RegexEngine, m: Matcher, host: string)
    requires Labels(host) <= 101
    ensures SpecificityOf(re, m, host) >= 0 <==> MatcherCovers(re, m, host)
  {
    HitDepthIsLongest(m.suffix, host);
    if HitDepth(m.suffix, host) >= 0 {
      var s :| LongestHit(m.suffix, host, s);
      LabelsUnder(host, s);
    }
  }

  /** The compiled matcher decides exactly the simple rule over the entries it came from. */
  lemma MatcherRefinesRule(re: RegexEngine, es: seq<Entry>, host: string)
    ensures MatcherCovers(re, MatcherOf(re, SetOf(es)), host) <==> Covers(re, es, host)
  {
    var m := MatcherOf(re, SetOf(es));
    FilterMembers(SetOf(es).regex, re.compiles);
    if MatcherCovers(re, m, host) {
      if host in m.exact {
        ValuesOfMembers(es, KIND_EXACT, host);
        assert EntryCovers(re, Entry(KIND_EXACT, host), host);
      } else if s :| s in m.suffix && Under(host, s) {
        ValuesOfMembers(es, KIND_SUFFIX, s);
        assert EntryCovers(re, Entry(KIND_SUFFIX, s), host);
      } else {
        var r :| r in m.regex && re.accepts(r, host);
        ValuesOfMembers(es, KIND_REGEX, r);
        assert EntryCovers(re, Entry(KIND_REGEX, r), host);
      }
    }
    if Covers(re, es, host) {
      var e :| e in es && EntryCovers(re, e, host);
      ValuesOfMembers(es, e.kind, e.value);
    }
  }
}
