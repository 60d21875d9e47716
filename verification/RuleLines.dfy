/** Rule sources as text: host names, one rule, and whole lists. */
module RuleLines {
  import opened Collections
  import opened DomainSet
  import opened RuleList

  /** White space, lower case, IDNA, the pattern library and byte length, as the standard library has them. */
  datatype Text = Text(
    space: char -> bool, lower: char -> char, ascii: string -> Option<string>,
    compiles: string -> bool, bytes: string -> nat)

  const BOM := "\U{FEFF}"
  const MAX_HOST := 253
  const MAX_LABEL := 63
  const MAX_REGEX := 256

  // ----- splitting and trimming -----

  /** The first occurrence is no later than any other. */
  lemma IndexNotAfter(s: string, c: char, n: nat)
    requires n < |s| && s[n] == c
    ensures 0 <= IndexOf(s, c) <= n
    ensures (forall k :: 0 <= k < n ==> s[k] != c) ==> IndexOf(s, c) == n
  {
  }

  function Split(s: string, sep: char): (parts: seq<string>)
    ensures parts != []
    decreases |s|
  {
    var i := IndexOf(s, sep);
    if i < 0 then [s] else [s[..i]] + Split(s[i + 1..], sep)
  }

  function Join(parts: seq<string>, sep: char): string
    requires parts != []
  {
    if |parts| == 1 then parts[0] else parts[0] + [sep] + Join(parts[1..], sep)
  }

  lemma SplitStep(s: string, sep: char)
    requires IndexOf(s, sep) >= 0
    ensures var i := IndexOf(s, sep);
            && s == s[..i] + [sep] + s[i + 1..] && sep !in s[..i]
            && Split(s, sep) == [s[..i]] + Split(s[i + 1..], sep)
  {
  }

  /** Splitting loses nothing and leaves no separator in a part. */
  lemma {:induction false} JoinSplit(s: string, sep: char)
    ensures Join(Split(s, sep), sep) == s
    ensures forall p :: p in Split(s, sep) ==> sep !in p
    decreases |s|
  {
    var i := IndexOf(s, sep);
    if i >= 0 {
      var rest := s[i + 1..];
      JoinSplit(rest, sep);
      SplitStep(s, sep);
      hide Split;
      assert Split(s, sep)[1..] == Split(rest, sep);
    }
  }

  lemma SplitCut(front: string, rest: string, sep: char)
    requires sep !in front
    ensures Split(front + [sep] + rest, sep) == [front] + Split(rest, sep)
  {
    var s := front + [sep] + rest;
    assert s[..|front|] == front && s[|front| + 1..] == rest;
    assert forall k :: 0 <= k < |front| ==> s[k] == front[k];
    IndexNotAfter(s, sep, |front|);
  }

  lemma SplitNone(s: string, sep: char)
    requires sep !in s
    ensures Split(s, sep) == [s]
  {
    assert IndexOf(s, sep) < 0;
  }

  /** Parts without the separator come back from their join. */
  lemma {:induction false} SplitJoin(parts: seq<string>, sep: char)
    requires parts != [] && forall p :: p in parts ==> sep !in p
    ensures Split(Join(parts, sep), sep) == parts
    decreases |parts|
  {
    hide Split;
    var first, rest := parts[0], parts[1..];
    assert parts == [first] + rest;
    assert first in parts;
    if |parts| == 1 {
      SplitNone(first, sep);
    } else {
      assert forall p :: p in rest ==> p in parts;
      assert Join(parts, sep) == first + [sep] + Join(rest, sep);
      hide Join;
      SplitJoin(rest, sep);
      SplitCut(first, Join(rest, sep), sep);
    }
  }

  function TrimLeft(t: Text, s: string): string {
    if s != "" && t.space(s[0]) then TrimLeft(t, s[1..]) else s
  }

  function TrimRight(t: Text, s: string): string {
    if s != "" && t.space(s[|s| - 1]) then TrimRight(t, s[..|s| - 1]) else s
  }

  function TrimSpace(t: Text, s: string): string {
    TrimRight(t, TrimLeft(t, s))
  }

  function TrimPrefix(s: string, p: string): string {
    if p <= s then s[|p|..] else s
  }

  function Lower(t: Text, s: string): (r: string)
    ensures |r| == |s| && forall i :: 0 <= i < |s| ==> r[i] == t.lower(s[i])
  {
    seq(|s|, i requires 0 <= i < |s| => t.lower(s[i]))
  }

  /** Length of the word at the front. */
  function WordEnd(t: Text, s: string): (n: nat)
    ensures n <= |s|
    ensures s != "" && !t.space(s[0]) ==> n > 0
  {
    if s == "" || t.space(s[0]) then 0 else 1 + WordEnd(t, s[1..])
  }

  function Fields(t: Text, s: string): seq<string>
    decreases |s|
  {
    TrimLeftShrinks(t, s);
    var a := TrimLeft(t, s);
    if a == "" then [] else [a[..WordEnd(t, a)]] + Fields(t, a[WordEnd(t, a)..])
  }

  lemma {:induction false} TrimLeftShrinks(t: Text, s: string)
    ensures |TrimLeft(t, s)| <= |s|
    ensures TrimLeft(t, s) != "" ==> !t.space(TrimLeft(t, s)[0])
    ensures forall c :: c in TrimLeft(t, s) ==> c in s
  {
    if s != "" && t.space(s[0]) {
      TrimLeftShrinks(t, s[1..]);
      assert forall c :: c in s[1..] ==> c in s;
    }
  }

  lemma {:induction false} TrimRightChars(t: Text, s: string)
    ensures forall c :: c in TrimRight(t, s) ==> c in s
  {
    if s != "" && t.space(s[|s| - 1]) {
      TrimRightChars(t, s[..|s| - 1]);
      assert forall c :: c in s[..|s| - 1] ==> c in s;
    }
  }

  lemma TrimSpaceChars(t: Text, s: string)
    ensures forall c :: c in TrimSpace(t, s) ==> c in s
  {
    TrimLeftShrinks(t, s);
    TrimRightChars(t, TrimLeft(t, s));
  }

  lemma {:induction false} FieldChars(t: Text, s: string, f: string, c: char)
    requires f in Fields(t, s) && c in f
    ensures c in s
    decreases |s|
  {
    TrimLeftShrinks(t, s);
    var a := TrimLeft(t, s);
    var n := WordEnd(t, a);
    assert forall x :: x in a[..n] ==> x in a;
    assert forall x :: x in a[n..] ==> x in a;
    if f != a[..n] {
      assert f in Fields(t, a[n..]);
      FieldChars(t, a[n..], f, c);
    }
  }

  // ----- host names -----

  predicate HostChar(c: char) {
    'a' <= c <= 'z' || '0' <= c <= '9' || c == '-' || c == '_'
  }

  predicate LabelOk(l: string) {
    1 <= |l| <= MAX_LABEL && (forall c :: c in l ==> HostChar(c)) && l[0] != '-' && l[|l| - 1] != '-'
  }

  predicate HostOk(h: string) {
    |h| <= MAX_HOST && |Split(h, '.')| >= 2 && forall l :: l in Split(h, '.') ==> LabelOk(l)
  }

  /** The names accepted are exactly two or more good labels joined by dots, up to the length limit. */
  lemma HostGrammar(h: string)
    ensures HostOk(h) <==>
            |h| <= MAX_HOST && exists ls :: |ls| >= 2 && (forall l :: l in ls ==> LabelOk(l)) && Join(ls, '.') == h
  {
    JoinSplit(h, '.');
    forall ls | |ls| >= 2 && (forall l :: l in ls ==> LabelOk(l)) && Join(ls, '.') == h ensures Split(h, '.') == ls {
      assert forall l :: l in ls ==> '.' !in l;
      SplitJoin(ls, '.');
    }
  }

  lemma {:induction false} DoubleDotHasEmptyLabel(h: string, i: nat)
    requires i + 1 < |h| && h[i] == '.' && h[i + 1] == '.'
    ensures "" in Split(h, '.')
    decreases |h|
  {
    var j := IndexOf(h, '.');
    if j == i {
      var rest := h[i + 1..];
      assert rest[0] == '.' && IndexOf(rest, '.') == 0;
      assert Split(rest, '.')[0] == "";
      assert Split(h, '.')[1] == "";
    } else {
      IndexNotAfter(h, '.', i);
      DoubleDotHasEmptyLabel(h[j + 1..], i - j - 1);
      SplitStep(h, '.');
    }
  }

  method ValidateHost(h: string) returns (ok: bool)
    ensures ok <==> HostOk(h)
  {
    if |h| == 0 || |h| > MAX_HOST { return false; }
    for i := 0 to |h| - 1 {
      if h[i] == '.' && h[i + 1] == '.' {
        DoubleDotHasEmptyLabel(h, i);
        return false;
      }
    }
    var labels := Split(h, '.');
    for k := 0 to |labels|
      invariant forall j :: 0 <= j < k ==> LabelOk(labels[j])
    {
      var l := labels[k];
      assert l in labels;
      if |l| == 0 || |l| > MAX_LABEL { return false; }
      for i := 0 to |l|
        invariant forall j :: 0 <= j < i ==> HostChar(l[j])
      {
        if !HostChar(l[i]) {
          assert l[i] in l;
          return false;
        }
      }
      if l[0] == '-' || l[|l| - 1] == '-' { return false; }
    }
    if IndexOf(h, '.') < 0 { return false; }
    return true;
  }

  /** Host characters and dots, with no dot at either end. */
  predicate HostText(h: string) {
    && h != "" && h[0] != '.' && h[|h| - 1] != '.'
    && forall i :: 0 <= i < |h| ==> HostChar(h[i]) || h[i] == '.'
  }

  lemma LabelText(l: string)
    requires LabelOk(l)
    ensures HostText(l)
  {
    forall i | 0 <= i < |l| ensures HostChar(l[i]) {
      assert l[i] in l;
    }
  }

  lemma JoinText(a: string, b: string)
    requires HostText(a) && HostText(b)
    ensures HostText(a + ['.'] + b)
  {
    hide HostChar;
  }

  /** A good host is such text. */
  lemma {:induction false} GoodHostText(h: string)
    requires forall l :: l in Split(h, '.') ==> LabelOk(l)
    ensures HostText(h)
    decreases |h|
  {
    var i := IndexOf(h, '.');
    if i < 0 {
      assert h in Split(h, '.');
      LabelText(h);
    } else {
      SplitStep(h, '.');
      var front, rest := h[..i], h[i + 1..];
      hide Split, LabelOk, HostText;
      assert front in Split(h, '.');
      assert forall l :: l in Split(rest, '.') ==> l in Split(h, '.');
      LabelText(front);
      GoodHostText(rest);
      JoinText(front, rest);
    }
  }

  lemma TextExcludes(h: string, c: char)
    requires HostText(h) && !HostChar(c) && c != '.'
    ensures c !in h
  {
  }

  /** A label and its dot take two characters, so a host within the limit has at most 127 labels. */
  lemma {:induction false} LabelsAreShort(h: string)
    requires forall l :: l in Split(h, '.') ==> LabelOk(l)
    ensures 2 * Labels(h) <= |h| + 1
    decreases |h|
  {
    var i := IndexOf(h, '.');
    if i < 0 {
      assert h in Split(h, '.');
      NoDots(h);
    } else {
      SplitStep(h, '.');
      hide Split;
      assert h[..i] in Split(h, '.');
      assert forall l :: l in Split(h[i + 1..], '.') ==> l in Split(h, '.');
      LabelsAreShort(h[i + 1..]);
      LabelsSplit(h, i);
    }
  }

  lemma {:induction false} NoDots(h: string)
    requires '.' !in h
    ensures Labels(h) == 1
  {
    if h != "" { NoDots(h[1..]); }
  }

  lemma HostLabels(h: string)
    requires HostOk(h)
    ensures Labels(h) <= 127
  {
    LabelsAreShort(h);
  }

  lemma ChainStep(n: nat)
    requires n > 0
    ensures Chain(n) == "a" + ['.'] + Chain(n - 1)
  {
  }

  lemma {:induction false} ChainLabels(n: nat)
    ensures |Split(Chain(n), '.')| == n + 1 && forall l :: l in Split(Chain(n), '.') ==> l == "a"
    ensures |Chain(n)| == 2 * n + 1
  {
    hide Split;
    if n == 0 {
      SplitNone("a", '.');
    } else {
      ChainStep(n);
      hide Chain;
      ChainLabels(n - 1);
      SplitCut("a", Chain(n - 1), '.');
    }
  }

  lemma ChainScores(re: RegexEngine, n: nat)
    requires n >= 2
    ensures Chain(n) != "" && Under(Chain(n), "a.a")
    ensures SpecificityOf(re, Matcher({}, {"a.a"}, []), Chain(n)) == 101 - n
  {
    ChainDepth(n - 1);
    var h := Chain(n);
    assert n - 1 + 1 == n;
    hide Chain, Under, HitDepth;
    HitDepthIsLongest({"a.a"}, h);
    assert exists s :: s in {"a.a"} && Under(h, s);
  }

  lemma ChainIsGood(n: nat)
    requires 1 <= n <= 126
    ensures HostOk(Chain(n))
  {
    ChainLabels(n);
    hide Split, Chain;
  }

  lemma SuffixCovers(re: RegexEngine, host: string, suffix: string)
    requires host != "" && Under(host, suffix)
    ensures Covers(re, [Entry(KIND_SUFFIX, suffix)], host)
  {
    assert KIND_EXACT[0] != KIND_SUFFIX[0];
    hide Under;
    var e := Entry(KIND_SUFFIX, suffix);
    assert EntryCovers(re, e, host);
    assert e in [e];
  }

  /** Good hosts reach the depth at which a match scores negative: names of 103 to 127 labels below a good suffix. */
  lemma DeepHostsAreGood(re: RegexEngine, n: nat)
    requires 102 <= n <= 126
    ensures HostOk(Chain(n)) && HostOk(Chain(1))
    ensures Covers(re, [Entry(KIND_SUFFIX, "a.a")], Chain(n))
    ensures SpecificityOf(re, Matcher({}, {"a.a"}, []), Chain(n)) == 101 - n
  {
    hide HostOk, Chain, Covers, SpecificityOf;
    ChainIsGood(n);
    ChainIsGood(1);
    ChainScores(re, n);
    SuffixCovers(re, Chain(n), "a.a");
  }

  function Normalized(t: Text, s: string): Option<string> {
    var a := TrimPrefix(TrimSpace(t, s), BOM);
    if a == "" then None
    else
      var b := if a[|a| - 1] == '.' then a[..|a| - 1] else a;
      if b == "" then None
      else
        match t.ascii(b)
        case None => None
        case Some(x) => if HostOk(Lower(t, x)) then Some(Lower(t, x)) else None
  }

  /** On good hosts IDNA and lower-casing change nothing, and host characters are no white space. */
  ghost predicate Tame(t: Text) {
    && (forall h :: HostOk(h) ==> t.ascii(h) == Some(h))
    && (forall c :: HostChar(c) || c == '.' || c == ':' ==> t.lower(c) == c && !t.space(c))
  }

  /** A normalised host is good, and normalising it again changes nothing. */
  lemma NormalizeIdempotent(t: Text, s: string)
    requires Tame(t) && Normalized(t, s).Some?
    ensures HostOk(Normalized(t, s).value)
    ensures Normalized(t, Normalized(t, s).value) == Normalized(t, s)
  {
    GoodHostIsFixed(t, Normalized(t, s).value);
  }

  lemma LowerFixed(t: Text, line: string)
    requires Tame(t) && forall i :: 0 <= i < |line| ==> HostChar(line[i]) || line[i] == '.' || line[i] == ':'
    ensures Lower(t, line) == line
  {
    hide HostChar, HostOk;
  }

  lemma HostEnds(t: Text, h: string)
    requires Tame(t) && HostText(h)
    ensures !t.space(h[0]) && !t.space(h[|h| - 1]) && h[0] != BOM[0]
    ensures TrimSpace(t, h) == h && TrimPrefix(h, BOM) == h
  {
    hide HostOk;
    assert HostChar(h[0]) && HostChar(h[|h| - 1]);
    assert !HostChar(BOM[0]);
  }

  lemma GoodHostIsFixed(t: Text, h: string)
    requires Tame(t) && HostOk(h)
    ensures Normalized(t, h) == Some(h)
  {
    GoodHostText(h);
    assert t.ascii(h) == Some(h);
    hide HostOk, Lower, TrimSpace, TrimPrefix;
    LowerFixed(t, h);
    HostEnds(t, h);
    hide Tame, HostChar;
  }

  // ----- one rule -----

  const DOMAIN := "domain:"

  datatype Fault = KeywordRule | RegexDisabled | BadRegex | BadHost | BadWildcard

  function HostRule(t: Text, kind: string, text: string): (r: Result<Entry, Fault>)
    ensures r.Ok? ==> r.value.kind == kind && HostOk(r.value.value)
  {
    match Normalized(t, text)
    case None => Err(BadHost)
    case Some(v) => Ok(Entry(kind, v))
  }

  function AfterColon(line: string): string {
    line[IndexOf(line, ':') + 1..]
  }

  predicate RegexOk(t: Text, v: string) {
    1 <= t.bytes(v) <= MAX_REGEX && t.compiles(v)
  }

  /** The forms a rule line is told apart by, in the order they are tried. */
  datatype Form =
    | SuffixColon | KeywordColon | RegexColon | FullColon | DomainColon | StarDot | Dot | PlusDot | Wildcard | Plain

  function FormOf(lower: string, line: string): Form {
    if "domain-suffix:" <= lower || "suffix:" <= lower then SuffixColon
    else if "domain-keyword:" <= lower || "keyword:" <= lower then KeywordColon
    else if "domain-regex:" <= lower || "regexp:" <= lower || "regex:" <= lower then RegexColon
    else if "full:" <= lower || "domain-full:" <= lower then FullColon
    else if DOMAIN <= lower then DomainColon
    else if "*." <= line then StarDot
    else if "." <= line then Dot
    else if "+." <= line then PlusDot
    else if '*' in line || '?' in line || '/' in line then Wildcard
    else Plain
  }

  function From(line: string, n: nat): string {
    if n <= |line| then line[n..] else ""
  }

  function ParseOne(t: Text, line: string, allowRegex: bool): Result<Entry, Fault> {
    match FormOf(Lower(t, line), line)
    case SuffixColon => HostRule(t, KIND_SUFFIX, AfterColon(line))
    case KeywordColon => Err(KeywordRule)
    case RegexColon =>
      if !allowRegex then Err(RegexDisabled)
      else
        var v := TrimSpace(t, AfterColon(line));
        if RegexOk(t, v) then Ok(Entry(KIND_REGEX, v)) else Err(BadRegex)
    case FullColon => HostRule(t, KIND_EXACT, AfterColon(line))
    case DomainColon => HostRule(t, KIND_SUFFIX, From(line, |DOMAIN|))
    case StarDot => HostRule(t, KIND_SUFFIX, From(line, 2))
    case Dot => HostRule(t, KIND_SUFFIX, From(line, 1))
    case PlusDot => HostRule(t, KIND_SUFFIX, From(line, 2))
    case Wildcard => Err(BadWildcard)
    case Plain => HostRule(t, KIND_EXACT, line)
  }

  /** Whatever parses is a good host under a host kind, or a short compiling pattern where patterns are allowed. */
  lemma ParsedShape(t: Text, line: string, allowRegex: bool)
    requires ParseOne(t, line, allowRegex).Ok?
    ensures var e := ParseOne(t, line, allowRegex).value;
            || ((e.kind == KIND_EXACT || e.kind == KIND_SUFFIX) && HostOk(e.value))
            || (e.kind == KIND_REGEX && allowRegex && RegexOk(t, e.value) && forall c :: c in e.value ==> c in line)
  {
    TrimSpaceChars(t, AfterColon(line));
    assert forall c :: c in AfterColon(line) ==> c in line;
    hide HostOk, FormOf, AfterColon, TrimSpace, Lower, RegexOk, From;
  }

  predicate HostEntry(e: Entry) {
    (e.kind == KIND_EXACT || e.kind == KIND_SUFFIX) && HostOk(e.value)
  }

  /** A host rule as text: the name itself, or `domain:` before it for a suffix. */
  function Render(e: Entry): string {
    if e.kind == KIND_SUFFIX then DOMAIN + e.value else e.value
  }

  lemma DomainLine(t: Text, h: string)
    requires Tame(t) && HostText(h)
    ensures DOMAIN <= DOMAIN + h && From(DOMAIN + h, |DOMAIN|) == h
    ensures Lower(t, DOMAIN + h) == DOMAIN + h
  {
    var line := DOMAIN + h;
    forall i | 0 <= i < |line| ensures HostChar(line[i]) || line[i] == '.' || line[i] == ':' {
      assert i >= |DOMAIN| ==> line[i] == h[i - |DOMAIN|];
    }
    hide Tame, Lower, HostText;
    LowerFixed(t, line);
  }

  lemma DomainForm(line: string)
    requires DOMAIN <= line
    ensures FormOf(line, line) == DomainColon
  {
    assert line[0] == DOMAIN[0] && line[6] == DOMAIN[6];
    Differs(line, "domain-suffix:", 6);
    Differs(line, "suffix:", 0);
    Differs(line, "domain-keyword:", 6);
    Differs(line, "keyword:", 0);
    Differs(line, "domain-regex:", 6);
    Differs(line, "regexp:", 0);
    Differs(line, "regex:", 0);
    Differs(line, "full:", 0);
    Differs(line, "domain-full:", 6);
  }

  lemma PlainForm(h: string)
    requires HostText(h)
    ensures FormOf(h, h) == Plain
  {
    TextExcludes(h, ':');
    TextExcludes(h, '*');
    TextExcludes(h, '?');
    TextExcludes(h, '/');
    assert h[0] != '.' && h[0] != '*' && h[0] != '+';
    hide HostText, HostChar;
    assert forall k :: 0 <= k < |h| ==> h[k] != ':';
    Differs(h, "domain-suffix:", 13);
    Differs(h, "suffix:", 6);
    Differs(h, "domain-keyword:", 14);
    Differs(h, "keyword:", 7);
    Differs(h, "domain-regex:", 12);
    Differs(h, "regexp:", 6);
    Differs(h, "regex:", 5);
    Differs(h, "full:", 4);
    Differs(h, "domain-full:", 11);
    Differs(h, DOMAIN, 6);
  }

  lemma DomainRule(t: Text, line: string, allowRegex: bool)
    requires FormOf(Lower(t, line), line) == DomainColon
    ensures ParseOne(t, line, allowRegex) == HostRule(t, KIND_SUFFIX, From(line, |DOMAIN|))
  {
    hide FormOf, Lower, HostRule, From;
  }

  lemma SuffixRoundTrip(t: Text, h: string, allowRegex: bool)
    requires Tame(t) && HostOk(h)
    ensures ParseOne(t, DOMAIN + h, allowRegex) == Ok(Entry(KIND_SUFFIX, h))
  {
    GoodHostText(h);
    hide HostOk, Tame, Normalized, Lower, HostText, From, FormOf, ParseOne;
    GoodHostIsFixed(t, h);
    DomainLine(t, h);
    DomainForm(DOMAIN + h);
    DomainRule(t, DOMAIN + h, allowRegex);
  }

  lemma ExactRoundTrip(t: Text, h: string, allowRegex: bool)
    requires Tame(t) && HostOk(h)
    ensures ParseOne(t, h, allowRegex) == Ok(Entry(KIND_EXACT, h))
  {
    GoodHostText(h);
    LowerFixed(t, h);
    hide HostOk, Tame, Normalized, Lower, AfterColon, HostText, From, FormOf;
    GoodHostIsFixed(t, h);
    assert HostRule(t, KIND_EXACT, h) == Ok(Entry(KIND_EXACT, h));
    hide HostRule;
    PlainForm(h);
  }

  /** A host rule written out parses to itself. */
  lemma RuleRoundTrip(t: Text, e: Entry, allowRegex: bool)
    requires Tame(t) && HostEntry(e)
    ensures ParseOne(t, Render(e), allowRegex) == Ok(e)
  {
    assert KIND_EXACT[0] != KIND_SUFFIX[0];
    hide ParseOne;
    if e.kind == KIND_SUFFIX {
      SuffixRoundTrip(t, e.value, allowRegex);
    } else {
      ExactRoundTrip(t, e.value, allowRegex);
    }
  }

  lemma Differs(line: string, p: string, k: nat)
    requires k < |p| && (k < |line| ==> line[k] != p[k])
    ensures !(p <= line)
  {
  }

  // ----- whole lists -----

  function Lines(body: string): seq<string> {
    Split(body, '\n')
  }

  predicate Sink(f: string) {
    f == "0.0.0.0" || f == "127.0.0.1" || f == "::"
  }

  /** The rule on a line, if it is neither blank nor a comment; of a hosts-file line, the name. */
  function RuleOn(t: Text, raw: string): Option<string> {
    var cut := if raw != "" && raw[|raw| - 1] == '\r' then raw[..|raw| - 1] else raw;
    var line := TrimPrefix(TrimSpace(t, cut), BOM);
    if line == "" || "#" <= line || "!" <= line || "//" <= line then None
    else
      var i := IndexOf(line, '#');
      var rule := if i >= 0 then TrimSpace(t, line[..i]) else line;
      if rule == "" then None
      else
        var f := Fields(t, rule);
        if |f| == 2 && Sink(f[0]) then Some(f[1]) else Some(rule)
  }

  function EntryOn(t: Text, raw: string, allowRegex: bool): Option<Entry> {
    match RuleOn(t, raw)
    case None => None
    case Some(rule) => match ParseOne(t, rule, allowRegex) case Ok(e) => Some(e) case Err(_) => None
  }

  /** The line holds a rule that does not parse. */
  predicate SkipsLine(t: Text, raw: string, allowRegex: bool) {
    RuleOn(t, raw).Some? && EntryOn(t, raw, allowRegex).None?
  }

  /** The rules on the lines, each once. */
  function RulesIn(t: Text, lines: seq<string>, allowRegex: bool): set<Entry> {
    set k | 0 <= k < |lines| && EntryOn(t, lines[k], allowRegex).Some? :: EntryOn(t, lines[k], allowRegex).value
  }

  function Skips(t: Text, lines: seq<string>, allowRegex: bool): nat {
    if lines == [] then 0
    else Skips(t, lines[..|lines| - 1], allowRegex) + if SkipsLine(t, lines[|lines| - 1], allowRegex) then 1 else 0
  }

  /** The most rules a list may hold; a million unless set. */
  function EntryLimit(maxEntries: int): (n: nat)
    ensures maxEntries <= 0 ==> n == 1000000
    ensures maxEntries > 0 ==> n == maxEntries
  {
    if maxEntries <= 0 then 1000000 else maxEntries
  }

  lemma NoLines(t: Text, allowRegex: bool)
    ensures RulesIn(t, [], allowRegex) == {} && Skips(t, [], allowRegex) == 0
  {
  }

  /** What one more line adds. */
  lemma RulesStep(t: Text, lines: seq<string>, i: nat, allowRegex: bool)
    requires i < |lines|
    ensures RulesIn(t, lines[..i + 1], allowRegex) == RulesIn(t, lines[..i], allowRegex) +
              match EntryOn(t, lines[i], allowRegex) case None => {} case Some(e) => {e}
    ensures RulesIn(t, lines[..i + 1], allowRegex) <= RulesIn(t, lines, allowRegex)
  {
    hide EntryOn;
    var more, some := lines[..i + 1], lines[..i];
    assert more[i] == lines[i];
    assert forall k :: 0 <= k < i ==> more[k] == lines[k] && some[k] == lines[k];
  }

  lemma SkipsStep(t: Text, lines: seq<string>, i: nat, allowRegex: bool)
    requires i < |lines|
    ensures Skips(t, lines[..i + 1], allowRegex) ==
            Skips(t, lines[..i], allowRegex) + if SkipsLine(t, lines[i], allowRegex) then 1 else 0
  {
    hide SkipsLine;
    assert lines[..i + 1][..i] == lines[..i];
  }

  lemma TooMany(out: seq<Entry>, all: set<Entry>, limit: nat)
    requires Distinct(out) && ToSet(out) <= all && |out| > limit
    ensures |all| > limit
  {
    DistinctCardinality(out);
    SubsetSize(ToSet(out), all);
  }

  /** The rules and the number of lines skipped among the first `i` lines. */
  ghost predicate ReadTo(t: Text, lines: seq<string>, allowRegex: bool, i: nat, entries: seq<Entry>, skipped: nat) {
    && i <= |lines| && ToSet(entries) == RulesIn(t, lines[..i], allowRegex)
    && skipped == Skips(t, lines[..i], allowRegex)
  }

  /** The rules once one more line has been read. */
  function Joined(out: seq<Entry>, found: Option<Entry>): seq<Entry> {
    if found.Some? && found.value !in ToSet(out) then out + [found.value] else out
  }

  lemma ReadOn(t: Text, lines: seq<string>, allowRegex: bool, i: nat, out: seq<Entry>, skipped: nat)
    requires i < |lines| && ReadTo(t, lines, allowRegex, i, out, skipped) && Distinct(out)
    ensures var next := Joined(out, EntryOn(t, lines[i], allowRegex));
            && ReadTo(t, lines, allowRegex, i + 1, next, skipped + if SkipsLine(t, lines[i], allowRegex) then 1 else 0)
            && Distinct(next) && ToSet(next) <= RulesIn(t, lines, allowRegex)
  {
    RulesStep(t, lines, i, allowRegex);
    SkipsStep(t, lines, i, allowRegex);
    var found := EntryOn(t, lines[i], allowRegex);
    if found.Some? && found.value !in ToSet(out) { DistinctSnoc(out, found.value); }
    hide RulesIn, Skips, EntryOn, SkipsLine, Distinct;
  }

  method ReadLine(t: Text, raw: string, allowRegex: bool) returns (found: Option<Entry>, skip: bool)
    ensures found == EntryOn(t, raw, allowRegex)
    ensures skip <==> SkipsLine(t, raw, allowRegex)
  {
    var rule := RuleOn(t, raw);
    if rule.None? { return None, false; }
    match ParseOne(t, rule.value, allowRegex) {
      case Ok(e) => return Some(e), false;
      case Err(_) => return None, true;
    }
  }

  /**
   * Succeeds exactly when the distinct rules fit the limit, and then returns them sorted,
   * without repetition; otherwise it returns the rules, each once, of the leading lines that
   * hold one more than the limit.
   */
  method ParseLines(t: Text, body: string, allowRegex: bool, maxEntries: int)
    returns (entries: seq<Entry>, skipped: nat, ok: bool)
    ensures ok <==> |RulesIn(t, Lines(body), allowRegex)| <= EntryLimit(maxEntries)
    ensures ok ==> StrictlySorted(entries) && ToSet(entries) == RulesIn(t, Lines(body), allowRegex)
    ensures ok ==> skipped == Skips(t, Lines(body), allowRegex)
    ensures !ok ==> Distinct(entries) && |entries| == EntryLimit(maxEntries) + 1
    ensures !ok ==> exists i: nat :: ReadTo(t, Lines(body), allowRegex, i, entries, skipped)
  {
    var lines := Split(body, '\n');
    var limit := EntryLimit(maxEntries);
    var seen: set<Entry>, out: seq<Entry> := {}, [];
    skipped := 0;
    assert lines == Lines(body) && lines[..|lines|] == lines;
    assert ToSet(out) == {} && lines[..0] == [];
    hide RuleOn, ParseOne, RulesIn, Skips, EntryOn, SkipsLine, Split, Lines, EntryLimit, StrictlySorted, Distinct, ToSet;
    NoLines(t, allowRegex);
    assert ReadTo(t, lines, allowRegex, 0, out, skipped);
    for i := 0 to |lines|
      invariant Distinct(out) && ToSet(out) == seen && |out| <= limit
      invariant ReadTo(t, lines, allowRegex, i, out, skipped)
    {
      hide ReadTo;
      var found, skip := ReadLine(t, lines[i], allowRegex);
      ReadOn(t, lines, allowRegex, i, out, skipped);
      if skip { skipped := skipped + 1; }
      if found.Some? && found.value !in seen {
        DistinctSnoc(out, found.value);
        seen := seen + {found.value};
        out := out + [found.value];
        if |out| > limit {
          TooMany(out, RulesIn(t, lines, allowRegex), limit);
          assert ReadTo(t, lines, allowRegex, i + 1, out, skipped);
          return out, skipped, false;
        }
      }
    }
    DistinctCardinality(out);
    entries := Sort(out, EntryLess);
    SortedSet(out);
    ok := true;
  }

  lemma SortedSet(es: seq<Entry>)
    requires Distinct(es)
    ensures StrictlySorted(Sort(es, EntryLess)) && ToSet(Sort(es, EntryLess)) == ToSet(es)
  {
    EntryWeakOrder(es);
    SortIsSortOf(es, EntryLess);
    PermutationDistinct(es, Sort(es, EntryLess));
    SortedDistinct(Sort(es, EntryLess));
    SameMultisetMembers(es, Sort(es, EntryLess));
  }

  // ----- what is parsed can be hashed -----

  lemma RuleChars(t: Text, raw: string)
    requires RuleOn(t, raw).Some?
    ensures forall c :: c in RuleOn(t, raw).value ==> c in raw
  {
    var cut := if raw != "" && raw[|raw| - 1] == '\r' then raw[..|raw| - 1] else raw;
    assert forall c :: c in cut ==> c in raw;
    TrimSpaceChars(t, cut);
    var trimmed := TrimSpace(t, cut);
    assert forall c :: c in TrimPrefix(trimmed, BOM) ==> c in trimmed;
    var line := TrimPrefix(TrimSpace(t, cut), BOM);
    assert forall c :: c in line ==> c in raw;
    var i := IndexOf(line, '#');
    if i >= 0 { TrimSpaceChars(t, line[..i]); }
    var rule := if i >= 0 then TrimSpace(t, line[..i]) else line;
    assert forall c :: c in rule ==> c in raw;
    var f := Fields(t, rule);
    if |f| == 2 && Sink(f[0]) {
      forall c | c in f[1] ensures c in raw { FieldChars(t, rule, f[1], c); }
    }
  }

  /** No rule parsed from text holds a newline, so parsed lists with one hash input are the same. */
  lemma ParsedListsDiffer(t: Text, body: string, other: string, allowRegex: bool, a: seq<Entry>, b: seq<Entry>)
    requires ToSet(a) == RulesIn(t, Lines(body), allowRegex) && ToSet(b) == RulesIn(t, Lines(other), allowRegex)
    ensures Encode(a) == Encode(b) <==> a == b
  {
    ParsedEncodable(t, body, allowRegex, a);
    ParsedEncodable(t, other, allowRegex, b);
    if Encode(a) == Encode(b) { EncodeInjective(a, b); }
  }

  lemma ParsedEncodable(t: Text, body: string, allowRegex: bool, es: seq<Entry>)
    requires ToSet(es) == RulesIn(t, Lines(body), allowRegex)
    ensures Encodable(es)
  {
    JoinSplit(body, '\n');
    hide RuleOn, ParseOne, Split;
    forall e | e in es ensures NUL !in e.kind && '\n' !in e.value {
      assert e in ToSet(es);
      var k :| 0 <= k < |Lines(body)| && EntryOn(t, Lines(body)[k], allowRegex) == Some(e);
      var raw := Lines(body)[k];
      assert raw in Lines(body);
      RuleChars(t, raw);
      ParsedShape(t, RuleOn(t, raw).value, allowRegex);
      NoNewline(e, raw);
    }
  }

  lemma NoNewline(e: Entry, raw: string)
    requires '\n' !in raw
    requires HostEntry(e) || (e.kind == KIND_REGEX && forall c :: c in e.value ==> c in raw)
    ensures NUL !in e.kind && '\n' !in e.value
  {
    if HostEntry(e) {
      GoodHostText(e.value);
      TextExcludes(e.value, '\n');
    }
  }

  // ----- lists written out -----

  function RenderAll(es: seq<Entry>): seq<string> {
    seq(|es|, i requires 0 <= i < |es| => Render(es[i]))
  }

  lemma {:induction false} OneField(t: Text, s: string)
    requires s != "" && forall i :: 0 <= i < |s| ==> !t.space(s[i])
    ensures WordEnd(t, s) == |s| && Fields(t, s) == [s] && TrimSpace(t, s) == s
  {
    if |s| > 1 { OneField(t, s[1..]); }
    assert s[..|s|] == s && s[|s|..] == "";
  }

  /** A written host rule is one word, and no comment. */
  lemma RenderedWord(t: Text, e: Entry)
    requires Tame(t) && HostEntry(e)
    ensures var line := Render(e);
            && line != "" && (forall i :: 0 <= i < |line| ==> !t.space(line[i]))
            && (forall i :: 0 <= i < |line| ==> HostChar(line[i]) || line[i] == '.' || line[i] == ':')
            && HostChar(line[0])
  {
    var line, h := Render(e), e.value;
    GoodHostText(h);
    hide HostOk;
    forall i | 0 <= i < |line| ensures HostChar(line[i]) || line[i] == '.' || line[i] == ':' {
      assert e.kind == KIND_SUFFIX && i >= |DOMAIN| ==> line[i] == h[i - |DOMAIN|];
    }
    hide HostText, Render;
  }

  lemma RenderedRule(t: Text, e: Entry)
    requires Tame(t) && HostEntry(e)
    ensures RuleOn(t, Render(e)) == Some(Render(e))
  {
    var line := Render(e);
    RenderedWord(t, e);
    OneField(t, line);
    assert line[0] != BOM[0] && line[0] != "#"[0] && line[0] != "!"[0] && line[0] != "//"[0];
    assert line[|line| - 1] != '\r' by { assert !HostChar('\r'); }
    assert IndexOf(line, '#') < 0 by { assert !HostChar('#'); }
    hide Tame, HostEntry, Render, Fields, TrimSpace, HostChar, IndexOf;
    assert TrimPrefix(line, BOM) == line;
  }

  lemma RenderedLine(t: Text, e: Entry, allowRegex: bool)
    requires Tame(t) && HostEntry(e)
    ensures EntryOn(t, Render(e), allowRegex) == Some(e)
  {
    RenderedRule(t, e);
    RuleRoundTrip(t, e, allowRegex);
    hide Tame, HostEntry, Render, RuleOn, ParseOne;
  }

  /** A canonical list of host rules, written one per line, is what parsing the text returns. */
  lemma ListRoundTrip(t: Text, es: seq<Entry>, allowRegex: bool, parsed: seq<Entry>)
    requires Tame(t) && es != [] && StrictlySorted(es) && forall e :: e in es ==> HostEntry(e)
    requires StrictlySorted(parsed)
    requires ToSet(parsed) == RulesIn(t, Lines(Join(RenderAll(es), '\n')), allowRegex)
    ensures parsed == es
  {
    var lines := RenderAll(es);
    forall line | line in lines ensures '\n' !in line {
      var i :| 0 <= i < |es| && lines[i] == line;
      assert es[i] in es;
      RenderedWord(t, es[i]);
    }
    forall k | 0 <= k < |es| ensures EntryOn(t, lines[k], allowRegex) == Some(es[k]) {
      assert es[k] in es;
      RenderedLine(t, es[k], allowRegex);
    }
    hide Tame, HostEntry, Render, EntryOn, StrictlySorted, RenderAll;
    SplitJoin(lines, '\n');
    hide Split, Join;
    forall e ensures e in RulesIn(t, lines, allowRegex) <==> e in ToSet(es) {
      if e in es {
        var k :| 0 <= k < |es| && es[k] == e;
        assert EntryOn(t, lines[k], allowRegex) == Some(e);
      }
    }
    CanonicalUnique(parsed, es);
  }
}
