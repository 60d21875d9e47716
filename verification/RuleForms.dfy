/** What each written form of a rule means: its kind, its name, and what may surround it. */
module RuleForms {
  import opened Collections
  import opened DomainSet
  import opened RuleLines

  ghost predicate Blank(t: Text, s: string) {
    forall i :: 0 <= i < |s| ==> t.space(s[i])
  }

  /** Text that starts and ends with something visible. */
  ghost predicate Solid(t: Text, s: string) {
    s != "" && !t.space(s[0]) && !t.space(s[|s| - 1])
  }

  lemma {:induction false} TrimLeftPad(t: Text, a: string, s: string)
    requires Blank(t, a) && (s != "" ==> !t.space(s[0]))
    ensures TrimLeft(t, a + s) == s
    decreases |a|
  {
    if a == "" {
      assert a + s == s;
    } else {
      assert (a + s)[1..] == a[1..] + s;
      TrimLeftPad(t, a[1..], s);
    }
  }

  lemma {:induction false} TrimRightPad(t: Text, s: string, b: string)
    requires Blank(t, b) && (s != "" ==> !t.space(s[|s| - 1]))
    ensures TrimRight(t, s + b) == s
    decreases |b|
  {
    if b == "" {
      assert s + b == s;
    } else {
      var n := |b| - 1;
      assert (s + b)[..|s + b| - 1] == s + b[..n];
      TrimRightPad(t, s, b[..n]);
    }
  }

  /** White space around does not count. */
  lemma TrimPads(t: Text, a: string, s: string, b: string)
    requires Blank(t, a) && Blank(t, b) && Solid(t, s)
    ensures TrimSpace(t, a + s + b) == s
  {
    assert a + s + b == a + (s + b) && (s + b)[0] == s[0];
    TrimLeftPad(t, a, s + b);
    TrimRightPad(t, s, b);
  }

  lemma OneChar(p: string, s: string)
    requires |p| == 1
    ensures p <= s <==> s != "" && s[0] == p[0]
  {
  }

  // ----- names -----

  /**
   * A name in any surroundings: white space and one trailing dot do not count; the rest goes
   * through IDNA and lower-casing, and must be a good host.
   */
  lemma NameMeaning(t: Text, a: string, name: string, dot: bool, b: string)
    requires Blank(t, a) && Blank(t, b) && Solid(t, name) && !t.space('.')
    requires !(BOM <= name) && name[|name| - 1] != '.'
    ensures Normalized(t, a + (name + if dot then "." else "") + b) ==
            match t.ascii(name)
            case None => None
            case Some(x) => if HostOk(Lower(t, x)) then Some(Lower(t, x)) else None
  {
    var s := name + if dot then "." else "";
    assert s[0] == name[0] && Solid(t, s);
    TrimPads(t, a, s, b);
    OneChar(BOM, s);
    OneChar(BOM, name);
    assert if dot then s[..|s| - 1] == name else s == name;
    hide HostOk, Lower, TrimSpace;
  }

  // ----- prefixed rules -----

  /** A word up to its only colon. */
  ghost predicate Marker(p: string) {
    p != "" && p[|p| - 1] == ':' && forall i :: 0 <= i < |p| - 1 ==> p[i] != ':'
  }

  /** A line starts with one marker at most. */
  lemma OneMarker(line: string, p: string, q: string)
    requires Marker(p) && Marker(q) && p <= line && q <= line
    ensures p == q
  {
    assert forall i :: 0 <= i < |p| ==> line[i] == p[i];
    assert forall i :: 0 <= i < |q| ==> line[i] == q[i];
    assert p == line[..|p|] && q == line[..|q|];
  }

  lemma NotAlso(line: string, p: string, q: string)
    requires Marker(p) && Marker(q) && p <= line && (|p| != |q| || p[0] != q[0])
    ensures !(q <= line)
  {
    if q <= line { OneMarker(line, p, q); }
  }

  lemma SuffixForm(lower: string, line: string)
    requires "domain-suffix:" <= lower || "suffix:" <= lower
    ensures FormOf(lower, line) == SuffixColon
  {
  }

  lemma KeywordForm(lower: string, line: string, p: string)
    requires p <= lower && Marker(p) && (p == "domain-keyword:" || p == "keyword:")
    ensures FormOf(lower, line) == KeywordColon
  {
    NotAlso(lower, p, "domain-suffix:");
    NotAlso(lower, p, "suffix:");
    hide Marker;
  }

  lemma RegexForm(lower: string, line: string, p: string)
    requires p <= lower && Marker(p) && (p == "domain-regex:" || p == "regexp:" || p == "regex:")
    ensures FormOf(lower, line) == RegexColon
  {
    NotAlso(lower, p, "domain-suffix:");
    NotAlso(lower, p, "suffix:");
    NotAlso(lower, p, "domain-keyword:");
    NotAlso(lower, p, "keyword:");
    hide Marker;
  }

  lemma FullForm(lower: string, line: string, p: string)
    requires p <= lower && Marker(p) && (p == "full:" || p == "domain-full:")
    ensures FormOf(lower, line) == FullColon
  {
    NotAlso(lower, p, "domain-suffix:");
    NotAlso(lower, p, "suffix:");
    NotAlso(lower, p, "domain-keyword:");
    NotAlso(lower, p, "keyword:");
    NotAlso(lower, p, "domain-regex:");
    NotAlso(lower, p, "regexp:");
    NotAlso(lower, p, "regex:");
    hide Marker;
  }

  lemma DomainFormOf(lower: string, line: string)
    requires "domain:" <= lower
    ensures FormOf(lower, line) == DomainColon
  {
    DomainForm(lower);
    hide FormOf;
    SameForm(lower, lower, line);
  }

  /** Markers are looked for in the lower-cased line only. */
  lemma SameForm(lower: string, line: string, other: string)
    requires FormOf(lower, line) == DomainColon
    ensures FormOf(lower, other) == DomainColon
  {
  }

  /** The name as a rule of a kind. */
  function Named(t: Text, kind: string, text: string): Result<Entry, Fault> {
    match Normalized(t, text)
    case None => Err(BadHost)
    case Some(v) => Ok(Entry(kind, v))
  }

  lemma ColonAt(q: string, x: string)
    requires Marker(q)
    ensures AfterColon(q + x) == x
  {
    IndexNotAfter(q + x, ':', |q| - 1);
  }

  lemma MarkedLower(t: Text, q: string, x: string)
    ensures Lower(t, q) <= Lower(t, q + x)
  {
  }

  /** A rule behind a marker, in any letter case. */
  lemma MarkedRule(t: Text, q: string, x: string, allowRegex: bool)
    requires Marker(q) && Marker(Lower(t, q))
    ensures var p, r := Lower(t, q), ParseOne(t, q + x, allowRegex);
            && (p == "domain-suffix:" || p == "suffix:" || p == "domain:" ==> r == Named(t, "suffix", x))
            && (p == "full:" || p == "domain-full:" ==> r == Named(t, "exact", x))
            && (p == "domain-keyword:" || p == "keyword:" ==> r == Err(KeywordRule))
            && (p == "domain-regex:" || p == "regexp:" || p == "regex:" ==>
                  r == if !allowRegex then Err(RegexDisabled)
                       else if 1 <= t.bytes(TrimSpace(t, x)) <= 256 && t.compiles(TrimSpace(t, x))
                       then Ok(Entry("regex", TrimSpace(t, x))) else Err(BadRegex))
  {
    var p, line := Lower(t, q), q + x;
    MarkedLower(t, q, x);
    var lower := Lower(t, line);
    ColonAt(q, x);
    assert p == "domain:" ==> line[7..] == x;
    if p == "domain-suffix:" || p == "suffix:" { SuffixForm(lower, line); }
    else if p == "domain-keyword:" || p == "keyword:" { KeywordForm(lower, line, p); }
    else if p == "domain-regex:" || p == "regexp:" || p == "regex:" { RegexForm(lower, line, p); }
    else if p == "full:" || p == "domain-full:" { FullForm(lower, line, p); }
    else if p == "domain:" { DomainFormOf(lower, line); }
    hide Normalized, FormOf, Lower, AfterColon, TrimSpace, Marker;
    FormsDecide(t, line, x, allowRegex);
  }

  lemma FormsDecide(t: Text, line: string, x: string, allowRegex: bool)
    requires AfterColon(line) == x
    ensures var r, f := ParseOne(t, line, allowRegex), FormOf(Lower(t, line), line);
            && (f == SuffixColon ==> r == Named(t, "suffix", x))
            && (f == DomainColon ==> r == Named(t, "suffix", From(line, 7)))
            && (f == FullColon ==> r == Named(t, "exact", x))
            && (f == KeywordColon ==> r == Err(KeywordRule))
            && (f == RegexColon ==>
                  r == if !allowRegex then Err(RegexDisabled)
                       else if 1 <= t.bytes(TrimSpace(t, x)) <= 256 && t.compiles(TrimSpace(t, x))
                       then Ok(Entry("regex", TrimSpace(t, x))) else Err(BadRegex))
  {
    hide Normalized, FormOf, Lower, AfterColon, TrimSpace, From;
  }

  // ----- rules without a marker -----

  predicate Unmarked(lower: string) {
    && !("domain-suffix:" <= lower) && !("suffix:" <= lower) && !("domain:" <= lower)
    && !("domain-keyword:" <= lower) && !("keyword:" <= lower)
    && !("domain-regex:" <= lower) && !("regexp:" <= lower) && !("regex:" <= lower)
    && !("full:" <= lower) && !("domain-full:" <= lower)
  }

  lemma UnmarkedForm(lower: string, line: string)
    requires Unmarked(lower)
    ensures FormOf(lower, line) ==
            if "*." <= line then StarDot
            else if "." <= line then Dot
            else if "+." <= line then PlusDot
            else if '*' in line || '?' in line || '/' in line then Wildcard
            else Plain
  {
  }

  /**
   * A line without a marker: `*.`, `.` and `+.` before a name make it a suffix, other
   * wildcards are refused, and a bare name stands for itself alone.
   */
  lemma UnmarkedRule(t: Text, line: string, allowRegex: bool)
    requires Unmarked(Lower(t, line))
    ensures ParseOne(t, line, allowRegex) ==
            if |line| >= 2 && (line[0] == '*' || line[0] == '+') && line[1] == '.' then Named(t, "suffix", line[2..])
            else if |line| >= 1 && line[0] == '.' then Named(t, "suffix", line[1..])
            else if exists i :: 0 <= i < |line| && (line[i] == '*' || line[i] == '?' || line[i] == '/') then Err(BadWildcard)
            else Named(t, "exact", line)
  {
    UnmarkedForm(Lower(t, line), line);
    assert "*." <= line <==> |line| >= 2 && line[0] == '*' && line[1] == '.';
    assert "+." <= line <==> |line| >= 2 && line[0] == '+' && line[1] == '.';
    assert "." <= line <==> |line| >= 1 && line[0] == '.';
    hide Normalized, FormOf, Lower, Unmarked;
  }

  // ----- what else is on a line -----

  /** Visible text that is no comment and has none in it. */
  ghost predicate PlainText(t: Text, s: string) {
    Solid(t, s) && !(BOM <= s) && '#' !in s && !("!" <= s) && !("//" <= s) && s[|s| - 1] != '\r'
  }

  lemma CutEnd(t: Text, a: string, s: string, b: string, cr: bool)
    requires Blank(t, a) && Blank(t, b) && Solid(t, s) && s[|s| - 1] != '\r' && !(BOM <= s)
    requires b != "" ==> b[|b| - 1] != '\r'
    ensures var raw := a + s + b + if cr then "\r" else "";
            var cut := if raw != "" && raw[|raw| - 1] == '\r' then raw[..|raw| - 1] else raw;
            TrimPrefix(TrimSpace(t, cut), BOM) == s
  {
    var raw := a + s + b + if cr then "\r" else "";
    var cut := if raw != "" && raw[|raw| - 1] == '\r' then raw[..|raw| - 1] else raw;
    if cr {
      assert cut == a + s + b;
    } else {
      assert raw == a + s + b;
      assert b == "" ==> raw[|raw| - 1] == s[|s| - 1];
      assert b != "" ==> raw[|raw| - 1] == b[|b| - 1];
    }
    TrimPads(t, a, s, b);
    hide TrimSpace;
  }

  /** Comments: a line that begins with `#`, `!` or `//` holds no rule. */
  lemma CommentLine(t: Text, a: string, s: string, b: string, cr: bool)
    requires Blank(t, a) && Blank(t, b) && Solid(t, s) && s[|s| - 1] != '\r'
    requires b != "" ==> b[|b| - 1] != '\r'
    requires s[0] == '#' || s[0] == '!' || (|s| >= 2 && s[0] == '/' && s[1] == '/')
    ensures RuleOn(t, a + s + b + if cr then "\r" else "") == None
  {
    OneChar(BOM, s);
    CutEnd(t, a, s, b, cr);
    assert "#" <= s || "!" <= s || "//" <= s by {
      assert s[0] == '#' ==> "#" <= s;
      assert s[0] == '!' ==> "!" <= s;
      assert |s| >= 2 && s[0] == '/' && s[1] == '/' ==> "//" <= s;
    }
    hide TrimSpace, Fields, IndexOf;
  }

  lemma {:induction false} WordThen(t: Text, w: string, rest: string)
    requires (forall i :: 0 <= i < |w| ==> !t.space(w[i])) && (rest != "" ==> t.space(rest[0]))
    ensures WordEnd(t, w + rest) == |w|
    decreases |w|
  {
    if w == "" {
      assert w + rest == rest;
    } else {
      assert (w + rest)[1..] == w[1..] + rest;
      WordThen(t, w[1..], rest);
    }
  }

  /** Two words with white space between. */
  lemma TwoFields(t: Text, v: string, gap: string, w: string)
    requires v != "" && w != "" && gap != "" && Blank(t, gap)
    requires (forall i :: 0 <= i < |v| ==> !t.space(v[i])) && (forall i :: 0 <= i < |w| ==> !t.space(w[i]))
    ensures Fields(t, v + gap + w) == [v, w]
  {
    var s := v + gap + w;
    assert s == v + (gap + w) && (gap + w)[0] == gap[0];
    WordThen(t, v, gap + w);
    assert TrimLeft(t, s) == s by { assert s[0] == v[0]; }
    assert s[..|v|] == v && s[|v|..] == gap + w;
    TrimLeftPad(t, gap, w);
    OneField(t, w);
    AfterGap(t, gap, w);
  }

  lemma AfterGap(t: Text, gap: string, w: string)
    requires Blank(t, gap) && w != "" && forall i :: 0 <= i < |w| ==> !t.space(w[i])
    ensures Fields(t, gap + w) == [w]
  {
    TrimLeftPad(t, gap, w);
    OneField(t, w);
    assert w[..|w|] == w && w[|w|..] == "";
  }

  /** Leaves the name of a hosts-file line that points nowhere, and any other rule as it is. */
  function Unsunk(t: Text, rule: string): string {
    var f := Fields(t, rule);
    if |f| == 2 && (f[0] == "0.0.0.0" || f[0] == "127.0.0.1" || f[0] == "::") then f[1] else rule
  }

  /** A line with a rule, and perhaps a comment behind it. */
  lemma RuleLine(t: Text, a: string, rule: string, gap: string, comment: string, b: string, cr: bool)
    requires Blank(t, a) && Blank(t, b) && Blank(t, gap) && PlainText(t, rule)
    requires b != "" ==> b[|b| - 1] != '\r'
    requires comment != "" ==> comment[0] == '#' && Solid(t, comment) && comment[|comment| - 1] != '\r'
    requires comment == "" ==> gap == ""
    requires !t.space('#') && !t.space('/')
    ensures RuleOn(t, a + (rule + gap + comment) + b + if cr then "\r" else "") == Some(Unsunk(t, rule))
  {
    var s := rule + gap + comment;
    var raw := a + s + b + if cr then "\r" else "";
    assert s[0] == rule[0];
    if comment == "" { assert s == rule; } else { assert s[|s| - 1] == comment[|comment| - 1]; }
    assert Solid(t, s) && s[|s| - 1] != '\r';
    assert !(BOM <= s) && !("#" <= s) && !("!" <= s) by {
      assert rule[0] in rule;
      OneChar(BOM, s);
      OneChar(BOM, rule);
      OneChar("!", rule);
    }
    NotSlashes(rule, gap, comment);
    CutEnd(t, a, s, b, cr);
    CommentAt(t, rule, gap, comment);
    hide TrimSpace, TrimPrefix, Fields, IndexOf, Solid, PlainText, Blank;
  }

  lemma NotSlashes(rule: string, gap: string, comment: string)
    requires rule != "" && !("//" <= rule) && '#' !in rule
    requires comment != "" ==> comment[0] == '#'
    requires comment == "" ==> gap == ""
    requires gap != "" ==> gap[0] != '/'
    ensures !("//" <= rule + gap + comment)
  {
    var s := rule + gap + comment;
    assert "//" <= s <==> |s| >= 2 && s[0] == '/' && s[1] == '/';
    assert "//" <= rule <==> |rule| >= 2 && rule[0] == '/' && rule[1] == '/';
    assert |rule| == 1 && |s| >= 2 ==> s[1] == if gap != "" then gap[0] else comment[0];
  }

  lemma CommentAt(t: Text, rule: string, gap: string, comment: string)
    requires Solid(t, rule) && Blank(t, gap) && '#' !in rule && !t.space('#')
    requires comment != "" ==> comment[0] == '#'
    requires comment == "" ==> gap == ""
    ensures var s := rule + gap + comment;
            var i := IndexOf(s, '#');
            (i >= 0 <==> comment != "") && (i >= 0 ==> TrimSpace(t, s[..i]) == rule)
  {
    var s := rule + gap + comment;
    if comment == "" {
      assert s == rule;
    } else {
      var n := |rule + gap|;
      assert s[n] == '#' && s[..n] == rule + gap;
      forall k | 0 <= k < n ensures s[k] != '#' {
        if k < |rule| { assert rule[k] in rule; } else { assert t.space(gap[k - |rule|]); }
      }
      IndexNotAfter(s, '#', n);
      TrimPads(t, "", rule, gap);
      assert "" + rule + gap == rule + gap;
    }
  }
}
