/**
 Filter texts of ssrMac/abp.js: how a text is taken apart, what its pattern matches, and the words a URL is cut into.
 Characters are meant to be ASCII.
 */
module AbpPattern {

  // ----- characters -----

  predicate Digit(c: char) { '0' <= c <= '9' }

  predicate WordChar(c: char) { 'a' <= c <= 'z' || 'A' <= c <= 'Z' || Digit(c) || c == '_' }

  /** `[a-z0-9%]`, the characters keywords are made of. */
  predicate KeyChar(c: char) { 'a' <= c <= 'z' || Digit(c) || c == '%' }

  predicate Space(c: char) { c == ' ' || 9 <= c as int <= 13 }

  /** What `.` does not match. */
  predicate LineBreak(c: char) { c == '\n' || c == '\r' }

  /** The character class behind `^`. */
  predicate Separator(c: char) {
    var x := c as int;
    x <= 0x24 || 0x26 <= x <= 0x2C || x == 0x2F || 0x3A <= x <= 0x40 || 0x5B <= x <= 0x5E || x == 0x60 ||
    0x7B <= x <= 0x7F
  }

  function Lower(c: char): char { if 'A' <= c <= 'Z' then (c as int + 32) as char else c }

  /** `toLowerCase`. */
  function LowerAll(s: string): (r: string)
    ensures |r| == |s| && forall i :: 0 <= i < |s| ==> r[i] == Lower(s[i])
  {
    seq(|s|, i requires 0 <= i < |s| => Lower(s[i]))
  }

  // ----- taking a filter text apart -----

  function NameLength(s: string): (n: nat)
    ensures n <= |s|
  {
    if s != "" && (WordChar(s[0]) || s[0] == '-') then 1 + NameLength(s[1..]) else 0
  }

  /** `~?[\w\-]+(?:=[^,\s]+)?` for a piece without commas. */
  predicate IsOption(s: string) {
    var t := if s != "" && s[0] == '~' then s[1..] else s;
    var n := NameLength(t);
    n > 0 && (n == |t| || (t[n] == '=' && n + 1 < |t| && forall i :: n < i < |t| ==> !Space(t[i])))
  }

  function CommaAt(s: string): (n: nat)
    ensures n <= |s|
  {
    if s == "" || s[0] == ',' then 0 else 1 + CommaAt(s[1..])
  }

  /** Options separated by commas. */
  predicate IsOptions(s: string)
    decreases |s|
  {
    var n := CommaAt(s);
    IsOption(s[..n]) && (n == |s| || IsOptions(s[n+1..]))
  }

  /** Where `Filter.optionsRegExp` matches; the length of the text when it does not. */
  function OptionsAt(text: string): (n: nat)
    ensures n <= |text|
  {
    if text == "" || (text[0] == '$' && IsOptions(text[1..])) then 0 else 1 + OptionsAt(text[1..])
  }

  /** Exceptions start with `@@`. */
  predicate IsWhitelist(text: string) { "@@" <= text }

  function WithoutAts(text: string): string { if IsWhitelist(text) then text[2..] else text }

  /** `regexpSource`, as `RegExpFilter.fromText` finds it. */
  function Source(text: string): string {
    var t := WithoutAts(text);
    t[..OptionsAt(t)]
  }

  /** The pattern text as `findKeyword` finds it: the two steps come in the other order. */
  function KeywordSource(text: string): string { WithoutAts(text[..OptionsAt(text)]) }

  /** The two readers of a filter text agree on where its pattern is. */
  lemma SameSource(text: string)
    ensures KeywordSource(text) == Source(text)
  {
    if IsWhitelist(text) {
      assert text[0] == '@' && text[1] == '@' && text[1..][1..] == text[2..];
      assert OptionsAt(text) == 1 + OptionsAt(text[1..]) == 2 + OptionsAt(text[2..]);
      assert text[..OptionsAt(text)][2..] == text[2..][..OptionsAt(text[2..])];
    } else {
      AtsOfPrefix(text, OptionsAt(text));
    }
  }

  lemma AtsOfPrefix(text: string, n: nat)
    requires n <= |text|
    ensures IsWhitelist(text[..n]) ==> IsWhitelist(text)
  {
    assert text == text[..n] + text[n..];
  }

  /** The constructor's test for a filter given as a regular expression. */
  predicate SourceIsRegexp(source: string) { |source| >= 2 && source[0] == '/' && source[|source|-1] == '/' }

  predicate OneLine(s: string) { forall i :: 0 <= i < |s| ==> !LineBreak(s[i]) }

  /** `t[j]` is the slash that ends the expression. */
  predicate EndsRegexp(t: string, j: nat) {
    1 <= j < |t| && t[j] == '/' && OneLine(t[1..j]) && (j + 1 == |t| || (t[j+1] == '$' && IsOptions(t[j+2..])))
  }

  /** `Filter.regexpRegExp`. */
  predicate IsRegexpText(text: string) {
    var t := WithoutAts(text);
    t != "" && t[0] == '/' && exists j :: 0 <= j < |t| && EndsRegexp(t, j)
  }

  lemma {:induction false} OptionsFound(text: string)
    ensures var n := OptionsAt(text); n < |text| ==> text[n] == '$' && IsOptions(text[n+1..])
  {
    if text != "" && !(text[0] == '$' && IsOptions(text[1..])) {
      OptionsFound(text[1..]);
      var n := OptionsAt(text[1..]);
      if n < |text[1..]| {
        assert text[1..][n+1..] == text[n+2..];
      }
    }
  }

  /** On one line, what the constructor compiles as an expression is never given a keyword. */
  lemma RegexpsHaveNoKeyword(text: string)
    requires OneLine(text) && SourceIsRegexp(Source(text))
    ensures IsRegexpText(text)
  {
    var t := WithoutAts(text);
    var n := OptionsAt(t);
    OptionsFound(t);
    assert OneLine(t[1..n-1]) by {
      var mid := t[1..n-1];
      assert forall i :: 0 <= i < |mid| ==> mid[i] == text[|text| - |t| + 1 + i];
    }
    if n < |t| {
      assert t[n-1+2..] == t[n+1..];
    }
    assert EndsRegexp(t, n - 1);
  }

  // ----- the pattern -----

  /** A piece of the expression `getRegexp` builds. */
  datatype Token = Lit(c: char) | Any | Sep | Start | DomainAnchor | End

  /** `replace(/\*+/g, "*")`. */
  function Collapse(s: string): string {
    if s == "" then ""
    else if s[0] == '*' && |s| > 1 && s[1] == '*' then Collapse(s[1..])
    else [s[0]] + Collapse(s[1..])
  }

  /** `replace(/\^\|$/, "^")`. */
  function CaretBar(s: string): string {
    if |s| >= 2 && s[|s|-2] == '^' && s[|s|-1] == '|' then s[..|s|-1] else s
  }

  function Plain(c: char): Token { if c == '*' then Any else if c == '^' then Sep else Lit(c) }

  function PlainAll(s: string): (r: seq<Token>)
    ensures |r| == |s| && forall i :: 0 <= i < |s| ==> r[i] == Plain(s[i])
  {
    seq(|s|, i requires 0 <= i < |s| => Plain(s[i]))
  }

  /** The part in front: an anchor, or a `*` that is dropped; `n` characters of the source are used up. */
  function Front(s: string): (r: (seq<Token>, nat))
    ensures r.1 <= |s|
  {
    if "||" <= s then ([DomainAnchor], 2) else if "|" <= s then ([Start], 1) else if "*" <= s then ([], 1) else ([], 0)
  }

  /** The part behind: an anchor, or a `*` that is dropped. */
  function Back(s: string): (r: (nat, seq<Token>))
    ensures r.0 <= |s|
  {
    if s != "" && s[|s|-1] == '|' then (|s| - 1, [End])
    else if s != "" && s[|s|-1] == '*' then (|s| - 1, [])
    else (|s|, [])
  }

  /** The replacements of `getRegexp`. */
  function Tokens(source: string): seq<Token> {
    var s := CaretBar(Collapse(source));
    var (front, n) := Front(s);
    var (m, back) := Back(s[n..]);
    front + PlainAll(s[n..][..m]) + back
  }

  /** Letters are compared as the `i` flag says. */
  predicate Same(c: char, d: char, matchCase: bool) { if matchCase then c == d else Lower(c) == Lower(d) }

  /** `[\w\-]+:\/+(?!\/)` matches `url[..n]`. */
  predicate Scheme(url: string, n: nat) {
    n <= |url| && exists k :: 1 <= k < n - 1 && url[k] == ':' &&
                              (forall i :: 0 <= i < k ==> WordChar(url[i]) || url[i] == '-') &&
                              (forall i :: k < i < n ==> url[i] == '/') && (n < |url| ==> url[n] != '/')
  }

  /** `[^\/]+\.` matches `url[i..j]`. */
  predicate Subdomain(url: string, i: nat, j: nat) {
    i + 1 < j <= |url| && url[j-1] == '.' && forall k :: i <= k < j - 1 ==> url[k] != '/'
  }

  /** One token matches `url[i..j]`. */
  ghost predicate Step(t: Token, url: string, i: nat, j: nat, matchCase: bool) {
    i <= j <= |url| &&
    match t
    case Lit(c) => j == i + 1 && Same(c, url[i], matchCase)
    case Any => OneLine(url[i..j])
    case Sep => (j == i + 1 && Separator(url[i])) || i == j == |url|
    case Start => i == j == 0
    case End => i == j == |url|
    case DomainAnchor => i == 0 && exists n :: 0 <= n <= j && Scheme(url, n) && (n == j || Subdomain(url, n, j))
  }

  /** The tokens match `url[i..j]`. */
  ghost predicate Span(ts: seq<Token>, url: string, i: nat, j: nat, matchCase: bool) {
    if ts == [] then i == j <= |url|
    else exists k :: i <= k <= j && Step(ts[0], url, i, k, matchCase) && Span(ts[1..], url, k, j, matchCase)
  }

  /** `getRegexp().test(url)`. */
  ghost predicate Test(ts: seq<Token>, url: string, matchCase: bool) {
    exists i: nat, j: nat :: Span(ts, url, i, j, matchCase)
  }

  // ----- words -----

  /** Where the keyword characters from `i` on end. */
  function RunEnd(s: string, i: nat): (e: nat)
    requires i <= |s|
    ensures i <= e <= |s| && (forall k :: i <= k < e ==> KeyChar(s[k])) && (e < |s| ==> !KeyChar(s[e]))
    decreases |s| - i
  {
    if i < |s| && KeyChar(s[i]) then RunEnd(s, i + 1) else i
  }

  /** `match(/[a-z0-9%]{3,}/g)`, from `i` on. */
  function WordsFrom(s: string, i: nat): seq<string>
    requires i <= |s|
    decreases |s| - i
  {
    if i == |s| then []
    else
      var e := RunEnd(s, i);
      if e == i then WordsFrom(s, i + 1) else (if e - i >= 3 then [s[i..e]] else []) + WordsFrom(s, e)
  }

  function Words(s: string): seq<string> { WordsFrom(s, 0) }

  predicate Boundary(c: char) { !KeyChar(c) && c != '*' }

  /** `match(/[^a-z0-9%*][a-z0-9%]{3,}(?=[^a-z0-9%*])/g)`, each match without its first character, from `i` on. */
  function CandidatesFrom(s: string, i: nat): seq<string>
    requires i <= |s|
    decreases |s| - i
  {
    if i == |s| then []
    else
      var e := RunEnd(s, i + 1);
      if Boundary(s[i]) && e - i > 3 && e < |s| && Boundary(s[e]) then [s[i+1..e]] + CandidatesFrom(s, e)
      else CandidatesFrom(s, i + 1)
  }

  function Candidates(s: string): seq<string> { CandidatesFrom(s, 0) }

  /** `s[p..q]` is a maximal run of keyword characters, three or more. */
  predicate Maximal(s: string, p: nat, q: nat) {
    p + 3 <= q <= |s| && (forall i :: p <= i < q ==> KeyChar(s[i])) &&
    (p > 0 ==> !KeyChar(s[p-1])) && (q < |s| ==> !KeyChar(s[q]))
  }

  lemma RunEndIs(s: string, i: nat, p: nat, q: nat)
    requires Maximal(s, p, q) && i <= p
    ensures RunEnd(s, p) == q && (i < p ==> RunEnd(s, i) < p)
  {
  }

  /** Every maximal run is one of the words ... */
  lemma {:induction false} MaximalIsWord(s: string, i: nat, p: nat, q: nat)
    requires Maximal(s, p, q) && i <= p
    ensures s[p..q] in WordsFrom(s, i)
    decreases |s| - i
  {
    RunEndIs(s, i, p, q);
    hide RunEnd, Maximal;
    if i < p {
      var e := RunEnd(s, i);
      MaximalIsWord(s, if e == i then i + 1 else e, p, q);
    }
  }

  /** ... and every word is a maximal run. */
  lemma {:induction false} WordIsMaximal(s: string, i: nat, w: string) returns (p: nat, q: nat)
    requires i <= |s| && w in WordsFrom(s, i) && (0 < i < |s| && KeyChar(s[i]) ==> !KeyChar(s[i-1]))
    ensures Maximal(s, p, q) && s[p..q] == w
    decreases |s| - i
  {
    var e := RunEnd(s, i);
    if e - i >= 3 && w == s[i..e] {
      p, q := i, e;
    } else {
      p, q := WordIsMaximal(s, if e == i then i + 1 else e, w);
    }
  }

  /** A candidate stands in the text between two characters that are neither keyword characters nor stars. */
  predicate Delimited(s: string, a: nat, b: nat) {
    1 <= a && a + 3 <= b < |s| && Boundary(s[a-1]) && Boundary(s[b]) && forall i :: a <= i < b ==> KeyChar(s[i])
  }

  lemma {:induction false} CandidateIsDelimited(s: string, i: nat, w: string) returns (a: nat, b: nat)
    requires i <= |s| && w in CandidatesFrom(s, i)
    ensures Delimited(s, a, b) && s[a..b] == w
    decreases |s| - i
  {
    var e := RunEnd(s, i + 1);
    var hit := Boundary(s[i]) && e - i > 3 && e < |s| && Boundary(s[e]);
    if hit && w == s[i+1..e] {
      a, b := i + 1, e;
    } else {
      a, b := CandidateIsDelimited(s, if hit then e else i + 1, w);
    }
  }

  // ----- a keyword of a pattern is a word of every URL the pattern matches -----

  lemma {:induction false} SpanConcat(a: seq<Token>, b: seq<Token>, url: string, i: nat, j: nat, matchCase: bool)
    returns (k: nat)
    requires Span(a + b, url, i, j, matchCase)
    ensures Span(a, url, i, k, matchCase) && Span(b, url, k, j, matchCase)
  {
    if a == [] {
      assert a + b == b;
      k := i;
      SpanBound(b, url, i, j, matchCase);
    } else {
      var h :| i <= h <= j && Step((a + b)[0], url, i, h, matchCase) && Span((a + b)[1..], url, h, j, matchCase);
      assert (a + b)[1..] == a[1..] + b;
      k := SpanConcat(a[1..], b, url, h, j, matchCase);
      SpanBound(a[1..], url, h, k, matchCase);
    }
  }

  lemma {:induction false} SpanBound(ts: seq<Token>, url: string, i: nat, j: nat, matchCase: bool)
    requires Span(ts, url, i, j, matchCase)
    ensures i <= j <= |url|
  {
    if ts != [] {
      var h :| i <= h <= j && Step(ts[0], url, i, h, matchCase) && Span(ts[1..], url, h, j, matchCase);
      SpanBound(ts[1..], url, h, j, matchCase);
    }
  }

  lemma SpanOne(t: Token, url: string, i: nat, j: nat, matchCase: bool)
    requires Span([t], url, i, j, matchCase)
    ensures Step(t, url, i, j, matchCase)
  {
  }

  /** Behind the token there is no keyword character left of `j`, unless the URL is over. */
  predicate LeftEdge(t: Token) {
    t.Sep? || t.Start? || t.DomainAnchor? || (t.Lit? && !KeyChar(Lower(t.c)))
  }

  predicate RightEdge(t: Token) { t.Sep? || t.End? || (t.Lit? && !KeyChar(Lower(t.c))) }

  lemma LeftStep(t: Token, url: string, i: nat, j: nat, matchCase: bool)
    requires LeftEdge(t) && Step(t, url, i, j, matchCase)
    ensures j == 0 || j == |url| || !KeyChar(Lower(url[j-1]))
  {
    if t.DomainAnchor? {
      var n :| 0 <= n <= j && Scheme(url, n) && (n == j || Subdomain(url, n, j));
      if n == j {
        assert url[j-1] == '/';
      }
    }
  }

  lemma RightStep(t: Token, url: string, i: nat, j: nat, matchCase: bool)
    requires RightEdge(t) && Step(t, url, i, j, matchCase)
    ensures i == |url| || !KeyChar(Lower(url[i]))
  {
  }

  lemma {:induction false} LiteralSpan(s: string, url: string, i: nat, j: nat, matchCase: bool)
    requires Span(PlainAll(s), url, i, j, matchCase) && forall k :: 0 <= k < |s| ==> KeyChar(Lower(s[k]))
    ensures j == i + |s| <= |url| && LowerAll(url[i..j]) == LowerAll(s)
  {
    if s != "" {
      var ts := PlainAll(s);
      var h :| i <= h <= j && Step(ts[0], url, i, h, matchCase) && Span(ts[1..], url, h, j, matchCase);
      assert ts[1..] == PlainAll(s[1..]);
      assert KeyChar(Lower(s[0])) && ts[0] == Lit(s[0]);
      LiteralSpan(s[1..], url, h, j, matchCase);
      assert url[i..j] == [url[i]] + url[h..j] && s == [s[0]] + s[1..];
      assert LowerAll(url[i..j]) == [Lower(url[i])] + LowerAll(url[h..j]);
      assert LowerAll(s) == [Lower(s[0])] + LowerAll(s[1..]);
    }
  }

  /** An edge, the letters of a keyword and an edge: the keyword is a word of the URL. */
  lemma EdgedIsWord(a: seq<Token>, l: Token, r: string, t: Token, b: seq<Token>, url: string, matchCase: bool)
    requires LeftEdge(l) && RightEdge(t) && |r| >= 3 && forall k :: 0 <= k < |r| ==> KeyChar(Lower(r[k]))
    requires Test(a + [l] + PlainAll(r) + [t] + b, url, matchCase)
    ensures LowerAll(r) in Words(LowerAll(url))
  {
    var i: nat, j: nat :| Span(a + [l] + PlainAll(r) + [t] + b, url, i, j, matchCase);
    var k3 := SpanConcat(a + [l] + PlainAll(r) + [t], b, url, i, j, matchCase);
    var q := SpanConcat(a + [l] + PlainAll(r), [t], url, i, k3, matchCase);
    var p := SpanConcat(a + [l], PlainAll(r), url, i, q, matchCase);
    var o := SpanConcat(a, [l], url, i, p, matchCase);
    SpanOne(l, url, o, p, matchCase);
    SpanOne(t, url, q, k3, matchCase);
    LeftStep(l, url, o, p, matchCase);
    RightStep(t, url, q, k3, matchCase);
    LiteralSpan(r, url, p, q, matchCase);
    RunInUrl(url, p, q, r);
  }

  lemma RunInUrl(url: string, p: nat, q: nat, r: string)
    requires q == p + |r| <= |url| && |r| >= 3 && LowerAll(url[p..q]) == LowerAll(r)
    requires p == 0 || p == |url| || !KeyChar(Lower(url[p-1]))
    requires q == |url| || !KeyChar(Lower(url[q]))
    requires forall k :: 0 <= k < |r| ==> KeyChar(Lower(r[k]))
    ensures LowerAll(r) in Words(LowerAll(url))
  {
    var u := LowerAll(url);
    forall i | p <= i < q
      ensures KeyChar(u[i])
    {
      assert LowerAll(url[p..q])[i-p] == LowerAll(r)[i-p] == Lower(r[i-p]);
    }
    MaximalIsWord(u, 0, p, q);
    assert u[p..q] == LowerAll(url[p..q]);
  }

  // ----- the tokens around a candidate -----

  /** Text in front of and behind a run survives the collapsing of stars. */
  lemma {:induction false} CollapseConcat(x: string, y: string)
    requires x == "" || y == "" || x[|x|-1] != '*' || y[0] != '*'
    ensures Collapse(x + y) == Collapse(x) + Collapse(y)
  {
    if x == "" {
      assert x + y == y;
    } else {
      assert (x + y)[1..] == x[1..] + y;
      CollapseConcat(x[1..], y);
      if |x| == 1 {
        assert x[1..] == "" && Collapse(x) == [x[0]];
      }
    }
  }

  lemma {:induction false} CollapseRun(r: string)
    requires forall k :: 0 <= k < |r| ==> r[k] != '*'
    ensures Collapse(r) == r
  {
    if r != "" {
      CollapseRun(r[1..]);
    }
  }

  lemma {:induction false} CollapseEnds(s: string)
    requires s != ""
    ensures Collapse(s) != "" && Collapse(s)[0] == s[0] && Collapse(s)[|Collapse(s)|-1] == s[|s|-1]
  {
    if |s| > 1 {
      CollapseEnds(s[1..]);
    }
  }

  lemma CollapseAround(x: string, r: string, y: string)
    requires x != "" && y != "" && x[|x|-1] != '*' && y[0] != '*' && forall k :: 0 <= k < |r| ==> r[k] != '*'
    ensures Collapse(x + r + y) == Collapse(x) + r + Collapse(y)
  {
    assert y[0] != '*';
    CollapseConcat(x + r, y);
    CollapseConcat(x, r);
    CollapseRun(r);
  }

  /** What stands in front of a run becomes tokens that end in an edge. */
  lemma FrontEdge(x: string)
    requires x != "" && Boundary(Lower(x[|x|-1]))
    ensures var (front, n) := Front(x);
            var ts := front + PlainAll(x[n..]);
            ts != [] && LeftEdge(ts[|ts|-1])
  {
    var (front, n) := Front(x);
    if n < |x| {
      assert PlainAll(x[n..])[|x|-n-1] == Plain(x[|x|-1]);
    }
  }

  lemma BackEdge(y: string)
    requires y != "" && Boundary(Lower(y[0]))
    ensures var (m, back) := Back(y);
            var ts := PlainAll(y[..m]) + back;
            ts != [] && RightEdge(ts[0])
  {
    var (m, back) := Back(y);
    if m > 0 {
      assert PlainAll(y[..m])[0] == Plain(y[0]);
    }
  }

  lemma FrontAround(x: string, z: string)
    requires x != "" && x[|x|-1] != '*' && z != "" && z[0] != '|'
    ensures Front(x + z) == Front(x)
  {
    if |x| == 1 {
      assert (x + z)[1] == z[0];
    }
  }

  lemma BackAround(z: string, y: string)
    requires y != ""
    ensures Back(z + y) == (|z| + Back(y).0, Back(y).1)
  {
  }

  lemma CaretBarAround(z: string, y: string)
    requires y != "" && z != "" && z[|z|-1] != '^'
    ensures CaretBar(z + y) == z + CaretBar(y) && CaretBar(y) != "" && CaretBar(y)[0] == y[0]
  {
    if |y| == 1 {
      assert (z + y)[|z + y|-2] == z[|z|-1];
    } else {
      assert (z + y)[|z + y|-2] == y[|y|-2] && (z + y)[..|z + y|-1] == z + y[..|y|-1];
    }
  }

  /** The text before translation, around a run. */
  lemma NormalAround(x: string, r: string, y: string) returns (x': string, y': string)
    requires x != "" && y != "" && Boundary(Lower(x[|x|-1])) && Boundary(Lower(y[0]))
    requires r != "" && forall k :: 0 <= k < |r| ==> KeyChar(Lower(r[k]))
    ensures CaretBar(Collapse(x + r + y)) == x' + r + y' && x' != "" && y' != ""
    ensures x'[|x'|-1] == x[|x|-1] && y'[0] == y[0]
  {
    hide Collapse, CaretBar;
    assert forall k :: 0 <= k < |r| ==> KeyChar(Lower(r[k])) ==> r[k] != '*' && r[k] != '^';
    CollapseAround(x, r, y);
    CollapseEnds(x);
    CollapseEnds(y);
    x', y' := Collapse(x), CaretBar(Collapse(y));
    CaretBarAround(x' + r, Collapse(y));
  }

  /** The tokens of a pattern that is `x`, a run and `y`. */
  lemma TokensAround(x: string, r: string, y: string)
    requires x != "" && y != "" && Boundary(Lower(x[|x|-1])) && Boundary(Lower(y[0]))
    requires r != "" && forall k :: 0 <= k < |r| ==> KeyChar(Lower(r[k]))
    ensures exists a, l, t, b :: LeftEdge(l) && RightEdge(t) && Tokens(x + r + y) == a + [l] + PlainAll(r) + [t] + b
  {
    hide PlainAll, Collapse, CaretBar, Front, Back;
    var x', y' := NormalAround(x, r, y);
    var (front, n) := Front(x');
    var (m, back) := Back(y');
    FrontEdge(x');
    BackEdge(y');
    assert r[0] != '|' && x'[|x'|-1] != '*';
    SplitAround(x', r, y');
    Regroup(front, PlainAll(x'[n..]), PlainAll(r), PlainAll(y'[..m]), back);
    var fs, bs := front + PlainAll(x'[n..]), PlainAll(y'[..m]) + back;
    assert Tokens(x + r + y) == fs[..|fs|-1] + [fs[|fs|-1]] + PlainAll(r) + [bs[0]] + bs[1..];
  }

  lemma SplitAround(x: string, r: string, y: string)
    requires x != "" && y != "" && r != "" && r[0] != '|' && x[|x|-1] != '*'
    ensures var s, n := x + r + y, Front(x).1;
            var m := Back(y).0;
            Front(s) == Front(x) && n <= |s| && Back(s[n..]) == (|x| - n + |r| + m, Back(y).1) &&
            PlainAll(s[n..][..|x|-n+|r|+m]) == PlainAll(x[n..]) + PlainAll(r) + PlainAll(y[..m])
  {
    hide PlainAll, Front, Back;
    assert x + r + y == x + (r + y);
    FrontAround(x, r + y);
    var n, m := Front(x).1, Back(y).0;
    assert (x + r + y)[n..] == x[n..] + r + y;
    BackAround(x[n..] + r, y);
    assert (x[n..] + r + y)[..|x[n..] + r| + m] == x[n..] + r + y[..m];
    PlainConcat(x[n..], r, y[..m]);
  }

  lemma PlainConcat(a: string, b: string, c: string)
    ensures PlainAll(a + b + c) == PlainAll(a) + PlainAll(b) + PlainAll(c)
  {
  }

  lemma Regroup(front: seq<Token>, a: seq<Token>, r: seq<Token>, b: seq<Token>, back: seq<Token>)
    requires front + a != [] && b + back != []
    ensures var fs, bs := front + a, b + back;
            front + (a + r + b) + back == fs[..|fs|-1] + [fs[|fs|-1]] + r + [bs[0]] + bs[1..]
  {
    var fs, bs := front + a, b + back;
    assert fs == fs[..|fs|-1] + [fs[|fs|-1]] && bs == [bs[0]] + bs[1..];
    assert front + (a + r + b) + back == fs + r + bs;
  }

  /** The key lemma: a keyword candidate of a pattern is a word of every URL the pattern matches. */
  lemma CandidateIsWord(source: string, w: string, url: string, matchCase: bool)
    requires w in Candidates(LowerAll(source)) && Test(Tokens(source), url, matchCase)
    ensures w in Words(LowerAll(url))
  {
    var a, b := CandidateIsDelimited(LowerAll(source), 0, w);
    var x, r, y := source[..a], source[a..b], source[b..];
    CutAround(source, a, b);
    hide Test, Tokens, Words, LowerAll, LeftEdge, RightEdge, PlainAll;
    TokensAround(x, r, y);
    var ts, l, t, us :| LeftEdge(l) && RightEdge(t) && Tokens(x + r + y) == ts + [l] + PlainAll(r) + [t] + us;
    EdgedIsWord(ts, l, r, t, us, url, matchCase);
  }

  lemma CutAround(source: string, a: nat, b: nat)
    requires Delimited(LowerAll(source), a, b)
    ensures var x, r, y := source[..a], source[a..b], source[b..];
            source == x + r + y && LowerAll(r) == LowerAll(source)[a..b] && |r| >= 3 && x != "" && y != "" &&
            Boundary(Lower(x[|x|-1])) && Boundary(Lower(y[0])) && forall k :: 0 <= k < |r| ==> KeyChar(Lower(r[k]))
  {
    var r := source[a..b];
    forall k | 0 <= k < |r|
      ensures KeyChar(Lower(r[k]))
    {
      assert r[k] == source[a+k] && KeyChar(LowerAll(source)[a+k]);
    }
  }
}
