/**
 The keyword index and the result cache of ssrMac/abp.js. Filters are memoised by their text, so a filter is its text.
 */
module AbpMatcher {
  import opened AbpPattern
  import opened Wrappers

  /** `RegExpFilter.prototype.matches` and the `matchCase` flag, per filter text. */
  datatype Rules = Rules(matches: (string, string, string) -> bool, matchCase: string -> bool)

  /** A filter that is given as a pattern matches only where its pattern does. */
  ghost predicate Faithful(rules: Rules) {
    forall text, url, host :: rules.matches(text, url, host) && !SourceIsRegexp(Source(text)) ==>
      Test(Tokens(Source(text)), url, rules.matchCase(text))
  }

  /** A value of `filterByKeyword`: a filter by itself, or an array of them. */
  datatype Entry = Single(filter: string) | Many(filters: seq<string>)

  function Items(e: Entry): seq<string> { if e.Single? then [e.filter] else e.filters }

  /** `candidate in hash ? hash[candidate].length : 0` */
  function CountOf(byKey: map<string, Entry>, k: string): nat { if k in byKey then |Items(byKey[k])| else 0 }

  const LIMIT: nat := 16777215

  // ----- the index -----

  ghost predicate Distinct(s: seq<string>) { forall i, j :: 0 <= i < j < |s| ==> s[i] != s[j] }

  /** The entry of keyword `k` lists, once each, filters that were indexed under `k`. */
  ghost predicate EntryOk(k: string, e: Entry, byText: map<string, string>) {
    Distinct(Items(e)) && |Items(e)| >= (if e.Many? then 2 else 1) &&
    forall t :: t in Items(e) ==> t in byText && byText[t] == k
  }

  /** A keyword is empty or a candidate of the filter's pattern. */
  ghost predicate GoodKeyword(text: string, k: string) {
    k == "" || (!IsRegexpText(text) && k in Candidates(LowerAll(Source(text))))
  }

  /** Filter `t` is listed under its keyword `k`, which is a good one. */
  ghost predicate Listed(t: string, k: string, byKey: map<string, Entry>) {
    k in byKey && t in Items(byKey[k]) && OneLine(t) && GoodKeyword(t, k)
  }

  /** The two dictionaries describe the same set of filters. */
  ghost predicate Indexed(byKey: map<string, Entry>, byText: map<string, string>) {
    (forall t :: t in byText ==> Listed(t, byText[t], byKey)) && forall k :: k in byKey ==> EntryOk(k, byKey[k], byText)
  }

  function Inserted(byKey: map<string, Entry>, k: string, t: string): map<string, Entry> {
    if k !in byKey then byKey[k := Single(t)]
    else if |Items(byKey[k])| == 1 then byKey[k := Many([Items(byKey[k])[0], t])]
    else byKey[k := Many(Items(byKey[k]) + [t])]
  }

  lemma EntryKept(k: string, e: Entry, byText: map<string, string>, after: map<string, string>)
    requires EntryOk(k, e, byText) && forall t :: t in Items(e) && t in byText ==> t in after && after[t] == byText[t]
    ensures EntryOk(k, e, after)
  {
  }

  lemma EntryAdded(k: string, e: Entry, byText: map<string, string>, t: string, j: string)
    requires EntryOk(k, e, byText) && t !in byText
    ensures EntryOk(k, e, byText[t := j])
  {
    EntryKept(k, e, byText, byText[t := j]);
  }

  lemma EntryDropped(k: string, e: Entry, byText: map<string, string>, t: string)
    requires EntryOk(k, e, byText) && t !in Items(e)
    ensures EntryOk(k, e, byText - {t})
  {
    EntryKept(k, e, byText, byText - {t});
  }

  lemma OtherEntry(k: string, e: Entry, byText: map<string, string>, t: string)
    requires EntryOk(k, e, byText) && t in byText && byText[t] != k
    ensures t !in Items(e)
  {
  }

  lemma Snoc(s: seq<string>, t: string)
    requires Distinct(s) && t !in s
    ensures Distinct(s + [t]) && t in s + [t] && forall x :: x in s + [t] ==> x in s || x == t
  {
    assert (s + [t])[|s|] == t;
  }

  lemma InsertedEntry(byKey: map<string, Entry>, byText: map<string, string>, k: string, t: string)
    requires (k in byKey ==> EntryOk(k, byKey[k], byText)) && t !in byText && OneLine(t) && GoodKeyword(t, k)
    ensures var after := Inserted(byKey, k, t);
            k in after && EntryOk(k, after[k], byText[t := k]) && Listed(t, k, after) &&
            forall x, j :: Listed(x, j, byKey) ==> Listed(x, j, after)
  {
    hide OneLine, GoodKeyword, Distinct;
    var was := if k in byKey then Items(byKey[k]) else [];
    assert t !in was && Distinct([]) by { EmptyDistinct(); }
    Snoc(was, t);
    assert Items(Inserted(byKey, k, t)[k]) == was + [t];
  }

  lemma EmptyDistinct()
    ensures Distinct([])
  {
  }

  lemma InsertedIndexed(byKey: map<string, Entry>, byText: map<string, string>, k: string, t: string)
    requires Indexed(byKey, byText) && t !in byText && OneLine(t) && GoodKeyword(t, k)
    ensures Indexed(Inserted(byKey, k, t), byText[t := k])
  {
    var after, texts := Inserted(byKey, k, t), byText[t := k];
    InsertedEntry(byKey, byText, k, t);
    assert forall j :: j in after && j != k ==> j in byKey && after[j] == byKey[j];
    hide EntryOk, Inserted, Listed;
    forall j | j in after
      ensures EntryOk(j, after[j], texts)
    {
      if j != k {
        EntryAdded(j, byKey[j], byText, t, k);
      }
    }
  }

  function PlaceOf(s: seq<string>, t: string): (i: nat)
    requires t in s
    ensures i < |s| && s[i] == t
  {
    if s[0] == t then 0 else 1 + PlaceOf(s[1..], t)
  }

  function Removed(byKey: map<string, Entry>, k: string, t: string): map<string, Entry>
    requires k in byKey && t in Items(byKey[k])
  {
    var list := Items(byKey[k]);
    if |list| <= 1 then byKey - {k}
    else
      var i := PlaceOf(list, t);
      var rest := list[..i] + list[i+1..];
      byKey[k := if |rest| == 1 then Single(rest[0]) else Many(rest)]
  }

  lemma WithoutOne(s: seq<string>, i: nat)
    requires Distinct(s) && i < |s|
    ensures var rest := s[..i] + s[i+1..];
            Distinct(rest) && s[i] !in rest && forall x :: x in s && x != s[i] ==> x in rest
    ensures forall x :: x in s[..i] + s[i+1..] ==> x in s
  {
    var rest := s[..i] + s[i+1..];
    forall x | x in s && x != s[i]
      ensures x in rest
    {
      var j :| 0 <= j < |s| && s[j] == x;
      assert rest[if j < i then j else j - 1] == x;
    }
  }

  lemma RemovedItems(byKey: map<string, Entry>, byText: map<string, string>, k: string, t: string)
    requires k in byKey && t in Items(byKey[k]) && EntryOk(k, byKey[k], byText)
    ensures var after := Removed(byKey, k, t);
            (k in after ==> EntryOk(k, after[k], byText) && t !in Items(after[k])) &&
            forall x, j :: x != t && Listed(x, j, byKey) ==> Listed(x, j, after)
  {
    hide OneLine, GoodKeyword;
    var list := Items(byKey[k]);
    var i := PlaceOf(list, t);
    WithoutOne(list, i);
    if |list| <= 1 {
      assert list == [t];
    } else {
      var rest := list[..i] + list[i+1..];
      assert Items(Removed(byKey, k, t)[k]) == rest;
    }
  }

  lemma RemovedOthers(byKey: map<string, Entry>, k: string, t: string, j: string)
    requires k in byKey && t in Items(byKey[k]) && j in Removed(byKey, k, t) && j != k
    ensures j in byKey && Removed(byKey, k, t)[j] == byKey[j]
  {
  }

  /** Every entry that is left is right. */
  lemma RemovedEntry(byKey: map<string, Entry>, byText: map<string, string>, t: string, j: string)
    requires Indexed(byKey, byText) && t in byText && byText[t] in byKey && t in Items(byKey[byText[t]])
    requires j in Removed(byKey, byText[t], t)
    ensures EntryOk(j, Removed(byKey, byText[t], t)[j], byText - {t})
  {
    hide EntryOk, Removed, Listed, Items;
    var k, after := byText[t], Removed(byKey, byText[t], t);
    RemovedItems(byKey, byText, k, t);
    if j != k {
      RemovedOthers(byKey, k, t, j);
      OtherEntry(j, after[j], byText, t);
    }
    EntryDropped(j, after[j], byText, t);
  }

  lemma RemovedIndexed(byKey: map<string, Entry>, byText: map<string, string>, t: string)
    requires Indexed(byKey, byText) && t in byText
    ensures byText[t] in byKey && t in Items(byKey[byText[t]]) && Indexed(Removed(byKey, byText[t], t), byText - {t})
  {
    var k := byText[t];
    assert Listed(t, k, byKey);
    var after := Removed(byKey, k, t);
    RemovedItems(byKey, byText, k, t);
    hide EntryOk, Removed, Listed, Items;
    forall j | j in after
      ensures EntryOk(j, after[j], byText - {t})
    {
      RemovedEntry(byKey, byText, t, j);
    }
  }

  // ----- what the index answers -----

  /** The loop of `_checkEntryMatch`. */
  function FirstMatch(fs: seq<string>, url: string, host: string, rules: Rules): Option<string> {
    if fs == [] then None
    else if rules.matches(fs[0], url, host) then Some(fs[0])
    else FirstMatch(fs[1..], url, host, rules)
  }

  function Hit(byKey: map<string, Entry>, k: string, url: string, host: string, rules: Rules): Option<string> {
    if k in byKey then FirstMatch(Items(byKey[k]), url, host, rules) else None
  }

  /** The first hit over a list of keywords. */
  function AnyMatch(ks: seq<string>, byKey: map<string, Entry>, url: string, host: string,
                    rules: Rules): Option<string> {
    if ks == [] then None
    else if Hit(byKey, ks[0], url, host, rules).Some? then Hit(byKey, ks[0], url, host, rules)
    else AnyMatch(ks[1..], byKey, url, host, rules)
  }

  /** The words of a URL, and the empty one. */
  function Lookups(url: string): seq<string> { Words(LowerAll(url)) + [""] }

  lemma {:induction false} FirstMatchIff(fs: seq<string>, url: string, host: string, rules: Rules)
    ensures var r := FirstMatch(fs, url, host, rules);
            (r.Some? <==> exists t :: t in fs && rules.matches(t, url, host)) &&
            (r.Some? ==> r.value in fs && rules.matches(r.value, url, host))
  {
    if fs != [] {
      FirstMatchIff(fs[1..], url, host, rules);
      assert fs == [fs[0]] + fs[1..];
    }
  }

  lemma {:induction false} AnyMatchIff(ks: seq<string>, byKey: map<string, Entry>, url: string, host: string,
                                       rules: Rules)
    ensures var r := AnyMatch(ks, byKey, url, host, rules);
            (r.Some? <==> exists k :: k in ks && Hit(byKey, k, url, host, rules).Some?) &&
            (r.Some? ==> exists k :: k in ks && Hit(byKey, k, url, host, rules) == r)
  {
    if ks != [] {
      AnyMatchIff(ks[1..], byKey, url, host, rules);
      assert ks == [ks[0]] + ks[1..];
    }
  }

  lemma AnyMatchStep(ks: seq<string>, i: nat, byKey: map<string, Entry>, url: string, host: string, rules: Rules)
    requires i < |ks|
    ensures var h := Hit(byKey, ks[i], url, host, rules);
            AnyMatch(ks[i..], byKey, url, host, rules)
            == if h.Some? then h else AnyMatch(ks[i+1..], byKey, url, host, rules)
  {
    hide Hit;
    assert ks[i..][1..] == ks[i+1..];
  }

  lemma NoMatch(byKey: map<string, Entry>, url: string, host: string, rules: Rules)
    ensures AnyMatch([], byKey, url, host, rules) == None
  {
  }

  lemma {:induction false} AnyMatchConcat(a: seq<string>, b: seq<string>, byKey: map<string, Entry>, url: string,
                                          host: string,
                                          rules: Rules)
    ensures var r := AnyMatch(a, byKey, url, host, rules);
            AnyMatch(a + b, byKey, url, host, rules) == if r.Some? then r else AnyMatch(b, byKey, url, host, rules)
  {
    if a == [] {
      assert a + b == b;
    } else {
      assert (a + b)[1..] == a[1..] + b;
      AnyMatchConcat(a[1..], b, byKey, url, host, rules);
    }
  }

  /** The keyword a filter is indexed under is looked up for every URL the filter matches. */
  lemma KeywordIsLookedUp(text: string, k: string, url: string, host: string, rules: Rules)
    requires Faithful(rules) && OneLine(text) && GoodKeyword(text, k) && rules.matches(text, url, host)
    ensures k in Lookups(url)
  {
    assert k == "" ==> Lookups(url)[|Words(LowerAll(url))|] == k;
    if k != "" {
      if SourceIsRegexp(Source(text)) {
        RegexpsHaveNoKeyword(text);
      }
      CandidateIsWord(Source(text), k, url, rules.matchCase(text));
    }
  }

  /** The index misses nothing: it finds a filter exactly if trying every filter would. */
  lemma NeverMisses(byKey: map<string, Entry>, byText: map<string, string>, url: string, host: string, rules: Rules)
    requires Indexed(byKey, byText) && Faithful(rules)
    ensures var r := AnyMatch(Lookups(url), byKey, url, host, rules);
            (r.Some? <==> exists t :: t in byText && rules.matches(t, url, host)) &&
            (r.Some? ==> r.value in byText && rules.matches(r.value, url, host))
  {
    hide Lookups, FirstMatch, AnyMatch, GoodKeyword, OneLine;
    AnyMatchIff(Lookups(url), byKey, url, host, rules);
    var r := AnyMatch(Lookups(url), byKey, url, host, rules);
    if r.Some? {
      var k :| k in Lookups(url) && Hit(byKey, k, url, host, rules) == r;
      FirstMatchIff(Items(byKey[k]), url, host, rules);
      assert EntryOk(k, byKey[k], byText);
    } else {
      forall t | t in byText
        ensures !rules.matches(t, url, host)
      {
        var k := byText[t];
        if rules.matches(t, url, host) {
          KeywordIsLookedUp(t, k, url, host, rules);
          assert !Hit(byKey, k, url, host, rules).Some?;
          FirstMatchIff(Items(byKey[k]), url, host, rules);
        }
      }
    }
  }

  /** `Matcher` */
  class Matcher {
    const rules: Rules
    var filterByKeyword: map<string, Entry>
    var keywordByFilter: map<string, string>

    ghost predicate Valid()
      reads this
    {
      Indexed(filterByKeyword, keywordByFilter)
    }

    constructor (rules: Rules)
      ensures Valid() && keywordByFilter == map[] && this.rules == rules
    {
      this.rules := rules;
      filterByKeyword, keywordByFilter := map[], map[];
    }

    method Clear()
      modifies this
      ensures Valid() && keywordByFilter == map[]
    {
      filterByKeyword, keywordByFilter := map[], map[];
    }

    method Add(text: string)
      requires Valid() && OneLine(text)
      modifies this
      ensures Valid() && keywordByFilter.Keys == old(keywordByFilter.Keys) + {text}
      ensures text in old(keywordByFilter) ==>
                keywordByFilter == old(keywordByFilter) && filterByKeyword == old(filterByKeyword)
    {
      if text in keywordByFilter {
        return;
      }
      var keyword := FindKeyword(text);
      InsertedIndexed(filterByKeyword, keywordByFilter, keyword, text);
      hide Indexed;
      if keyword !in filterByKeyword {
        filterByKeyword := filterByKeyword[keyword := Single(text)];
      } else {
        var oldEntry := filterByKeyword[keyword];
        if |Items(oldEntry)| == 1 {
          filterByKeyword := filterByKeyword[keyword := Many([Items(oldEntry)[0], text])];
        } else {
          filterByKeyword := filterByKeyword[keyword := Many(Items(oldEntry) + [text])];
        }
      }
      keywordByFilter := keywordByFilter[text := keyword];
    }

    method Remove(text: string)
      requires Valid()
      modifies this
      ensures Valid() && keywordByFilter == old(keywordByFilter) - {text}
    {
      if text !in keywordByFilter {
        assert keywordByFilter - {text} == keywordByFilter;
        return;
      }
      var keyword := keywordByFilter[text];
      RemovedIndexed(filterByKeyword, keywordByFilter, text);
      hide Indexed;
      var list := Items(filterByKeyword[keyword]);
      if |list| <= 1 {
        filterByKeyword := filterByKeyword - {keyword};
      } else {
        var index := PlaceOf(list, text);
        list := list[..index] + list[index+1..];
        filterByKeyword := filterByKeyword[keyword := if |list| == 1 then Single(list[0]) else Many(list)];
      }
      keywordByFilter := keywordByFilter - {text};
    }

    /** The candidate with the fewest filters so far, among those the longest one. */
    method FindKeyword(text: string) returns (result: string)
      ensures GoodKeyword(text, result)
      ensures !IsRegexpText(text) ==>
                forall c :: c in Candidates(LowerAll(Source(text))) ==>
                  if result == "" then CountOf(filterByKeyword, c) > LIMIT
                  else CountOf(filterByKeyword, result) < CountOf(filterByKeyword, c) ||
                       (CountOf(filterByKeyword, result) == CountOf(filterByKeyword, c) && |result| >= |c|)
    {
      result := "";
      if IsRegexpText(text) {
        return;
      }
      SameSource(text);
      var candidates := Candidates(LowerAll(KeywordSource(text)));
      hide Candidates, KeywordSource, Source;
      var resultCount, resultLength := LIMIT, 0;
      for i := 0 to |candidates|
        invariant result == "" || result in candidates
        invariant resultLength == |result| &&
                  resultCount == if result == "" then LIMIT else CountOf(filterByKeyword, result)
        invariant forall j :: 0 <= j < i ==> var n := CountOf(filterByKeyword, candidates[j]);
                    resultCount < n || (resultCount == n && result != "" && |result| >= |candidates[j]|)
      {
        var candidate := candidates[i];
        CandidateNotEmpty(text, candidate);
        var count := CountOf(filterByKeyword, candidate);
        if count < resultCount || (count == resultCount && |candidate| > resultLength) {
          result, resultCount, resultLength := candidate, count, |candidate|;
        }
      }
    }

    /** `_checkEntryMatch`, for a keyword that is in the index. */
    method CheckEntryMatch(keyword: string, url: string, host: string) returns (r: Option<string>)
      requires keyword in filterByKeyword
      ensures r == Hit(filterByKeyword, keyword, url, host, rules)
    {
      var list := Items(filterByKeyword[keyword]);
      for i := 0 to |list|
        invariant FirstMatch(list, url, host, rules) == FirstMatch(list[i..], url, host, rules)
      {
        if rules.matches(list[i], url, host) {
          return Some(list[i]);
        }
      }
      return None;
    }

    /** `Matcher.prototype.matchesAny` */
    method MatchesAny(url: string, host: string) returns (r: Option<string>)
      requires Valid() && Faithful(rules)
      ensures r.Some? <==> exists t :: t in keywordByFilter && rules.matches(t, url, host)
      ensures r.Some? ==> r.value in keywordByFilter && rules.matches(r.value, url, host)
    {
      NeverMisses(filterByKeyword, keywordByFilter, url, host, rules);
      hide Indexed, Faithful, Lookups, FirstMatch, AnyMatch;
      var candidates := Lookups(url);
      assert candidates[0..] == candidates;
      for i := 0 to |candidates|
        invariant AnyMatch(candidates, filterByKeyword, url, host, rules) ==
                  AnyMatch(candidates[i..], filterByKeyword, url, host, rules)
      {
        AnyMatchStep(candidates, i, filterByKeyword, url, host, rules);
        if candidates[i] in filterByKeyword {
          r := CheckEntryMatch(candidates[i], url, host);
          if r.Some? {
            return;
          }
        }
      }
      r := None;
      NoMatch(filterByKeyword, url, host, rules);
    }
  }

  lemma CandidateNotEmpty(text: string, c: string)
    ensures c in Candidates(LowerAll(Source(text))) ==> c != ""
  {
    if c in Candidates(LowerAll(Source(text))) {
      var _, _ := CandidateIsDelimited(LowerAll(Source(text)), 0, c);
    }
  }

  // ----- both lists, and the cache -----

  /** An exception beats a blocking filter. */
  function Answer(white: map<string, Entry>, black: map<string, Entry>, url: string, host: string,
                  rules: Rules): Option<string> {
    var w := AnyMatch(Lookups(url), white, url, host, rules);
    if w.Some? then w else AnyMatch(Lookups(url), black, url, host, rules)
  }

  function Key(url: string, host: string): string { url + " " + host + " " }

  predicate NoSpace(s: string) { ' ' !in s }

  lemma NoSpaceInside(u: string, h: string, i: int)
    requires NoSpace(h) && |u| < i < |u| + 1 + |h|
    ensures Key(u, h)[i] != ' '
  {
    assert Key(u, h)[i] == h[i-|u|-1] && h[i-|u|-1] in h;
  }

  /** No two pages share a cache entry. */
  lemma KeyInjective(u: string, h: string, u': string, h': string)
    requires Key(u, h) == Key(u', h') && NoSpace(h) && NoSpace(h')
    ensures u == u' && h == h'
  {
    var k := Key(u, h);
    assert k[|u|] == ' ' == k[|u'|];
    if |u| < |u'| {
      NoSpaceInside(u, h, |u'|);
    } else if |u'| < |u| {
      NoSpaceInside(u', h', |u|);
    } else {
      assert u == k[..|u|] && u' == k[..|u|];
      assert h == k[|u|+1..|k|-1] && h' == k[|u|+1..|k|-1];
    }
  }

  const MAX_CACHE_ENTRIES: nat := 1000

  /** Every stored answer is what an uncached match would say now. */
  ghost predicate Coherent(cache: map<string, Option<string>>, white: map<string, Entry>, black: map<string, Entry>,
                           rules: Rules) {
    forall url, host :: NoSpace(host) && Key(url, host) in cache ==>
      cache[Key(url, host)] == Answer(white, black, url, host, rules)
  }

  lemma CoherentStore(cache: map<string, Option<string>>, white: map<string, Entry>, black: map<string, Entry>,
                      rules: Rules,
                      url: string, host: string)
    requires Coherent(cache, white, black, rules) && NoSpace(host)
    ensures Coherent(cache[Key(url, host) := Answer(white, black, url, host, rules)], white, black, rules)
  {
    hide Answer, Key, NoSpace;
    var after := cache[Key(url, host) := Answer(white, black, url, host, rules)];
    forall u, h | NoSpace(h) && Key(u, h) in after
      ensures after[Key(u, h)] == Answer(white, black, u, h, rules)
    {
      if Key(u, h) == Key(url, host) {
        KeyInjective(u, h, url, host);
      }
    }
  }

  /** `CombinedMatcher` */
  class CombinedMatcher {
    const rules: Rules
    const blacklist: Matcher
    const whitelist: Matcher
    var resultCache: map<string, Option<string>>
    var cacheEntries: nat

    ghost predicate Valid()
      reads this, blacklist, whitelist
    {
      ListsOk() && cacheEntries == |resultCache| <= MAX_CACHE_ENTRIES &&
      Coherent(resultCache, whitelist.filterByKeyword, blacklist.filterByKeyword, rules)
    }

    ghost function Filters(): set<string>
      reads this, blacklist, whitelist
    {
      whitelist.keywordByFilter.Keys + blacklist.keywordByFilter.Keys
    }

    constructor (rules: Rules)
      ensures Valid() && Filters() == {} && this.rules == rules && fresh(whitelist) && fresh(blacklist)
    {
      this.rules := rules;
      var b := new Matcher(rules);
      var w := new Matcher(rules);
      blacklist, whitelist, resultCache, cacheEntries := b, w, map[], 0;
    }

    method Clear()
      requires Valid()
      modifies this, blacklist, whitelist
      ensures Valid() && Filters() == {}
    {
      blacklist.Clear();
      whitelist.Clear();
      resultCache, cacheEntries := map[], 0;
    }

    method ForgetResults()
      requires cacheEntries == |resultCache|
      modifies `resultCache, `cacheEntries
      ensures resultCache == map[] && cacheEntries == 0
    {
      if cacheEntries > 0 {
        resultCache, cacheEntries := map[], 0;
      }
    }

    /** Both lists are sound; this is `Valid` without the cache. */
    ghost predicate ListsOk()
      reads blacklist, whitelist
    {
      whitelist != blacklist && whitelist.Valid() && blacklist.Valid() && rules == whitelist.rules == blacklist.rules &&
      (forall t :: t in whitelist.keywordByFilter ==> IsWhitelist(t)) &&
      (forall t :: t in blacklist.keywordByFilter ==> !IsWhitelist(t))
    }

    method AddToList(text: string)
      requires ListsOk() && OneLine(text)
      modifies blacklist, whitelist
      ensures ListsOk() && Filters() == old(Filters()) + {text}
    {
      hide OneLine, Matcher.Valid, IsWhitelist;
      if IsWhitelist(text) {
        whitelist.Add(text);
      } else {
        blacklist.Add(text);
      }
    }

    method RemoveFromList(text: string)
      requires ListsOk()
      modifies blacklist, whitelist
      ensures ListsOk() && Filters() == old(Filters()) - {text}
    {
      hide Matcher.Valid, IsWhitelist;
      if IsWhitelist(text) {
        whitelist.Remove(text);
      } else {
        blacklist.Remove(text);
      }
    }

    method Add(text: string)
      requires Valid() && OneLine(text)
      modifies this, blacklist, whitelist
      ensures Valid() && Filters() == old(Filters()) + {text}
    {
      hide OneLine, ListsOk;
      AddToList(text);
      ForgetResults();
    }

    method Remove(text: string)
      requires Valid()
      modifies this, blacklist, whitelist
      ensures Valid() && Filters() == old(Filters()) - {text}
    {
      hide ListsOk;
      RemoveFromList(text);
      ForgetResults();
    }

    /** `matchesAnyInternal`: one pass over the words, with both lists looked up for each. */
    method MatchesAnyInternal(url: string, host: string) returns (r: Option<string>)
      requires rules == whitelist.rules == blacklist.rules
      ensures r == Answer(whitelist.filterByKeyword, blacklist.filterByKeyword, url, host, rules)
    {
      var candidates := Lookups(url);
      ghost var white, black := whitelist.filterByKeyword, blacklist.filterByKeyword;
      var blacklistHit := None;
      hide Lookups, FirstMatch;
      for i := 0 to |candidates|
        invariant AnyMatch(candidates[..i], white, url, host, rules) == None
        invariant AnyMatch(candidates[..i], black, url, host, rules) == blacklistHit
      {
        var substr := candidates[i];
        assert candidates[..i+1] == candidates[..i] + [substr] && candidates == candidates[..i] + candidates[i..];
        AnyMatchConcat(candidates[..i], [substr], white, url, host, rules);
        AnyMatchConcat(candidates[..i], [substr], black, url, host, rules);
        AnyMatchConcat(candidates[..i], candidates[i..], white, url, host, rules);
        if substr in whitelist.filterByKeyword {
          var result := whitelist.CheckEntryMatch(substr, url, host);
          if result.Some? {
            return result;
          }
        }
        if substr in blacklist.filterByKeyword && blacklistHit == None {
          blacklistHit := blacklist.CheckEntryMatch(substr, url, host);
        }
      }
      assert candidates[..|candidates|] == candidates;
      return blacklistHit;
    }

    /** `CombinedMatcher.prototype.matchesAny`, through the cache. */
    method MatchesAny(url: string, host: string) returns (r: Option<string>)
      requires Valid() && NoSpace(host)
      modifies this
      ensures Valid() && Filters() == old(Filters())
      ensures r == Answer(whitelist.filterByKeyword, blacklist.filterByKeyword, url, host, rules)
    {
      var key := Key(url, host);
      hide Key, Answer, Matcher.Valid;
      if key in resultCache {
        return resultCache[key];
      }
      r := MatchesAnyInternal(url, host);
      if cacheEntries >= MAX_CACHE_ENTRIES {
        resultCache, cacheEntries := map[], 0;
      }
      CoherentStore(resultCache, whitelist.filterByKeyword, blacklist.filterByKeyword, rules, url, host);
      resultCache := resultCache[key := r];
      cacheEntries := cacheEntries + 1;
    }

    /** `defaultMatcher.add(Filter.fromText(rules[i]))` over a list of rules. */
    method Load(texts: seq<string>)
      requires Valid() && forall i :: 0 <= i < |texts| ==> OneLine(texts[i])
      modifies this, blacklist, whitelist
      ensures Valid() && Filters() == old(Filters()) + set t | t in texts
    {
      hide OneLine, Valid;
      for i := 0 to |texts|
        invariant Valid() && Filters() == old(Filters()) + set t | t in texts[..i]
      {
        Add(texts[i]);
      }
      assert texts[..|texts|] == texts;
    }

    /**
     `FindProxyForURL`: the proxy is used exactly if some blocking filter matches and no exception does, as if all of
     them had been tried one after the other.
     */
    method FindProxyForURL(url: string, host: string, proxy: string) returns (r: string)
      requires Valid() && NoSpace(host) && Faithful(rules) && proxy != DIRECT
      modifies this
      ensures Valid() && Filters() == old(Filters())
      ensures r == proxy <==> (exists t :: t in Filters() && !IsWhitelist(t) && rules.matches(t, url, host)) &&
                              !exists t :: t in Filters() && IsWhitelist(t) && rules.matches(t, url, host)
      ensures r == proxy || r == DIRECT
    {
      NeverMisses(whitelist.filterByKeyword, whitelist.keywordByFilter, url, host, rules);
      NeverMisses(blacklist.filterByKeyword, blacklist.keywordByFilter, url, host, rules);
      hide Indexed, Faithful, Lookups, AnyMatch, Coherent;
      var hit := MatchesAny(url, host);
      r := if hit.Some? && !IsWhitelist(hit.value) then proxy else DIRECT;
    }
  }

  const DIRECT: string := "DIRECT;"
}
