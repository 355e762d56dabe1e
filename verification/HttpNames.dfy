/**
 What the matching by single bytes in shadowsocksr-native/depends/http-parser/http_parser.c recognises: methods,
 although they are told apart by switching from one candidate to another, and header names, whatever their case.
 */
module HttpNames {
  import opened HttpSyntax
  import opened HttpMachine
  import opened Wrappers

  // ----- methods -----

  /** The parser after the bytes `s` of a method; none after an error. */
  function ReadMethod(p: Parser, s: seq<Octet>): Option<Parser> {
    if s == [] then Some(p)
    else
      var r := ReadMethod(p, s[..|s|-1]);
      if r.None? || !r.value.state.ReqMethod? then None
      else
        var m := OnMethod(r.value, s[|s|-1]);
        if m.ctl.Stop? then None else Some(m.p)
  }

  /** The parser in `s_start_req`, after the first byte of a request. */
  function FirstByte(p: Parser, ch: Octet): Option<Parser> {
    if FirstMethod(ch) == [] then None else Some(Reset(p).(verb := FirstMethod(ch)[0], index := 1, state := ReqMethod))
  }

  lemma FirstByteIs(p: Parser, ch: Octet)
    requires p.state.StartReq? && ch != CR && ch != LF
    ensures var m := OnStart(p, ch); if m.ctl.Stop? then FirstByte(p, ch) == None else FirstByte(p, ch) == Some(m.p)
  {
  }

  /** The first `n` letters are the same, for `n` up to 4. */
  predicate SameStart(a: string, b: string, n: nat) {
    n <= 4 && n <= |a| && n <= |b| &&
    (n > 0 ==> a[0] == b[0]) && (n > 1 ==> a[1] == b[1]) && (n > 2 ==> a[2] == b[2]) &&
    (n > 3 ==> a[3] == b[3])
  }

  /** Where a method branches off: the candidate it is taken for before, and the letter that tells. */
  function Origin(m: Method): Option<(Method, nat, char)> {
    match m
    case PUT => Some((POST, 1, 'U'))
    case PATCH => Some((POST, 1, 'A'))
    case PROPFIND => Some((POST, 1, 'R'))
    case PURGE => Some((PUT, 2, 'R'))
    case CHECKOUT => Some((CONNECT, 1, 'H'))
    case COPY => Some((CONNECT, 2, 'P'))
    case MOVE => Some((MKCOL, 1, 'O'))
    case MERGE => Some((MKCOL, 1, 'E'))
    case MSEARCH => Some((MKCOL, 1, '-'))
    case MKACTIVITY => Some((MKCOL, 2, 'A'))
    case MKCALENDAR => Some((MKCOL, 3, 'A'))
    case SEARCH => Some((SUBSCRIBE, 1, 'E'))
    case SOURCE => Some((SUBSCRIBE, 1, 'O'))
    case REBIND => Some((REPORT, 2, 'B'))
    case PROPPATCH => Some((PROPFIND, 4, 'P'))
    case LINK => Some((LOCK, 1, 'I'))
    case UNSUBSCRIBE => Some((UNLOCK, 2, 'S'))
    case UNBIND => Some((UNLOCK, 2, 'B'))
    case UNLINK => Some((UNLOCK, 3, 'I'))
    case _ => None
  }

  /** The switches are exactly the branches. */
  lemma SwitchIsOrigin(m: Method, i: nat, ch: Octet)
    ensures var r := SwitchMethod(m, i, ch); |r| <= 1 && (r != [] ==> Origin(r[0]) == Some((m, i, ch)))
  {
    if m.POST? || m.PUT? || m.CONNECT? {
      EarlySwitch(m, i, ch);
    } else if m.MKCOL? || m.SUBSCRIBE? {
      MiddleSwitch(m, i, ch);
    } else {
      LateSwitch(m, i, ch);
    }
    hide SwitchMethod, Origin;
  }

  lemma EarlySwitch(m: Method, i: nat, ch: Octet)
    requires m.POST? || m.PUT? || m.CONNECT?
    ensures var r := SwitchMethod(m, i, ch); |r| <= 1 && (r != [] ==> Origin(r[0]) == Some((m, i, ch)))
  {
  }

  lemma MiddleSwitch(m: Method, i: nat, ch: Octet)
    requires m.MKCOL? || m.SUBSCRIBE?
    ensures var r := SwitchMethod(m, i, ch); |r| <= 1 && (r != [] ==> Origin(r[0]) == Some((m, i, ch)))
  {
  }

  lemma LateSwitch(m: Method, i: nat, ch: Octet)
    requires !m.POST? && !m.PUT? && !m.CONNECT? && !m.MKCOL? && !m.SUBSCRIBE?
    ensures var r := SwitchMethod(m, i, ch); |r| <= 1 && (r != [] ==> Origin(r[0]) == Some((m, i, ch)))
  {
  }

  lemma OriginIsSwitch(r: Method)
    ensures Origin(r).Some? ==> var (m, i, ch) := Origin(r).value; SwitchMethod(m, i, ch) == [r]
  {
  }

  /** Up to its branch a method is spelled like the candidate it is taken for, and there it is not. */
  ghost predicate Branches(r: Method) {
    Origin(r).Some? ==>
      var (q, k, c) := Origin(r).value;
      0 < k < |MethodString(r)| && MethodString(r)[k] == c && SameStart(MethodString(q), MethodString(r), k) &&
      MatcherAt(q, k) != c
  }

  lemma PostBranches(r: Method)
    requires r.PUT? || r.PATCH? || r.PROPFIND? || r.PURGE? || r.PROPPATCH?
    ensures Branches(r)
  {
  }

  lemma ConnectBranches(r: Method)
    requires r.CHECKOUT? || r.COPY? || r.SEARCH? || r.SOURCE? || r.REBIND? || r.LINK?
    ensures Branches(r)
  {
  }

  lemma MkcolBranches(r: Method)
    requires r.MOVE? || r.MERGE? || r.MSEARCH? || r.MKACTIVITY? || r.MKCALENDAR?
    ensures Branches(r)
  {
  }

  lemma UnlockBranches(r: Method)
    requires r.UNSUBSCRIBE? || r.UNBIND? || r.UNLINK?
    ensures Branches(r)
  {
  }

  lemma AllBranch(r: Method)
    ensures Branches(r)
  {
    if r.PUT? || r.PATCH? || r.PROPFIND? || r.PURGE? || r.PROPPATCH? {
      PostBranches(r);
    } else if r.CHECKOUT? || r.COPY? || r.SEARCH? || r.SOURCE? || r.REBIND? || r.LINK? {
      ConnectBranches(r);
    } else if r.MOVE? || r.MERGE? || r.MSEARCH? || r.MKACTIVITY? || r.MKCALENDAR? {
      MkcolBranches(r);
    } else if r.UNSUBSCRIBE? || r.UNBIND? || r.UNLINK? {
      UnlockBranches(r);
    } else {
      assert Origin(r) == None;
    }
  }

  lemma SameStartPrefix(a: string, b: string, n: nat)
    requires SameStart(a, b, n)
    ensures a[..n] == b[..n]
  {
  }

  lemma FirstShares(ch: Octet)
    ensures FirstMethod(ch) != [] ==> |FirstMethod(ch)| == 1 && MethodString(FirstMethod(ch)[0])[..1] == [ch]
  {
  }

  predicate Letter(c: char) { 'A' <= c <= 'Z' || c == '-' }

  /** The methods of RFC 7231 and PATCH, those of WebDAV that begin with one of A to M, and the others. */
  predicate Basic(m: Method) {
    m.DELETE? || m.GET? || m.HEAD? || m.POST? || m.PUT? || m.CONNECT? || m.OPTIONS? || m.TRACE? || m.PATCH?
  }

  predicate DavEarly(m: Method) {
    m.COPY? || m.LOCK? || m.MKCOL? || m.MOVE? || m.BIND? || m.ACL? || m.MKACTIVITY? || m.CHECKOUT? || m.MERGE? ||
    m.MSEARCH? || m.MKCALENDAR? || m.LINK?
  }

  lemma BasicLetters(m: Method, i: nat)
    requires i < |MethodString(m)| && Basic(m)
    ensures Letter(MethodString(m)[i])
  {
  }

  lemma DavEarlyLetters(m: Method, i: nat)
    requires i < |MethodString(m)| && DavEarly(m)
    ensures Letter(MethodString(m)[i])
  {
  }

  lemma OtherLetters(m: Method, i: nat)
    requires i < |MethodString(m)| && !Basic(m) && !DavEarly(m)
    ensures Letter(MethodString(m)[i])
  {
  }

  lemma NoNul(m: Method, i: nat)
    requires i < |MethodString(m)|
    ensures Letter(MethodString(m)[i]) && |MethodString(m)| < 12
  {
    LengthOf(m);
    hide MethodString, Letter;
    if Basic(m) {
      BasicLetters(m, i);
    } else if DavEarly(m) {
      DavEarlyLetters(m, i);
    } else {
      OtherLetters(m, i);
    }
  }

  /** What has been read is always a prefix of the current candidate. */
  predicate Candidate(q: Parser, s: seq<Octet>) {
    q.state.ReqMethod? && q.index == |s| && s <= MethodString(q.verb)
  }

  lemma OneMethodByte(q: Parser, s: seq<Octet>, ch: Octet)
    requires Candidate(q, s) && !OnMethod(q, ch).ctl.Stop?
    ensures var m := OnMethod(q, ch);
            if ch == ' ' then m.p.state.ReqSpacesBeforeUrl? && m.p.verb == q.verb && s == MethodString(q.verb)
            else Candidate(m.p, s + [ch])
  {
    LetterAt(q.verb, q.index);
    LengthOf(q.verb);
    if ch == ' ' {
      WholeMethod(q, s);
    } else if ch == MatcherAt(q.verb, q.index) {
      MatchedByte(q, s, ch);
    } else {
      SwitchedByte(q, s, ch);
    }
    hide SwitchMethod, MethodString, MatcherAt;
  }

  lemma LetterAt(m: Method, i: nat)
    ensures MatcherAt(m, i) != ' ' && (MatcherAt(m, i) == '\0' <==> i >= |MethodString(m)|)
  {
    if i < |MethodString(m)| {
      NoNul(m, i);
    }
    hide MethodString;
  }

  lemma WholeMethod(q: Parser, s: seq<Octet>)
    requires Candidate(q, s)
    ensures MatcherAt(q.verb, q.index) == '\0' ==> s == MethodString(q.verb)
  {
    LetterAt(q.verb, q.index);
    hide MethodString;
  }

  lemma MatchedByte(q: Parser, s: seq<Octet>, ch: Octet)
    requires Candidate(q, s) && ch == MatcherAt(q.verb, q.index) && ch != '\0'
    ensures s + [ch] <= MethodString(q.verb) && |s| + 1 < 12
  {
    LengthOf(q.verb);
    hide MethodString;
    assert s + [ch] == MethodString(q.verb)[..|s|+1];
  }

  lemma SwitchedByte(q: Parser, s: seq<Octet>, ch: Octet)
    requires Candidate(q, s) && SwitchMethod(q.verb, q.index, ch) != []
    ensures s + [ch] <= MethodString(SwitchMethod(q.verb, q.index, ch)[0]) && |s| + 1 < 12
  {
    var r := SwitchMethod(q.verb, q.index, ch)[0];
    SwitchIsOrigin(q.verb, q.index, ch);
    AllBranch(r);
    LengthOf(r);
    hide SwitchMethod, MethodString, SameStart, Origin;
    SameStartPrefix(MethodString(q.verb), MethodString(r), |s|);
    assert s + [ch] == MethodString(r)[..|s|+1];
  }

  lemma LengthOf(m: Method)
    ensures 3 <= |MethodString(m)| < 12
  {
  }

  lemma {:induction false} ReadIsCandidate(p: Parser, s: seq<Octet>)
    requires s != [] && FirstByte(p, s[0]).Some? && ' ' !in s
    ensures var r := ReadMethod(FirstByte(p, s[0]).value, s[1..]); r.Some? ==> Candidate(r.value, s)
  {
    var n := |s| - 1;
    if n == 0 {
      FirstShares(s[0]);
      assert MethodString(FirstMethod(s[0])[0])[..1] == s;
    } else {
      ReadIsCandidate(p, s[..n]);
      assert s[..n][1..] == s[1..][..n-1] && s[..n] + [s[n]] == s;
      var r := ReadMethod(FirstByte(p, s[0]).value, s[1..][..n-1]);
      if r.Some? && !OnMethod(r.value, s[n]).ctl.Stop? {
        OneMethodByte(r.value, s[..n], s[n]);
      }
      hide OnMethod, MethodString, FirstMethod;
    }
  }

  /** The candidate that is held after the first `i` letters of method `m`. */
  function Held(m: Method, i: nat): Method
    decreases Depth(m)
  {
    if Origin(m).Some? && i <= Origin(m).value.1 then Held(Origin(m).value.0, i) else m
  }

  function Depth(m: Method): nat { if m.PURGE? || m.PROPPATCH? then 2 else if Origin(m).Some? then 1 else 0 }

  /** Reading the letter `ch` leads from the candidate `held` to `next`. */
  predicate Leads(held: Method, i: nat, ch: char, next: Method) {
    if ch == MatcherAt(held, i) then next == held else ch as int < 256 && SwitchMethod(held, i, ch) == [next]
  }

  /** Reading the next letter of `m` leads from the candidate held before it to the one held after it. */
  lemma {:induction false} NextHeld(m: Method, i: nat)
    requires 0 < i < |MethodString(m)|
    ensures Leads(Held(m, i), i, MethodString(m)[i], Held(m, i + 1))
    decreases Depth(m)
  {
    if Origin(m).Some? {
      var (q, k, c) := Origin(m).value;
      AllBranch(m);
      if i < k {
        SameStartAt(MethodString(q), MethodString(m), k, i);
        NextHeld(q, i);
      } else if i == k {
        AtBranch(m, i);
      }
    }
    hide MethodString, SwitchMethod, Origin, MatcherAt;
    if Origin(m).None? || Origin(m).value.1 < i {
      NoBranchAhead(m, i);
    }
  }

  lemma AtBranch(m: Method, i: nat)
    requires Origin(m).Some? && i == Origin(m).value.1
    ensures i < |MethodString(m)| && Leads(Held(m, i), i, MethodString(m)[i], Held(m, i + 1))
  {
    AllBranch(m);
    OriginIsSwitch(m);
    HeldAtBranch(Origin(m).value.0, i);
    hide MethodString, SwitchMethod, Origin, MatcherAt;
  }

  lemma NoBranchAhead(m: Method, i: nat)
    requires i < |MethodString(m)| && (Origin(m).Some? ==> Origin(m).value.1 < i)
    ensures Leads(Held(m, i), i, MethodString(m)[i], Held(m, i + 1))
  {
    hide MethodString, SwitchMethod, Origin;
  }

  lemma SameStartAt(a: string, b: string, n: nat, i: nat)
    requires SameStart(a, b, n) && i < n
    ensures i < |a| && i < |b| && a[i] == b[i]
  {
  }

  /** A candidate that branches further has branched off itself before. */
  lemma HeldAtBranch(q: Method, k: nat)
    requires k > 0 && forall o :: Origin(q) == Some(o) ==> o.1 < k
    ensures Held(q, k) == q
  {
  }

  /** Reading the letters of a method holds its candidates one after the other. */
  lemma {:induction false} ReadsMethod(p: Parser, s: seq<Octet>, m: Method, n: nat)
    requires s == MethodString(m) && 0 < n <= |s|
    ensures FirstByte(p, s[0]).Some?
    ensures var r := ReadMethod(FirstByte(p, s[0]).value, s[1..n]);
            r.Some? && r.value.state.ReqMethod? && r.value.index == n && r.value.verb == Held(m, n)
  {
    LengthOf(m);
    FirstHeld(m);
    hide MethodString, FirstMethod, SwitchMethod, Held, OnMethod;
    if n == 1 {
      assert s[1..1] == [];
    } else {
      ReadsMethod(p, s, m, n - 1);
      var t := s[1..n];
      assert t[..n-2] == s[1..n-1] && t[n-2] == s[n-1];
      HeldByte(ReadMethod(FirstByte(p, s[0]).value, s[1..n-1]).value, m, n - 1, s[n-1]);
    }
  }

  lemma HeldByte(q: Parser, m: Method, i: nat, ch: Octet)
    requires q.state.ReqMethod? && q.index == i && q.verb == Held(m, i) && 0 < i < |MethodString(m)| &&
             ch == MethodString(m)[i]
    ensures OnMethod(q, ch) == Stay(q.(verb := Held(m, i + 1), index := i + 1))
  {
    LengthOf(m);
    NextHeld(m, i);
    NoNul(m, i);
    LetterAt(q.verb, i);
    MethodByte(q, ch, Held(m, i + 1));
    hide MethodString, SwitchMethod, Held, MatcherAt, OnMethod;
  }

  lemma MethodByte(q: Parser, ch: Octet, v: Method)
    requires q.state.ReqMethod? && q.index < 31 && ch != '\0' && ch != ' ' && ('A' <= ch <= 'Z' || ch == '-')
    requires if ch == MatcherAt(q.verb, q.index) then v == q.verb else SwitchMethod(q.verb, q.index, ch) == [v]
    ensures OnMethod(q, ch) == Stay(q.(verb := v, index := q.index + 1))
  {
    hide MethodString, SwitchMethod, MatcherAt;
  }

  lemma {:induction false} FirstHeld(m: Method)
    ensures 0 < |MethodString(m)| && MethodString(m)[0] as int < 256 && FirstMethod(MethodString(m)[0]) == [Held(m, 1)]
    decreases Depth(m)
  {
    LengthOf(m);
    AllBranch(m);
    if Origin(m).Some? {
      var (q, k, c) := Origin(m).value;
      hide MethodString, FirstMethod, Origin;
      SameStartAt(MethodString(q), MethodString(m), k, 0);
      FirstHeld(q);
    } else {
      RootFirst(m);
    }
  }

  lemma RootFirst(m: Method)
    requires Origin(m).None?
    ensures MethodString(m)[0] as int < 256 && FirstMethod(MethodString(m)[0]) == [m]
  {
  }

  lemma HeldWhole(m: Method)
    ensures Held(m, |MethodString(m)|) == m
  {
    AllBranch(m);
    hide MethodString;
  }

  /** The request begins with `s` and a space, and this gets the parser to the URL with method `m`. */
  predicate Accepts(p: Parser, s: seq<Octet>, m: Method)
    requires s != []
  {
    FirstByte(p, s[0]).Some? &&
    var r := ReadMethod(FirstByte(p, s[0]).value, s[1..] + [' ']);
    r.Some? && r.value.state.ReqSpacesBeforeUrl? && r.value.verb == m
  }

  lemma NameAccepted(p: Parser, s: seq<Octet>, m: Method)
    requires s != [] && s == MethodString(m)
    ensures Accepts(p, s, m)
  {
    hide MethodString, FirstMethod, SwitchMethod, Held, OnMethod, FirstByte, ReadMethod;
    ReadsMethod(p, s, m, |s|);
    HeldWhole(m);
    assert s[1..|s|] == s[1..];
    ReadSpace(FirstByte(p, s[0]).value, s[1..]);
    SpaceAccepted(ReadMethod(FirstByte(p, s[0]).value, s[1..]).value);
  }

  lemma ReadSpace(q: Parser, t: seq<Octet>)
    ensures var r := ReadMethod(q, t);
            ReadMethod(q, t + [' ']) ==
            if r.None? || !r.value.state.ReqMethod? || OnMethod(r.value, ' ').ctl.Stop? then None
            else Some(OnMethod(r.value, ' ').p)
  {
    hide OnMethod;
    assert (t + [' '])[..|t|] == t;
  }

  /** Behind all the letters of the candidate a space ends the method. */
  lemma SpaceAccepted(q: Parser)
    requires q.index == |MethodString(q.verb)|
    ensures var m := OnMethod(q, ' '); !m.ctl.Stop? && m.p.state.ReqSpacesBeforeUrl? && m.p.verb == q.verb
  {
    LetterAt(q.verb, q.index);
    hide MethodString, SwitchMethod, MatcherAt;
  }

  lemma OnlyNamesAccepted(p: Parser, s: seq<Octet>, m: Method)
    requires s != [] && ' ' !in s && Accepts(p, s, m)
    ensures s == MethodString(m)
  {
    hide MethodString, FirstMethod, SwitchMethod, OnMethod, FirstByte, ReadMethod;
    ReadSpace(FirstByte(p, s[0]).value, s[1..]);
    ReadIsCandidate(p, s);
    OneMethodByte(ReadMethod(FirstByte(p, s[0]).value, s[1..]).value, s, ' ');
  }

  /**
   A request line starts with the letters of a method and a space exactly if the parser gets to the URL with this
   method, although on the way it takes it for others.
   */
  lemma MethodRecognised(p: Parser, s: seq<Octet>, m: Method)
    requires s != [] && ' ' !in s
    ensures s == MethodString(m) <==> Accepts(p, s, m)
  {
    hide MethodString, Accepts;
    if s == MethodString(m) {
      NameAccepted(p, s, m);
    }
    if Accepts(p, s, m) {
      OnlyNamesAccepted(p, s, m);
    }
  }

  // ----- header names -----

  predicate Tokens(s: seq<Octet>) { forall i :: 0 <= i < |s| ==> IsToken(s[i]) }

  /** The parser after the bytes `s` of a header name. */
  function ReadName(p: Parser, s: seq<Octet>): Parser
    requires s != [] && Tokens(s)
  {
    if |s| == 1 then p.(index := 0, hstate := FieldStart(Token(s[0])))
    else FieldByte(ReadName(p, s[..|s|-1]), s[|s|-1])
  }

  /** A name with its letters in lower case. */
  function Lowered(s: seq<Octet>): (t: seq<Octet>)
    requires Tokens(s)
    ensures |t| == |s|
  {
    seq(|s|, i requires 0 <= i < |s| => Token(s[i]))
  }

  /** `t` is the beginning of `word`, or all of it. */
  predicate Starts(t: string, word: string) { t <= word }

  lemma StartsMore(t: string, c: char, word: string)
    ensures Starts(t + [c], word) <==> Starts(t, word) && |t| < |word| && c == word[|t|]
    ensures Starts(t, word) ==> (t == word <==> |t| == |word|)
  {
    if Starts(t, word) && |t| < |word| && c == word[|t|] {
      assert t + [c] == word[..|t|+1];
    }
  }

  /** What the matcher should say after the lower-case letters `t`. */
  function NameState(t: string): HState {
    if Starts(t, "con") then if |t| == 1 then C else if |t| == 2 then CO else CON
    else if Starts(t, CONNECTION) then if |t| == |CONNECTION| then Connection else MatchingConnection
    else if Starts(t, CONTENT_LENGTH) then if |t| == |CONTENT_LENGTH| then ContentLength else MatchingContentLength
    else if Starts(t, PROXY_CONNECTION) then if |t| == |PROXY_CONNECTION| then Connection else MatchingProxyConnection
    else if Starts(t, TRANSFER_ENCODING) then
      if |t| == |TRANSFER_ENCODING| then TransferEncoding else MatchingTransferEncoding
    else if Starts(t, UPGRADE) then if |t| == |UPGRADE| then Upgrade else MatchingUpgrade
    else General
  }

  lemma StartsAll(t: string, c: char)
    ensures Starts(t + [c], "con") <==> Starts(t, "con") && |t| < 3 && c == "con"[|t|]
    ensures Starts(t + [c], CONNECTION) <==> Starts(t, CONNECTION) && |t| < 10 && c == CONNECTION[|t|]
    ensures Starts(t + [c], CONTENT_LENGTH) <==> Starts(t, CONTENT_LENGTH) && |t| < 14 && c == CONTENT_LENGTH[|t|]
    ensures Starts(t + [c], PROXY_CONNECTION) <==> Starts(t, PROXY_CONNECTION) && |t| < 16 && c == PROXY_CONNECTION[|t|]
    ensures Starts(t + [c], TRANSFER_ENCODING) <==>
              Starts(t, TRANSFER_ENCODING) && |t| < 17 && c == TRANSFER_ENCODING[|t|]
    ensures Starts(t + [c], UPGRADE) <==> Starts(t, UPGRADE) && |t| < 7 && c == UPGRADE[|t|]
  {
    hide Starts;
    StartsMore(t, c, "con");
    StartsMore(t, c, CONNECTION);
    StartsMore(t, c, CONTENT_LENGTH);
    StartsMore(t, c, PROXY_CONNECTION);
    StartsMore(t, c, TRANSFER_ENCODING);
    StartsMore(t, c, UPGRADE);
  }

  /** No two of the names share their first letter, but for those that start with "con". */
  lemma OneStart(t: string)
    requires t != ""
    ensures Starts(t, "con") ==> Starts(t, CONNECTION) && Starts(t, CONTENT_LENGTH)
    ensures Starts(t, CONNECTION) && Starts(t, CONTENT_LENGTH) ==> Starts(t, "con")
    ensures Starts(t, CONNECTION) || Starts(t, CONTENT_LENGTH) ==>
              !Starts(t, PROXY_CONNECTION) && !Starts(t, TRANSFER_ENCODING) && !Starts(t, UPGRADE)
    ensures Starts(t, PROXY_CONNECTION) ==> !Starts(t, TRANSFER_ENCODING) && !Starts(t, UPGRADE)
    ensures Starts(t, TRANSFER_ENCODING) ==> !Starts(t, UPGRADE)
  {
    assert CONNECTION[0] == 'c' && CONTENT_LENGTH[0] == 'c' && PROXY_CONNECTION[0] == 'p' &&
           TRANSFER_ENCODING[0] == 't' && UPGRADE[0] == 'u';
    assert CONNECTION[..3] == "con" && CONTENT_LENGTH[..3] == "con" && CONNECTION[3] != CONTENT_LENGTH[3];
    if Starts(t, CONNECTION) && Starts(t, CONTENT_LENGTH) {
      assert |t| <= 3;
      assert t == CONNECTION[..3][..|t|];
    }
  }

  /** The matcher is where it should be. */
  predicate NameOk(q: Parser, t: string) {
    q.hstate == NameState(t) && (q.hstate.General? || q.index == |t| - 1)
  }

  lemma ConStep(q: Parser, t: string, ch: Octet)
    requires t != "" && IsToken(ch) && NameOk(q, t) && (q.hstate.C? || q.hstate.CO? || q.hstate.CON?)
    ensures NameOk(FieldByte(q, ch), t + [Token(ch)])
  {
    StartsAll(t, Token(ch));
    OneStart(t);
    OneStart(t + [Token(ch)]);
    StartLength(t);
    hide Starts, Token, IsToken;
  }

  /** The state behind a word that has been matched to its end. */
  function Matched(h: HState): HState {
    match h
    case MatchingContentLength => ContentLength
    case MatchingTransferEncoding => TransferEncoding
    case MatchingUpgrade => Upgrade
    case _ => Connection
  }

  lemma FieldWord(q: Parser, ch: Octet)
    requires IsToken(ch) && Wanted(q.hstate) != "" && q.index < 31
    ensures var r := FieldByte(q, ch);
            r.index == q.index + 1 &&
            r.hstate == MatchWord(Wanted(q.hstate), q.index + 1, Token(ch), q.hstate, Matched(q.hstate), General)
  {
    hide Token, IsToken, MatchWord;
  }

  lemma ConnectionNext(t: string, c: Octet)
    requires t != "" && NameState(t).MatchingConnection?
    ensures |t| < 10 &&
            NameState(t + [c]) ==
            MatchWord(Wanted(MatchingConnection), |t|, c, MatchingConnection, Connection, General)
  {
    StartsAll(t, c);
    OneStart(t);
    OneStart(t + [c]);
    StartLength(t);
    hide Starts;
  }

  lemma ConnectionStep(q: Parser, t: string, ch: Octet)
    requires t != "" && IsToken(ch) && NameOk(q, t) && q.hstate.MatchingConnection?
    ensures NameOk(FieldByte(q, ch), t + [Token(ch)])
  {
    ConnectionNext(t, Token(ch));
    FieldWord(q, ch);
    hide Token, IsToken, NameState, MatchWord, FieldByte;
  }

  lemma ContentLengthNext(t: string, c: Octet)
    requires t != "" && NameState(t).MatchingContentLength?
    ensures |t| < 14 &&
            NameState(t + [c]) ==
            MatchWord(Wanted(MatchingContentLength), |t|, c, MatchingContentLength, ContentLength, General)
  {
    StartsAll(t, c);
    OneStart(t);
    OneStart(t + [c]);
    StartLength(t);
    hide Starts;
  }

  lemma ContentLengthStep(q: Parser, t: string, ch: Octet)
    requires t != "" && IsToken(ch) && NameOk(q, t) && q.hstate.MatchingContentLength?
    ensures NameOk(FieldByte(q, ch), t + [Token(ch)])
  {
    ContentLengthNext(t, Token(ch));
    FieldWord(q, ch);
    hide Token, IsToken, NameState, MatchWord, FieldByte;
  }

  lemma ProxyNext(t: string, c: Octet)
    requires t != "" && NameState(t).MatchingProxyConnection?
    ensures |t| < 16 &&
            NameState(t + [c]) ==
            MatchWord(Wanted(MatchingProxyConnection), |t|, c, MatchingProxyConnection, Connection, General)
  {
    StartsAll(t, c);
    OneStart(t);
    OneStart(t + [c]);
    StartLength(t);
    hide Starts;
  }

  lemma ProxyStep(q: Parser, t: string, ch: Octet)
    requires t != "" && IsToken(ch) && NameOk(q, t) && q.hstate.MatchingProxyConnection?
    ensures NameOk(FieldByte(q, ch), t + [Token(ch)])
  {
    ProxyNext(t, Token(ch));
    FieldWord(q, ch);
    hide Token, IsToken, NameState, MatchWord, FieldByte;
  }

  lemma TransferNext(t: string, c: Octet)
    requires t != "" && NameState(t).MatchingTransferEncoding?
    ensures |t| < 17 &&
            NameState(t + [c]) ==
            MatchWord(Wanted(MatchingTransferEncoding), |t|, c, MatchingTransferEncoding, TransferEncoding, General)
  {
    StartsAll(t, c);
    OneStart(t);
    OneStart(t + [c]);
    StartLength(t);
    hide Starts;
  }

  lemma TransferStep(q: Parser, t: string, ch: Octet)
    requires t != "" && IsToken(ch) && NameOk(q, t) && q.hstate.MatchingTransferEncoding?
    ensures NameOk(FieldByte(q, ch), t + [Token(ch)])
  {
    TransferNext(t, Token(ch));
    FieldWord(q, ch);
    hide Token, IsToken, NameState, MatchWord, FieldByte;
  }

  lemma UpgradeNext(t: string, c: Octet)
    requires t != "" && NameState(t).MatchingUpgrade?
    ensures |t| < 7 &&
            NameState(t + [c]) ==
            MatchWord(Wanted(MatchingUpgrade), |t|, c, MatchingUpgrade, Upgrade, General)
  {
    StartsAll(t, c);
    OneStart(t);
    OneStart(t + [c]);
    StartLength(t);
    hide Starts;
  }

  lemma UpgradeStep(q: Parser, t: string, ch: Octet)
    requires t != "" && IsToken(ch) && NameOk(q, t) && q.hstate.MatchingUpgrade?
    ensures NameOk(FieldByte(q, ch), t + [Token(ch)])
  {
    UpgradeNext(t, Token(ch));
    FieldWord(q, ch);
    hide Token, IsToken, NameState, MatchWord, FieldByte;
  }

  lemma EndedStep(q: Parser, t: string, ch: Octet)
    requires t != "" && IsToken(ch) && NameOk(q, t) &&
             (q.hstate.General? || q.hstate.Connection? || q.hstate.ContentLength? || q.hstate.TransferEncoding? ||
              q.hstate.Upgrade?)
    ensures NameOk(FieldByte(q, ch), t + [Token(ch)])
  {
    StartsAll(t, Token(ch));
    OneStart(t);
    OneStart(t + [Token(ch)]);
    StartLength(t);
    hide Starts, Token, IsToken;
  }

  lemma NameStep(q: Parser, t: string, ch: Octet)
    requires t != "" && IsToken(ch) && NameOk(q, t)
    ensures NameOk(FieldByte(q, ch), t + [Token(ch)])
  {
    match q.hstate
    case C => ConStep(q, t, ch);
    case CO => ConStep(q, t, ch);
    case CON => ConStep(q, t, ch);
    case MatchingConnection => ConnectionStep(q, t, ch);
    case MatchingContentLength => ContentLengthStep(q, t, ch);
    case MatchingProxyConnection => ProxyStep(q, t, ch);
    case MatchingTransferEncoding => TransferStep(q, t, ch);
    case MatchingUpgrade => UpgradeStep(q, t, ch);
    case _ => EndedStep(q, t, ch);
  }

  lemma StartLength(t: string)
    ensures (Starts(t, "con") ==> |t| <= 3) && (Starts(t, CONNECTION) ==> |t| <= 10) &&
            (Starts(t, CONTENT_LENGTH) ==> |t| <= 14)
    ensures (Starts(t, PROXY_CONNECTION) ==> |t| <= 16) && (Starts(t, TRANSFER_ENCODING) ==> |t| <= 17) &&
            (Starts(t, UPGRADE) ==> |t| <= 7)
    ensures (Starts(t, CONNECTION) ==> (t == CONNECTION <==> |t| == 10)) &&
            (Starts(t, CONTENT_LENGTH) ==> (t == CONTENT_LENGTH <==> |t| == 14))
    ensures (Starts(t, PROXY_CONNECTION) ==> (t == PROXY_CONNECTION <==> |t| == 16))
    ensures (Starts(t, TRANSFER_ENCODING) ==> (t == TRANSFER_ENCODING <==> |t| == 17)) &&
            (Starts(t, UPGRADE) ==> (t == UPGRADE <==> |t| == 7))
    ensures Starts(CONNECTION, CONNECTION) && Starts(CONTENT_LENGTH, CONTENT_LENGTH) &&
            Starts(PROXY_CONNECTION, PROXY_CONNECTION)
    ensures Starts(TRANSFER_ENCODING, TRANSFER_ENCODING) && Starts(UPGRADE, UPGRADE)
  {
  }

  lemma FirstLetter(p: Parser, ch: Octet)
    requires IsToken(ch)
    ensures NameOk(p.(index := 0, hstate := FieldStart(Token(ch))), [Token(ch)])
  {
    var c := Token(ch);
    StartsAll("", c);
    assert "" + [c] == [c] && Starts("", "con") && Starts("", CONNECTION) && Starts("", CONTENT_LENGTH) &&
           Starts("", PROXY_CONNECTION) && Starts("", TRANSFER_ENCODING) && Starts("", UPGRADE);
    hide Starts, Token, IsToken;
  }

  lemma {:induction false} NameRead(p: Parser, s: seq<Octet>)
    requires s != [] && Tokens(s)
    ensures NameOk(ReadName(p, s), Lowered(s))
  {
    var n := |s| - 1;
    if n == 0 {
      FirstLetter(p, s[0]);
      assert Lowered(s) == [Token(s[0])];
    } else {
      NameRead(p, s[..n]);
      assert Lowered(s) == Lowered(s[..n]) + [Token(s[n])];
      hide NameOk, FieldByte, Token, FieldStart;
      NameStep(ReadName(p, s[..n]), Lowered(s[..n]), s[n]);
    }
  }

  /** The header names with a meaning are recognised, whatever their case, and no others. */
  lemma NameRecognised(p: Parser, s: seq<Octet>)
    requires s != [] && Tokens(s)
    ensures var h, t := ReadName(p, s).hstate, Lowered(s);
            (h.Connection? <==> t == CONNECTION || t == PROXY_CONNECTION) &&
            (h.ContentLength? <==> t == CONTENT_LENGTH) &&
            (h.TransferEncoding? <==> t == TRANSFER_ENCODING) && (h.Upgrade? <==> t == UPGRADE)
  {
    var t := Lowered(s);
    NameRead(p, s);
    OneStart(t);
    StartLength(t);
    hide Starts, ReadName, Lowered, Tokens;
  }
}
