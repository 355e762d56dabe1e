/**
 What holds of the parser between any two bytes of any input, and why none of the source's assertions can fail.
 */
module HttpHealth {
  import opened HttpSyntax
  import opened HttpMachine
  import opened HttpFeed
  import opened HttpNames

  /** The header states a header value can be scanned in. */
  predicate IsValueState(h: HState) {
    OfConnection(h) || h.General? || h.ContentLengthNum? || h.ContentLengthWs? || h.MatchingTeTokenStart? ||
    h.MatchingTeChunked? || h.MatchingTeToken? || h.TeChunked?
  }

  /** The invariant, with `n` the count of header bytes at the start of a chunk size. */
  predicate HealthyAt(p: Parser, n: nat) {
    match p.state
    case HeaderField => IsFieldState(p.hstate)
    case HeaderValue => IsValueState(p.hstate)
    case ReqMethod => 0 < p.index <= |MethodString(p.verb)|
    case ResStatusCode => p.status <= 999
    case ChunkSizeStart => p.flags.chunked && p.nread == n
    case ChunkSize => p.flags.chunked && p.contentLength < ULLONG_MAX
    case ChunkParameters => p.flags.chunked && p.contentLength < ULLONG_MAX
    case ChunkSizeAlmostDone => p.flags.chunked && p.contentLength < ULLONG_MAX
    case ChunkData => p.flags.chunked && 0 < p.contentLength < ULLONG_MAX
    case ChunkDataAlmostDone => p.flags.chunked && p.contentLength == 0
    case ChunkDataDone => p.flags.chunked
    case BodyIdentity => 0 < p.contentLength < ULLONG_MAX
    case _ => true
  }

  /** Between bytes. */
  predicate Healthy(p: Parser) { HealthyAt(p, 0) }

  /** When the byte has been counted and the switch is about to look at it. */
  predicate Ready(p: Parser) { HealthyAt(p, 1) }

  /** A pass that keeps the invariant and fails no assertion. */
  predicate Keeps(m: Move) {
    match m.ctl
    case Next => Healthy(m.p)
    case Exit => Healthy(m.p)
    case Again => Ready(m.p)
    case Stop(e) => !e.AssertionFailed?
  }

  lemma StartKeeps(p: Parser, ch: Octet)
    requires GroupOf(p.state).StartG? && Ready(p)
    ensures Keeps(OnStart(p, ch))
  {
    LengthOf(OnStart(p, ch).p.verb);
    hide MethodString, FirstMethod;
  }

  lemma ResVersionKeeps(p: Parser, ch: Octet)
    requires GroupOf(p.state).ResVersionG? && Ready(p)
    ensures Keeps(OnResponseVersion(p, ch))
  {
    hide IsFieldState, IsValueState, MethodString;
  }

  lemma StatusLineKeeps(p: Parser, ch: Octet)
    requires GroupOf(p.state).StatusLineG? && Ready(p)
    ensures Keeps(OnStatusLine(p, ch))
  {
    hide IsFieldState, IsValueState, MethodString;
  }

  /** A method is only ever changed into one that has the byte just read where that byte stands. */
  lemma SwitchFits(m: Method, index: nat, ch: Octet)
    requires SwitchMethod(m, index, ch) != []
    ensures var n := SwitchMethod(m, index, ch)[0]; index < |MethodString(n)| && MethodString(n)[index] == ch
  {
    hide SwitchMethod, MethodString, SameStart, MatcherAt, Origin;
    SwitchIsOrigin(m, index, ch);
    AllBranch(SwitchMethod(m, index, ch)[0]);
  }

  lemma MethodKeeps(p: Parser, ch: Octet)
    requires GroupOf(p.state).MethodG? && Ready(p)
    ensures Keeps(OnMethod(p, ch))
  {
    hide SwitchMethod, MethodString;
    LengthOf(p.verb);
    if SwitchMethod(p.verb, p.index, ch) != [] {
      SwitchFits(p.verb, p.index, ch);
    }
  }

  lemma UrlKeeps(p: Parser, ch: Octet)
    requires GroupOf(p.state).UrlG? && Ready(p)
    ensures Keeps(OnUrl(p, ch))
  {
    hide ParseUrlChar, IsFieldState, IsValueState, MethodString;
  }

  lemma VersionKeeps(p: Parser, ch: Octet)
    requires GroupOf(p.state).VersionG? && Ready(p)
    ensures Keeps(OnRequestVersion(p, ch))
  {
    hide IsFieldState, IsValueState, MethodString;
  }

  lemma LineEndKeeps(p: Parser, ch: Octet)
    requires GroupOf(p.state).LineEndG? && Ready(p)
    ensures Keeps(OnRequestLineEnd(p, ch))
  {
    hide IsFieldState, IsValueState, MethodString;
  }

  lemma FieldByteKeeps(p: Parser, ch: Octet)
    requires IsToken(ch) && IsFieldState(p.hstate)
    ensures IsFieldState(FieldByte(p, ch).hstate)
  {
  }

  lemma FieldKeeps(p: Parser, ch: Octet)
    requires GroupOf(p.state).FieldG? && Ready(p)
    ensures Keeps(OnHeaderField(p, ch))
  {
    hide FieldByte;
    if p.state.HeaderField? && IsToken(ch) {
      FieldByteKeeps(p, ch);
    }
  }

  lemma ScanKeeps(s: Scan, ch: Octet)
    requires IsValueState(s.h)
    ensures match ScanByte(s, ch) case More(t) => IsValueState(t.h) case Wrong(e) => !e.AssertionFailed?
  {
  }

  lemma ValueByteKeeps(p: Parser, ch: Octet)
    requires IsValueState(p.hstate)
    ensures var m := ValueByte(p, ch);
            (m.ctl.Next? ==> IsValueState(m.p.hstate)) && (m.ctl.Stop? ==> !m.ctl.e.AssertionFailed?)
  {
    hide ScanByte;
    ScanKeeps(Scan(p.hstate, p.index, p.flags, p.contentLength), ch);
  }

  lemma ValueStartKeeps(p: Parser, ch: Octet)
    ensures Keeps(OnValueStart(p, ch))
  {
  }

  lemma ValueKeeps(cfg: Config, p: Parser, ch: Octet)
    requires GroupOf(p.state).ValueG? && Ready(p)
    ensures Keeps(OnHeaderValue(cfg, p, ch))
  {
    hide ValueByte, OnValueStart;
    ValueStartKeeps(p, ch);
    if p.state.HeaderValue? {
      ValueByteKeeps(p, ch);
    }
  }

  lemma HeadersEndKeeps(cfg: Config, p: Parser, ch: Octet)
    requires GroupOf(p.state).HeadersEndG? && Ready(p)
    ensures Keeps(OnHeadersEnd(cfg, p, ch))
  {
    hide NeedsEof;
  }

  lemma BodyKeeps(p: Parser, ch: Octet)
    requires GroupOf(p.state).BodyG? && Ready(p)
    ensures Keeps(OnBody(p, ch))
  {
    hide IsFieldState, IsValueState, MethodString;
  }

  lemma ChunkSizeKeeps(p: Parser, ch: Octet)
    requires GroupOf(p.state).ChunkSizeG? && Ready(p)
    ensures Keeps(OnChunkSize(p, ch))
  {
    hide IsFieldState, IsValueState, MethodString;
  }

  lemma ChunkDataKeeps(p: Parser, ch: Octet)
    requires GroupOf(p.state).ChunkDataG? && Ready(p)
    ensures Keeps(OnChunkData(p, ch))
  {
    hide IsFieldState, IsValueState, MethodString;
  }

  lemma TransitionKeeps(cfg: Config, p: Parser, ch: Octet)
    requires Ready(p)
    ensures Keeps(Transition(cfg, p, ch))
  {
    hide OnStart, OnResponseVersion, OnStatusLine, OnMethod, OnUrl, OnRequestVersion, OnRequestLineEnd, OnHeaderField,
         OnHeaderValue, OnHeadersEnd, OnBody, OnChunkSize, OnChunkData, HealthyAt;
    match GroupOf(p.state)
    case StartG => StartKeeps(p, ch);
    case ResVersionG => ResVersionKeeps(p, ch);
    case StatusLineG => StatusLineKeeps(p, ch);
    case MethodG => MethodKeeps(p, ch);
    case UrlG => UrlKeeps(p, ch);
    case VersionG => VersionKeeps(p, ch);
    case LineEndG => LineEndKeeps(p, ch);
    case FieldG => FieldKeeps(p, ch);
    case ValueG => ValueKeeps(cfg, p, ch);
    case HeadersEndG => HeadersEndKeeps(cfg, p, ch);
    case BodyG => BodyKeeps(p, ch);
    case ChunkSizeG => ChunkSizeKeeps(p, ch);
    case ChunkDataG => ChunkDataKeeps(p, ch);
  }

  lemma {:induction false} DriveKeeps(cfg: Config, p: Parser, data: seq<Octet>, i: nat, t: Track)
    requires i < |data| && Ready(p)
    ensures var s := Drive(cfg, p, data, i, t);
            (!s.ctl.Stop? ==> Healthy(s.p)) && (s.ctl.Stop? ==> !s.ctl.e.AssertionFailed?)
    decreases Rank(p.state)
  {
    hide Transition, HealthyAt, DoAll;
    var m := Transition(cfg, p, data[i]);
    TransitionKeeps(cfg, p, data[i]);
    TransitionSound(cfg, p, data[i]);
    if m.ctl.Again? {
      DriveKeeps(cfg, m.p, data, i, DoAll(m.acts, data, i, t));
    }
  }

  /** Counting the byte turns `Healthy` into `Ready`. */
  lemma CountedReady(p: Parser)
    requires Healthy(p)
    ensures Ready(Counted(p))
  {
  }

  predicate HealthyRun(r: Run) {
    match r
    case Running(p, _) => Healthy(p)
    case Exited(p, _) => Healthy(p)
    case Failed(e) => !e.AssertionFailed?
  }

  /** From a healthy parser no input, however long, makes an assertion of the source fail. */
  lemma {:induction false} FeedAllHealthy(cfg: Config, r: Run, data: seq<Octet>)
    requires HealthyRun(r)
    ensures HealthyRun(FeedAll(cfg, r, data))
  {
    hide Drive, HealthyAt, Extend;
    if data != [] {
      var s := FeedAll(cfg, r, data[..|data|-1]);
      FeedAllHealthy(cfg, r, data[..|data|-1]);
      if s.Running? {
        CountedReady(s.p);
        DriveKeeps(cfg, Counted(s.p), [data[|data|-1]], 0, Track(OpenMarks(s.p.state), []));
      }
    }
  }
}
