/**
 `http_parser_execute` against the byte-by-byte meaning in `HttpFeed`, and the parser object. The batches agree with the
 bytes as long as the 32-bit count of header bytes cannot wrap; `HttpLimit` says what happens when it does.
 */
module HttpExecute {
  import opened HttpSyntax
  import opened HttpMachine
  import opened HttpFeed
  import opened HttpHealth
  import opened HttpNames
  import opened HttpBatch

  /** Header bytes fit the 32-bit counter for as long as this buffer lasts. */
  predicate Fits(cfg: Config, data: seq<Octet>) { cfg.maxHeader + |data| < UINT32 }

  /** The byte-by-byte run over the first `i` bytes. */
  ghost function Upto(cfg: Config, p0: Parser, log: seq<Call>, data: seq<Octet>, i: nat): Run
    requires i <= |data|
  {
    FeedAll(cfg, Running(p0, log), data[..i])
  }

  ghost function Goal(cfg: Config, p0: Parser, log: seq<Call>, data: seq<Octet>): Run {
    FeedAll(cfg, Running(p0, log), data)
  }

  /**
   Having looked at `i` bytes, the parser, its marks and its callbacks stand where feeding those bytes one by one would
   have led.
   */
  ghost predicate Synced(cfg: Config, p0: Parser, log: seq<Call>, data: seq<Octet>, i: nat, p: Parser, t: Track) {
    i <= |data| && MarksFit(GateOf(p.state), t.marks, i) &&
    Upto(cfg, p0, log, data, i) == Running(p, Story(log, data, t, i))
  }

  // ----- errors -----

  /** All that the byte `ch` has told, together with what was told before, when it turns out to be an error. */
  ghost function LastWords(cfg: Config, r: Run, ch: Octet): seq<Call>
    requires r.Running?
  {
    Story(r.log, [ch], Drive(cfg, Counted(r.p), [ch], 0, Track(OpenMarks(r.p.state), [])).t, 0)
  }

  /** `words` is what `calls` told, and of the span that was open, `pending`. */
  predicate Told(words: seq<Call>, log: seq<Call>, calls: seq<Call>, pending: seq<Call>) {
    |pending| <= 1 && words == Extend(log, calls + pending)
  }

  /**
   An error found at byte `at`: if that byte is an error in the byte-by-byte run as well, the callbacks made so far are
   those of that run, but for the span that was open.
   */
  ghost predicate Reported(cfg: Config, p0: Parser, log: seq<Call>, data: seq<Octet>, e: Errno, at: nat,
                           calls: seq<Call>) {
    at < |data| &&
    (Upto(cfg, p0, log, data, at).Running? && Feed(cfg, Upto(cfg, p0, log, data, at), data[at]) == Failed(e) ==>
       exists pending :: Told(LastWords(cfg, Upto(cfg, p0, log, data, at), data[at]), log, calls, pending))
  }

  ghost predicate ErrorRight(cfg: Config, p0: Parser, log: seq<Call>, data: seq<Octet>, e: Errno, at: nat,
                             calls: seq<Call>) {
    var g := Goal(cfg, p0, log, data);
    !e.AssertionFailed? && (g == Failed(HeaderOverflow) || g == Failed(e)) &&
    (e.HeaderOverflow? || Reported(cfg, p0, log, data, e, at, calls))
  }

  /** The verdict on the round is what feeding byte by byte says. */
  ghost predicate Right(cfg: Config, p0: Parser, log: seq<Call>, data: seq<Octet>, v: Verdict) {
    match v
    case Resume(i, p, t) => Synced(cfg, p0, log, data, i, p, t) && p.nread <= cfg.maxHeader
    case Leave(i, p, calls) =>
      0 < i <= |data| && Upto(cfg, p0, log, data, i - 1).Running? &&
      Upto(cfg, p0, log, data, i) == Exited(p, Extend(log, calls))
    case Halt(e, at, _, calls) => ErrorRight(cfg, p0, log, data, e, at, calls)
  }

  // ----- one byte -----

  /** The invariant of the parser holds wherever a run from a healthy parser has got to. */
  lemma SyncedHealthy(cfg: Config, p0: Parser, log: seq<Call>, data: seq<Octet>, i: nat, p: Parser, t: Track)
    requires Healthy(p0) && Synced(cfg, p0, log, data, i, p, t)
    ensures Healthy(p)
  {
    hide FeedAll, HealthyAt;
    FeedAllHealthy(cfg, Running(p0, log), data[..i]);
  }

  lemma StartSynced(cfg: Config, p0: Parser, log: seq<Call>, data: seq<Octet>)
    requires Aligned(p0.state, log)
    ensures Synced(cfg, p0, log, data, 0, p0, Track(OpenMarks(p0.state), []))
  {
    var t := Track(OpenMarks(p0.state), []);
    OpenStory(p0.state, log, data);
  }

  /** Treating the next byte in place keeps in step with feeding it. */
  lemma ByteSynced(cfg: Config, p0: Parser, log: seq<Call>, data: seq<Octet>, i: nat, p: Parser, t: Track)
    requires i < |data| && Synced(cfg, p0, log, data, i, p, t) && !Overflows(cfg, p)
    ensures var s := Drive(cfg, Counted(p), data, i, t);
            match s.ctl
            case Next => Synced(cfg, p0, log, data, i + 1, s.p, s.t)
            case Exit => Upto(cfg, p0, log, data, i + 1) == Exited(s.p, Extend(log, s.t.calls))
            case Stop(e) => Goal(cfg, p0, log, data) == Failed(e) && Reported(cfg, p0, log, data, e, i, s.t.calls)
            case Again => true
  {
    hide Drive, FeedAll, Story, Leftovers, Extend;
    var base := Story(log, data, t, i);
    DriveAlone(cfg, Counted(p), data, i, t, log);
    FeedPrefix(cfg, Running(p0, log), data, i);
    FeedOf(cfg, p, base, data[i]);
    var s := Drive(cfg, Counted(p), data, i, t);
    if s.ctl.Stop? {
      FeedStuckFrom(cfg, Running(p0, log), data, i + 1);
      StoryIs(log, data, s.t, i);
      assert Told(LastWords(cfg, Running(p, base), data[i]), log, s.t.calls, Leftovers(data, s.t.marks, i));
    }
  }

  lemma StoryIs(log: seq<Call>, data: seq<Octet>, t: Track, end: nat)
    ensures Story(log, data, t, end) == Extend(log, t.calls + Leftovers(data, t.marks, end))
  {
  }

  /** `Feed`, with what follows the last pass written as a story. */
  lemma FeedOf(cfg: Config, p: Parser, base: seq<Call>, ch: Octet)
    requires !Overflows(cfg, p)
    ensures var w := Drive(cfg, Counted(p), [ch], 0, Track(OpenMarks(p.state), []));
            var r := Feed(cfg, Running(p, base), ch);
            match w.ctl
            case Next => r == Running(w.p, Story(base, [ch], w.t, 1))
            case Exit => r == Exited(w.p, Extend(base, w.t.calls))
            case Stop(e) => r == Failed(e)
            case Again => true
  {
    hide Drive;
  }

  lemma OverflowSynced(cfg: Config, p0: Parser, log: seq<Call>, data: seq<Octet>, i: nat, p: Parser, t: Track)
    requires i < |data| && Synced(cfg, p0, log, data, i, p, t) && Overflows(cfg, p)
    ensures Upto(cfg, p0, log, data, i + 1) == Goal(cfg, p0, log, data) == Failed(HeaderOverflow)
  {
    hide Drive, FeedAll, Story;
    FeedPrefix(cfg, Running(p0, log), data, i);
    FeedStuckFrom(cfg, Running(p0, log), data, i + 1);
  }

  lemma OutcomeRight(cfg: Config, p0: Parser, log: seq<Call>, data: seq<Octet>, i: nat, p: Parser, t: Track)
    requires Healthy(p0) && p.nread <= cfg.maxHeader
    requires i < |data| && Synced(cfg, p0, log, data, i, p, t) && !Overflows(cfg, p)
    ensures Right(cfg, p0, log, data, Outcome(Drive(cfg, Counted(p), data, i, t), i))
  {
    hide Drive, FeedAll, Story, HealthyAt, Reported;
    SyncedHealthy(cfg, p0, log, data, i, p, t);
    CountedReady(p);
    DriveKeeps(cfg, Counted(p), data, i, t);
    ByteSynced(cfg, p0, log, data, i, p, t);
    assert data[..i+1-1] == data[..i];
  }

  lemma OverflowRight(cfg: Config, p0: Parser, log: seq<Call>, data: seq<Octet>, v: Verdict)
    requires Goal(cfg, p0, log, data) == Failed(HeaderOverflow) && v.Halt? && v.e.HeaderOverflow?
    ensures Right(cfg, p0, log, data, v)
  {
  }

  // ----- scans, which count their bytes at the end -----

  /**
   Where the byte-by-byte run stands at byte `i` of a scan from `start`, for which only one byte has been counted yet.
   */
  ghost predicate ScanSynced(cfg: Config, p0: Parser, log: seq<Call>, data: seq<Octet>, start: nat, i: nat, q: Parser,
                             t: Track) {
    start <= i <= |data| && q.nread >= 1 &&
    var n := q.nread - 1 + (i - start);
    if n <= cfg.maxHeader then Synced(cfg, p0, log, data, i, q.(nread := n), t)
    else Upto(cfg, p0, log, data, i) == Failed(HeaderOverflow)
  }

  /** Over the limit, one more byte makes no difference. */
  lemma ScanOver(cfg: Config, p0: Parser, log: seq<Call>, data: seq<Octet>, start: nat, i: nat, q: Parser, q': Parser,
                 t: Track)
    requires i < |data| && ScanSynced(cfg, p0, log, data, start, i, q, t) && cfg.maxHeader < UINT32 - 1
    requires ParsingHeader(q.state) && q.nread - 1 + (i - start) >= cfg.maxHeader && q'.nread == q.nread
    ensures ScanSynced(cfg, p0, log, data, start, i + 1, q', t) && Goal(cfg, p0, log, data) == Failed(HeaderOverflow)
  {
    hide FeedAll, Story, ParsingHeader;
    var n := q.nread - 1 + (i - start);
    if n == cfg.maxHeader {
      OverflowSynced(cfg, p0, log, data, i, q.(nread := n), t);
    } else {
      FeedPrefix(cfg, Running(p0, log), data, i);
      FeedStuckFrom(cfg, Running(p0, log), data, i);
    }
  }

  /** The end of a scan. */
  lemma CountingRight(cfg: Config, p0: Parser, log: seq<Call>, data: seq<Octet>, start: nat, end: nat, q: Parser,
                      t: Track)
    requires Fits(cfg, data) && start < |data| && ScanSynced(cfg, p0, log, data, start, end, q, t)
    requires Healthy(p0) && q.nread <= cfg.maxHeader && ParsingHeader(q.state)
    ensures Right(cfg, p0, log, data, Counting(cfg, data, start, end, q, t))
  {
    hide Synced, Goal, Upto, Right, Drive, HealthyAt, ParsingHeader;
    var n := q.nread - 1 + (end - start);
    var v := Counting(cfg, data, start, end, q, t);
    if end == |data| {
      var c := CountBy(q, end - 1 - start);
      assert c.nread == n;
      if c.nread > cfg.maxHeader {
        WholeGoal(cfg, p0, log, data);
        OverflowRight(cfg, p0, log, data, v);
      } else {
        assert q.(nread := n) == c;
        ResumeRight(cfg, p0, log, data, v);
      }
    } else {
      var c := CountBy(q, end - start);
      assert c.nread == n + 1;
      if c.nread > cfg.maxHeader {
        ScanOver(cfg, p0, log, data, start, end, q, q, t);
        OverflowRight(cfg, p0, log, data, v);
      } else {
        assert Counted(q.(nread := n)) == c;
        OutcomeRight(cfg, p0, log, data, end, q.(nread := n), t);
      }
    }
  }

  lemma WholeGoal(cfg: Config, p0: Parser, log: seq<Call>, data: seq<Octet>)
    ensures Upto(cfg, p0, log, data, |data|) == Goal(cfg, p0, log, data)
  {
    assert data[..|data|] == data;
  }

  lemma ResumeRight(cfg: Config, p0: Parser, log: seq<Call>, data: seq<Octet>, v: Verdict)
    requires v.Resume? && Synced(cfg, p0, log, data, v.i, v.p, v.t) && v.p.nread <= cfg.maxHeader
    ensures Right(cfg, p0, log, data, v)
  {
  }

  // ----- header names -----

  lemma DriveName(cfg: Config, p: Parser, data: seq<Octet>, i: nat, t: Track)
    requires i < |data| && p.state.HeaderField? && IsToken(data[i]) && IsFieldState(p.hstate)
    ensures Drive(cfg, p, data, i, t) == Pass(FieldByte(p, data[i]), t, Next)
  {
    hide OnStart, OnResponseVersion, OnStatusLine, OnMethod, OnUrl, OnRequestVersion, OnRequestLineEnd, OnHeaderValue,
         OnHeadersEnd, OnBody, OnChunkSize, OnChunkData, FieldByte;
  }

  lemma NameNread(p: Parser, ch: Octet, n: nat)
    requires IsToken(ch)
    ensures FieldByte(p.(nread := n), ch) == FieldByte(p, ch).(nread := n)
  {
  }

  lemma NameByte(cfg: Config, p0: Parser, log: seq<Call>, data: seq<Octet>, start: nat, i: nat, q: Parser, t: Track)
    requires i < |data| && ScanSynced(cfg, p0, log, data, start, i, q, t) && cfg.maxHeader < UINT32 - 1
    requires q.state.HeaderField? && IsToken(data[i]) && IsFieldState(q.hstate)
    ensures ScanSynced(cfg, p0, log, data, start, i + 1, FieldByte(q, data[i]), t)
  {
    hide Upto, Story, FieldByte, Drive;
    var n := q.nread - 1 + (i - start);
    var p := q.(nread := n);
    if n < cfg.maxHeader {
      DriveName(cfg, Counted(p), data, i, t);
      ByteSynced(cfg, p0, log, data, i, p, t);
      NameNread(q, data[i], n + 1);
    } else {
      ScanOver(cfg, p0, log, data, start, i, q, FieldByte(q, data[i]), t);
    }
  }

  lemma {:induction false} NameSynced(cfg: Config, p0: Parser, log: seq<Call>, data: seq<Octet>, start: nat, e: nat,
                                      p: Parser,
                                      t: Track)
    requires start <= e <= |data| && Tokens(data[start..e]) && cfg.maxHeader < UINT32 - 1
    requires ScanSynced(cfg, p0, log, data, start, start, p, t) && p.state.HeaderField? && IsFieldState(p.hstate)
    ensures ScanSynced(cfg, p0, log, data, start, e, NameRun(p, data[start..e]), t)
    decreases e
  {
    hide ScanSynced, NameRun, FieldByte, IsToken, IsFieldState;
    if e == start {
      assert data[start..e] == [];
      NoName(p);
    } else {
      var s := data[start..e];
      assert data[start..e-1] == s[..|s|-1] && s[|s|-1] == data[e-1];
      NameSynced(cfg, p0, log, data, start, e - 1, p, t);
      NameByte(cfg, p0, log, data, start, e - 1, NameRun(p, data[start..e-1]), t);
      NameRunNext(p, data, start, e - 1);
    }
  }

  lemma NameRight(cfg: Config, p0: Parser, log: seq<Call>, data: seq<Octet>, start: nat, p: Parser, t: Track)
    requires Fits(cfg, data) && start < |data| && p.state.HeaderField? && p.nread <= cfg.maxHeader
    requires Healthy(p0) && IsFieldState(p.hstate) && ScanSynced(cfg, p0, log, data, start, start, p, t)
    ensures Right(cfg, p0, log, data, NameBatch(cfg, data, start, p, t))
  {
    hide ScanSynced, NameRun, Counting, Right, HealthyAt, IsFieldState;
    var e := NameEnd(data, start);
    NameSynced(cfg, p0, log, data, start, e, p, t);
    CountingRight(cfg, p0, log, data, start, e, NameRun(p, data[start..e]), t);
  }

  // ----- header values -----

  lemma DriveValue(cfg: Config, p: Parser, data: seq<Octet>, i: nat, t: Track)
    requires i < |data| && p.state.HeaderValue? && data[i] != CR && data[i] != LF
    ensures var s := Drive(cfg, p, data, i, t);
            s.t == t &&
            if InValue(cfg, data[i]) then s.p == ValueByte(p, data[i]).p && s.ctl == ValueByte(p, data[i]).ctl
            else s.ctl == Stop(InvalidHeaderToken)
  {
    hide OnStart, OnResponseVersion, OnStatusLine, OnMethod, OnUrl, OnRequestVersion, OnRequestLineEnd, OnHeaderField,
         OnHeadersEnd, OnBody, OnChunkSize, OnChunkData, OnValueStart, ValueByte;
  }

  lemma ValueNread(p: Parser, ch: Octet, n: nat)
    ensures ValueByte(p.(nread := n), ch).p == ValueByte(p, ch).p.(nread := n)
    ensures ValueByte(p.(nread := n), ch).ctl == ValueByte(p, ch).ctl
  {
    hide ScanByte;
  }

  /** One byte of a header value. */
  lemma ValueByteSynced(cfg: Config, p0: Parser, log: seq<Call>, data: seq<Octet>, start: nat, i: nat, q: Parser,
                        t: Track)
    requires i < |data| && ScanSynced(cfg, p0, log, data, start, i, q, t) && cfg.maxHeader < UINT32 - 1
    requires q.state.HeaderValue? && InValue(cfg, data[i]) && IsValueState(q.hstate)
    ensures var m := ValueByte(q, data[i]);
            (m.ctl.Next? ==> ScanSynced(cfg, p0, log, data, start, i + 1, m.p, t)) &&
            (m.ctl.Stop? ==> ErrorRight(cfg, p0, log, data, m.ctl.e, i, t.calls))
  {
    hide Upto, Story, Drive, ValueByte, Told, LastWords, Feed, IsValueState;
    ValueByteKeeps(q, data[i]);
    var n := q.nread - 1 + (i - start);
    var p := q.(nread := n);
    if n < cfg.maxHeader {
      DriveValue(cfg, Counted(p), data, i, t);
      ByteSynced(cfg, p0, log, data, i, p, t);
      ValueNread(q, data[i], n + 1);
    } else {
      ScanOver(cfg, p0, log, data, start, i, q, ValueByte(q, data[i]).p, t);
      if ValueByte(q, data[i]).ctl.Stop? {
        ErrorOver(cfg, p0, log, data, start, i, q, t, ValueByte(q, data[i]).ctl.e);
      }
    }
  }

  /** An error that is found in a scan that is over the limit already. */
  lemma ErrorOver(cfg: Config, p0: Parser, log: seq<Call>, data: seq<Octet>, start: nat, i: nat, q: Parser, t: Track,
                  e: Errno)
    requires i < |data| && ScanSynced(cfg, p0, log, data, start, i, q, t) && cfg.maxHeader < UINT32 - 1
    requires ParsingHeader(q.state) && q.nread - 1 + (i - start) >= cfg.maxHeader && !e.AssertionFailed?
    ensures ErrorRight(cfg, p0, log, data, e, i, t.calls)
  {
    hide Upto, Story, Told, LastWords, Drive, Synced, MarksFit, ParsingHeader;
    ScanOver(cfg, p0, log, data, start, i, q, q, t);
    if Upto(cfg, p0, log, data, i).Running? {
      OverFeeds(cfg, p0, log, data, start, i, q, t);
    }
  }

  lemma OverFeeds(cfg: Config, p0: Parser, log: seq<Call>, data: seq<Octet>, start: nat, i: nat, q: Parser, t: Track)
    requires i < |data| && ScanSynced(cfg, p0, log, data, start, i, q, t) && cfg.maxHeader < UINT32 - 1
    requires ParsingHeader(q.state) && q.nread - 1 + (i - start) >= cfg.maxHeader &&
             Upto(cfg, p0, log, data, i).Running?
    ensures Feed(cfg, Upto(cfg, p0, log, data, i), data[i]) == Failed(HeaderOverflow)
  {
    hide Upto, Story, Drive, ParsingHeader, MarksFit;
  }

  lemma BadValueByte(cfg: Config, p0: Parser, log: seq<Call>, data: seq<Octet>, start: nat, i: nat, q: Parser, t: Track)
    requires i < |data| && ScanSynced(cfg, p0, log, data, start, i, q, t) && cfg.maxHeader < UINT32 - 1
    requires q.state.HeaderValue? && data[i] != CR && data[i] != LF && !InValue(cfg, data[i])
    ensures Right(cfg, p0, log, data, Halt(InvalidHeaderToken, i, q, t.calls))
  {
    hide Upto, Story, Drive, ValueByte, Reported;
    var n := q.nread - 1 + (i - start);
    var p := q.(nread := n);
    if n < cfg.maxHeader {
      DriveValue(cfg, Counted(p), data, i, t);
      ByteSynced(cfg, p0, log, data, i, p, t);
    } else {
      ErrorOver(cfg, p0, log, data, start, i, q, t, InvalidHeaderToken);
    }
  }

  lemma GeneralValue(q: Parser, ch: Octet)
    requires q.hstate.General?
    ensures ValueByte(q, ch) == Move(q, Quiet, Next) && IsValueState(q.hstate)
  {
  }

  /** A stretch of a value nobody looks into. */
  lemma {:induction false} GeneralStretch(cfg: Config, p0: Parser, log: seq<Call>, data: seq<Octet>, start: nat,
                                          i: nat, j: nat,
                                          q: Parser, t: Track)
    requires i <= j <= |data| && ScanSynced(cfg, p0, log, data, start, i, q, t) && cfg.maxHeader < UINT32 - 1
    requires q.state.HeaderValue? && q.hstate.General? && forall m :: i <= m < j ==> InValue(cfg, data[m])
    ensures ScanSynced(cfg, p0, log, data, start, j, q, t)
    decreases j - i
  {
    hide ScanSynced, ValueByte, InValue, ErrorRight;
    if i < j {
      GeneralValue(q, data[i]);
      ValueByteSynced(cfg, p0, log, data, start, i, q, t);
      GeneralStretch(cfg, p0, log, data, start, i + 1, j, q, t);
    }
  }

  lemma ScanBounds(cfg: Config, p0: Parser, log: seq<Call>, data: seq<Octet>, start: nat, i: nat, q: Parser, t: Track)
    requires ScanSynced(cfg, p0, log, data, start, i, q, t)
    ensures start <= i <= |data| && q.nread >= 1
  {
  }

  /** The byte that is skipped unseen makes no difference, since by then the header is too long. */
  lemma SkipSynced(cfg: Config, p0: Parser, log: seq<Call>, data: seq<Octet>, start: nat, i: nat, q: Parser, t: Track)
    requires i < |data| && ScanSynced(cfg, p0, log, data, start, i, q, t) && cfg.maxHeader < UINT32 - 1
    requires q.state.HeaderValue? && q.hstate.General? && InValue(cfg, data[i])
    ensures ScanSynced(cfg, p0, log, data, start, SkipEnd(cfg, data, i), q, t)
  {
    hide InValue, ScanSynced, ValueStop;
    ScanBounds(cfg, p0, log, data, start, i, q, t);
    var left := |data| - i;
    var pe := i + if left < cfg.maxHeader then left else cfg.maxHeader;
    var j := ValueStop(cfg, data, i, pe);
    GeneralStretch(cfg, p0, log, data, start, i, j, q, t);
    if j == pe && pe < |data| {
      ScanOver(cfg, p0, log, data, start, pe, q, q, t);
    }
  }

  lemma {:induction false} ValueRight(cfg: Config, p0: Parser, log: seq<Call>, data: seq<Octet>, start: nat, i: nat,
                                      q: Parser,
                                      t: Track)
    requires Fits(cfg, data) && start <= i <= |data| && start < |data| && q.state.HeaderValue? &&
             q.nread <= cfg.maxHeader
    requires Healthy(p0) && IsValueState(q.hstate) && ScanSynced(cfg, p0, log, data, start, i, q, t)
    ensures Right(cfg, p0, log, data, ValueBatch(cfg, data, start, i, q, t))
    decreases |data| - i
  {
    hide ScanSynced, Counting, SkipEnd, InValue, ValueByte, Drive, IsValueState, Right, HealthyAt, ErrorRight;
    if i == |data| || data[i] == LF {
      CountingRight(cfg, p0, log, data, start, i, q, t);
    } else if data[i] == CR {
      LineRight(cfg, p0, log, data, start, i, q, t);
    } else if !InValue(cfg, data[i]) {
      BadValueByte(cfg, p0, log, data, start, i, q, t);
    } else if q.hstate.General? {
      SkipSynced(cfg, p0, log, data, start, i, q, t);
      ValueRight(cfg, p0, log, data, start, SkipEnd(cfg, data, i), q, t);
    } else {
      ValueByteSynced(cfg, p0, log, data, start, i, q, t);
      ValueByteKeeps(q, data[i]);
      var m := ValueByte(q, data[i]);
      if m.ctl.Stop? {
        HaltRight(cfg, p0, log, data, m.ctl.e, i, m.p, t.calls);
      } else {
        ValueRight(cfg, p0, log, data, start, i + 1, m.p, t);
      }
    }
  }

  lemma HaltRight(cfg: Config, p0: Parser, log: seq<Call>, data: seq<Octet>, e: Errno, at: nat, p: Parser,
                  calls: seq<Call>)
    requires ErrorRight(cfg, p0, log, data, e, at, calls)
    ensures Right(cfg, p0, log, data, Halt(e, at, p, calls))
  {
  }

  /** The CR behind a value, which is treated before the bytes are counted. */
  lemma LineRight(cfg: Config, p0: Parser, log: seq<Call>, data: seq<Octet>, start: nat, i: nat, q: Parser, t: Track)
    requires Fits(cfg, data) && i < |data| && data[i] == CR && q.state.HeaderValue? && q.nread <= cfg.maxHeader
    requires Healthy(p0) && ScanSynced(cfg, p0, log, data, start, i, q, t)
    ensures Right(cfg, p0, log, data, ValueBatch(cfg, data, start, i, q, t))
  {
    hide Synced, Goal, Upto, Right, Drive, HealthyAt;
    var c := CountBy(q, i - start);
    var n := q.nread - 1 + (i - start);
    assert c.nread == n + 1;
    if c.nread > cfg.maxHeader {
      ScanOver(cfg, p0, log, data, start, i, q, q, t);
      OverflowRight(cfg, p0, log, data, ValueBatch(cfg, data, start, i, q, t));
    } else {
      assert Counted(q.(nread := n)) == c;
      OutcomeRight(cfg, p0, log, data, i, q.(nread := n), t);
    }
  }

  // ----- bodies -----

  lemma DriveBody(cfg: Config, p: Parser, data: seq<Octet>, i: nat, t: Track)
    requires i < |data| && InBody(p) && (p.state.BodyIdentityEof? || p.contentLength > 1)
    ensures Drive(cfg, p, data, i, t) == Pass(Consumed(p, 1), Do(Mark(BodySpan), data, i, t), Next)
  {
    hide OnStart, OnResponseVersion, OnStatusLine, OnMethod, OnUrl, OnRequestVersion, OnRequestLineEnd, OnHeaderField,
         OnHeaderValue, OnHeadersEnd, OnChunkSize, NewMessage;
  }

  lemma BodyByte(cfg: Config, p0: Parser, log: seq<Call>, data: seq<Octet>, i: nat, p: Parser, t: Track)
    requires i < |data| && Synced(cfg, p0, log, data, i, p, t)
    requires InBody(p) && (p.state.BodyIdentityEof? || p.contentLength > 1)
    ensures Synced(cfg, p0, log, data, i + 1, Consumed(p, 1), Do(Mark(BodySpan), data, i, t))
  {
    hide Upto, Story, Drive;
    DriveBody(cfg, p, data, i, t);
    ByteSynced(cfg, p0, log, data, i, p, t);
  }

  /** A stretch of `n` body bytes, short of the end of the body. */
  lemma {:induction false} BodyStretch(cfg: Config, p0: Parser, log: seq<Call>, data: seq<Octet>, i: nat, n: nat,
                                       p: Parser,
                                       t: Track)
    requires i + n <= |data| && n > 0 && Synced(cfg, p0, log, data, i, p, t)
    requires InBody(p) && (p.state.BodyIdentityEof? || p.contentLength > n)
    ensures Synced(cfg, p0, log, data, i + n, Consumed(p, n), Do(Mark(BodySpan), data, i, t))
    decreases n
  {
    hide Upto, Story, Synced;
    BodyByte(cfg, p0, log, data, i, p, t);
    if n > 1 {
      var u := Do(Mark(BodySpan), data, i, t);
      BodyStretch(cfg, p0, log, data, i + 1, n - 1, Consumed(p, 1), u);
      assert Do(Mark(BodySpan), data, i + 1, u) == u;
    }
  }

  lemma BodyRight(cfg: Config, p0: Parser, log: seq<Call>, data: seq<Octet>, i: nat, p: Parser, t: Track)
    requires Healthy(p0) && i < |data| && Synced(cfg, p0, log, data, i, p, t) && p.nread <= cfg.maxHeader
    requires p.state.BodyIdentity? || p.state.BodyIdentityEof? || p.state.ChunkData?
    ensures Right(cfg, p0, log, data, BodyBatch(cfg, data, i, p, t))
  {
    hide Synced, Drive, Upto, Right, HealthyAt, Do;
    SyncedHealthy(cfg, p0, log, data, i, p, t);
    BodyReady(p);
    var left := |data| - i;
    if p.state.BodyIdentityEof? || left < p.contentLength {
      BodyStretch(cfg, p0, log, data, i, left, p, t);
      ResumeRight(cfg, p0, log, data, BodyBatch(cfg, data, i, p, t));
    } else {
      // the last byte of the body is in this buffer; the switch sees it again
      var last := i + p.contentLength - 1;
      var q := Consumed(p, last - i);
      if last > i {
        BodyStretch(cfg, p0, log, data, i, last - i, p, t);
      } else {
        assert q == p;
      }
      assert Counted(q) == q;
      OutcomeRight(cfg, p0, log, data, last, q, if last > i then Do(Mark(BodySpan), data, i, t) else t);
    }
  }

  // ----- the main loop -----

  /** A round does what its bytes do one at a time. */
  lemma RoundRight(cfg: Config, p0: Parser, log: seq<Call>, data: seq<Octet>, i: nat, p: Parser, t: Track)
    requires Fits(cfg, data) && i < |data| && Synced(cfg, p0, log, data, i, p, t) && p.nread <= cfg.maxHeader &&
             Healthy(p0)
    ensures Right(cfg, p0, log, data, RoundOf(cfg, data, i, p, t))
  {
    hide Synced, Drive, Upto, Right, HealthyAt, NameBatch, ValueBatch, BodyBatch, IsValueState, IsFieldState;
    SyncedHealthy(cfg, p0, log, data, i, p, t);
    var q := Counted(p);
    if Overflows(cfg, p) {
      OverflowSynced(cfg, p0, log, data, i, p, t);
      OverflowRight(cfg, p0, log, data, Halt(HeaderOverflow, i, q, t.calls));
    } else if p.state.HeaderField? {
      NameHealthy(p);
      ScanStarts(cfg, p0, log, data, i, p, t);
      NameRight(cfg, p0, log, data, i, q, t);
    } else if p.state.HeaderValue? {
      ValueHealthy(p);
      ScanStarts(cfg, p0, log, data, i, p, t);
      ValueRight(cfg, p0, log, data, i, i, q, t);
    } else if p.state.BodyIdentity? || p.state.BodyIdentityEof? || p.state.ChunkData? {
      BodyRight(cfg, p0, log, data, i, p, t);
    } else {
      OutcomeRight(cfg, p0, log, data, i, p, t);
    }
  }

  lemma NameHealthy(p: Parser)
    requires p.state.HeaderField? && Healthy(p)
    ensures IsFieldState(p.hstate)
  {
  }

  lemma ScanStarts(cfg: Config, p0: Parser, log: seq<Call>, data: seq<Octet>, i: nat, p: Parser, t: Track)
    requires Synced(cfg, p0, log, data, i, p, t) && p.nread <= cfg.maxHeader < UINT32 - 1 && ParsingHeader(p.state)
    ensures ScanSynced(cfg, p0, log, data, i, i, Counted(p), t)
  {
    hide Synced, ParsingHeader;
    assert i <= |data| by { SyncedWithin(cfg, p0, log, data, i, p, t); }
    assert Counted(p).(nread := p.nread) == p;
  }

  lemma SyncedWithin(cfg: Config, p0: Parser, log: seq<Call>, data: seq<Octet>, i: nat, p: Parser, t: Track)
    requires Synced(cfg, p0, log, data, i, p, t)
    ensures i <= |data|
  {
  }

  /** The result of a whole call is what the bytes lead to one at a time. */
  ghost predicate DoneRight(cfg: Config, p0: Parser, log: seq<Call>, data: seq<Octet>, d: Done) {
    var g := Goal(cfg, p0, log, data);
    match d
    case Finished(p, calls) => g == Running(p, Extend(log, calls))
    case Broken(e, at, _, calls) => ErrorRight(cfg, p0, log, data, e, at, calls)
    case Upgraded(n, p, calls) =>
      0 < n <= |data| && Upto(cfg, p0, log, data, n - 1).Running? && g == Exited(p, Extend(log, calls))
  }

  lemma EndsDone(cfg: Config, p0: Parser, log: seq<Call>, data: seq<Octet>, v: Verdict)
    requires Right(cfg, p0, log, data, v)
    ensures v.Leave? ==> DoneRight(cfg, p0, log, data, Upgraded(v.i, v.p, v.calls))
    ensures v.Halt? ==> DoneRight(cfg, p0, log, data, Broken(v.e, v.at, v.p, v.calls))
  {
    hide FeedAll, Extend, ErrorRight;
    if v.Leave? {
      FeedStuckFrom(cfg, Running(p0, log), data, v.i);
    }
  }

  lemma FinishDone(cfg: Config, p0: Parser, log: seq<Call>, data: seq<Octet>, p: Parser, t: Track)
    requires Synced(cfg, p0, log, data, |data|, p, t)
    ensures DoneRight(cfg, p0, log, data, Finished(p, t.calls + Leftovers(data, t.marks, |data|)))
  {
    hide FeedAll, Extend, Leftovers;
    WholeGoal(cfg, p0, log, data);
  }

  lemma ResumeSynced(cfg: Config, p0: Parser, log: seq<Call>, data: seq<Octet>, v: Verdict)
    requires v.Resume? && Right(cfg, p0, log, data, v)
    ensures v.i <= |data| && Synced(cfg, p0, log, data, v.i, v.p, v.t) && v.p.nread <= cfg.maxHeader
  {
  }

  /** The batches of a call, one after the other. */
  lemma {:induction false} ExecRight(cfg: Config, p0: Parser, log: seq<Call>, data: seq<Octet>, i: nat, p: Parser,
                                     t: Track)
    requires Fits(cfg, data) && i <= |data| && Synced(cfg, p0, log, data, i, p, t) && p.nread <= cfg.maxHeader &&
             Healthy(p0)
    ensures DoneRight(cfg, p0, log, data, Exec(cfg, data, i, p, t))
    decreases |data| - i
  {
    hide Synced, Right, DoneRight, RoundOf, HealthyAt, Leftovers;
    if i == |data| {
      FinishDone(cfg, p0, log, data, p, t);
    } else {
      var v := RoundOf(cfg, data, i, p, t);
      RoundRight(cfg, p0, log, data, i, p, t);
      EndsDone(cfg, p0, log, data, v);
      if v.Resume? {
        ResumeSynced(cfg, p0, log, data, v);
        ExecRight(cfg, p0, log, data, v.i, v.p, v.t);
      }
    }
  }

  lemma ExecAllRight(cfg: Config, p0: Parser, log: seq<Call>, data: seq<Octet>)
    requires Fits(cfg, data) && p0.nread <= cfg.maxHeader && Aligned(p0.state, log) && Healthy(p0)
    ensures DoneRight(cfg, p0, log, data, ExecAll(cfg, p0, data))
  {
    hide Synced, DoneRight, Exec, HealthyAt;
    StartSynced(cfg, p0, log, data);
    ExecRight(cfg, p0, log, data, 0, p0, Track(OpenMarks(p0.state), []));
  }

  // ----- the parser object -----

  datatype Status = Ok | Error(e: Errno)

  /** A call that has been made on `data` and has told `now` against the byte-by-byte run. */
  ghost predicate MatchesRun(cfg: Config, p0: Parser, made: seq<Call>, data: seq<Octet>, n: nat, errno: Status,
                             p: Parser,
                             now: seq<Call>) {
    var log := Extend([], made);
    var r := Goal(cfg, p0, log, data);
    if r.Failed? then errno.Error? && ErrorRight(cfg, p0, log, data, errno.e, n, now)
    else
      errno == Ok && p == r.p && Extend([], made + now) == r.log &&
      if r.Running? then n == |data| else 0 < n <= |data| && Upto(cfg, p0, log, data, n - 1).Running?
  }

  lemma DoneMatches(cfg: Config, p0: Parser, made: seq<Call>, data: seq<Octet>, d: Done)
    requires DoneRight(cfg, p0, Extend([], made), data, d)
    ensures d.Finished? ==> MatchesRun(cfg, p0, made, data, |data|, Ok, d.p, d.calls)
    ensures d.Upgraded? ==> MatchesRun(cfg, p0, made, data, d.n, Ok, d.p, d.calls)
    ensures d.Broken? ==> MatchesRun(cfg, p0, made, data, d.at, Error(d.e), d.p, d.calls)
  {
    hide FeedAll, Extend, Reported, Upto;
    ExtendConcat([], made, d.calls);
  }

  lemma ShutAligned(s: State, log: seq<Call>)
    ensures GateOf(s).Shut? || GateOf(s).Lag? ==> Aligned(s, log)
  {
  }

  class HttpParser {
    const cfg: Config
    var fields: Parser
    var errno: Status
    /** Every callback made so far, in order. */
    var calls: seq<Call>

    /** The callbacks with adjacent pieces of a span joined. */
    ghost function Log(): seq<Call>
      reads this
    {
      Extend([], calls)
    }

    ghost predicate Valid()
      reads this
    {
      errno.Ok? ==> fields.nread <= cfg.maxHeader && Aligned(fields.state, Log()) && Healthy(fields)
    }

    /** `http_parser_init`. */
    constructor (cfg: Config, ptype: ParserType)
      ensures Valid() && this.cfg == cfg && fields == Initial(ptype) && errno == Ok && calls == []
    {
      this.cfg := cfg;
      fields := Initial(ptype);
      errno := Ok;
      calls := [];
    }

    /** The outcome of the call that has just been made on `data`, with `p0` and `made` the state before it. */
    ghost predicate Matches(p0: Parser, made: seq<Call>, data: seq<Octet>, n: nat)
      reads this
    {
      made <= calls && MatchesRun(cfg, p0, made, data, n, errno, fields, calls[|made|..])
    }

    /** `http_parser_execute` on a non-empty buffer. */
    method Execute(data: seq<Octet>) returns (n: nat)
      requires Valid() && data != []
      modifies this
      ensures Valid()
      ensures !old(errno).Ok? ==> n == 0 && fields == old(fields) && errno == old(errno) && calls == old(calls)
      ensures old(errno).Ok? ==>
                var d := ExecAll(cfg, old(fields), data);
                fields == d.p && calls == old(calls) + d.calls &&
                match d
                case Finished(_, _) => errno == Ok && n == |data|
                case Upgraded(used, _, _) => errno == Ok && n == used
                case Broken(e, at, _, _) => errno == Error(e) && n == at && !e.AssertionFailed?
      ensures old(errno).Ok? && Fits(cfg, data) ==> Matches(old(fields), old(calls), data, n)
    {
      if errno.Error? {
        return 0;
      }
      hide FeedAll, Extend, HealthyAt, ErrorRight, ExecAll, Aligned, DoneRight, Upto;
      ghost var log, was, made := Log(), fields, calls;
      ExecAllKept(cfg, fields, data, log);
      var d := Loop(cfg, fields, data);
      if Fits(cfg, data) {
        ExecAllRight(cfg, fields, log, data);
        DoneMatches(cfg, fields, made, data, d);
      }
      ExtendConcat([], calls, d.calls);
      assert (made + d.calls)[|made|..] == d.calls;
      ShutAligned(d.p.state, Extend(log, d.calls));
      fields, calls := d.p, calls + d.calls;
      match d {
        case Finished(_, _) => n := |data|;
        case Broken(e, at, _, _) => n, errno := at, Error(e);
        case Upgraded(used, _, _) => n := used;
      }
    }

    /** `http_parser_execute` with `len == 0`: the end of the input. */
    method ExecuteEof() returns (n: nat)
      requires Valid()
      modifies this
      ensures Valid() && fields == old(fields)
      ensures !old(errno).Ok? ==> n == 0 && errno == old(errno) && calls == old(calls)
      ensures old(errno).Ok? && old(fields.state).BodyIdentityEof? ==>
                n == 0 && errno == Ok && Log() == Join(old(Log()), Note(MessageComplete))
      ensures old(errno).Ok? && AtStart(old(fields.state)) ==> n == 0 && errno == Ok && calls == old(calls)
      ensures old(errno).Ok? && !old(fields.state).BodyIdentityEof? && !AtStart(old(fields.state)) ==>
                n == 1 && errno == Error(InvalidEofState) && calls == old(calls)
    {
      if errno.Error? {
        return 0;
      }
      hide Extend, HealthyAt, Join, Aligned;
      if fields.state.BodyIdentityEof? {
        ShutAligned(fields.state, Join(Log(), Note(MessageComplete)));
        ExtendOne([], calls, Note(MessageComplete));
        calls := calls + [Note(MessageComplete)];
        return 0;
      }
      if AtStart(fields.state) {
        return 0;
      }
      errno := Error(InvalidEofState);
      return 1;
    }

    /** The input arriving in pieces of any size. */
    method ExecutePieces(pieces: seq<seq<Octet>>)
      requires Valid() && errno.Ok? && forall k :: 0 <= k < |pieces| ==> pieces[k] != []
      modifies this
      ensures Valid()
      ensures (forall k :: 0 <= k < |pieces| ==> Fits(cfg, pieces[k])) ==>
                match FeedAll(cfg, Running(old(fields), old(Log())), Flatten(pieces))
                case Running(p, log) => errno == Ok && fields == p && Log() == log
                case Failed(e) => errno.Error? && !errno.e.AssertionFailed? && (e.HeaderOverflow? || errno.e == e)
                case Exited(_, _) => true
    {
      hide FeedAll, Extend;
      ghost var r0 := Running(fields, Log());
      ghost var fit := forall k :: 0 <= k < |pieces| ==> Fits(cfg, pieces[k]);
      var k := 0;
      FeedNone(cfg, r0);
      while k < |pieces|
        invariant k <= |pieces| && Valid()
        invariant fit ==> Reached(FeedAll(cfg, r0, Flatten(pieces[..k])))
      {
        PieceStep(cfg, r0, pieces, k);
        ghost var r := FeedAll(cfg, r0, Flatten(pieces[..k]));
        if !r.Running? {
          FeedStuck(cfg, r, pieces[k]);
        }
        var n := Execute(pieces[k]);
        k := k + 1;
      }
      assert pieces[..k] == pieces;
    }

    /** The parser is where the byte-by-byte run is; behind an upgrade nothing is said. */
    ghost predicate Reached(r: Run)
      reads this
    {
      match r
      case Running(p, log) => errno == Ok && fields == p && Log() == log
      case Failed(e) => errno.Error? && !errno.e.AssertionFailed? && (e.HeaderOverflow? || errno.e == e)
      case Exited(_, _) => true
    }
  }

  /** The states in which the end of the input is no surprise and nothing is left to report. */
  predicate AtStart(s: State) { s.Dead? || s.StartReqOrRes? || s.StartRes? || s.StartReq? }

  // ----- cutting the input differently -----

  function Flatten(pieces: seq<seq<Octet>>): seq<Octet> {
    if pieces == [] then [] else Flatten(pieces[..|pieces|-1]) + pieces[|pieces|-1]
  }

  lemma FeedNone(cfg: Config, r: Run)
    ensures FeedAll(cfg, r, []) == r && Flatten([]) == []
  {
  }

  /** If the whole input runs through, so does it up to and including piece `k`. */
  lemma {:induction false} PieceStep(cfg: Config, r: Run, pieces: seq<seq<Octet>>, k: nat)
    requires k < |pieces|
    ensures var r' := FeedAll(cfg, FeedAll(cfg, r, Flatten(pieces[..k])), pieces[k]);
            FeedAll(cfg, r, Flatten(pieces[..k+1])) == r' &&
            (FeedAll(cfg, r, Flatten(pieces)).Running? ==> r'.Running?)
    decreases |pieces|
  {
    hide FeedAll;
    var front := pieces[..|pieces|-1];
    if k == |pieces| - 1 {
      assert pieces[..k+1] == pieces && front == pieces[..k];
    } else {
      PieceStep(cfg, r, front, k);
      assert front[..k] == pieces[..k] && front[..k+1] == pieces[..k+1];
      if !FeedAll(cfg, r, Flatten(front)).Running? {
        FeedStuck(cfg, FeedAll(cfg, r, Flatten(front)), pieces[|pieces|-1]);
      }
    }
    FeedConcat(cfg, r, Flatten(pieces[..k]), pieces[k]);
    FeedConcat(cfg, r, Flatten(front), pieces[|pieces|-1]);
  }

  /**
   Fragmentation: a parser that gets its input whole and one that gets it in pieces end in the same state, having made
   the same callbacks up to where data callbacks are cut.
   */
  method CutDoesNotMatter(a: HttpParser, b: HttpParser, whole: seq<Octet>, pieces: seq<seq<Octet>>) returns (n: nat)
    requires a != b && a.Valid() && b.Valid() && a.errno.Ok? && b.errno.Ok? && a.cfg == b.cfg
    requires a.fields == b.fields && a.Log() == b.Log()
    requires whole != [] && whole == Flatten(pieces) && Fits(a.cfg, whole)
    requires forall k :: 0 <= k < |pieces| ==> pieces[k] != [] && Fits(a.cfg, pieces[k])
    modifies a, b
    ensures a.errno.Ok? && !FeedAll(a.cfg, Running(old(a.fields), old(a.Log())), whole).Exited? ==>
              n == |whole| && b.errno.Ok? && b.fields == a.fields && b.Log() == a.Log()
  {
    hide FeedAll, Extend;
    n := a.Execute(whole);
    b.ExecutePieces(pieces);
  }
}
