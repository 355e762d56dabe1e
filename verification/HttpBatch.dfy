/**
 `http_parser_execute` itself: the loop over a buffer with its five marks, `goto reexecute`, the batch scans of header
 names, header values and bodies, and the counting of header bytes per scan. Each method is proved against a function
 that says what its batch does; `HttpExecute` relates these to the byte-by-byte meaning in `HttpFeed`.
 */
module HttpBatch {
  import opened HttpSyntax
  import opened HttpMachine
  import opened HttpFeed
  import opened HttpHealth
  import opened HttpNames

  /** How one round of the main loop ends: go on at byte `i`, stop with an error at a byte, or leave after `i` bytes. */
  datatype Verdict =
    | Resume(i: nat, p: Parser, t: Track)
    | Halt(e: Errno, at: nat, p: Parser, calls: seq<Call>)
    | Leave(i: nat, p: Parser, calls: seq<Call>)

  // ----- the general case: one byte, with re-execution -----

  method Dispatch(cfg: Config, data: seq<Octet>, i: nat, p: Parser, t: Track) returns (s: Pass)
    requires i < |data|
    ensures s == Drive(cfg, p, data, i, t)
  {
    hide Transition, DoAll;
    var q, u := p, t;
    var m := Transition(cfg, q, data[i]);
    u := DoAll(m.acts, data, i, u);
    TransitionSound(cfg, q, data[i]);
    while m.ctl.Again?
      invariant m.ctl.Again? ==> Drive(cfg, p, data, i, t) == Drive(cfg, m.p, data, i, u)
      invariant !m.ctl.Again? ==> Drive(cfg, p, data, i, t) == Pass(m.p, u, m.ctl)
      decreases if m.ctl.Again? then Rank(m.p.state) + 1 else 0
    {
      q := m.p;
      m := Transition(cfg, q, data[i]);
      u := DoAll(m.acts, data, i, u);
      TransitionSound(cfg, q, data[i]);
    }
    s := Pass(m.p, u, m.ctl);
  }

  /** The verdict that follows from the last pass on byte `i`. */
  function Outcome(s: Pass, i: nat): Verdict {
    match s.ctl
    case Next => Resume(i + 1, s.p, s.t)
    case Exit => Leave(i + 1, s.p, s.t.calls)
    case Stop(e) => Halt(e, i, s.p, s.t.calls)
    case Again => Halt(AssertionFailed, i, s.p, s.t.calls)
  }

  // ----- counting -----

  /** `COUNT_HEADER_SIZE(n)`. */
  function CountBy(p: Parser, n: nat): Parser { p.(nread := (p.nread + n % UINT32) % UINT32) }

  /**
   The end of a scan that began at `start`: at the end of the buffer its bytes are counted, and at a byte that it leaves
   to the switch, that byte is treated as well.
   */
  function Counting(cfg: Config, data: seq<Octet>, start: nat, end: nat, q: Parser, t: Track): (v: Verdict)
    requires start <= end <= |data| && start < |data|
    ensures v.Resume? ==> start < v.i <= |data|
  {
    if end == |data| then
      var c := CountBy(q, end - 1 - start);
      if c.nread > cfg.maxHeader then Halt(HeaderOverflow, end - 1, c, t.calls) else Resume(end, c, t)
    else
      var c := CountBy(q, end - start);
      if c.nread > cfg.maxHeader then Halt(HeaderOverflow, end, c, t.calls)
      else Outcome(Drive(cfg, c, data, end, t), end)
  }

  method Count(cfg: Config, data: seq<Octet>, start: nat, end: nat, q: Parser, t: Track) returns (v: Verdict)
    requires start <= end <= |data| && start < |data|
    ensures v == Counting(cfg, data, start, end, q, t)
  {
    hide Drive;
    var last := if end == |data| then end - 1 else end;
    var c := CountBy(q, last - start);
    if c.nread > cfg.maxHeader {
      return Halt(HeaderOverflow, last, c, t.calls);
    }
    if end == |data| {
      return Resume(end, c, t);
    }
    var s := Dispatch(cfg, data, end, c, t);
    v := Outcome(s, end);
  }

  // ----- header names -----

  /** Where the token bytes from `i` on end. */
  function NameEnd(data: seq<Octet>, i: nat): (e: nat)
    requires i <= |data|
    ensures i <= e <= |data| && (e < |data| ==> !IsToken(data[e])) && Tokens(data[i..e])
    decreases |data| - i
  {
    if i < |data| && IsToken(data[i]) then
      var e := NameEnd(data, i + 1);
      assert forall k :: 0 < k < e - i ==> data[i..e][k] == data[i+1..e][k-1];
      e
    else i
  }

  /** The matcher after the bytes `s` of a name. */
  function NameRun(q: Parser, s: seq<Octet>): (r: Parser)
    requires Tokens(s)
    ensures r == q.(hstate := r.hstate, index := r.index, usesTe := r.usesTe)
    ensures IsFieldState(q.hstate) ==> IsFieldState(r.hstate)
  {
    if s == [] then q
    else
      var r := NameRun(q, s[..|s|-1]);
      assert IsFieldState(r.hstate) ==> IsFieldState(FieldByte(r, s[|s|-1]).hstate) by {
        if IsFieldState(r.hstate) {
          FieldByteKeeps(r, s[|s|-1]);
        }
      }
      FieldByte(r, s[|s|-1])
  }

  lemma NameRunNext(q: Parser, data: seq<Octet>, start: nat, i: nat)
    requires start <= i < |data| && Tokens(data[start..i]) && IsToken(data[i])
    ensures Tokens(data[start..i+1]) && NameRun(q, data[start..i+1]) == FieldByte(NameRun(q, data[start..i]), data[i])
  {
    hide FieldByte, IsToken;
    var s := data[start..i+1];
    assert s[..|s|-1] == data[start..i] && s[|s|-1] == data[i];
    assert forall k :: 0 <= k < |s| - 1 ==> s[k] == data[start..i][k];
  }

  /** The whole scan of a header name. */
  function NameBatch(cfg: Config, data: seq<Octet>, start: nat, p: Parser, t: Track): (v: Verdict)
    requires start < |data|
    ensures v.Resume? ==> start < v.i <= |data|
  {
    var e := NameEnd(data, start);
    if start < e && !IsFieldState(p.hstate) then Halt(AssertionFailed, start, p, t.calls)
    else Counting(cfg, data, start, e, NameRun(p, data[start..e]), t)
  }

  lemma GeneralKeeps(q: Parser, ch: Octet)
    requires q.hstate.General? && IsToken(ch)
    ensures FieldByte(q, ch) == q
  {
  }

  method ScanName(cfg: Config, data: seq<Octet>, start: nat, p: Parser, t: Track) returns (v: Verdict)
    requires start < |data|
    ensures v == NameBatch(cfg, data, start, p, t)
  {
    hide FieldByte, NameRun, Counting, IsToken, IsFieldState;
    var i, q := start, p;
    assert data[start..start] == [] && NameRun(p, []) == p by { NoName(p); }
    while i < |data| && IsToken(data[i])
      invariant start <= i <= |data| && NameEnd(data, i) == NameEnd(data, start)
      invariant Tokens(data[start..i]) && q == NameRun(p, data[start..i]) && (start < i ==> IsFieldState(q.hstate))
      invariant start < i ==> IsFieldState(p.hstate)
    {
      if !IsFieldState(q.hstate) {
        // the assertion on an unknown header state
        assert i == start && data[start..start] == [];
        return Halt(AssertionFailed, i, q, t.calls);
      }
      if q.hstate.General? {
        var left := |data| - i;
        var pe := i + if left < cfg.maxHeader then left else cfg.maxHeader;
        while i + 1 < pe && IsToken(data[i+1])
          invariant start <= i < |data| && IsToken(data[i]) && NameEnd(data, i) == NameEnd(data, start)
          invariant Tokens(data[start..i]) && q == NameRun(p, data[start..i])
        {
          NameRunNext(p, data, start, i);
          GeneralKeeps(q, data[i]);
          i := i + 1;
        }
      }
      NameRunNext(p, data, start, i);
      FieldByteKeeps(q, data[i]);
      assert start < i ==> IsFieldState(p.hstate);
      q := FieldByte(q, data[i]);
      i := i + 1;
    }
    v := Count(cfg, data, start, i, q, t);
  }

  lemma NoName(p: Parser)
    ensures NameRun(p, []) == p
  {
  }

  // ----- header values -----

  /** A byte the scan of a header value has something to say about. */
  predicate InValue(cfg: Config, ch: Octet) { ch != CR && ch != LF && (cfg.lenient || IsHeaderChar(ch)) }

  /** The first byte from `j` on that is not of this kind, but at most `pe`. */
  function ValueStop(cfg: Config, data: seq<Octet>, j: nat, pe: nat): (k: nat)
    requires j <= pe <= |data|
    ensures j <= k <= pe && (k < pe ==> !InValue(cfg, data[k])) && forall m :: j <= m < k ==> InValue(cfg, data[m])
    decreases pe - j
  {
    if j < pe && InValue(cfg, data[j]) then ValueStop(cfg, data, j + 1, pe) else j
  }

  /**
   Where the scan goes on after the inner loop for a value nobody looks into. The loop stops before a byte that ends the
   value, at the end of the buffer, or after `maxHeader` bytes; in the last case the byte it stops at is skipped unseen.
   */
  function SkipEnd(cfg: Config, data: seq<Octet>, i: nat): (next: nat)
    requires i < |data| && InValue(cfg, data[i])
    ensures i < next <= |data|
  {
    var left := |data| - i;
    var pe := i + if left < cfg.maxHeader then left else cfg.maxHeader;
    var j := ValueStop(cfg, data, i, pe);
    if j < pe || pe == |data| then j else pe + 1
  }

  method SkipGeneral(cfg: Config, data: seq<Octet>, i: nat) returns (bad: bool, next: nat)
    requires i < |data| && InValue(cfg, data[i])
    ensures next == SkipEnd(cfg, data, i)
    ensures bad ==> next < |data| && !InValue(cfg, data[next]) && data[next] != CR && data[next] != LF
  {
    hide InValue;
    var left := |data| - i;
    var pe := i + if left < cfg.maxHeader then left else cfg.maxHeader;
    var j := i;
    while j != pe
      invariant i <= j <= pe && ValueStop(cfg, data, j, pe) == ValueStop(cfg, data, i, pe)
      decreases pe - j
    {
      if data[j] == CR || data[j] == LF {
        assert !InValue(cfg, data[j]) by { LineEndsValue(cfg, data[j]); }
        return false, j;
      }
      if !InValue(cfg, data[j]) {
        return true, j;
      }
      j := j + 1;
    }
    return false, if pe == |data| then pe else pe + 1;
  }

  lemma LineEndsValue(cfg: Config, ch: Octet)
    requires ch == CR || ch == LF
    ensures !InValue(cfg, ch)
  {
  }

  /** The scan of a header value from `start`, when it has come to byte `i`. */
  function ValueBatch(cfg: Config, data: seq<Octet>, start: nat, i: nat, q: Parser, t: Track): (v: Verdict)
    requires start <= i <= |data| && start < |data|
    ensures v.Resume? ==> start < v.i <= |data|
    decreases |data| - i
  {
    if i == |data| || data[i] == LF then Counting(cfg, data, start, i, q, t)
    else if data[i] == CR then
      var c := CountBy(q, i - start);
      var s := Drive(cfg, c, data, i, t);
      if c.nread > cfg.maxHeader then Halt(HeaderOverflow, i, s.p, s.t.calls) else Outcome(s, i)
    else if !InValue(cfg, data[i]) then Halt(InvalidHeaderToken, i, q, t.calls)
    else if q.hstate.General? then ValueBatch(cfg, data, start, SkipEnd(cfg, data, i), q, t)
    else
      var m := ValueByte(q, data[i]);
      if m.ctl.Stop? then Halt(m.ctl.e, i, m.p, t.calls) else ValueBatch(cfg, data, start, i + 1, m.p, t)
  }

  method ScanValue(cfg: Config, data: seq<Octet>, start: nat, p: Parser, t: Track) returns (v: Verdict)
    requires start < |data|
    ensures v == ValueBatch(cfg, data, start, start, p, t)
  {
    hide ValueByte, Counting, SkipEnd, InValue, Drive;
    var i, q := start, p;
    while i < |data|
      invariant start <= i <= |data| &&
                ValueBatch(cfg, data, start, i, q, t) == ValueBatch(cfg, data, start, start, p, t)
    {
      if data[i] == CR {
        // the callback is made before the bytes are counted
        var c := CountBy(q, i - start);
        var s := Dispatch(cfg, data, i, c, t);
        return if c.nread > cfg.maxHeader then Halt(HeaderOverflow, i, s.p, s.t.calls) else Outcome(s, i);
      }
      if data[i] == LF {
        v := Count(cfg, data, start, i, q, t);
        return;
      }
      if !InValue(cfg, data[i]) {
        return Halt(InvalidHeaderToken, i, q, t.calls);
      }
      if q.hstate.General? {
        var bad, next := SkipGeneral(cfg, data, i);
        if bad {
          return Halt(InvalidHeaderToken, next, q, t.calls);
        }
        i := next;
      } else {
        var m := ValueByte(q, data[i]);
        if m.ctl.Stop? {
          return Halt(m.ctl.e, i, m.p, t.calls);
        }
        q, i := m.p, i + 1;
      }
    }
    v := Count(cfg, data, start, i, q, t);
  }

  // ----- bodies -----

  /** The states that take a stretch of body bytes at once, with the assertions the source makes there. */
  predicate InBody(p: Parser) {
    p.state.BodyIdentityEof? ||
    ((p.state.BodyIdentity? || (p.state.ChunkData? && p.flags.chunked)) &&
     p.contentLength != 0 && p.contentLength != ULLONG_MAX)
  }

  /** The parser after `n` body bytes that do not complete the body. */
  function Consumed(p: Parser, n: nat): Parser
    requires p.state.BodyIdentityEof? || n <= p.contentLength
  {
    if p.state.BodyIdentityEof? then p else p.(contentLength := p.contentLength - n)
  }

  /**
   `to_read = MIN(content_length, data + len - p)` bytes of body at once; the last byte is seen again by the switch.
   */
  function BodyBatch(cfg: Config, data: seq<Octet>, i: nat, p: Parser, t: Track): (v: Verdict)
    requires i < |data|
    ensures v.Resume? ==> i < v.i <= |data|
  {
    if !InBody(p) then Halt(AssertionFailed, i, p, t.calls)
    else
      var left := |data| - i;
      if p.state.BodyIdentityEof? || left < p.contentLength then
        Resume(|data|, Consumed(p, left), Do(Mark(BodySpan), data, i, t))
      else
        var last := i + p.contentLength - 1;
        var u := if last > i then Do(Mark(BodySpan), data, i, t) else t;
        Outcome(Drive(cfg, Consumed(p, last - i), data, last, u), last)
  }

  method ReadBody(cfg: Config, data: seq<Octet>, i: nat, p: Parser, t: Track) returns (v: Verdict)
    requires i < |data|
    ensures v == BodyBatch(cfg, data, i, p, t)
  {
    hide Drive, Do;
    if !InBody(p) {
      return Halt(AssertionFailed, i, p, t.calls);
    }
    var left := |data| - i;
    if p.state.BodyIdentityEof? || left < p.contentLength {
      return Resume(|data|, Consumed(p, left), Do(Mark(BodySpan), data, i, t));
    }
    var q, u, last := p, t, i + p.contentLength - 1;
    if last > i {
      q, u := Consumed(p, last - i), Do(Mark(BodySpan), data, i, t);
    }
    assert q == Consumed(p, last - i);
    var s := Dispatch(cfg, data, last, q, u);
    v := Outcome(s, last);
  }

  // ----- the main loop -----

  function RoundOf(cfg: Config, data: seq<Octet>, i: nat, p: Parser, t: Track): (v: Verdict)
    requires i < |data|
    ensures v.Resume? ==> i < v.i <= |data|
  {
    var q := Counted(p);
    if Overflows(cfg, p) then Halt(HeaderOverflow, i, q, t.calls)
    else if q.state.HeaderField? then NameBatch(cfg, data, i, q, t)
    else if q.state.HeaderValue? then ValueBatch(cfg, data, i, i, q, t)
    else if q.state.BodyIdentity? || q.state.BodyIdentityEof? || q.state.ChunkData? then BodyBatch(cfg, data, i, q, t)
    else Outcome(Drive(cfg, q, data, i, t), i)
  }

  method Round(cfg: Config, data: seq<Octet>, i: nat, p: Parser, t: Track) returns (v: Verdict)
    requires i < |data|
    ensures v == RoundOf(cfg, data, i, p, t)
  {
    hide Drive, NameBatch, ValueBatch, BodyBatch;
    var q := Counted(p);
    if ParsingHeader(p.state) && q.nread > cfg.maxHeader {
      v := Halt(HeaderOverflow, i, q, t.calls);
    } else if q.state.HeaderField? {
      v := ScanName(cfg, data, i, q, t);
    } else if q.state.HeaderValue? {
      v := ScanValue(cfg, data, i, q, t);
    } else if q.state.BodyIdentity? || q.state.BodyIdentityEof? || q.state.ChunkData? {
      v := ReadBody(cfg, data, i, q, t);
    } else {
      var s := Dispatch(cfg, data, i, q, t);
      v := Outcome(s, i);
    }
  }

  /** What one call adds to the log of callbacks, and where it leaves the parser. */
  datatype Done = Finished(p: Parser, calls: seq<Call>) | Broken(e: Errno, at: nat, p: Parser, calls: seq<Call>)
                | Upgraded(n: nat, p: Parser, calls: seq<Call>)

  /** The main loop from byte `i` on. */
  function Exec(cfg: Config, data: seq<Octet>, i: nat, p: Parser, t: Track): Done
    requires i <= |data|
    decreases |data| - i
  {
    if i == |data| then Finished(p, t.calls + Leftovers(data, t.marks, |data|))
    else
      match RoundOf(cfg, data, i, p, t)
      case Resume(j, q, u) => Exec(cfg, data, j, q, u)
      case Halt(e, at, q, calls) => Broken(e, at, q, calls)
      case Leave(n, q, calls) => Upgraded(n, q, calls)
  }

  /** A whole call of `http_parser_execute` on a non-empty buffer. */
  function ExecAll(cfg: Config, p: Parser, data: seq<Octet>): Done {
    Exec(cfg, data, 0, p, Track(OpenMarks(p.state), []))
  }

  // ----- what every round keeps, however many bytes it takes -----

  /** The marks fit the state, the invariant of the parser holds, and the header is within its limit. */
  predicate InStep(cfg: Config, i: nat, p: Parser, t: Track) {
    MarksFit(GateOf(p.state), t.marks, i) && Healthy(p) && p.nread <= cfg.maxHeader
  }

  predicate Kept(cfg: Config, v: Verdict) {
    match v
    case Resume(i, p, t) => InStep(cfg, i, p, t)
    case Leave(_, p, _) => GateOf(p.state).Shut? && Healthy(p) && p.nread <= cfg.maxHeader
    case Halt(e, _, _, _) => !e.AssertionFailed?
  }

  /** A log to which more of the span that `s` is in the middle of can be joined. */
  predicate Aligned(s: State, log: seq<Call>) { GateOf(s).Open? ==> EndsIn(log, GateOf(s).k) }

  lemma OpenStory(s: State, log: seq<Call>, data: seq<Octet>)
    requires Aligned(s, log)
    ensures Story(log, data, Track(OpenMarks(s), []), 0) == log
    ensures MarksFit(if GateOf(s).Lag? then Shut else GateOf(s), OpenMarks(s), 0)
  {
    var t := Track(OpenMarks(s), []);
    var g := GateOf(s);
    if g.Open? {
      StoryOpen(log, data, t, g.k, 0);
      JoinNothing(log, g.k);
    } else {
      assert OpenMarks(s) == map[];
      StoryShut(log, data, t, 0);
    }
  }

  /** What has been told ends with the span that is being read. */
  lemma StoryAligned(s: State, log: seq<Call>, data: seq<Octet>, t: Track, i: nat)
    requires i <= |data| && MarksFit(GateOf(s), t.marks, i)
    ensures Aligned(s, Story(log, data, t, i))
  {
    if GateOf(s).Open? {
      StoryOpen(log, data, t, GateOf(s).k, i);
    }
  }

  /** A byte in place, and the same byte in a buffer of its own. */
  lemma DriveAlone(cfg: Config, p: Parser, data: seq<Octet>, i: nat, t: Track, log: seq<Call>)
    requires i < |data| && MarksFit(GateOf(p.state), t.marks, i)
    ensures var base := Story(log, data, t, i);
            SameOutcome(data, i, Drive(cfg, p, data, i, t), log,
                        Drive(cfg, p, [data[i]], 0, Track(OpenMarks(p.state), [])), base)
  {
    hide Drive, Story;
    var base := Story(log, data, t, i);
    var u := Track(OpenMarks(p.state), []);
    StoryAligned(p.state, log, data, t, i);
    OpenStory(p.state, base, [data[i]]);
    assert Agree(GateOf(p.state), data, i, t, log, u, base);
    DriveAgrees(cfg, p, data, i, t, log, u, base);
  }

  lemma DriveKept(cfg: Config, p: Parser, data: seq<Octet>, i: nat, t: Track)
    requires i < |data| && Ready(p) && MarksFit(GateOf(p.state), t.marks, i) && p.nread <= cfg.maxHeader
    ensures Kept(cfg, Outcome(Drive(cfg, p, data, i, t), i))
  {
    hide Drive, HealthyAt, Story, Leftovers, Extend;
    DriveKeeps(cfg, p, data, i, t);
    DriveAlone(cfg, p, data, i, t, []);
  }

  /** While a header is read, the count of its bytes is not part of the invariant. */
  lemma HeaderHealthy(p: Parser, n: nat)
    requires p.state.HeaderField? || p.state.HeaderValue?
    ensures Healthy(p) <==> Ready(p.(nread := n))
  {
  }

  lemma CountingKept(cfg: Config, data: seq<Octet>, start: nat, end: nat, q: Parser, t: Track)
    requires start <= end <= |data| && start < |data| && (q.state.HeaderField? || q.state.HeaderValue?)
    requires MarksFit(GateOf(q.state), t.marks, start) && Healthy(q)
    ensures Kept(cfg, Counting(cfg, data, start, end, q, t))
  {
    hide HealthyAt, Drive, MarksFit;
    var c := CountBy(q, if end == |data| then end - 1 - start else end - start);
    HeaderHealthy(q, c.nread);
    HeaderHealthy(c, c.nread);
    MarksStay(GateOf(q.state), t.marks, start, end);
    if c.nread <= cfg.maxHeader && end < |data| {
      DriveKept(cfg, c, data, end, t);
    }
  }

  lemma MarksStay(g: Gate, marks: map<Kind, nat>, i: nat, j: nat)
    requires MarksFit(g, marks, i) && i <= j
    ensures MarksFit(g, marks, j)
  {
  }

  lemma NameKept(cfg: Config, data: seq<Octet>, start: nat, p: Parser, t: Track)
    requires start < |data| && p.state.HeaderField? && MarksFit(GateOf(p.state), t.marks, start) && Healthy(p)
    ensures Kept(cfg, NameBatch(cfg, data, start, p, t))
  {
    hide Counting, NameEnd, MarksFit;
    var e := NameEnd(data, start);
    CountingKept(cfg, data, start, e, NameRun(p, data[start..e]), t);
  }

  lemma {:induction false} ValueKept(cfg: Config, data: seq<Octet>, start: nat, i: nat, q: Parser, t: Track)
    requires start <= i <= |data| && start < |data| && q.state.HeaderValue? && IsValueState(q.hstate)
    requires MarksFit(GateOf(q.state), t.marks, start)
    ensures Kept(cfg, ValueBatch(cfg, data, start, i, q, t))
    decreases |data| - i
  {
    hide Counting, SkipEnd, InValue, ValueByte, MarksFit, Drive, IsValueState;
    assert Healthy(q);
    if i == |data| || data[i] == LF {
      CountingKept(cfg, data, start, i, q, t);
    } else if data[i] == CR {
      var c := CountBy(q, i - start);
      HeaderHealthy(q, c.nread);
      MarksStay(GateOf(q.state), t.marks, start, i);
      if c.nread <= cfg.maxHeader {
        DriveKept(cfg, c, data, i, t);
      }
    } else if InValue(cfg, data[i]) {
      if q.hstate.General? {
        ValueKept(cfg, data, start, SkipEnd(cfg, data, i), q, t);
      } else {
        ValueByteKeeps(q, data[i]);
        var m := ValueByte(q, data[i]);
        if !m.ctl.Stop? {
          ValueKept(cfg, data, start, i + 1, m.p, t);
        }
      }
    }
  }

  lemma BodyReady(p: Parser)
    requires Healthy(p) && (p.state.BodyIdentity? || p.state.BodyIdentityEof? || p.state.ChunkData?)
    ensures InBody(p) && GateOf(p.state).Lag?
  {
  }

  lemma RestReady(p: Parser, n: nat)
    requires Healthy(p) && InBody(p) && (p.state.BodyIdentityEof? || n < p.contentLength)
    ensures var q := Consumed(p, n); Healthy(q) && Ready(q)
  {
  }

  lemma BodyMarks(data: seq<Octet>, i: nat, t: Track)
    requires i < |data| && MarksFit(Lag, t.marks, i)
    ensures MarksFit(Lag, Do(Mark(BodySpan), data, i, t).marks, i)
  {
  }

  lemma BodyKept(cfg: Config, data: seq<Octet>, i: nat, p: Parser, t: Track)
    requires i < |data| && MarksFit(GateOf(p.state), t.marks, i) && Healthy(p) && p.nread <= cfg.maxHeader
    requires p.state.BodyIdentity? || p.state.BodyIdentityEof? || p.state.ChunkData?
    ensures Kept(cfg, BodyBatch(cfg, data, i, p, t))
  {
    hide Drive, HealthyAt, MarksFit, Do, GateOf;
    BodyReady(p);
    BodyMarks(data, i, t);
    var u := Do(Mark(BodySpan), data, i, t);
    if p.state.BodyIdentityEof? || |data| - i < p.contentLength {
      RestReady(p, |data| - i);
      MarksStay(Lag, u.marks, i, |data|);
    } else {
      RestReady(p, p.contentLength - 1);
      var last := i + p.contentLength - 1;
      MarksStay(Lag, u.marks, i, last);
      DriveKept(cfg, Consumed(p, last - i), data, last, if last > i then u else t);
    }
  }

  lemma RoundKept(cfg: Config, data: seq<Octet>, i: nat, p: Parser, t: Track)
    requires i < |data| && InStep(cfg, i, p, t)
    ensures Kept(cfg, RoundOf(cfg, data, i, p, t))
  {
    hide HealthyAt, MarksFit, NameBatch, ValueBatch, BodyBatch, Drive, Kept;
    var q := Counted(p);
    if Overflows(cfg, p) {
      assert Kept(cfg, Halt(HeaderOverflow, i, q, t.calls)) by { OverflowKept(cfg, i, q, t.calls); }
    } else if q.state.HeaderField? {
      HeaderHealthy(p, q.nread);
      HeaderHealthy(q, q.nread);
      NameKept(cfg, data, i, q, t);
    } else if q.state.HeaderValue? {
      ValueHealthy(p);
      ValueKept(cfg, data, i, i, q, t);
    } else if q.state.BodyIdentity? || q.state.BodyIdentityEof? || q.state.ChunkData? {
      BodyKept(cfg, data, i, q, t);
    } else {
      CountedReady(p);
      DriveKept(cfg, q, data, i, t);
    }
  }

  lemma OverflowKept(cfg: Config, i: nat, q: Parser, calls: seq<Call>)
    ensures Kept(cfg, Halt(HeaderOverflow, i, q, calls))
  {
  }

  lemma ValueHealthy(p: Parser)
    requires p.state.HeaderValue?
    ensures Healthy(p) <==> IsValueState(p.hstate)
  {
  }

  // ----- the loop -----

  /** The `assert` on the leftover marks. */
  lemma AtMostOneMark(s: State, t: Track, n: nat)
    requires MarksFit(GateOf(s), t.marks, n)
    ensures |t.marks| <= 1
  {
    assert |t.marks.Keys| == |t.marks|;
    if t.marks != map[] {
      var k :| k in t.marks;
      assert t.marks.Keys == {k};
    }
  }

  lemma StartInStep(cfg: Config, p: Parser)
    requires Healthy(p) && p.nread <= cfg.maxHeader
    ensures InStep(cfg, 0, p, Track(OpenMarks(p.state), []))
  {
    hide HealthyAt;
  }

  /** The loop of `http_parser_execute`. */
  method Loop(cfg: Config, p0: Parser, data: seq<Octet>) returns (d: Done)
    requires Healthy(p0) && p0.nread <= cfg.maxHeader
    ensures d == ExecAll(cfg, p0, data)
  {
    hide RoundOf, InStep, Leftovers;
    var i, p, t := 0, p0, Track(OpenMarks(p0.state), []);
    StartInStep(cfg, p0);
    while i < |data|
      invariant i <= |data| && InStep(cfg, i, p, t)
      invariant Exec(cfg, data, i, p, t) == ExecAll(cfg, p0, data)
    {
      RoundKept(cfg, data, i, p, t);
      var v := Round(cfg, data, i, p, t);
      match v {
        case Resume(j, q, u) => i, p, t := j, q, u;
        case Halt(e, at, q, calls) => return Broken(e, at, q, calls);
        case Leave(n, q, calls) => return Upgraded(n, q, calls);
      }
    }
    assert |t.marks| <= 1 by {
      StepMarks(cfg, i, p, t);
      AtMostOneMark(p.state, t, i);
    }
    d := Finished(p, t.calls + Leftovers(data, t.marks, |data|));
  }

  lemma StepMarks(cfg: Config, i: nat, p: Parser, t: Track)
    requires InStep(cfg, i, p, t)
    ensures MarksFit(GateOf(p.state), t.marks, i)
  {
  }

  /** What a call leaves behind, if it is no error. */
  predicate DoneKept(cfg: Config, log: seq<Call>, d: Done) {
    if d.Broken? then !d.e.AssertionFailed?
    else Healthy(d.p) && d.p.nread <= cfg.maxHeader &&
         if d.Finished? then Aligned(d.p.state, Extend(log, d.calls)) else GateOf(d.p.state).Shut?
  }

  /** Whatever the buffer, a call keeps the invariant of the parser and fails no assertion. */
  lemma {:induction false} ExecKept(cfg: Config, data: seq<Octet>, i: nat, p: Parser, t: Track, log: seq<Call>)
    requires i <= |data| && InStep(cfg, i, p, t)
    ensures DoneKept(cfg, log, Exec(cfg, data, i, p, t))
    decreases |data| - i
  {
    hide RoundOf, HealthyAt, MarksFit, Leftovers, Extend;
    if i == |data| {
      StoryAligned(p.state, log, data, t, i);
    } else {
      RoundKept(cfg, data, i, p, t);
      var v := RoundOf(cfg, data, i, p, t);
      if v.Resume? {
        ExecKept(cfg, data, v.i, v.p, v.t, log);
      }
    }
  }

  /** The same for a whole call. */
  lemma ExecAllKept(cfg: Config, p: Parser, data: seq<Octet>, log: seq<Call>)
    requires Healthy(p) && p.nread <= cfg.maxHeader
    ensures DoneKept(cfg, log, ExecAll(cfg, p, data))
  {
    hide HealthyAt, Exec, InStep;
    StartInStep(cfg, p);
    ExecKept(cfg, data, 0, p, Track(OpenMarks(p.state), []), log);
  }
}
