/**
 The limit on the size of a header. The source counts the bytes of a scan in one go, in 32 bits; here is exactly when
 that refuses what counting byte by byte refuses.
 */
module HttpLimit {
  import opened HttpSyntax
  import opened HttpMachine
  import opened HttpFeed
  import opened HttpHealth
  import opened HttpNames
  import opened HttpBatch
  import opened HttpExecute
  import opened Wrappers

  /** Counting `n` more bytes in one go tells whether they are too many. */
  predicate CountsRight(cfg: Config, p: Parser, n: nat) {
    p.nread + n <= cfg.maxHeader || p.nread == cfg.maxHeader || (p.nread + n) % UINT32 > cfg.maxHeader
  }

  lemma CountedInOneGo(p: Parser, n: nat)
    requires n > 0 && p.nread < UINT32 - 1 && ParsingHeader(p.state)
    ensures Counted(p).nread == p.nread + 1 && CountBy(Counted(p), n - 1) == p.(nread := (p.nread + n) % UINT32)
  {
  }

  /** The first byte of a round is counted at once. */
  lemma FirstByteCounted(cfg: Config, p: Parser)
    requires p.nread <= cfg.maxHeader < UINT32 - 1 && ParsingHeader(p.state)
    ensures Counted(p) == p.(nread := p.nread + 1) && (Overflows(cfg, p) <==> p.nread == cfg.maxHeader)
  {
    hide ParsingHeader;
  }

  /** A scan that takes the whole buffer. */
  lemma CountedWhole(cfg: Config, s: seq<Octet>, q: Parser, t: Track)
    requires s != [] && q.nread < UINT32 - 1 && ParsingHeader(q.state)
    ensures var v, n := Counting(cfg, s, 0, |s|, Counted(q), t), (q.nread + |s|) % UINT32;
            if n > cfg.maxHeader then v.Halt? && v.e.HeaderOverflow? else v == Resume(|s|, q.(nread := n), t)
  {
    CountedInOneGo(q, |s|);
    hide CountBy, Drive, Counted, ParsingHeader;
  }

  // ----- header names -----

  lemma {:induction false} NameRunNread(p: Parser, s: seq<Octet>, n: nat)
    requires Tokens(s)
    ensures NameRun(p.(nread := n), s) == NameRun(p, s).(nread := n)
  {
    hide FieldByte;
    if s != [] {
      var front := s[..|s|-1];
      NameRunNread(p, front, n);
      NameNread(NameRun(p, front), s[|s|-1], n);
    }
  }

  /** Byte by byte, a name is counted up to the limit and no further. */
  lemma {:induction false} NameFed(cfg: Config, p: Parser, log: seq<Call>, s: seq<Octet>)
    requires Tokens(s) && p.state.HeaderField? && IsFieldState(p.hstate) && p.nread <= cfg.maxHeader < UINT32 - 1
    ensures var r := FeedAll(cfg, Running(p, log), s);
            if p.nread + |s| > cfg.maxHeader then r == Failed(HeaderOverflow)
            else r.Running? && r.p == NameRun(p, s).(nread := p.nread + |s|)
  {
    hide Feed, NameRun, FieldByte, IsFieldState, IsToken;
    if s == [] {
      NoName(p);
    } else {
      var front, ch := s[..|s|-1], s[|s|-1];
      NameFed(cfg, p, log, front);
      var r := FeedAll(cfg, Running(p, log), front);
      if r.Running? {
        TokenFed(cfg, r.p, r.log, ch);
        NameRunSnoc(p, s);
        NameNread(NameRun(p, front), ch, p.nread + |front|);
        NameNread(NameRun(p, front), ch, p.nread + |s|);
      } else {
        FailedStays(cfg, r.e, ch);
      }
    }
  }

  lemma NameRunSnoc(p: Parser, s: seq<Octet>)
    requires s != [] && Tokens(s)
    ensures NameRun(p, s) == FieldByte(NameRun(p, s[..|s|-1]), s[|s|-1])
  {
    hide FieldByte;
  }

  lemma FailedStays(cfg: Config, e: Errno, ch: Octet)
    ensures Feed(cfg, Failed(e), ch) == Failed(e)
  {
  }

  lemma TokenFed(cfg: Config, p: Parser, log: seq<Call>, ch: Octet)
    requires p.state.HeaderField? && IsFieldState(p.hstate) && p.nread <= cfg.maxHeader < UINT32 - 1 && IsToken(ch)
    ensures var r := Feed(cfg, Running(p, log), ch);
            if p.nread == cfg.maxHeader then r == Failed(HeaderOverflow)
            else r.Running? && r.p == FieldByte(p, ch).(nread := p.nread + 1)
  {
    hide Drive, FieldByte, Extend, Leftovers, OpenMarks, IsFieldState, IsToken;
    DriveName(cfg, Counted(p), [ch], 0, Track(OpenMarks(p.state), []));
    NameNread(p, ch, p.nread + 1);
  }

  lemma NameRound(cfg: Config, p: Parser, s: seq<Octet>, t: Track)
    requires s != [] && Tokens(s) && p.state.HeaderField? && IsFieldState(p.hstate)
    ensures RoundOf(cfg, s, 0, p, t) ==
            if Overflows(cfg, p) then Halt(HeaderOverflow, 0, Counted(p), t.calls)
            else Counting(cfg, s, 0, |s|, NameRun(Counted(p), s), t)
  {
    hide NameRun, IsFieldState, IsToken, Counting, Drive, Overflows;
    assert Counted(p) == p.(nread := Counted(p).nread);
    assert NameEnd(s, 0) == |s| && s[0..|s|] == s;
  }

  /** The scan of a buffer that is all name. */
  lemma NameScanned(cfg: Config, p: Parser, s: seq<Octet>, t: Track)
    requires s != [] && Tokens(s) && p.state.HeaderField? && IsFieldState(p.hstate) &&
             p.nread <= cfg.maxHeader < UINT32 - 1
    ensures var v, n := RoundOf(cfg, s, 0, p, t), (p.nread + |s|) % UINT32;
            if p.nread == cfg.maxHeader || n > cfg.maxHeader then v.Halt? && v.e.HeaderOverflow?
            else v == Resume(|s|, NameRun(p, s).(nread := n), t)
  {
    hide NameRun, FieldByte, IsFieldState, IsToken, Counting, Counted, Overflows, RoundOf;
    NameRound(cfg, p, s, t);
    FirstByteCounted(cfg, p);
    NameRunNread(p, s, p.nread + 1);
    FirstByteCounted(cfg, NameRun(p, s));
    CountedWhole(cfg, s, NameRun(p, s), t);
  }

  /**
   A buffer of `n` name bytes: the code refuses it exactly if counting byte by byte does, if and only if the count
   in one go is right.
   */
  lemma NameLimit(cfg: Config, p: Parser, log: seq<Call>, s: seq<Octet>, t: Track)
    requires s != [] && Tokens(s) && p.state.HeaderField? && IsFieldState(p.hstate) &&
             p.nread <= cfg.maxHeader < UINT32 - 1
    ensures (RoundOf(cfg, s, 0, p, t).Halt? <==> FeedAll(cfg, Running(p, log), s).Failed?) <==> CountsRight(cfg, p, |s|)
  {
    hide RoundOf, FeedAll, NameRun, IsFieldState, IsToken;
    NameFed(cfg, p, log, s);
    NameScanned(cfg, p, s, t);
  }

  // ----- header values -----

  predicate Values(cfg: Config, s: seq<Octet>) { forall i :: 0 <= i < |s| ==> InValue(cfg, s[i]) }

  /** The parser after the bytes `s` of a value; none if one of them is an error. */
  function ValueRun(q: Parser, s: seq<Octet>): (r: Option<Parser>)
    ensures r.Some? && IsValueState(q.hstate) ==> r.value.state == q.state && IsValueState(r.value.hstate)
  {
    if s == [] then Some(q)
    else
      var r := ValueRun(q, s[..|s|-1]);
      if r.None? then None
      else
        var m := ValueByte(r.value, s[|s|-1]);
        assert IsValueState(r.value.hstate) && !m.ctl.Stop? ==> IsValueState(m.p.hstate) by {
          if IsValueState(r.value.hstate) {
            ValueByteKeeps(r.value, s[|s|-1]);
          }
        }
        if m.ctl.Stop? then None else Some(m.p)
  }

  lemma {:induction false} ValueRunNread(p: Parser, s: seq<Octet>, n: nat)
    ensures var r, r' := ValueRun(p, s), ValueRun(p.(nread := n), s);
            r.None? == r'.None? && (r.Some? ==> r'.value == r.value.(nread := n))
  {
    hide ValueByte;
    if s != [] {
      var front := s[..|s|-1];
      ValueRunNread(p, front, n);
      if ValueRun(p, front).Some? {
        ValueNread(ValueRun(p, front).value, s[|s|-1], n);
      }
    }
  }

  lemma {:induction false} ValueFed(cfg: Config, p: Parser, log: seq<Call>, s: seq<Octet>)
    requires Values(cfg, s) && p.state.HeaderValue? && IsValueState(p.hstate) && p.nread <= cfg.maxHeader < UINT32 - 1
    ensures var r, v := FeedAll(cfg, Running(p, log), s), ValueRun(p, s);
            if v.None? || p.nread + |s| > cfg.maxHeader then r.Failed?
            else r.Running? && r.p == v.value.(nread := p.nread + |s|)
  {
    hide Feed, ValueByte, IsValueState, InValue;
    if s != [] {
      var front, ch := s[..|s|-1], s[|s|-1];
      ValueFed(cfg, p, log, front);
      var r := FeedAll(cfg, Running(p, log), front);
      if r.Running? {
        var q := ValueRun(p, front).value;
        ValueFedOne(cfg, r.p, r.log, ch);
        ValueNread(q, ch, p.nread + |front|);
        ValueNread(q, ch, p.nread + |s|);
      } else {
        FailedStays(cfg, r.e, ch);
      }
    }
  }

  lemma ValueFedOne(cfg: Config, p: Parser, log: seq<Call>, ch: Octet)
    requires p.state.HeaderValue? && IsValueState(p.hstate) && p.nread <= cfg.maxHeader < UINT32 - 1 && InValue(cfg, ch)
    ensures var r, m := Feed(cfg, Running(p, log), ch), ValueByte(p, ch);
            if p.nread == cfg.maxHeader || m.ctl.Stop? then r.Failed?
            else r.Running? && r.p == m.p.(nread := p.nread + 1)
  {
    hide Drive, ValueByte, Extend, Leftovers, OpenMarks, IsValueState, IsHeaderChar;
    DriveValue(cfg, Counted(p), [ch], 0, Track(OpenMarks(p.state), []));
    ValueNread(p, ch, p.nread + 1);
    ValueByteKeeps(p, ch);
  }

  /** The first byte first. */
  lemma {:induction false} ValueRunFront(q: Parser, s: seq<Octet>)
    requires s != []
    ensures var m := ValueByte(q, s[0]); ValueRun(q, s) == if m.ctl.Stop? then None else ValueRun(m.p, s[1..])
    decreases |s|
  {
    hide ValueByte;
    var n := |s| - 1;
    if n == 0 {
      assert s[..0] == [] == s[1..];
      assert ValueRun(q, []) == Some(q);
    } else {
      ValueRunFront(q, s[..n]);
      assert s[..n][1..] == s[1..][..n-1] && s[1..][n-1] == s[n];
    }
  }

  lemma {:induction false} GeneralRun(q: Parser, s: seq<Octet>)
    requires q.hstate.General?
    ensures ValueRun(q, s) == Some(q)
  {
    hide ValueByte;
    if s != [] {
      GeneralRun(q, s[..|s|-1]);
      GeneralValue(q, s[|s|-1]);
    }
  }

  /** The scan of a buffer that is all value, from byte `i` on. */
  lemma {:induction false} ValueScan(cfg: Config, s: seq<Octet>, i: nat, q: Parser, t: Track)
    requires s != [] && Values(cfg, s) && i <= |s|
    ensures var v, r := ValueBatch(cfg, s, 0, i, q, t), ValueRun(q, s[i..]);
            if r.None? then v.Halt? else v == Counting(cfg, s, 0, |s|, r.value, t)
    decreases |s| - i
  {
    hide Counting, SkipEnd, ValueByte, Drive, InValue;
    if i == |s| {
      assert s[i..] == [];
    } else {
      assert InValue(cfg, s[i]) && s[i] != CR && s[i] != LF by { ValueIsNoLine(cfg, s[i]); }
      if q.hstate.General? {
        var next := SkipEnd(cfg, s, i);
        ValueScan(cfg, s, next, q, t);
        GeneralRun(q, s[i..]);
        GeneralRun(q, s[next..]);
      } else {
        ValueRunFront(q, s[i..]);
        assert s[i..][1..] == s[i+1..];
        var m := ValueByte(q, s[i]);
        if !m.ctl.Stop? {
          ValueScan(cfg, s, i + 1, m.p, t);
        }
      }
    }
  }

  lemma ValueIsNoLine(cfg: Config, ch: Octet)
    requires InValue(cfg, ch)
    ensures ch != CR && ch != LF
  {
  }

  lemma ValueRound(cfg: Config, p: Parser, s: seq<Octet>, t: Track)
    requires s != [] && p.state.HeaderValue?
    ensures RoundOf(cfg, s, 0, p, t) ==
            if Overflows(cfg, p) then Halt(HeaderOverflow, 0, Counted(p), t.calls)
            else ValueBatch(cfg, s, 0, 0, Counted(p), t)
  {
    hide ValueBatch, Drive, Overflows;
  }

  lemma ValueScanned(cfg: Config, p: Parser, s: seq<Octet>, t: Track)
    requires s != [] && Values(cfg, s) && p.state.HeaderValue? && IsValueState(p.hstate) &&
             p.nread <= cfg.maxHeader < UINT32 - 1
    ensures RoundOf(cfg, s, 0, p, t).Halt? <==>
            ValueRun(p, s).None? || p.nread == cfg.maxHeader || (p.nread + |s|) % UINT32 > cfg.maxHeader
  {
    hide ValueRun, ValueBatch, IsValueState, Values, Counting, Counted, Overflows, RoundOf;
    ValueRound(cfg, p, s, t);
    FirstByteCounted(cfg, p);
    ValueRunNread(p, s, p.nread + 1);
    ValueRunNread(p, s, p.nread);
    assert s[0..] == s;
    ValueScan(cfg, s, 0, Counted(p), t);
    if ValueRun(p, s).Some? {
      var r := ValueRun(p, s).value;
      ValueRunState(p, s);
      assert r == r.(nread := p.nread);
      FirstByteCounted(cfg, r);
      CountedWhole(cfg, s, r, t);
    }
  }

  lemma ValueRunState(p: Parser, s: seq<Octet>)
    requires IsValueState(p.hstate) && ValueRun(p, s).Some?
    ensures ValueRun(p, s).value.state == p.state
  {
  }

  /** The same for a buffer of value bytes; a value that is an error is refused either way. */
  lemma ValueLimit(cfg: Config, p: Parser, log: seq<Call>, s: seq<Octet>, t: Track)
    requires s != [] && Values(cfg, s) && p.state.HeaderValue? && IsValueState(p.hstate) &&
             p.nread <= cfg.maxHeader < UINT32 - 1
    ensures (RoundOf(cfg, s, 0, p, t).Halt? <==> FeedAll(cfg, Running(p, log), s).Failed?) <==>
            ValueRun(p, s).None? || CountsRight(cfg, p, |s|)
  {
    hide RoundOf, FeedAll, ValueRun, IsValueState, InValue;
    ValueFed(cfg, p, log, s);
    ValueScanned(cfg, p, s, t);
  }

  // ----- where the two differ -----

  function Letters(n: nat): (s: seq<Octet>)
    ensures |s| == n && forall i :: 0 <= i < n ==> s[i] == 'a'
  {
    seq(n, _ => 'a')
  }

  /**
   A header name of 2^32 bytes in one buffer: byte by byte it is refused, but a whole call of the code accepts it, and
   its count is back where it was.
   */
  lemma LongNameEscapes(cfg: Config, p: Parser, log: seq<Call>)
    requires p.state.HeaderField? && IsFieldState(p.hstate) && p.nread < cfg.maxHeader < UINT32 - 1
    ensures var data := Letters(UINT32);
            FeedAll(cfg, Running(p, log), data) == Failed(HeaderOverflow) &&
            var d := ExecAll(cfg, p, data); d.Finished? && d.p.state.HeaderField? && d.p.nread == p.nread
  {
    hide FeedAll, Letters, RoundOf, NameRun, IsFieldState, Leftovers, OpenMarks;
    var data, t := Letters(UINT32), Track(OpenMarks(p.state), []);
    assert Tokens(data) by { LettersAreTokens(data); }
    NameFed(cfg, p, log, data);
    NameScanned(cfg, p, data, t);
    assert (p.nread + |data|) % UINT32 == p.nread;
    ExecTwice(cfg, data, p, t);
  }

  /** A call whose first round takes the whole buffer. */
  lemma ExecTwice(cfg: Config, data: seq<Octet>, p: Parser, t: Track)
    requires data != [] && RoundOf(cfg, data, 0, p, t).Resume? && RoundOf(cfg, data, 0, p, t).i == |data|
    ensures var v := RoundOf(cfg, data, 0, p, t);
            Exec(cfg, data, 0, p, t) == Finished(v.p, v.t.calls + Leftovers(data, v.t.marks, |data|))
  {
    hide RoundOf, Leftovers;
  }

  lemma LettersAreTokens(s: seq<Octet>)
    requires forall i :: 0 <= i < |s| ==> s[i] == 'a'
    ensures Tokens(s)
  {
    assert IsToken('a');
    hide IsToken;
  }
}
