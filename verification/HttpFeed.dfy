/**
 The byte-by-byte meaning of the parser: `Feed` is what one byte does on its own, `FeedAll` folds it over an input.
 Data callbacks may come in any number of pieces, so logs of callbacks are compared with adjacent pieces of the same
 span joined (`Extend`).
 */
module HttpFeed {
  import opened HttpSyntax
  import opened HttpMachine

  // ----- logs of callbacks -----

  /** Appends a callback; a data callback is glued to a preceding one of the same span. */
  function Join(log: seq<Call>, c: Call): (r: seq<Call>)
    ensures |r| > 0
  {
    var n := |log|;
    if c.Data? && n > 0 && log[n-1].Data? && log[n-1].kind == c.kind then
      log[..n-1] + [Data(c.kind, log[n-1].bytes + c.bytes)]
    else log + [c]
  }

  function Extend(log: seq<Call>, calls: seq<Call>): seq<Call> {
    if calls == [] then log else Join(Extend(log, calls[..|calls|-1]), calls[|calls|-1])
  }

  predicate EndsIn(log: seq<Call>, k: Kind) {
    |log| > 0 && log[|log|-1].Data? && log[|log|-1].kind == k
  }

  lemma ExtendOne(log: seq<Call>, calls: seq<Call>, c: Call)
    ensures Extend(log, calls + [c]) == Join(Extend(log, calls), c)
  {
    assert (calls + [c])[..|calls|] == calls;
  }

  lemma {:induction false} ExtendConcat(log: seq<Call>, a: seq<Call>, b: seq<Call>)
    ensures Extend(log, a + b) == Extend(Extend(log, a), b)
  {
    if b == [] {
      assert a + b == a;
    } else {
      var n := |b| - 1;
      ExtendConcat(log, a, b[..n]);
      assert a + b == (a + b[..n]) + [b[n]];
      ExtendOne(log, a + b[..n], b[n]);
    }
  }

  lemma JoinData(log: seq<Call>, k: Kind, a: seq<Octet>, b: seq<Octet>)
    ensures Join(log, Data(k, a + b)) == Join(Join(log, Data(k, a)), Data(k, b))
    ensures EndsIn(Join(log, Data(k, a)), k)
  {
    if EndsIn(log, k) {
      assert log[|log|-1].bytes + (a + b) == (log[|log|-1].bytes + a) + b;
    }
  }

  lemma JoinNothing(log: seq<Call>, k: Kind)
    requires EndsIn(log, k)
    ensures Join(log, Data(k, [])) == log
  {
    assert log[|log|-1].bytes + [] == log[|log|-1].bytes;
    assert log == log[..|log|-1] + [log[|log|-1]];
  }

  // ----- marks within a buffer -----

  /** The marks set in the buffer and the callbacks made so far. */
  datatype Track = Track(marks: map<Kind, nat>, calls: seq<Call>)

  /** The callback for span `k`, up to `end`, if its mark is set. */
  function Span(data: seq<Octet>, marks: map<Kind, nat>, k: Kind, end: nat): seq<Call> {
    if k in marks && marks[k] <= end <= |data| then [Data(k, data[marks[k]..end])] else []
  }

  /** The callbacks for all marks that are still set at `end`, in the order of the source. */
  function Leftovers(data: seq<Octet>, marks: map<Kind, nat>, end: nat): seq<Call> {
    Span(data, marks, FieldSpan, end) + Span(data, marks, ValueSpan, end) + Span(data, marks, UrlSpan, end) +
    Span(data, marks, BodySpan, end) + Span(data, marks, StatusSpan, end)
  }

  function Do(a: Act, data: seq<Octet>, i: nat, t: Track): Track {
    match a
    case Mark(k) => if k in t.marks then t else t.(marks := t.marks[k := i])
    case Flush(k) => Track(t.marks - {k}, t.calls + Span(data, t.marks, k, i))
    case FlushIncl(k) => Track(t.marks - {k}, t.calls + Span(data, t.marks, k, i + 1))
    case Notify(n) => t.(calls := t.calls + [Note(n)])
  }

  function DoAll(acts: Acts, data: seq<Octet>, i: nat, t: Track): Track {
    match acts
    case Quiet => t
    case One(a) => Do(a, data, i, t)
    case Two(a, b) => Do(b, data, i, Do(a, data, i, t))
  }

  // ----- one byte -----

  /** How the work on one byte ends. */
  datatype Pass = Pass(p: Parser, t: Track, ctl: Control)

  /** All passes of the switch on byte `i` of a buffer. */
  function Drive(cfg: Config, p: Parser, data: seq<Octet>, i: nat, t: Track): (s: Pass)
    requires i < |data|
    ensures !s.ctl.Again? && s.p.nread <= p.nread
    ensures s.ctl.Exit? ==> GateOf(s.p.state).Shut?
    decreases Rank(p.state)
  {
    var m := Transition(cfg, p, data[i]);
    var u := DoAll(m.acts, data, i, t);
    TransitionSound(cfg, p, data[i]);
    if m.ctl.Again? then Drive(cfg, m.p, data, i, u) else Pass(m.p, u, m.ctl)
  }

  datatype Run =
    | Running(p: Parser, log: seq<Call>)
    | Failed(e: Errno)
    | Exited(p: Parser, log: seq<Call>)

  /** `COUNT_HEADER_SIZE(1)` at the top of the loop. */
  function Counted(p: Parser): Parser {
    if ParsingHeader(p.state) then p.(nread := (p.nread + 1) % UINT32) else p
  }

  predicate Overflows(cfg: Config, p: Parser) {
    ParsingHeader(p.state) && Counted(p).nread > cfg.maxHeader
  }

  /** The marks set on entry to `http_parser_execute`. */
  function OpenMarks(s: State): map<Kind, nat> { map k | k in OpenSpan(s) :: 0 }

  /** What one byte does, handed over in a buffer of its own. */
  function Feed(cfg: Config, r: Run, ch: Octet): Run {
    match r
    case Running(p, log) =>
      if Overflows(cfg, p) then Failed(HeaderOverflow)
      else
        var s := Drive(cfg, Counted(p), [ch], 0, Track(OpenMarks(p.state), []));
        (match s.ctl
         case Next => Running(s.p, Extend(log, s.t.calls + Leftovers([ch], s.t.marks, 1)))
         case Exit => Exited(s.p, Extend(log, s.t.calls))
         case Stop(e) => Failed(e)
         case Again => Failed(AssertionFailed))
    case _ => r
  }

  function FeedAll(cfg: Config, r: Run, data: seq<Octet>): Run {
    if data == [] then r else Feed(cfg, FeedAll(cfg, r, data[..|data|-1]), data[|data|-1])
  }

  lemma {:induction false} FeedConcat(cfg: Config, r: Run, a: seq<Octet>, b: seq<Octet>)
    ensures FeedAll(cfg, r, a + b) == FeedAll(cfg, FeedAll(cfg, r, a), b)
  {
    hide Feed;
    if b == [] {
      assert a + b == a;
    } else {
      var n := |b| - 1;
      FeedConcat(cfg, r, a, b[..n]);
      assert (a + b)[..|a + b|-1] == a + b[..n];
    }
  }

  lemma FeedPrefix(cfg: Config, r: Run, data: seq<Octet>, i: nat)
    requires i < |data|
    ensures FeedAll(cfg, r, data[..i+1]) == Feed(cfg, FeedAll(cfg, r, data[..i]), data[i])
  {
    assert data[..i+1][..i] == data[..i];
  }

  /** A run that has failed or left the protocol stays where it is. */
  lemma {:induction false} FeedStuck(cfg: Config, r: Run, data: seq<Octet>)
    requires !r.Running?
    ensures FeedAll(cfg, r, data) == r
  {
    if data != [] {
      FeedStuck(cfg, r, data[..|data|-1]);
    }
  }

  lemma FeedStuckFrom(cfg: Config, r: Run, data: seq<Octet>, i: nat)
    requires i <= |data| && !FeedAll(cfg, r, data[..i]).Running?
    ensures FeedAll(cfg, r, data) == FeedAll(cfg, r, data[..i])
  {
    assert data == data[..i] + data[i..];
    FeedConcat(cfg, r, data[..i], data[i..]);
    FeedStuck(cfg, FeedAll(cfg, r, data[..i]), data[i..]);
  }

  // ----- a byte inside a larger buffer does what it does alone -----

  /** The marks a buffer may have at position `i`, given what the state says. */
  predicate MarksFit(g: Gate, marks: map<Kind, nat>, i: nat) {
    (match g
     case Shut => marks == map[]
     case Lag => marks.Keys <= {BodySpan}
     case Open(k) => marks.Keys == {k}) &&
    forall k :: k in marks ==> marks[k] <= i
  }

  /** What an application that started with `log` has been told, counting marked bytes up to `end` as told. */
  function Story(log: seq<Call>, data: seq<Octet>, t: Track, end: nat): seq<Call> {
    Extend(log, t.calls + Leftovers(data, t.marks, end))
  }

  lemma LeftoversOpen(data: seq<Octet>, marks: map<Kind, nat>, k: Kind, end: nat)
    requires marks.Keys == {k} && marks[k] <= end <= |data|
    ensures Leftovers(data, marks, end) == [Data(k, data[marks[k]..end])]
  {
  }

  lemma StoryShut(log: seq<Call>, data: seq<Octet>, t: Track, end: nat)
    requires t.marks == map[]
    ensures Story(log, data, t, end) == Extend(log, t.calls)
  {
    assert t.calls + Leftovers(data, t.marks, end) == t.calls;
  }

  lemma StoryOpen(log: seq<Call>, data: seq<Octet>, t: Track, k: Kind, end: nat)
    requires t.marks.Keys == {k} && t.marks[k] <= end <= |data|
    ensures Story(log, data, t, end) == Join(Extend(log, t.calls), Data(k, data[t.marks[k]..end]))
    ensures EndsIn(Story(log, data, t, end), k)
  {
    LeftoversOpen(data, t.marks, k, end);
    ExtendOne(log, t.calls, Data(k, data[t.marks[k]..end]));
    JoinData(Extend(log, t.calls), k, data[t.marks[k]..end], []);
  }

  lemma SliceGrows(data: seq<Octet>, m: nat, i: nat)
    requires m <= i < |data|
    ensures data[m..i+1] == data[m..i] + [data[i]]
  {
  }

  /** A marked byte that is passed over is told. */
  lemma StoryGrows(log: seq<Call>, data: seq<Octet>, t: Track, k: Kind, i: nat)
    requires t.marks.Keys == {k} && t.marks[k] <= i < |data|
    ensures Story(log, data, t, i + 1) == Join(Story(log, data, t, i), Data(k, [data[i]]))
  {
    SliceGrows(data, t.marks[k], i);
    StoryOpen(log, data, t, k, i);
    StoryOpen(log, data, t, k, i + 1);
    JoinData(Extend(log, t.calls), k, data[t.marks[k]..i], [data[i]]);
  }

  /** Setting a mark tells nothing new, except that the span has begun. */
  lemma MarkStory(log: seq<Call>, data: seq<Octet>, t: Track, k: Kind, i: nat)
    requires i < |data| && t.marks.Keys <= {k} && (k in t.marks ==> t.marks[k] <= i)
    ensures var u := Do(Mark(k), data, i, t);
            u.marks.Keys == {k} && u.marks[k] <= i &&
            Story(log, data, u, i) == Join(Story(log, data, t, i), Data(k, []))
  {
    var u := Do(Mark(k), data, i, t);
    if k in t.marks {
      StoryOpen(log, data, t, k, i);
      JoinNothing(Story(log, data, t, i), k);
    } else {
      assert t.marks == map[];
      StoryShut(log, data, t, i);
      StoryOpen(log, data, u, k, i);
      assert data[i..i] == [];
    }
  }

  /** Making the callback for a span at `end` clears its mark and tells what was pending. */
  lemma FlushTells(log: seq<Call>, data: seq<Octet>, t: Track, k: Kind, end: nat, i: nat)
    requires t.marks.Keys <= {k} && end <= |data| && (k in t.marks ==> t.marks[k] <= end)
    ensures var u := Track(t.marks - {k}, t.calls + Span(data, t.marks, k, end));
            u.marks == map[] && Story(log, data, u, i) == Story(log, data, t, end)
  {
    var u := Track(t.marks - {k}, t.calls + Span(data, t.marks, k, end));
    assert u.marks.Keys == {};
    StoryShut(log, data, u, i);
    if k in t.marks {
      StoryOpen(log, data, t, k, end);
      ExtendOne(log, t.calls, Data(k, data[t.marks[k]..end]));
    } else {
      assert t.marks == map[];
      StoryShut(log, data, t, end);
      assert u.calls == t.calls;
    }
  }

  lemma FlushInclStory(log: seq<Call>, data: seq<Octet>, t: Track, k: Kind, i: nat)
    requires i < |data| && t.marks.Keys == {k} && t.marks[k] <= i
    ensures var u := Do(FlushIncl(k), data, i, t);
            u.marks == map[] && Story(log, data, u, i) == Join(Story(log, data, t, i), Data(k, [data[i]]))
  {
    hide Story, Leftovers, Extend, Join;
    StoryGrows(log, data, t, k, i);
    FlushTells(log, data, t, k, i + 1, i);
  }

  lemma NotifyStory(log: seq<Call>, data: seq<Octet>, t: Track, n: Notice, i: nat)
    requires t.marks == map[]
    ensures var u := Do(Notify(n), data, i, t);
            u.marks == map[] && Story(log, data, u, i) == Join(Story(log, data, t, i), Note(n))
  {
    StoryShut(log, data, t, i);
    StoryShut(log, data, Do(Notify(n), data, i, t), i);
    ExtendOne(log, t.calls, Note(n));
  }

  /** Two trackings of the same byte, one at position `i` of a buffer and one alone, that tell the same story. */
  predicate Agree(g: Gate, data: seq<Octet>, i: nat, t: Track, log: seq<Call>, u: Track, base: seq<Call>)
    requires i < |data|
  {
    MarksFit(g, t.marks, i) && MarksFit(if g.Lag? then Shut else g, u.marks, 0) &&
    Story(log, data, t, i) == Story(base, [data[i]], u, 0)
  }

  lemma DoAgrees(g: Gate, a: Act, data: seq<Octet>, i: nat, t: Track, log: seq<Call>, u: Track, base: seq<Call>)
    requires i < |data| && Agree(g, data, i, t, log, u, base) && Orderly(g, a)
    ensures Agree(After(g, a), data, i, Do(a, data, i, t), log, Do(a, [data[i]], 0, u), base)
  {
    var one := [data[i]];
    match a
    case Mark(k) =>
      MarkStory(log, data, t, k, i);
      MarkStory(base, one, u, k, 0);
    case Flush(k) =>
      FlushTells(log, data, t, k, i, i);
      FlushTells(base, one, u, k, 0, 0);
    case FlushIncl(k) =>
      FlushInclStory(log, data, t, k, i);
      FlushInclStory(base, one, u, k, 0);
    case Notify(n) =>
      NotifyStory(log, data, t, n, i);
      NotifyStory(base, one, u, n, 0);
  }

  lemma DoAllAgrees(g: Gate, acts: Acts, data: seq<Octet>, i: nat, t: Track, log: seq<Call>, u: Track,
                    base: seq<Call>)
    requires i < |data| && Agree(g, data, i, t, log, u, base) && AllOrderly(g, acts)
    ensures Agree(AfterAll(g, acts), data, i, DoAll(acts, data, i, t), log, DoAll(acts, [data[i]], 0, u), base)
  {
    match acts
    case Quiet =>
    case One(a) => DoAgrees(g, a, data, i, t, log, u, base);
    case Two(a, b) =>
      DoAgrees(g, a, data, i, t, log, u, base);
      DoAgrees(After(g, a), b, data, i, Do(a, data, i, t), log, Do(a, [data[i]], 0, u), base);
  }

  /** What the two ways of treating one byte have in common when it is done. */
  predicate SameOutcome(data: seq<Octet>, i: nat, s: Pass, log: seq<Call>, w: Pass, base: seq<Call>)
    requires i < |data|
  {
    s.p == w.p && s.ctl == w.ctl &&
    (match s.ctl
     case Next => MarksFit(GateOf(s.p.state), s.t.marks, i + 1) &&
                  Story(log, data, s.t, i + 1) == Story(base, [data[i]], w.t, 1)
     case Exit => s.t.marks == map[] && Extend(log, s.t.calls) == Extend(base, w.t.calls)
     case Stop(_) => |Leftovers(data, s.t.marks, i)| <= 1 && Story(log, data, s.t, i) == Story(base, [data[i]], w.t, 0)
     case Again => true)
  }

  lemma NextAgreesOpen(k: Kind, data: seq<Octet>, i: nat, t: Track, log: seq<Call>, u: Track, base: seq<Call>)
    requires i < |data| && Agree(Open(k), data, i, t, log, u, base)
    ensures Story(log, data, t, i + 1) == Story(base, [data[i]], u, 1)
  {
    hide Story, Leftovers, Extend, Join;
    StoryGrows(log, data, t, k, i);
    StoryGrows(base, [data[i]], u, k, 0);
  }

  lemma NextAgreesShut(data: seq<Octet>, i: nat, t: Track, log: seq<Call>, u: Track, base: seq<Call>)
    requires i < |data| && Agree(Shut, data, i, t, log, u, base)
    ensures Story(log, data, t, i + 1) == Story(base, [data[i]], u, 1)
  {
    hide Story, Leftovers, Extend, Join;
    StoryShut(log, data, t, i);
    StoryShut(log, data, t, i + 1);
    StoryShut(base, [data[i]], u, 0);
    StoryShut(base, [data[i]], u, 1);
  }

  lemma SettledAgrees(g: Gate, m: Move, data: seq<Octet>, i: nat, t: Track, log: seq<Call>, u: Track, base: seq<Call>)
    requires i < |data| && Agree(g, data, i, t, log, u, base) && Settles(g, m) && !m.ctl.Stop?
    ensures m.ctl.Again? ==> Agree(GateOf(m.p.state), data, i, t, log, u, base)
    ensures !m.ctl.Again? ==> SameOutcome(data, i, Pass(m.p, t, m.ctl), log, Pass(m.p, u, m.ctl), base)
  {
    if m.ctl.Next? {
      if g.Open? {
        NextAgreesOpen(g.k, data, i, t, log, u, base);
      } else {
        NextAgreesShut(data, i, t, log, u, base);
      }
    } else if m.ctl.Exit? {
      StoryShut(log, data, t, i);
      StoryShut(base, [data[i]], u, 0);
    }
  }

  lemma PassAgrees(p: Parser, m: Move, data: seq<Octet>, i: nat, t: Track, log: seq<Call>, u: Track,
                   base: seq<Call>)
    requires i < |data| && Agree(GateOf(p.state), data, i, t, log, u, base) && Sound(p, m) && !m.ctl.Stop?
    ensures var t', u' := DoAll(m.acts, data, i, t), DoAll(m.acts, [data[i]], 0, u);
            (m.ctl.Again? ==> Agree(GateOf(m.p.state), data, i, t', log, u', base)) &&
            (!m.ctl.Again? ==> SameOutcome(data, i, Pass(m.p, t', m.ctl), log, Pass(m.p, u', m.ctl), base))
  {
    DoAllAgrees(GateOf(p.state), m.acts, data, i, t, log, u, base);
    SettledAgrees(AfterAll(GateOf(p.state), m.acts), m, data, i, DoAll(m.acts, data, i, t), log,
                  DoAll(m.acts, [data[i]], 0, u), base);
  }

  lemma {:induction false} DriveAgrees(cfg: Config, p: Parser, data: seq<Octet>, i: nat, t: Track, log: seq<Call>,
                                       u: Track, base: seq<Call>)
    requires i < |data| && Agree(GateOf(p.state), data, i, t, log, u, base)
    ensures SameOutcome(data, i, Drive(cfg, p, data, i, t), log, Drive(cfg, p, [data[i]], 0, u), base)
    decreases Rank(p.state)
  {
    var m := Transition(cfg, p, data[i]);
    TransitionSound(cfg, p, data[i]);
    if m.ctl.Stop? {
      FewLeftovers(GateOf(p.state), data, t.marks, i);
    } else {
      PassAgrees(p, m, data, i, t, log, u, base);
      if m.ctl.Again? {
        DriveAgrees(cfg, m.p, data, i, DoAll(m.acts, data, i, t), log, DoAll(m.acts, [data[i]], 0, u), base);
      }
    }
    hide Transition, Story, Extend, Leftovers, Agree, DoAll;
  }

  /** At most one span is ever open. */
  lemma FewLeftovers(g: Gate, data: seq<Octet>, marks: map<Kind, nat>, end: nat)
    requires MarksFit(g, marks, end) && end <= |data|
    ensures |Leftovers(data, marks, end)| <= 1
  {
    if g.Open? {
      LeftoversOpen(data, marks, g.k, end);
    } else if BodySpan in marks {
      assert marks.Keys == {BodySpan};
      LeftoversOpen(data, marks, BodySpan, end);
    }
  }
}
