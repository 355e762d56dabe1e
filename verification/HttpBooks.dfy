/**
 What an application could keep in its books from the callbacks of the parser alone: how much body it has been promised
 and given, what the headers of the message have said about its length, and the chunk sizes it has been told.
 */
module HttpBooks {
  import opened HttpSyntax
  import opened HttpMachine
  import opened HttpFeed
  import opened HttpNames
  import opened Wrappers

  // ----- numbers in the input -----

  predicate Decimals(s: seq<Octet>) { forall i :: 0 <= i < |s| ==> IsNum(s[i]) }

  /** The value of the decimal digits a text begins with. */
  function Number(s: seq<Octet>): nat {
    if s == [] then 0
    else
      var (front, ch) := (s[..|s|-1], s[|s|-1]);
      if Decimals(front) && IsNum(ch) then Number(front) * 10 + Digit(ch) else Number(front)
  }

  predicate HexDigits(s: seq<Octet>) { forall i :: 0 <= i < |s| ==> Unhex(s[i]) != -1 }

  /** The value of the hexadecimal digits a line begins with. */
  function Size(line: seq<Octet>): nat {
    if line == [] then 0
    else
      var (front, ch) := (line[..|line|-1], line[|line|-1]);
      if HexDigits(front) && Unhex(ch) != -1 then Size(front) * 16 + Unhex(ch) else Size(front)
  }

  lemma NumberGrows(s: seq<Octet>, ch: Octet)
    ensures Number(s + [ch]) == if Decimals(s) && IsNum(ch) then Number(s) * 10 + Digit(ch) else Number(s)
    ensures Decimals(s + [ch]) <==> Decimals(s) && IsNum(ch)
  {
    var t := s + [ch];
    assert t[..|t|-1] == s;
    assert forall i :: 0 <= i < |s| ==> t[i] == s[i];
  }

  lemma SizeGrows(line: seq<Octet>, ch: Octet)
    ensures Size(line + [ch]) == if HexDigits(line) && Unhex(ch) != -1 then Size(line) * 16 + Unhex(ch) else Size(line)
    ensures HexDigits(line + [ch]) <==> HexDigits(line) && Unhex(ch) != -1
  {
    var t := line + [ch];
    assert t[..|t|-1] == line;
    assert forall i :: 0 <= i < |line| ==> t[i] == line[i];
  }

  // ----- the body -----

  /** How a message's body is delimited; `Refused` if the message is an error. */
  datatype Plan = NoBody | Sized(n: Uint64) | Chunks | UntilEof | Refused

  /** What the parser takes the head of a message to say about its body, if the application has not declined it. */
  function Framing(h: Head): Plan {
    if h.upgrade && (h.verb.CONNECT? || (!h.flags.chunked && (h.contentLength == 0 || h.contentLength == ULLONG_MAX)))
    then NoBody
    else if h.flags.chunked then Chunks
    else if h.usesTe then UntilEof
    else if h.contentLength != ULLONG_MAX then Sized(h.contentLength)
    else if h.ptype.Request? || h.status / 100 == 1 || h.status == 204 || h.status == 304 then NoBody
    else UntilEof
  }

  /** Bytes promised so far, bytes received so far, and whether nothing has been out of order. */
  datatype Ledger = Ledger(plan: Plan, declared: nat, got: nat, sound: bool)

  predicate Balanced(l: Ledger) { l.plan.UntilEof? || l.got == l.declared }

  function TallyBody(cfg: Config, l: Ledger, c: Call): Ledger {
    match c
    case Data(k, bytes) =>
      if k.BodySpan? then
        var got := l.got + |bytes|;
        l.(got := got, sound := l.sound && (l.plan.UntilEof? || got <= l.declared))
      else l
    case Note(n) =>
      (match n
       case HeadersComplete(h) =>
         var plan := if cfg.answer(h).Proceed? then Framing(h) else NoBody;
         Ledger(plan, if plan.Sized? then plan.n else 0, 0, l.sound)
       case ChunkHeader(size) => l.(declared := l.declared + size, sound := l.sound && l.plan.Chunks? && Balanced(l))
       case ChunkComplete => l.(sound := l.sound && l.plan.Chunks? && Balanced(l))
       case MessageComplete => l.(sound := l.sound && Balanced(l))
       case MessageBegin => l)
  }

  // ----- the headers -----

  /**
   The header name told last (`inName` while its value has not begun), all that has been told in values of
   `Content-Length` since the message began, and whether every head has agreed with it.
   */
  datatype Headers = Headers(inName: bool, name: seq<Octet>, length: seq<Octet>, sound: bool)

  predicate NamesLength(name: seq<Octet>) { Tokens(name) && Lowered(name) == CONTENT_LENGTH }

  /** The head has the length that its `Content-Length` spells, and `ULLONG_MAX` if there was none. */
  predicate Matches(flag: bool, contentLength: nat, length: seq<Octet>) {
    if length == [] then !flag && contentLength == ULLONG_MAX
    else flag && contentLength == Number(length) < ULLONG_MAX
  }

  function TallyHead(h: Headers, c: Call): Headers {
    match c
    case Data(k, bytes) =>
      if k.FieldSpan? then h.(inName := true, name := if h.inName then h.name + bytes else bytes)
      else if k.ValueSpan? then
        h.(inName := false, length := if NamesLength(h.name) then h.length + bytes else h.length)
      else h
    case Note(n) =>
      if n.MessageBegin? then Headers(false, [], [], h.sound)
      else if n.HeadersComplete? then
        h.(sound := h.sound && Matches(n.head.flags.contentLength, n.head.contentLength, h.length))
      else h
  }

  // ----- all of it -----

  function TallySizes(sizes: seq<nat>, c: Call): seq<nat> {
    if c.Note? && c.notice.ChunkHeader? then sizes + [c.notice.size] else sizes
  }

  datatype Account = Account(body: Ledger, head: Headers, sizes: seq<nat>)

  function Tally(cfg: Config, a: Account, c: Call): Account {
    Account(TallyBody(cfg, a.body, c), TallyHead(a.head, c), TallySizes(a.sizes, c))
  }

  const BLANK := Account(Ledger(NoBody, 0, 0, true), Headers(false, [], [], true), [])

  /** The books after a whole log of callbacks. */
  function Books(cfg: Config, log: seq<Call>): Account {
    if log == [] then BLANK else Tally(cfg, Books(cfg, log[..|log|-1]), log[|log|-1])
  }

  lemma TallyJoins(cfg: Config, a: Account, k: Kind, x: seq<Octet>, y: seq<Octet>)
    ensures Tally(cfg, Tally(cfg, a, Data(k, x)), Data(k, y)) == Tally(cfg, a, Data(k, x + y))
  {
    assert a.head.name + x + y == a.head.name + (x + y);
    assert a.head.length + x + y == a.head.length + (x + y);
    hide NamesLength;
  }

  /** Joining pieces of a span makes no difference to the books. */
  lemma BooksJoin(cfg: Config, log: seq<Call>, c: Call)
    ensures Books(cfg, Join(log, c)) == Tally(cfg, Books(cfg, log), c)
  {
    hide Tally;
    var n := |log|;
    if c.Data? && n > 0 && log[n-1].Data? && log[n-1].kind == c.kind {
      assert Join(log, c)[..n-1] == log[..n-1];
      TallyJoins(cfg, Books(cfg, log[..n-1]), c.kind, log[n-1].bytes, c.bytes);
    } else {
      assert (log + [c])[..n] == log;
    }
  }

  // ----- one pass -----

  /** What a pass performs on the byte `ch` in a buffer of its own reaches an application as these calls. */
  function CallOf(a: Act, ch: Octet): Option<Call> {
    match a
    case Mark(k) => Some(Data(k, []))
    case Flush(_) => None
    case FlushIncl(k) => Some(Data(k, [ch]))
    case Notify(n) => Some(Note(n))
  }

  /** A byte that stays marked is told at the end of the buffer. */
  function LastCall(g: Gate, ch: Octet): Option<Call> { if g.Open? then Some(Data(g.k, [ch])) else None }

  function Maybe(cfg: Config, a: Account, c: Option<Call>): Account { if c.Some? then Tally(cfg, a, c.value) else a }

  function TallyActs(cfg: Config, a: Account, acts: Acts, ch: Octet): Account {
    match acts
    case Quiet => a
    case One(x) => Maybe(cfg, a, CallOf(x, ch))
    case Two(x, y) => Maybe(cfg, Maybe(cfg, a, CallOf(x, ch)), CallOf(y, ch))
  }

  function Closing(cfg: Config, a: Account, g: Gate, ch: Octet): Account { Maybe(cfg, a, LastCall(g, ch)) }

  // ----- one byte -----

  function Settled(g: Gate): Gate { if g.Lag? then Shut else g }

  /** What is performed on a byte reaches the books as `CallOf` says. */
  lemma ActBooks(cfg: Config, g: Gate, a: Act, log: seq<Call>, ch: Octet, t: Track)
    requires MarksFit(Settled(g), t.marks, 0) && Orderly(g, a)
    ensures var u := Do(a, [ch], 0, t);
            MarksFit(Settled(After(g, a)), u.marks, 0) &&
            Books(cfg, Story(log, [ch], u, 0)) == Maybe(cfg, Books(cfg, Story(log, [ch], t, 0)), CallOf(a, ch))
  {
    hide Story, Books, Join, Tally;
    var s := Story(log, [ch], t, 0);
    match a
    case Mark(k) =>
      MarkStory(log, [ch], t, k, 0);
      BooksJoin(cfg, s, Data(k, []));
    case Flush(k) => FlushTells(log, [ch], t, k, 0, 0);
    case FlushIncl(k) =>
      FlushInclStory(log, [ch], t, k, 0);
      BooksJoin(cfg, s, Data(k, [ch]));
    case Notify(n) =>
      NotifyStory(log, [ch], t, n, 0);
      BooksJoin(cfg, s, Note(n));
  }

  lemma ActsBooks(cfg: Config, g: Gate, acts: Acts, log: seq<Call>, ch: Octet, t: Track)
    requires MarksFit(Settled(g), t.marks, 0) && AllOrderly(g, acts)
    ensures var u := DoAll(acts, [ch], 0, t);
            MarksFit(Settled(AfterAll(g, acts)), u.marks, 0) &&
            Books(cfg, Story(log, [ch], u, 0)) == TallyActs(cfg, Books(cfg, Story(log, [ch], t, 0)), acts, ch)
  {
    hide Story, Books, Do, Maybe, CallOf;
    match acts
    case Quiet =>
    case One(a) => ActBooks(cfg, g, a, log, ch, t);
    case Two(a, b) =>
      ActBooks(cfg, g, a, log, ch, t);
      ActBooks(cfg, After(g, a), b, log, ch, Do(a, [ch], 0, t));
  }

  /** At the end of the byte a mark that is still set is told. */
  lemma CloseBooks(cfg: Config, g: Gate, log: seq<Call>, ch: Octet, t: Track)
    requires MarksFit(Settled(g), t.marks, 0)
    ensures Books(cfg, Story(log, [ch], t, 1)) == Closing(cfg, Books(cfg, Story(log, [ch], t, 0)), g, ch)
  {
    hide Story, Books, Join, Tally;
    if g.Open? {
      StoryGrows(log, [ch], t, g.k, 0);
      BooksJoin(cfg, Story(log, [ch], t, 0), Data(g.k, [ch]));
    } else {
      StoryShut(log, [ch], t, 0);
      StoryShut(log, [ch], t, 1);
    }
  }

  /** A span that a buffer begins in the middle of is marked before anything else happens. */
  lemma OpenBooks(cfg: Config, s: State, base: seq<Call>, ch: Octet)
    ensures MarksFit(Settled(GateOf(s)), OpenMarks(s), 0)
    ensures var g, a := GateOf(s), Books(cfg, base);
            Books(cfg, Story(base, [ch], Track(OpenMarks(s), []), 0)) ==
            if g.Open? then Maybe(cfg, a, Some(Data(g.k, []))) else a
  {
    hide Story, Books, Join, Tally;
    var t := Track(OpenMarks(s), []);
    assert Extend(base, []) == base;
    if GateOf(s).Open? {
      StoryOpen(base, [ch], t, GateOf(s).k, 0);
      assert [ch][0..0] == [];
      BooksJoin(cfg, base, Data(GateOf(s).k, []));
    } else {
      assert OpenMarks(s) == map[];
      StoryShut(base, [ch], t, 0);
    }
  }
}
