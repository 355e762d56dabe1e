/**
 Message framing over whole runs (sections 3.3.2, 3.3.3 and 4.1 of RFC 7230): how much body the headers and size lines
 of the input promise, how much is handed to `on_body`, and that the two agree whenever a message or a chunk is
 complete.
 */
module HttpFraming {
  import opened HttpSyntax
  import opened HttpMachine
  import opened HttpFeed
  import opened HttpHealth
  import opened HttpNames
  import opened Wrappers
  import opened HttpBooks
  import opened HttpLengths

  // ----- the invariant -----

  /** `content_length` is the number on the size line that has been read so far as `line`. */
  predicate SizeOk(p: Parser, line: seq<Octet>) {
    match p.state
    case ChunkSizeStart => line == []
    case ChunkSize => line != [] && HexDigits(line) && p.contentLength == Size(line)
    case ChunkParameters => line != [] && !HexDigits(line) && p.contentLength == Size(line)
    case ChunkSizeAlmostDone => p.contentLength == Size(line)
    case _ => true
  }

  /** The size line, behind one more byte that has led to state `s`. */
  function NextLine(s: State, line: seq<Octet>, ch: Octet): seq<Octet> {
    if s.ChunkSizeStart? then [] else line + [ch]
  }

  /** What the parser still owes agrees with the books. */
  predicate BodyOk(p: Parser, l: Ledger) {
    l.sound &&
    match p.state
    case Dead => true
    case StartReqOrRes => true
    case StartRes => true
    case StartReq => true
    case HeadersDone =>
      l == Ledger(if p.flags.skipBody then NoBody else Framing(HeadOf(p)), l.declared, 0, true) &&
      l.declared == if l.plan.Sized? then l.plan.n else 0
    case BodyIdentity => l.plan.Sized? && l.got + p.contentLength == l.declared
    case BodyIdentityEof => l.plan.UntilEof?
    case MessageDone => !l.plan.UntilEof? && Balanced(l)
    case ChunkData => InChunks(p, l) && l.got + p.contentLength == l.declared
    case ChunkSizeStart => InChunks(p, l) && Balanced(l)
    case ChunkSize => InChunks(p, l) && Balanced(l)
    case ChunkParameters => InChunks(p, l) && Balanced(l)
    case ChunkSizeAlmostDone => InChunks(p, l) && Balanced(l)
    case ChunkDataAlmostDone => InChunks(p, l) && Balanced(l)
    case ChunkDataDone => InChunks(p, l) && Balanced(l)
    case _ => !p.flags.skipBody && (p.flags.trailing ==> InChunks(p, l) && Balanced(l))
  }

  predicate InChunks(p: Parser, l: Ledger) { l.plan.Chunks? && !p.flags.skipBody }

  // ----- one pass -----

  function BodyAfter(cfg: Config, l: Ledger, c: Option<Call>): Ledger {
    if c.Some? then TallyBody(cfg, l, c.value) else l
  }

  function BodyActs(cfg: Config, l: Ledger, acts: Acts, ch: Octet): Ledger {
    match acts
    case Quiet => l
    case One(x) => BodyAfter(cfg, l, CallOf(x, ch))
    case Two(x, y) => BodyAfter(cfg, BodyAfter(cfg, l, CallOf(x, ch)), CallOf(y, ch))
  }

  /** A pass that keeps the invariant. */
  predicate Frames(cfg: Config, p: Parser, m: Move, l: Ledger, line: seq<Octet>, ch: Octet) {
    var t := BodyActs(cfg, l, m.acts, ch);
    match m.ctl
    case Next => BodyOk(m.p, BodyAfter(cfg, t, LastCall(AfterAll(GateOf(p.state), m.acts), ch))) &&
                 SizeOk(m.p, NextLine(m.p.state, line, ch))
    case Again => BodyOk(m.p, t) && SizeOk(m.p, line)
    case Exit => t.sound
    case Stop(_) => true
  }

  /** States that owe no body and hold no size. */
  predicate Plain(s: State) {
    match s
    case Dead => false case StartReqOrRes => false case StartRes => false case StartReq => false
    case HeadersDone => false case BodyIdentity => false case BodyIdentityEof => false case MessageDone => false
    case ChunkData => false case ChunkSizeStart => false case ChunkSize => false case ChunkParameters => false
    case ChunkSizeAlmostDone => false case ChunkDataAlmostDone => false case ChunkDataDone => false
    case _ => true
  }

  predicate Starting(s: State) { s.Dead? || s.StartReqOrRes? || s.StartRes? || s.StartReq? }

  predicate Harmless(a: Act) {
    ((a.Mark? || a.Flush?) && !a.k.BodySpan?) || (a.Notify? && a.n.MessageBegin?)
  }

  /** Nothing performed that concerns a body. */
  predicate AllHarmless(acts: Acts) {
    match acts
    case Quiet => true
    case One(a) => Harmless(a)
    case Two(a, b) => Harmless(a) && Harmless(b)
  }

  /** A pass among plain states that does not concern a body. */
  predicate Sober(p: Parser, m: Move) {
    !m.ctl.Stop? ==>
      !m.ctl.Exit? && m.p.flags.skipBody == p.flags.skipBody && m.p.flags.trailing == p.flags.trailing &&
      Plain(m.p.state) && AllHarmless(m.acts)
  }

  lemma HarmlessKeeps(cfg: Config, l: Ledger, s: State, acts: Acts, ch: Octet)
    requires AllHarmless(acts) && GateOf(s) != Open(BodySpan)
    ensures BodyActs(cfg, l, acts, ch) == l && BodyAfter(cfg, l, LastCall(AfterAll(GateOf(s), acts), ch)) == l
  {
    hide GateOf;
  }

  lemma PlainOk(p: Parser, l: Ledger, line: seq<Octet>)
    requires Plain(p.state)
    ensures SizeOk(p, line)
    ensures BodyOk(p, l) <==>
              l.sound && !p.flags.skipBody && (p.flags.trailing ==> l.plan.Chunks? && Balanced(l))
  {
  }

  lemma StartingOk(p: Parser, l: Ledger, line: seq<Octet>)
    requires Starting(p.state)
    ensures SizeOk(p, line) && (BodyOk(p, l) <==> l.sound)
  {
  }

  lemma SoberFrames(cfg: Config, p: Parser, m: Move, l: Ledger, line: seq<Octet>, ch: Octet)
    requires Plain(p.state) && Sober(p, m) && BodyOk(p, l)
    ensures Frames(cfg, p, m, l, line, ch)
  {
    hide BodyOk, SizeOk, Plain, AllHarmless, BodyActs, BodyAfter;
    PlainOk(p, l, line);
    if !m.ctl.Stop? {
      HarmlessKeeps(cfg, l, p.state, m.acts, ch);
      PlainOk(m.p, l, line);
      PlainOk(m.p, l, NextLine(m.p.state, line, ch));
    }
  }

  // ----- passes before the body -----

  lemma BarePlain(s: State)
    requires Bare(s)
    ensures Plain(s)
  {
  }

  lemma DullSober(p: Parser, m: Move)
    requires Bare(p.state) && Dull(p, m)
    ensures Plain(p.state) && Sober(p, m)
  {
    BarePlain(p.state);
    if !m.ctl.Stop? {
      BarePlain(m.p.state);
    }
    hide Bare, Plain;
  }

  lemma StartStates(p: Parser, ch: Octet)
    requires GroupOf(p.state).StartG? && !p.state.ResOrRespH?
    ensures var m := OnStart(p, ch);
            Starting(p.state) &&
            (m.ctl.Stop? ||
             (!m.ctl.Exit? && AllHarmless(m.acts) &&
              (Starting(m.p.state) || (Plain(m.p.state) && m.p.flags == NO_FLAGS))))
  {
  }

  lemma StartFrames(cfg: Config, p: Parser, ch: Octet, l: Ledger, line: seq<Octet>)
    requires GroupOf(p.state).StartG? && BodyOk(p, l)
    ensures Frames(cfg, p, OnStart(p, ch), l, line, ch)
  {
    hide BodyOk, SizeOk, Plain, AllHarmless, BodyActs, BodyAfter, OnStart, Bare;
    var m := OnStart(p, ch);
    if p.state.ResOrRespH? {
      FirstByteDull(p, ch);
      DullSober(p, m);
      SoberFrames(cfg, p, m, l, line, ch);
    } else {
      StartStates(p, ch);
      if !m.ctl.Stop? {
        StartingOk(p, l, line);
        HarmlessKeeps(cfg, l, p.state, m.acts, ch);
        var next := NextLine(m.p.state, line, ch);
        if Starting(m.p.state) {
          StartingOk(m.p, l, line);
          StartingOk(m.p, l, next);
        } else {
          PlainOk(m.p, l, line);
          PlainOk(m.p, l, next);
        }
      }
    }
  }

  lemma FieldSober(p: Parser, ch: Octet)
    requires GroupOf(p.state).FieldG?
    ensures Plain(p.state) && Sober(p, OnHeaderField(p, ch))
  {
    hide FieldByte, IsToken;
  }

  lemma ValueSober(cfg: Config, p: Parser, ch: Octet)
    requires GroupOf(p.state).ValueG? && Ready(p)
    ensures Plain(p.state) && Sober(p, OnHeaderValue(cfg, p, ch))
  {
    hide OnHeaderValue, OnValueStart, ValueByte, IsValueState;
    match p.state
    case HeaderValue =>
      ValueBytePass(p, ch);
      ValueEndPass(cfg, p, ch);
    case HeaderValueStart =>
      ValueStartMark(p, ch);
      ValueStartDispatch(cfg, p, ch);
    case HeaderValueDiscardWs =>
      ValueStartMark(p, ch);
      DiscardPass(cfg, p, ch);
    case HeaderAlmostDone => LineFoldPass(cfg, p, ch);
    case HeaderValueLws => LineFoldPass(cfg, p, ch);
    case _ => EmptyValuePass(cfg, p, ch);
  }

  // ----- the end of the headers -----

  /** Whatever the application answers, the plan follows from the head or is to have no body. */
  lemma AnswerFrames(cfg: Config, p: Parser, ch: Octet)
    requires p.state.HeadersAlmostDone? && !p.flags.trailing && !p.flags.skipBody
    ensures var m := OnHeadersEnd(cfg, p, ch);
            !m.ctl.Stop? ==>
              m.ctl.Again? && m.p.state.HeadersDone? && m.acts.One? && m.acts.a.Notify? &&
              m.acts.a.n.HeadersComplete? &&
              var h := m.acts.a.n.head;
              if cfg.answer(h).Proceed? then HeadOf(m.p) == h && !m.p.flags.skipBody else m.p.flags.skipBody
  {
  }

  lemma TrailerFrames(cfg: Config, p: Parser, ch: Octet)
    requires p.state.HeadersAlmostDone? && p.flags.trailing
    ensures var m := OnHeadersEnd(cfg, p, ch);
            !m.ctl.Stop? ==> m == Move(p.(state := MessageDone), One(Notify(ChunkComplete)), Again)
  {
  }

  lemma HeadersAlmostDoneFrames(cfg: Config, p: Parser, ch: Octet, l: Ledger, line: seq<Octet>)
    requires p.state.HeadersAlmostDone? && BodyOk(p, l) && SizeOk(p, line)
    ensures Frames(cfg, p, OnHeadersEnd(cfg, p, ch), l, line, ch)
  {
    hide OnHeadersEnd, Framing;
    if p.flags.trailing {
      TrailerFrames(cfg, p, ch);
    } else {
      AnswerFrames(cfg, p, ch);
    }
  }

  function PlanOf(p: Parser): Plan { if p.flags.skipBody then NoBody else Framing(HeadOf(p)) }

  /** What the parser does at the end of the headers is what it takes the head of the message to say. */
  lemma HeadersDonePlan(cfg: Config, p: Parser, ch: Octet)
    requires p.state.HeadersDone?
    ensures var m := OnHeadersEnd(cfg, p, ch);
            m.ctl.Stop? ||
            (m.acts == One(Notify(MessageComplete)) && !m.ctl.Again? && Starting(m.p.state) &&
             (PlanOf(p).NoBody? || PlanOf(p) == Sized(0))) ||
            (m.acts == Quiet && m.ctl.Next? && m.p.contentLength == p.contentLength && m.p.flags == p.flags &&
             ch == LF &&
             ((m.p.state.ChunkSizeStart? && PlanOf(p).Chunks? && !p.flags.skipBody) ||
              (m.p.state.BodyIdentity? && PlanOf(p) == Sized(p.contentLength)) ||
              (m.p.state.BodyIdentityEof? && PlanOf(p).UntilEof?)))
  {
    hide NewMessage;
    NewMessageStarts(p.(nread := 0));
  }

  lemma HeadersDoneBooks(p: Parser, l: Ledger)
    requires p.state.HeadersDone? && BodyOk(p, l)
    ensures l.sound && l.plan == PlanOf(p) && l.got == 0 && l.declared == if l.plan.Sized? then l.plan.n else 0
  {
    hide Framing;
  }

  lemma MessageOver(cfg: Config, p: Parser, m: Move, l: Ledger, line: seq<Octet>, ch: Octet)
    requires m.acts == One(Notify(MessageComplete)) && !m.ctl.Again? && Starting(m.p.state) && l.sound && Balanced(l)
    requires GateOf(p.state).Shut?
    ensures Frames(cfg, p, m, l, line, ch)
  {
    StartingOk(m.p, l, NextLine(m.p.state, line, ch));
    hide BodyOk, SizeOk, NextLine, Starting, GateOf;
  }

  lemma BodyBegins(cfg: Config, p: Parser, m: Move, l: Ledger, line: seq<Octet>, ch: Octet)
    requires m.acts == Quiet && m.ctl.Next? && GateOf(p.state).Shut? && l.sound && l.got == 0
    requires (m.p.state.ChunkSizeStart? && l.plan.Chunks? && l.declared == 0 && !m.p.flags.skipBody) ||
             (m.p.state.BodyIdentity? && l.plan.Sized? && l.declared == m.p.contentLength) ||
             (m.p.state.BodyIdentityEof? && l.plan.UntilEof?)
    ensures Frames(cfg, p, m, l, line, ch)
  {
    hide GateOf;
  }

  lemma HeadersDoneFrames(cfg: Config, p: Parser, ch: Octet, l: Ledger, line: seq<Octet>)
    requires p.state.HeadersDone? && BodyOk(p, l)
    ensures Frames(cfg, p, OnHeadersEnd(cfg, p, ch), l, line, ch)
  {
    HeadersDonePlan(cfg, p, ch);
    HeadersDoneBooks(p, l);
    assert GateOf(p.state).Shut?;
    hide OnHeadersEnd, PlanOf, BodyOk, GateOf;
    var m := OnHeadersEnd(cfg, p, ch);
    if !m.ctl.Stop? {
      if m.acts == Quiet {
        BodyBegins(cfg, p, m, l, line, ch);
      } else {
        MessageOver(cfg, p, m, l, line, ch);
      }
    }
  }

  lemma NewMessageStarts(p: Parser)
    ensures Starting(NewMessage(p))
  {
  }

  // ----- the body -----

  lemma SizedBodyFrames(cfg: Config, p: Parser, ch: Octet, l: Ledger, line: seq<Octet>)
    requires p.state.BodyIdentity? && BodyOk(p, l)
    ensures Frames(cfg, p, OnBody(p, ch), l, line, ch)
  {
    hide NewMessage;
  }

  lemma RestOfBodyFrames(cfg: Config, p: Parser, ch: Octet, l: Ledger, line: seq<Octet>)
    requires (p.state.BodyIdentityEof? || p.state.MessageDone?) && BodyOk(p, l)
    ensures Frames(cfg, p, OnBody(p, ch), l, line, ch)
  {
    NewMessageStarts(p);
    hide NewMessage;
  }

  lemma BodyFrames(cfg: Config, p: Parser, ch: Octet, l: Ledger, line: seq<Octet>)
    requires GroupOf(p.state).BodyG? && BodyOk(p, l)
    ensures Frames(cfg, p, OnBody(p, ch), l, line, ch)
  {
    hide BodyOk, Frames, OnBody;
    if p.state.BodyIdentity? {
      SizedBodyFrames(cfg, p, ch, l, line);
    } else {
      RestOfBodyFrames(cfg, p, ch, l, line);
    }
  }

  lemma ChunkSizeStartFrames(cfg: Config, p: Parser, ch: Octet, l: Ledger, line: seq<Octet>)
    requires p.state.ChunkSizeStart? && BodyOk(p, l) && SizeOk(p, line)
    ensures Frames(cfg, p, OnChunkSize(p, ch), l, line, ch)
  {
    SizeGrows([], ch);
    hide Unhex, HexDigits, Size;
    assert HexDigits([]) && Size([]) == 0 by { SizeOfNothing(); }
  }

  lemma SizeOfNothing()
    ensures HexDigits([]) && Size([]) == 0
  {
  }

  lemma NotHex()
    ensures Unhex(CR) == -1 && Unhex(';') == -1 && Unhex(' ') == -1
  {
  }

  lemma ChunkSizeDigitFrames(cfg: Config, p: Parser, ch: Octet, l: Ledger, line: seq<Octet>)
    requires p.state.ChunkSize? && BodyOk(p, l) && SizeOk(p, line)
    ensures Frames(cfg, p, OnChunkSize(p, ch), l, line, ch)
  {
    SizeGrows(line, ch);
    NotHex();
    hide Unhex, HexDigits, Size;
  }

  lemma ChunkParametersFrames(cfg: Config, p: Parser, ch: Octet, l: Ledger, line: seq<Octet>)
    requires p.state.ChunkParameters? && BodyOk(p, l) && SizeOk(p, line)
    ensures Frames(cfg, p, OnChunkSize(p, ch), l, line, ch)
  {
    SizeGrows(line, ch);
    hide Unhex, HexDigits, Size;
  }

  lemma ChunkSizeEndFrames(cfg: Config, p: Parser, ch: Octet, l: Ledger, line: seq<Octet>)
    requires p.state.ChunkSizeAlmostDone? && BodyOk(p, l) && SizeOk(p, line)
    ensures Frames(cfg, p, OnChunkSize(p, ch), l, line, ch)
  {
    hide Unhex, Size, HexDigits;
  }

  lemma ChunkSizeFrames(cfg: Config, p: Parser, ch: Octet, l: Ledger, line: seq<Octet>)
    requires GroupOf(p.state).ChunkSizeG? && BodyOk(p, l) && SizeOk(p, line)
    ensures Frames(cfg, p, OnChunkSize(p, ch), l, line, ch)
  {
    hide BodyOk, SizeOk, Frames, OnChunkSize;
    if p.state.ChunkSizeStart? {
      ChunkSizeStartFrames(cfg, p, ch, l, line);
    } else if p.state.ChunkSize? {
      ChunkSizeDigitFrames(cfg, p, ch, l, line);
    } else if p.state.ChunkParameters? {
      ChunkParametersFrames(cfg, p, ch, l, line);
    } else {
      ChunkSizeEndFrames(cfg, p, ch, l, line);
    }
  }

  lemma ChunkByteFrames(cfg: Config, p: Parser, ch: Octet, l: Ledger, line: seq<Octet>)
    requires p.state.ChunkData? && BodyOk(p, l) && SizeOk(p, line)
    ensures Frames(cfg, p, OnChunkData(p, ch), l, line, ch)
  {
    hide Unhex, Size, HexDigits;
  }

  lemma ChunkDataEndFrames(cfg: Config, p: Parser, ch: Octet, l: Ledger, line: seq<Octet>)
    requires (p.state.ChunkDataAlmostDone? || p.state.ChunkDataDone?) && BodyOk(p, l) && SizeOk(p, line)
    ensures Frames(cfg, p, OnChunkData(p, ch), l, line, ch)
  {
    hide Unhex, Size, HexDigits;
  }

  lemma ChunkDataFrames(cfg: Config, p: Parser, ch: Octet, l: Ledger, line: seq<Octet>)
    requires GroupOf(p.state).ChunkDataG? && BodyOk(p, l) && SizeOk(p, line)
    ensures Frames(cfg, p, OnChunkData(p, ch), l, line, ch)
  {
    hide BodyOk, SizeOk, Frames, OnChunkData;
    if p.state.ChunkData? {
      ChunkByteFrames(cfg, p, ch, l, line);
    } else {
      ChunkDataEndFrames(cfg, p, ch, l, line);
    }
  }

  /** Every pass keeps what is owed in agreement with the books. */
  lemma TransitionFrames(cfg: Config, p: Parser, ch: Octet, l: Ledger, line: seq<Octet>)
    requires Ready(p) && BodyOk(p, l) && SizeOk(p, line)
    ensures Frames(cfg, p, Transition(cfg, p, ch), l, line, ch)
  {
    hide OnStart, OnResponseVersion, OnStatusLine, OnMethod, OnUrl, OnRequestVersion, OnRequestLineEnd, OnHeaderField,
         OnHeaderValue, OnHeadersEnd, OnBody, OnChunkSize, OnChunkData, HealthyAt, BodyOk, SizeOk, Frames, Plain, Bare,
         Dull;
    match GroupOf(p.state)
    case StartG => StartFrames(cfg, p, ch, l, line);
    case HeadersEndG =>
      if p.state.HeadersAlmostDone? {
        HeadersAlmostDoneFrames(cfg, p, ch, l, line);
      } else {
        HeadersDoneFrames(cfg, p, ch, l, line);
      }
    case BodyG => BodyFrames(cfg, p, ch, l, line);
    case ChunkSizeG => ChunkSizeFrames(cfg, p, ch, l, line);
    case ChunkDataG => ChunkDataFrames(cfg, p, ch, l, line);
    case _ =>
      SoberTransition(cfg, p, ch);
      SoberFrames(cfg, p, Transition(cfg, p, ch), l, line, ch);
  }

  lemma SoberTransition(cfg: Config, p: Parser, ch: Octet)
    requires Ready(p)
    requires var g := GroupOf(p.state);
             !g.StartG? && !g.HeadersEndG? && !g.BodyG? && !g.ChunkSizeG? && !g.ChunkDataG?
    ensures Plain(p.state) && Sober(p, Transition(cfg, p, ch))
  {
    hide OnStart, OnResponseVersion, OnStatusLine, OnMethod, OnUrl, OnRequestVersion, OnRequestLineEnd, OnHeaderField,
         OnHeaderValue, HealthyAt, Plain, Bare, Dull, Sober;
    match GroupOf(p.state)
    case ResVersionG => ResVersionDull(p, ch); DullSober(p, OnResponseVersion(p, ch));
    case StatusLineG => StatusLineDull(p, ch); DullSober(p, OnStatusLine(p, ch));
    case MethodG => MethodDull(p, ch); DullSober(p, OnMethod(p, ch));
    case UrlG => UrlDull(p, ch); DullSober(p, OnUrl(p, ch));
    case VersionG => VersionDull(p, ch); DullSober(p, OnRequestVersion(p, ch));
    case LineEndG => LineEndDull(p, ch); DullSober(p, OnRequestLineEnd(p, ch));
    case FieldG => FieldSober(p, ch);
    case _ => ValueSober(cfg, p, ch);
  }

  // ----- the chunk sizes that are told -----

  function SizesOf(a: Act): seq<nat> { if a.Notify? && a.n.ChunkHeader? then [a.n.size] else [] }

  function SizesTold(acts: Acts): seq<nat> {
    match acts
    case Quiet => []
    case One(a) => SizesOf(a)
    case Two(a, b) => SizesOf(a) + SizesOf(b)
  }

  /** Only the end of a size line tells a size, and it is always the end of a byte's work. */
  predicate Tells(p: Parser, m: Move) {
    !m.ctl.Stop? ==>
      SizesTold(m.acts) == (if p.state.ChunkSizeAlmostDone? then [p.contentLength] else []) &&
      (p.state.ChunkSizeAlmostDone? ==> m.ctl.Next?) && (m.ctl.Again? ==> !m.p.state.ChunkSizeAlmostDone?)
  }

  lemma SoberTells(p: Parser, m: Move)
    requires Plain(p.state) && Sober(p, m)
    ensures Tells(p, m)
  {
  }

  lemma StartTells(p: Parser, ch: Octet)
    requires GroupOf(p.state).StartG?
    ensures Tells(p, OnStart(p, ch))
  {
  }

  lemma HeadersEndTells(cfg: Config, p: Parser, ch: Octet)
    requires GroupOf(p.state).HeadersEndG?
    ensures Tells(p, OnHeadersEnd(cfg, p, ch))
  {
    hide NewMessage, NeedsEof;
  }

  lemma BodyTells(p: Parser, ch: Octet)
    requires GroupOf(p.state).BodyG?
    ensures Tells(p, OnBody(p, ch))
  {
    hide NewMessage;
  }

  lemma ChunkTells(p: Parser, ch: Octet)
    requires GroupOf(p.state).ChunkSizeG? || GroupOf(p.state).ChunkDataG?
    ensures Tells(p, if GroupOf(p.state).ChunkSizeG? then OnChunkSize(p, ch) else OnChunkData(p, ch))
  {
    hide Unhex;
  }

  lemma TransitionTells(cfg: Config, p: Parser, ch: Octet)
    requires Ready(p)
    ensures Tells(p, Transition(cfg, p, ch))
  {
    hide OnStart, OnResponseVersion, OnStatusLine, OnMethod, OnUrl, OnRequestVersion, OnRequestLineEnd, OnHeaderField,
         OnHeaderValue, OnHeadersEnd, OnBody, OnChunkSize, OnChunkData, HealthyAt, Plain, Tells, Sober;
    match GroupOf(p.state)
    case StartG => StartTells(p, ch);
    case HeadersEndG => HeadersEndTells(cfg, p, ch);
    case BodyG => BodyTells(p, ch);
    case ChunkSizeG => ChunkTells(p, ch);
    case ChunkDataG => ChunkTells(p, ch);
    case _ =>
      SoberTransition(cfg, p, ch);
      SoberTells(p, Transition(cfg, p, ch));
  }

  // ----- all the books -----

  /** The parser agrees with all the books, having read `line` since it last stood at the start of a size line. */
  predicate Accounted(p: Parser, a: Account, line: seq<Octet>) {
    BodyOk(p, a.body) && SizeOk(p, line) && HeadOk(p, a.head)
  }

  /** The sizes that the end of the size line `line` adds to what has been told. */
  function News(s: State, line: seq<Octet>): seq<nat> { if s.ChunkSizeAlmostDone? then [Size(line)] else [] }

  lemma TallyParts(cfg: Config, a: Account, acts: Acts, ch: Octet)
    ensures var t := TallyActs(cfg, a, acts, ch);
            t.body == BodyActs(cfg, a.body, acts, ch) && t.head == HeadActs(a.head, acts, ch) &&
            t.sizes == a.sizes + SizesTold(acts)
  {
    hide TallyBody, TallyHead;
    match acts
    case Quiet =>
    case One(x) =>
    case Two(x, y) => assert a.sizes + SizesOf(x) + SizesOf(y) == a.sizes + (SizesOf(x) + SizesOf(y));
  }

  lemma ClosingParts(cfg: Config, a: Account, g: Gate, ch: Octet)
    ensures var e := Closing(cfg, a, g, ch);
            e.body == BodyAfter(cfg, a.body, LastCall(g, ch)) && e.head == HeadAfter(a.head, LastCall(g, ch)) &&
            e.sizes == a.sizes
  {
    hide TallyBody, TallyHead;
  }

  /** One pass over the books. */
  lemma PassAccounted(cfg: Config, p: Parser, ch: Octet, a: Account, line: seq<Octet>)
    requires Ready(p) && Accounted(p, a, line) && Blank(p.state, ch)
    ensures var m := Transition(cfg, p, ch);
            var t := TallyActs(cfg, a, m.acts, ch);
            match m.ctl
            case Next =>
              var e := Closing(cfg, t, AfterAll(GateOf(p.state), m.acts), ch);
              Accounted(m.p, e, NextLine(m.p.state, line, ch)) && !m.p.state.HeaderValueStart? &&
              e.sizes == a.sizes + News(p.state, line)
            case Again =>
              Accounted(m.p, t, line) && Blank(m.p.state, ch) && t.sizes == a.sizes && News(p.state, line) == [] &&
              News(m.p.state, line) == []
            case Exit => t.body.sound && t.head.sound && t.sizes == a.sizes && News(p.state, line) == []
            case Stop(_) => true
  {
    hide Transition, HealthyAt, BodyOk, HeadOk, TallyActs, Closing, BodyActs, HeadActs, BodyAfter, HeadAfter,
         SizesTold, Blank;
    var m := Transition(cfg, p, ch);
    TransitionFrames(cfg, p, ch, a.body, line);
    TransitionHeads(cfg, p, ch, a.head);
    TransitionTells(cfg, p, ch);
    TallyParts(cfg, a, m.acts, ch);
    var t := TallyActs(cfg, a, m.acts, ch);
    ClosingParts(cfg, t, AfterAll(GateOf(p.state), m.acts), ch);
    assert a.sizes + [] == a.sizes;
    hide SizeOk;
  }

  /** What is true of a run, given the size line read last and the sizes read before. */
  predicate Framed(cfg: Config, r: Run, line: seq<Octet>, sizes: seq<nat>) {
    match r
    case Running(p, log) =>
      Accounted(p, Books(cfg, log), line) && !p.state.HeaderValueStart? && Books(cfg, log).sizes == sizes
    case Exited(_, log) => Books(cfg, log).body.sound && Books(cfg, log).head.sound && Books(cfg, log).sizes == sizes
    case Failed(_) => true
  }

  lemma {:induction false} DriveFrames(cfg: Config, p: Parser, ch: Octet, log: seq<Call>, t: Track, line: seq<Octet>)
    requires Ready(p) && MarksFit(Settled(GateOf(p.state)), t.marks, 0) && Blank(p.state, ch)
    requires Accounted(p, Books(cfg, Story(log, [ch], t, 0)), line)
    ensures var s := Drive(cfg, p, [ch], 0, t);
            var sizes := Books(cfg, Story(log, [ch], t, 0)).sizes + News(p.state, line);
            (s.ctl.Next? ==>
               Framed(cfg, Running(s.p, Story(log, [ch], s.t, 1)), NextLine(s.p.state, line, ch), sizes)) &&
            (s.ctl.Exit? ==> Framed(cfg, Exited(s.p, Extend(log, s.t.calls)), [], sizes))
    decreases Rank(p.state)
  {
    hide Transition, HealthyAt, DoAll, Accounted, Story, Books, Extend, TallyActs, Closing, Blank, NextLine, News;
    var m, a := Transition(cfg, p, ch), Books(cfg, Story(log, [ch], t, 0));
    var g := GateOf(p.state);
    TransitionSound(cfg, p, ch);
    TransitionKeeps(cfg, p, ch);
    PassAccounted(cfg, p, ch, a, line);
    assert a.sizes + [] == a.sizes;
    if !m.ctl.Stop? {
      ActsBooks(cfg, g, m.acts, log, ch, t);
      var u := DoAll(m.acts, [ch], 0, t);
      match m.ctl
      case Again => DriveFrames(cfg, m.p, ch, log, u, line);
      case Next => CloseBooks(cfg, AfterAll(g, m.acts), log, ch, u);
      case Exit => StoryShut(log, [ch], u, 0);
      case Stop(_) =>
    }
  }

  // ----- whole runs -----

  lemma OpenAccounted(cfg: Config, p: Parser, base: seq<Call>, ch: Octet, line: seq<Octet>)
    requires Accounted(p, Books(cfg, base), line)
    ensures var t := Track(OpenMarks(p.state), []);
            MarksFit(Settled(GateOf(p.state)), t.marks, 0) && Accounted(p, Books(cfg, Story(base, [ch], t, 0)), line) &&
            Books(cfg, Story(base, [ch], t, 0)).sizes == Books(cfg, base).sizes
  {
    OpenBooks(cfg, p.state, base, ch);
    var a := Books(cfg, base);
    if GateOf(p.state).Open? {
      OpenHeads(p, a.head);
    }
    hide Books, Story, BodyOk, SizeOk, HeadOk, TallyHead, OpenMarks;
    OpenIsNoBody(p.state);
  }

  lemma OpenIsNoBody(s: State)
    ensures GateOf(s).Open? ==> !GateOf(s).k.BodySpan?
  {
  }

  lemma CountedBody(p: Parser, l: Ledger)
    ensures BodyOk(Counted(p), l) <==> BodyOk(p, l)
  {
    hide Framing, ParsingHeader;
    assert HeadOf(Counted(p)) == HeadOf(p);
  }

  lemma CountedAccounted(p: Parser, a: Account, line: seq<Octet>)
    requires Accounted(p, a, line)
    ensures Accounted(Counted(p), a, line)
  {
    CountedHeads(p, a.head);
    CountedBody(p, a.body);
    hide BodyOk, HeadOk, ParsingHeader, Size, HexDigits;
  }

  lemma FeedFramed(cfg: Config, r: Run, ch: Octet, line: seq<Octet>, sizes: seq<nat>)
    requires HealthyRun(r) && Framed(cfg, r, line, sizes)
    ensures var s := Feed(cfg, r, ch);
            Framed(cfg, s, if s.Running? then NextLine(s.p.state, line, ch) else [],
                   sizes + if r.Running? && !s.Failed? then News(r.p.state, line) else [])
  {
    hide Drive, HealthyAt, Accounted, Books, Extend, Leftovers, NextLine, News;
    assert sizes + [] == sizes;
    if r.Running? && !Overflows(cfg, r.p) {
      CountedReady(r.p);
      CountedAccounted(r.p, Books(cfg, r.log), line);
      OpenAccounted(cfg, Counted(r.p), r.log, ch, line);
      DriveFrames(cfg, Counted(r.p), ch, r.log, Track(OpenMarks(r.p.state), []), line);
    }
  }

  function Fed(cfg: Config, ptype: ParserType, data: seq<Octet>): Run {
    FeedAll(cfg, Running(Initial(ptype), []), data)
  }

  /** What has been read since the parser last stood at the start of a size line. */
  function SizeLine(cfg: Config, ptype: ParserType, data: seq<Octet>): seq<Octet> {
    if data == [] then []
    else
      var r := Fed(cfg, ptype, data);
      if r.Running? then NextLine(r.p.state, SizeLine(cfg, ptype, data[..|data|-1]), data[|data|-1]) else []
  }

  /** The values of all the size lines that have been read to their end. */
  function SizesRead(cfg: Config, ptype: ParserType, data: seq<Octet>): seq<nat> {
    if data == [] then []
    else
      var front := data[..|data|-1];
      var r := Fed(cfg, ptype, front);
      SizesRead(cfg, ptype, front) +
      if r.Running? && !Fed(cfg, ptype, data).Failed? then News(r.p.state, SizeLine(cfg, ptype, front)) else []
  }

  lemma {:induction false} FeedAllFramed(cfg: Config, ptype: ParserType, data: seq<Octet>)
    ensures var r := Fed(cfg, ptype, data);
            HealthyRun(r) && Framed(cfg, r, SizeLine(cfg, ptype, data), SizesRead(cfg, ptype, data))
  {
    hide Feed, Framed, HealthyRun, Initial, NextLine, News;
    if data == [] {
      StartFramed(cfg, ptype);
    } else {
      var n := |data| - 1;
      var r := Fed(cfg, ptype, data[..n]);
      FeedAllFramed(cfg, ptype, data[..n]);
      FeedAllHealthy(cfg, r, [data[n]]);
      FeedOne(cfg, r, data[n]);
      FeedFramed(cfg, r, data[n], SizeLine(cfg, ptype, data[..n]), SizesRead(cfg, ptype, data[..n]));
    }
  }

  lemma FeedOne(cfg: Config, r: Run, ch: Octet)
    ensures FeedAll(cfg, r, [ch]) == Feed(cfg, r, ch)
  {
    hide Feed;
    assert [ch][..0] == [];
  }

  lemma StartFramed(cfg: Config, ptype: ParserType)
    ensures var r := Running(Initial(ptype), []); HealthyRun(r) && Framed(cfg, r, [], [])
  {
    hide Size, HexDigits, NameState;
  }

  /**
   Framing: for every input, everything the application has been told about bodies is in order (a message and each of
   its chunks is complete exactly when the promised number of bytes has been handed over, and never more is handed
   over), every promise is the number in the input (each head has the value of its `Content-Length`, which is below
   `ULLONG_MAX`, and `ULLONG_MAX` if there is none; the chunk sizes are the values of the size lines), and what is still
   owed is what `content_length` says.
   */
  lemma FramingHolds(cfg: Config, ptype: ParserType, data: seq<Octet>)
    ensures var r := Fed(cfg, ptype, data);
            if r.Failed? then !r.e.AssertionFailed?
            else
              var a := Books(cfg, r.log);
              a.body.sound && a.head.sound && a.sizes == SizesRead(cfg, ptype, data) &&
              (r.Running? ==> Owes(r.p, a, SizeLine(cfg, ptype, data)))
  {
    hide FeedAll, Books, SizeLine, SizesRead, Fed;
    FeedAllFramed(cfg, ptype, data);
    hide Size, HexDigits, Number, NameState, Lowered, Tokens;
  }

  predicate Owes(p: Parser, a: Account, line: seq<Octet>) {
    var l := a.body;
    (p.state.BodyIdentity? ==> l.plan.Sized? && l.got + p.contentLength == l.declared) &&
    (p.state.ChunkData? ==> l.plan.Chunks? && l.got + p.contentLength == l.declared) &&
    (p.state.BodyIdentityEof? ==> l.plan.UntilEof?) &&
    (p.state.ChunkSize? || p.state.ChunkSizeAlmostDone? ==> p.contentLength == Size(line)) &&
    (p.state.HeaderValue? && p.hstate.ContentLengthNum? && !p.flags.trailing ==>
       p.contentLength == Number(a.head.length))
  }

  /** Books that are in order have been in order all along. */
  lemma {:induction false} SoundThroughout(cfg: Config, log: seq<Call>, i: nat)
    requires i < |log|
    ensures var a, b, c := Books(cfg, log), Books(cfg, log[..i+1]), Books(cfg, log[..i]);
            (a.body.sound ==> b.body.sound && c.body.sound) && (a.head.sound ==> b.head.sound && c.head.sound)
    decreases |log|
  {
    hide Framing, Matches, NamesLength;
    var n := |log| - 1;
    if i < n {
      SoundThroughout(cfg, log[..n], i);
      assert log[..n][..i] == log[..i] && log[..n][..i+1] == log[..i+1];
    } else {
      assert log[..i+1] == log;
    }
  }

  /** In such books every completion was balanced, and every head had the length its headers spelled. */
  lemma CallsInOrder(cfg: Config, log: seq<Call>, i: nat)
    requires i < |log|
    ensures var a, before := Books(cfg, log), Books(cfg, log[..i]);
            (a.body.sound && (log[i] == Note(MessageComplete) || log[i] == Note(ChunkComplete)) ==>
             Balanced(before.body)) &&
            (a.head.sound && log[i].Note? && log[i].notice.HeadersComplete? ==>
               var h := log[i].notice.head; Matches(h.flags.contentLength, h.contentLength, before.head.length))
  {
    SoundThroughout(cfg, log, i);
    assert log[..i+1][..i] == log[..i];
    hide Framing, Number;
  }
}
