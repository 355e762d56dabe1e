/**
 The end of the headers against section 3.3.3 of RFC 7230. The standard asks for the status of a response before it
 looks at any header; the parser looks at the headers first, so the two do not always agree.
 */
module HttpRfc {
  import opened HttpSyntax
  import opened HttpMachine
  import opened HttpBooks

  /** 1xx, 204 and 304 */
  predicate BodilessStatus(status: nat) { status / 100 == 1 || status == 204 || status == 304 }

  /**
   The rules of section 3.3.3 in their order. `declined` stands for what the parser cannot know: the application has
   said that this is the response to a HEAD or to a CONNECT.
   */
  function RfcPlan(h: Head, declined: bool): Plan {
    if declined || (!h.ptype.Request? && BodilessStatus(h.status)) then NoBody
    else if h.flags.chunked then Chunks
    else if h.usesTe then if h.ptype.Request? then Refused else UntilEof
    else if h.contentLength != ULLONG_MAX then Sized(h.contentLength)
    else if h.ptype.Request? then NoBody
    else UntilEof
  }

  /** What the parser has decided, to be read off the state it goes to. */
  function Taken(m: Move): Plan {
    if m.ctl.Stop? then Refused
    else if m.acts == One(Notify(MessageComplete)) then NoBody
    else if m.p.state.ChunkSizeStart? then Chunks
    else if m.p.state.BodyIdentity? then Sized(m.p.contentLength)
    else UntilEof
  }

  /** A body of no bytes is no body. */
  function Effect(plan: Plan): Plan { if plan == Sized(0) then NoBody else plan }

  predicate NonZeroLength(h: Head) { h.contentLength != 0 && h.contentLength != ULLONG_MAX }

  /** Behind such a head another protocol begins. */
  predicate Leaves(h: Head) { h.upgrade && (h.verb.CONNECT? || (!h.flags.chunked && !NonZeroLength(h))) }

  /**
   The parser does what the standard says, except that it reads a body where a bodiless status forbids one although
   headers announce it, that it leaves a message at an upgrade although there might be a body, and that a lenient parser
   does not refuse a request whose transfer coding is not chunked.
   */
  lemma RfcAgreement(cfg: Config, p: Parser)
    requires p.state.HeadersDone?
    ensures var h, declined := HeadOf(p), p.flags.skipBody;
            var bodiless := !h.ptype.Request? && BodilessStatus(h.status);
            Effect(Taken(OnHeadersEnd(cfg, p, LF))) == Effect(RfcPlan(h, declined)) <==>
            declined ||
            (if bodiless then Leaves(h) || !(h.flags.chunked || h.usesTe || NonZeroLength(h))
             else if Leaves(h) then
               !h.flags.chunked && !NonZeroLength(h) && !h.usesTe && (h.ptype.Request? || h.contentLength == 0)
             else !(cfg.lenient && h.ptype.Request? && h.usesTe && !h.flags.chunked))
  {
    hide NewMessage;
  }

  /** Without upgrades and leniency: only a bodiless status makes the difference. */
  lemma StatusIsLookedAtLate(cfg: Config, p: Parser)
    requires p.state.HeadersDone? && !p.upgrade && !cfg.lenient
    ensures var h := HeadOf(p);
            Effect(Taken(OnHeadersEnd(cfg, p, LF))) == Effect(RfcPlan(h, p.flags.skipBody)) <==>
            !(!p.flags.skipBody && !h.ptype.Request? && BodilessStatus(h.status) &&
              (h.flags.chunked || h.usesTe || NonZeroLength(h)))
  {
    RfcAgreement(cfg, p);
    hide OnHeadersEnd, RfcPlan, Taken, Effect;
  }

  /** When the parser refuses a message at the end of its headers. */
  lemma WhenRefused(cfg: Config, p: Parser, ch: Octet)
    requires p.state.HeadersDone?
    ensures var h, m := HeadOf(p), OnHeadersEnd(cfg, p, ch);
            (m.ctl.Stop? <==>
               ch != LF ||
               (!p.flags.skipBody && !Leaves(h) && h.ptype.Request? && h.usesTe && !h.flags.chunked && !cfg.lenient)) &&
            (m.ctl.Stop? ==> m.ctl.e == if ch != LF then Strict else InvalidTransferEncoding)
  {
    hide NewMessage;
  }

  /** A response with status 204 and a length, and one with status 304 that is chunked: the parser waits for a body. */
  lemma BodilessWithBody(cfg: Config)
    ensures var p := Initial(Response).(state := HeadersDone, status := 204, contentLength := 5);
            Taken(OnHeadersEnd(cfg, p, LF)) == Sized(5) && RfcPlan(HeadOf(p), false) == NoBody
    ensures var p := Initial(Response).(state := HeadersDone, status := 304, flags := NO_FLAGS.(chunked := true));
            Taken(OnHeadersEnd(cfg, p, LF)) == Chunks && RfcPlan(HeadOf(p), false) == NoBody
  {
  }
}
