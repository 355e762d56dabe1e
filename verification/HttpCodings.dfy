/**
 Which values of `Transfer-Encoding` make `http_parser_execute` take a message for chunked. Read as a list (section
 3.3.1 of RFC 7230), a value says so if its last element is "chunked"; the scan of the source does not always find that
 element.
 */
module HttpCodings {
  import opened HttpSyntax
  import opened HttpMachine

  // ----- the scan -----

  /** The parser after the bytes `v` of a value of `Transfer-Encoding`, on one line. */
  function ReadCoding(p: Parser, v: seq<Octet>): Parser
    requires v != []
  {
    if |v| == 1 then OnValueStart(p, v[0]).p else ValueByte(ReadCoding(p, v[..|v|-1]), v[|v|-1]).p
  }

  // ----- the list -----

  predicate Blank(c: char) { c == ' ' || c == '\t' }

  function Small(c: Octet): Octet { if 'A' <= c <= 'Z' then Lower(c) else c }

  /** What stands behind the last comma, in lower case. */
  function Element(v: seq<Octet>): seq<Octet> {
    if v == [] || v[|v|-1] == ',' then [] else Element(v[..|v|-1]) + [Small(v[|v|-1])]
  }

  /** A text without the blanks in front. */
  function Trimmed(e: seq<Octet>): seq<Octet> { if e != [] && Blank(e[0]) then Trimmed(e[1..]) else e }

  /** "chunked", with spaces behind it. */
  predicate Chunked(b: seq<Octet>) { |b| >= 7 && b[..7] == CHUNKED && forall i :: 7 <= i < |b| ==> b[i] == ' ' }

  /** A beginning of "chunked". */
  predicate Partial(b: seq<Octet>) { 0 < |b| < 7 && b == CHUNKED[..|b|] }

  /** The last element of the list is "chunked", whatever blanks are around it. */
  predicate LastIsChunked(v: seq<Octet>) {
    var b := Trimmed(Element(v));
    |b| >= 7 && b[..7] == CHUNKED && forall i :: 7 <= i < |b| ==> Blank(b[i])
  }

  // ----- how the scan takes the commas -----

  /**
   At the start of an element: the first one, one that the scan looks at, one whose comma it missed, or none any more.
   */
  datatype Mode = First | Fresh | Missed | Lost

  /** The scan compares bytes with bit 5 set, so that it takes a tab for a closing parenthesis. */
  predicate Skipped(c: Octet) { Lower(c) == ' ' }

  predicate BeginsElement(c: Octet) { IsToken(Lower(c)) }

  /** An element without what the scan skips in front of it. */
  function Body(e: seq<Octet>): seq<Octet> { if e != [] && Skipped(e[0]) then Body(e[1..]) else e }

  lemma {:induction false} BodyGrows(e: seq<Octet>, c: Octet)
    ensures Body(e + [c]) == if Body(e) == [] && Skipped(c) then [] else Body(e) + [c]
  {
    hide Skipped;
    if e == [] {
      assert e + [c] == [c] && [c][1..] == [];
      assert Body([]) == [];
    } else if Skipped(e[0]) {
      BodyGrows(e[1..], c);
      assert (e + [c])[1..] == e[1..] + [c];
    }
  }

  /** What the comma behind the element `e` does. */
  function AtComma(mode: Mode, e: seq<Octet>): Mode {
    match mode
    case Lost => Lost
    case Missed => Fresh
    case First => if e == [] || Partial(e) || Chunked(e) then Missed else Fresh
    case Fresh =>
      var b := Body(e);
      if b == [] || !BeginsElement(b[0]) then Lost else if Partial(b) || Chunked(b) then Missed else Fresh
  }

  /** How the scan stands at the start of the element that `v` ends in. */
  function ModeOf(v: seq<Octet>): Mode {
    if v == [] then First
    else
      var front := v[..|v|-1];
      if v[|v|-1] == ',' then AtComma(ModeOf(front), Element(front)) else ModeOf(front)
  }

  /** The header state of a scan that has read `b` of an element it looks at. */
  predicate Matching(q: Parser, b: seq<Octet>) {
    if Partial(b) then q.hstate.MatchingTeChunked? && q.index == |b| - 1
    else if Chunked(b) then q.hstate.TeChunked?
    else q.hstate.MatchingTeToken?
  }

  predicate At(q: Parser, mode: Mode, e: seq<Octet>) {
    match mode
    case Lost => q.hstate.General?
    case Missed => q.hstate.MatchingTeToken?
    case First => e != [] && Matching(q, e)
    case Fresh =>
      var b := Body(e);
      if b == [] then q.hstate.MatchingTeTokenStart? && q.index == 0
      else if !BeginsElement(b[0]) then q.hstate.General?
      else Matching(q, b)
  }

  lemma OneLetter(c: Octet)
    ensures Partial([c]) <==> c == 'c'
    ensures !Chunked([c])
  {
    assert CHUNKED[..1] == "c";
  }

  /** One more letter of an element. */
  lemma LetterGrows(b: seq<Octet>, c: Octet)
    requires b != []
    ensures Partial(b + [c]) <==> Partial(b) && |b| < 6 && c == CHUNKED[|b|]
    ensures Chunked(b + [c]) <==> (Partial(b) && |b| == 6 && c == 'd') || (Chunked(b) && c == ' ')
    ensures !(Partial(b) && Chunked(b))
  {
    var t := b + [c];
    if |b| <= 6 {
      var word := CHUNKED[..|b|+1];
      assert word[..|b|] == CHUNKED[..|b|] && word[|b|] == CHUNKED[|b|];
      assert t[..|b|] == b && t[|b|] == c;
      assert t == word <==> b == word[..|b|] && c == word[|b|];
      assert |b| == 6 ==> t[..7] == t && word == CHUNKED;
    } else {
      assert t[..7] == b[..7] && t[|b|] == c;
      assert forall i :: 7 <= i < |b| ==> b[i] == t[i];
      assert Chunked(t) ==> Chunked(b) && c == ' ';
    }
  }

  /** The parts of a parser that the scan of a coding changes. */
  lemma CodingByte(q: Parser, ch: Octet)
    requires q.hstate.MatchingTeTokenStart? || q.hstate.MatchingTeChunked? || q.hstate.MatchingTeToken? ||
             q.hstate.TeChunked? || q.hstate.General?
    ensures var r, c := ValueByte(q, ch).p, Lower(ch);
            (q.hstate.General? ==> r.hstate.General?) &&
            (q.hstate.MatchingTeToken? ==>
               if ch == ',' then r.hstate.MatchingTeTokenStart? && r.index == 0 else r.hstate.MatchingTeToken?) &&
            (q.hstate.TeChunked? ==> if ch == ' ' then r.hstate.TeChunked? else r.hstate.MatchingTeToken?) &&
            (q.hstate.MatchingTeTokenStart? ==>
               r.index == q.index &&
               if c == 'c' then r.hstate.MatchingTeChunked? else if IsToken(c) then r.hstate.MatchingTeToken?
               else if c == ' ' then r.hstate.MatchingTeTokenStart? else r.hstate.General?)
    ensures q.hstate.MatchingTeChunked? && q.index < 6 ==>
              var r, i := ValueByte(q, ch).p, q.index + 1;
              if Lower(ch) != CHUNKED[i] then r.hstate.MatchingTeToken?
              else if i == 6 then r.hstate.TeChunked? else r.hstate.MatchingTeChunked? && r.index == i
  {
    assert Lower(ch) != '\t';
  }

  /** Letters in either case, and everything else as it is. */
  lemma Smaller(ch: Octet)
    ensures var c := Small(ch);
            Lower(c) == Lower(ch) && (c == ',' <==> ch == ',') && (c == ' ' <==> ch == ' ') &&
            (c == '\t' <==> ch == '\t')
    ensures forall i :: 0 <= i < 7 ==> (Small(ch) == CHUNKED[i] <==> Lower(ch) == CHUNKED[i])
    ensures !BeginsElement(',') && !Skipped(',') && Skipped(' ') && BeginsElement('c') && !BeginsElement('\t') &&
            !Skipped('\t')
    ensures Skipped(Small(ch)) ==> !BeginsElement(Small(ch))
  {
  }

  /** Inside an element that the scan looks at. */
  lemma MatchingByte(q: Parser, b: seq<Octet>, ch: Octet)
    requires b != [] && Matching(q, b)
    ensures var r := ValueByte(q, ch).p;
            if ch != ',' then Matching(r, b + [Small(ch)])
            else if Partial(b) || Chunked(b) then r.hstate.MatchingTeToken?
            else r.hstate.MatchingTeTokenStart? && r.index == 0
  {
    LetterGrows(b, Small(ch));
    CodingByte(q, ch);
    Smaller(ch);
    PartialIsShort(b);
    hide ValueByte, Partial, Chunked;
  }

  lemma PartialIsShort(b: seq<Octet>)
    ensures Partial(b) ==> 0 < |b| < 7
  {
  }

  /** One byte of the scan. */
  lemma AtNext(q: Parser, mode: Mode, e: seq<Octet>, ch: Octet)
    requires At(q, mode, e)
    ensures var r := ValueByte(q, ch).p;
            if ch == ',' then At(r, AtComma(mode, e), []) else At(r, mode, e + [Small(ch)])
  {
    CodingByte(q, ch);
    Smaller(ch);
    BodyGrows(e, Small(ch));
    assert Body([]) == [];
    match mode
    case First => MatchingByte(q, e, ch);
    case Fresh =>
      var b := Body(e);
      if b == [] {
        FreshByte(q, ch);
      } else if BeginsElement(b[0]) {
        MatchingByte(q, b, ch);
      }
    case _ =>
    hide ValueByte, Matching, Partial, Chunked, IsToken, Body;
  }

  /** The first byte of an element that the scan looks at. */
  lemma FreshByte(q: Parser, ch: Octet)
    requires q.hstate.MatchingTeTokenStart? && q.index == 0
    ensures var r, c := ValueByte(q, ch).p, Small(ch);
            if ch == ',' then r.hstate.General?
            else if Skipped(c) then r.hstate.MatchingTeTokenStart? && r.index == 0
            else if !BeginsElement(c) then r.hstate.General?
            else Matching(r, [c])
  {
    CodingByte(q, ch);
    Smaller(ch);
    OneLetter(Small(ch));
    assert Lower(ch) == 'c' <==> Small(ch) == CHUNKED[0];
    hide ValueByte, IsToken, Partial, Chunked, Lower, Small;
  }

  lemma FirstByteAt(p: Parser, ch: Octet)
    requires p.hstate.TransferEncoding?
    ensures var r := OnValueStart(p, ch).p;
            if ch == ',' then At(r, Missed, []) else At(r, First, [Small(ch)])
  {
    OneLetter(Small(ch));
    Smaller(ch);
    assert Lower(ch) == 'c' <==> Small(ch) == CHUNKED[0];
    hide Partial, Chunked, Small, Body;
  }

  /** Where the scan is after any beginning of a value. */
  lemma {:induction false} ScanAt(p: Parser, v: seq<Octet>)
    requires p.hstate.TransferEncoding? && v != []
    ensures At(ReadCoding(p, v), ModeOf(v), Element(v))
  {
    hide At, OnValueStart, ValueByte, Small, AtComma;
    var n := |v| - 1;
    if n == 0 {
      assert v[..0] == [] && ModeOf([]) == First && Element([]) == [];
      CommaFirst();
      FirstByteAt(p, v[0]);
      assert Element(v) == if v[0] == ',' then [] else [Small(v[0])];
    } else {
      ScanAt(p, v[..n]);
      AtNext(ReadCoding(p, v[..n]), ModeOf(v[..n]), Element(v[..n]), v[n]);
    }
  }

  lemma CommaFirst()
    ensures AtComma(First, []) == Missed
  {
  }

  // ----- which values are chunked -----

  /** The scan looks at the last element, and that is "chunked". */
  predicate Found(v: seq<Octet>) {
    (ModeOf(v) == First && Chunked(Element(v))) || (ModeOf(v) == Fresh && Chunked(Body(Element(v))))
  }

  lemma ChunkedBegins(b: seq<Octet>)
    requires Chunked(b)
    ensures b != [] && b[0] == 'c' && BeginsElement(b[0]) && !Partial(b) && '\t' !in b
  {
    assert b[0] == b[..7][0] && CHUNKED[0] == 'c';
    forall i | 0 <= i < |b|
      ensures b[i] != '\t'
    {
      assert i < 7 ==> b[i] == b[..7][i] == CHUNKED[i];
    }
  }

  /** The scan of a value ends in `h_transfer_encoding_chunked` exactly if it finds "chunked" there. */
  lemma ChunkedExactly(p: Parser, v: seq<Octet>)
    requires p.hstate.TransferEncoding? && v != []
    ensures ReadCoding(p, v).hstate.TeChunked? <==> Found(v)
  {
    ScanAt(p, v);
    var e, b := Element(v), Body(Element(v));
    if Chunked(e) {
      ChunkedBegins(e);
    }
    if Chunked(b) {
      ChunkedBegins(b);
    }
    hide ReadCoding, Element, Body, BeginsElement, Partial, Chunked, ModeOf;
  }

  lemma {:induction false} FirstIsWhole(v: seq<Octet>)
    requires v != [] && ModeOf(v) == First
    ensures |Element(v)| == |v| && Element(v)[0] == Small(v[0])
  {
    var n := |v| - 1;
    NoWayBack(v[..n]);
    if n > 0 {
      FirstIsWhole(v[..n]);
    }
    hide AtComma, Small;
  }

  lemma NoWayBack(v: seq<Octet>)
    ensures AtComma(ModeOf(v), Element(v)) != First
  {
  }

  lemma {:induction false} SameTrim(e: seq<Octet>)
    requires '\t' !in e && '\0' !in e
    ensures Body(e) == Trimmed(e)
  {
    if e != [] {
      assert Skipped(e[0]) <==> Blank(e[0]);
      SameTrim(e[1..]);
    }
  }

  lemma {:induction false} TabStays(e: seq<Octet>)
    requires '\t' in e
    ensures '\t' in Body(e)
  {
    if Skipped(e[0]) {
      assert e[0] != '\t' && e == [e[0]] + e[1..];
      TabStays(e[1..]);
    }
  }

  lemma {:induction false} NoNuls(v: seq<Octet>)
    requires '\0' !in v
    ensures '\0' !in Element(v)
  {
    if v != [] {
      NoNuls(v[..|v|-1]);
    }
  }

  /** What is "chunked" for the list and has no tabs is so for the scan, and the other way round. */
  lemma WithoutTabs(e: seq<Octet>)
    requires '\t' !in e && '\0' !in e
    ensures Chunked(Body(e)) <==>
            (var b := Trimmed(e); |b| >= 7 && b[..7] == CHUNKED && forall i :: 7 <= i < |b| ==> Blank(b[i]))
  {
    SameTrim(e);
    TrimmedFrom(e);
    hide Body, Trimmed;
  }

  lemma {:induction false} TrimmedFrom(e: seq<Octet>)
    ensures forall c :: c in Trimmed(e) ==> c in e
  {
    if e != [] {
      TrimmedFrom(e[1..]);
    }
  }

  /**
   Where the list does not end in "chunked" the code never takes a message for chunked; where it does, the code does so
   if and only if there is no tab in the last element and the scan looks at that element.
   */
  lemma ChunkedAsListed(p: Parser, v: seq<Octet>)
    requires p.hstate.TransferEncoding? && v != [] && !Blank(v[0]) && '\0' !in v
    ensures ReadCoding(p, v).hstate.TeChunked? <==>
            LastIsChunked(v) && '\t' !in Element(v) && (ModeOf(v) == First || ModeOf(v) == Fresh)
  {
    ChunkedExactly(p, v);
    NoNuls(v);
    var e := Element(v);
    if '\t' in e {
      TabStays(e);
      if Chunked(Body(e)) {
        ChunkedBegins(Body(e));
      }
      if Chunked(e) {
        ChunkedBegins(e);
      }
    } else {
      WithoutTabs(e);
      if ModeOf(v) == First {
        FirstIsWhole(v);
        FirstBody(v[0], e);
      }
    }
    hide ReadCoding, Element, Body, ModeOf, Chunked, Trimmed;
  }

  lemma FirstBody(ch: Octet, e: seq<Octet>)
    requires e != [] && e[0] == Small(ch) && !Blank(ch) && ch != '\0'
    ensures Body(e) == e
  {
  }

  /** An element that gives the scan no trouble. */
  predicate Ordinary(e: seq<Octet>) {
    var b := Body(e); b != [] && BeginsElement(b[0]) && !Partial(b) && !Chunked(b) && !Partial(e) && !Chunked(e)
  }

  /** If all elements but the last are ordinary, the scan looks at the last one. */
  lemma {:induction false} OrdinaryLists(v: seq<Octet>)
    requires forall k :: 0 <= k < |v| && v[k] == ',' ==> Ordinary(Element(v[..k]))
    ensures ModeOf(v) == First || ModeOf(v) == Fresh
  {
    if v != [] {
      var n := |v| - 1;
      assert forall k :: 0 <= k < n ==> v[..n][k] == v[k] && v[..n][..k] == v[..k];
      OrdinaryLists(v[..n]);
      assert Body([]) == [];
    }
    hide Element, Partial, Chunked, BeginsElement;
  }

  // ----- values on which the two differ -----

  lemma CommaBehind(v: seq<Octet>)
    ensures ModeOf(v + [',']) == AtComma(ModeOf(v), Element(v)) && Element(v + [',']) == []
  {
    assert (v + [','])[..|v|] == v;
    hide AtComma;
  }

  lemma OneBehind(v: seq<Octet>, ch: Octet)
    requires ch != ','
    ensures ModeOf(v + [ch]) == ModeOf(v) && Element(v + [ch]) == Element(v) + [Small(ch)]
  {
    assert (v + [ch])[..|v|] == v;
    hide AtComma, Small;
  }

  /** "chunked" in small letters behind anything. */
  lemma WordBehind(v: seq<Octet>) returns (w: seq<Octet>)
    ensures w == v + CHUNKED && ModeOf(w) == ModeOf(v) && Element(w) == Element(v) + CHUNKED
  {
    hide ModeOf, Element;
    w := v;
    for i := 0 to 7
      invariant w == v + CHUNKED[..i] && ModeOf(w) == ModeOf(v) && Element(w) == Element(v) + CHUNKED[..i]
    {
      OneBehind(w, CHUNKED[i]);
      assert Small(CHUNKED[i]) == CHUNKED[i];
      w := w + [CHUNKED[i]];
      assert CHUNKED[..i+1] == CHUNKED[..i] + [CHUNKED[i]];
    }
    assert CHUNKED[..7] == CHUNKED;
  }

  /** An element "chunked" whose comma is missed, or behind which the scan has given up. */
  lemma EndsChunked(p: Parser, v: seq<Octet>)
    requires p.hstate.TransferEncoding? && v != [] && v[|v|-1] == ',' && (ModeOf(v) == Missed || ModeOf(v) == Lost)
    ensures LastIsChunked(v + CHUNKED) && !ReadCoding(p, v + CHUNKED).hstate.TeChunked?
  {
    var w := WordBehind(v);
    ChunkedExactly(p, w);
    assert Element(w) == CHUNKED;
    WordIsChunked();
    hide ReadCoding, ModeOf, Element, Trimmed, Body, Chunked;
  }

  lemma WordIsChunked()
    ensures Trimmed(CHUNKED) == CHUNKED && CHUNKED[..7] == CHUNKED
  {
  }

  /** The value ",chunked" */
  lemma EmptyFirst(p: Parser)
    requires p.hstate.TransferEncoding?
    ensures LastIsChunked([','] + CHUNKED) && !ReadCoding(p, [','] + CHUNKED).hstate.TeChunked?
  {
    CommaBehind([]);
    CommaFirst();
    assert [] + [','] == [','] && ModeOf([]) == First && Element([]) == [];
    EndsChunked(p, [',']);
  }

  /** The value "chunked,chunked" */
  lemma ChunkedTwice(p: Parser)
    requires p.hstate.TransferEncoding?
    ensures LastIsChunked(CHUNKED + [','] + CHUNKED) && !ReadCoding(p, CHUNKED + [','] + CHUNKED).hstate.TeChunked?
  {
    var w := WordBehind([]);
    assert [] + CHUNKED == CHUNKED && ModeOf([]) == First && Element([]) == [];
    CommaBehind(w);
    WordIsChunked();
    EndsChunked(p, CHUNKED + [',']);
    hide ReadCoding, LastIsChunked;
  }

  /** The value "a,,chunked" */
  lemma EmptyElement(p: Parser)
    requires p.hstate.TransferEncoding?
    ensures LastIsChunked(['a', ',', ','] + CHUNKED) && !ReadCoding(p, ['a', ',', ','] + CHUNKED).hstate.TeChunked?
  {
    OneBehind([], 'a');
    assert [] + ['a'] == ['a'] && ModeOf([]) == First && Element([]) == [];
    CommaBehind(['a']);
    CommaBehind(['a', ',']);
    assert ['a'] + [','] == ['a', ','] && ['a', ','] + [','] == ['a', ',', ','];
    OneLetter('a');
    assert Small('a') == 'a' && Element(['a']) == ['a'];
    assert Body([]) == [];
    hide ReadCoding, LastIsChunked, Element, ModeOf, Partial, Chunked;
    EndsChunked(p, ['a', ',', ',']);
  }
}
