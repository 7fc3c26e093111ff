/** Texts described piece by piece: tokens, with raw text between them, and what the parser sees of
    such a text. */
module Scripts {
  import opened Lexing
  import opened Options
  import opened Tokens
  import opened GeneratorSpec
  import opened FileSpec

  /** A token, with or without whitespace before it; a marked text after any whitespace; or the very
      next characters. */
  datatype Piece = Spaced(text: string) | Joined(text: string) | Enclosed(text: string) | Verbatim(text: string)
  {
    predicate IsToken() { Spaced? || Joined? }
  }

  datatype Script = End | Then(piece: Piece, rest: Script)
  {
    /** The next piece, if any, is a token: `advance` reads it. */
    predicate Advances() { Then? ==> piece.IsToken() }
  }

  const START: Token := Token(UNKNOWN, 0, 0)

  predicate StandsAt(buf: string, at: nat, text: string) {
    at + |text| <= |buf| && buf[at..at + |text|] == text
  }

  /** Where a piece ends that stands at the cursor. */
  function PieceEnd(buf: string, cur: nat, p: Piece): (e: Option<nat>)
    requires cur <= |buf|
    ensures e.Some? ==> cur <= e.value <= |buf|
  {
    NextMeans(buf, cur, START);
    var (t, c) := NextToken(buf, cur, START);
    var blank := Span(buf, cur, IsWhitespace);
    match p
    case Spaced(text) => if t.Live() && t.Content(buf) == text then Some(c) else None
    case Joined(text) => if t.Live() && t.Content(buf) == text && t.start == cur then Some(c) else None
    case Enclosed(text) => if StandsAt(buf, blank, text) then Some(blank + |text|) else None
    case Verbatim(text) => if StandsAt(buf, cur, text) then Some(cur + |text|) else None
  }

  /** The text from the cursor on is this script, and then the file ends. */
  predicate Spells(buf: string, cur: nat, script: Script)
    requires cur <= |buf|
    decreases script
  {
    match script
    case End => At(buf, Span(buf, cur, IsWhitespace)) == '\0'
    case Then(p, rest) => PieceEnd(buf, cur, p).Some? && Spells(buf, PieceEnd(buf, cur, p).value, rest)
  }

  /** The current token of the parser is this piece, and the cursor is right after it. */
  ghost predicate TokenIs(buf: string, s: State, p: Piece) {
    && p.IsToken() && IsTokenText(p.text) && s.token.Live() && s.token.kind == KindOf(p.text)
    && s.token.length == |p.text| && s.cur == s.token.start + |p.text| <= |buf|
    && buf[s.token.start..s.cur] == p.text
  }

  /** The current token is the first piece, and the others follow. */
  ghost predicate Reads(buf: string, s: State, script: Script) {
    && s.cur <= |buf|
    && match script
       case End => s.token.kind == EOF
       case Then(p, rest) => TokenIs(buf, s, p) && Spells(buf, s.cur, rest)
  }

  // ----- advance -----

  lemma SameToken(buf: string, cur: nat, token: Token)
    requires cur <= |buf|
    ensures var (t, c) := NextToken(buf, cur, START);
      NextToken(buf, cur, token) == (if t.Live() then t else token.(kind := t.kind), c)
  {
    PunctuatorsApart(At(buf, Span(buf, cur, IsWhitespace)));
    hide Punctuator, GetKeyWord;
  }

  /** The file ends after whitespace exactly if no token and no unknown character follows. */
  lemma EndOfRun(buf: string, cur: nat)
    requires cur <= |buf|
    ensures var (t, c) := NextToken(buf, cur, START);
      At(buf, Span(buf, cur, IsWhitespace)) == '\0' <==> !t.Live() && At(buf, c) == '\0'
  {
    PunctuatorsApart(At(buf, Span(buf, cur, IsWhitespace)));
    hide Punctuator, GetKeyWord;
  }

  lemma AdvanceReads(buf: string, s: State, script: Script)
    requires s.cur <= |buf| && Spells(buf, s.cur, script) && script.Advances()
    ensures Reads(buf, Advance(buf, s), script) && Advance(buf, s).custom == s.custom
    ensures script.Then? && script.piece.Joined? ==> Advance(buf, s).token.start == s.cur
  {
    SameToken(buf, s.cur, s.token);
    NextMeans(buf, s.cur, START);
    if script == End { EndOfRun(buf, s.cur); }
    hide NextToken, IsTokenText, KindOf, StartsToken, Span, IsWhitespace, Measure;
  }

  /** What is known of the current token, and that `advance` goes on to the next. */
  lemma ReadOne(buf: string, s: State, p: Piece, rest: Script)
    requires Reads(buf, s, Then(p, rest))
    ensures s.cur <= |buf| && IsTokenText(p.text) && Text(buf, s) == p.text
    ensures s.token.kind == KindOf(p.text) && s.token.Live() && Spells(buf, s.cur, rest)
    ensures rest.Advances() ==> Reads(buf, Advance(buf, s), rest) && Advance(buf, s).custom == s.custom
  {
    hide Spells, Advance, IsTokenText, KindOf;
    if rest.Advances() { AdvanceReads(buf, s, rest); }
  }

  function Sign(ch: char): Piece { Spaced([ch]) }

  lemma ReadSign(buf: string, s: State, ch: char, kind: TokenKind, rest: Script)
    requires Reads(buf, s, Then(Sign(ch), rest)) && Punctuator(ch) == Some(kind)
    ensures s.cur <= |buf| && Text(buf, s) == [ch] && s.token.kind == kind && Spells(buf, s.cur, rest)
    ensures rest.Advances() ==> Reads(buf, Advance(buf, s), rest) && Advance(buf, s).custom == s.custom
  {
    ReadOne(buf, s, Sign(ch), rest);
    SignKind(ch);
    hide Reads, Spells, Advance;
  }

  lemma SignKind(ch: char)
    requires Punctuator(ch).Some?
    ensures IsTokenText([ch]) && KindOf([ch]) == Punctuator(ch).value
  {
    PunctuatorsApart(ch);
  }

  lemma Keywords()
    ensures IsTokenText("rule") && KindOf("rule") == KW_RULE
    ensures IsTokenText("op") && KindOf("op") == KW_OP
    ensures IsTokenText("dialect") && KindOf("dialect") == KW_DIALECT
  {
  }

  lemma NameIsNoSign(s: string, ch: char)
    requires Name(s) && Punctuator(ch).Some?
    ensures s != [ch]
  {
    PunctuatorsApart(ch);
  }

  function Comma(comma: bool, rest: Script): (r: Script)
    ensures rest.Advances() ==> r.Advances()
  {
    if comma then Then(Sign(','), rest) else rest
  }

  lemma ReadComma(buf: string, s: State, comma: bool, rest: Script)
    requires Reads(buf, s, Comma(comma, rest)) && rest.Advances()
    requires !comma ==> rest.Then? && rest.piece.text != ","
    ensures s.cur <= |buf| && Reads(buf, Accept(buf, s, COMMA), rest) && Accept(buf, s, COMMA).custom == s.custom
  {
    hide Reads, Advance, IsTokenText, KindOf, Measure, Spells;
    if comma {
      ReadSign(buf, s, ',', COMMA, rest);
    } else {
      ReadOne(buf, s, rest.piece, rest.rest);
      NotASign(rest.piece.text, ',');
    }
  }

  /** The kind of a one-character token belongs to it alone. */
  lemma NotASign(text: string, ch: char)
    requires IsTokenText(text) && text != [ch] && Punctuator(ch).Some?
    ensures KindOf(text) != Punctuator(ch).value
  {
    PunctuatorsApart(text[0]);
    if !IsIdentifierBody(text[0]) { assert text == [text[0]]; }
  }

  // ----- raw scans -----

  lemma {:induction false} DepthShift(text: string, buf: string, lo: nat, open: char, close: char, k: nat)
    requires lo + |text| <= |buf| && buf[lo..lo + |text|] == text && k <= |text|
    ensures Depth(buf, open, close, lo, lo + k) == Depth(text, open, close, 0, k)
    decreases k
  {
    if k != 0 {
      DepthShift(text, buf, lo, open, close, k - 1);
      assert buf[lo..lo + |text|][k - 1] == buf[lo + k - 1];
    }
  }

  lemma MarkedShift(text: string, buf: string, lo: nat, open: char, close: char)
    requires lo + |text| <= |buf| && buf[lo..lo + |text|] == text && Marked(text, open, close, 0, |text|)
    ensures Marked(buf, open, close, lo, lo + |text|)
  {
    assert forall k :: lo <= k < lo + |text| ==> buf[k] == text[k - lo];
    forall k: nat | k <= |text| ensures Depth(buf, open, close, lo, lo + k) == Depth(text, open, close, 0, k) {
      DepthShift(text, buf, lo, open, close, k);
    }
    hide Depth;
    forall k | lo < k < lo + |text| && open != close ensures Depth(buf, open, close, lo, k) > 0 {
      assert Depth(buf, open, close, lo, lo + (k - lo)) == Depth(text, open, close, 0, k - lo);
    }
  }

  lemma RawPiece(buf: string, cur: nat, p: Piece, rest: Script)
    requires cur <= |buf| && Spells(buf, cur, Then(p, rest)) && !p.IsToken()
    ensures var at := if p.Enclosed? then Span(buf, cur, IsWhitespace) else cur;
      && at + |p.text| <= |buf| && buf[at..at + |p.text|] == p.text && Spells(buf, at + |p.text|, rest)
  {
    hide Span, IsWhitespace, NextToken;
  }

  /** getMarkContent on a marked text. */
  lemma ScanReads(buf: string, s: State, text: string, rest: Script, open: char, close: char)
    requires s.cur <= |buf| && Spells(buf, s.cur, Then(Enclosed(text), rest))
    requires Marked(text, open, close, 0, |text|) && open != '\0'
    ensures var r := Scan(buf, s, open, close);
      && r.o == Done && r.v == text && r.s == s.(cur := r.s.cur) && r.s.cur <= |buf| && Spells(buf, r.s.cur, rest)
  {
    hide Spells, PieceEnd, Span, Marked, Scan;
    RawPiece(buf, s.cur, Enclosed(text), rest);
    ScanFrom(buf, s, Span(buf, s.cur, IsWhitespace), text, open, close);
  }

  lemma ScanFrom(buf: string, s: State, p: nat, text: string, open: char, close: char)
    requires s.cur <= |buf| && p == Span(buf, s.cur, IsWhitespace) && p + |text| <= |buf| && buf[p..p + |text|] == text
    requires Marked(text, open, close, 0, |text|) && open != '\0'
    ensures Scan(buf, s, open, close) == Parsed(Done, s.(cur := p + |text|), text)
  {
    assert buf[p] == text[0] == open;
    MarkedShift(text, buf, p, open, close);
    assert At(buf, p) == open;
    hide Marked, IsWhitespace, Span, At, Scan;
    ScanIs(buf, s, p, open, close, p + |text|);
  }

  lemma ScanIs(buf: string, s: State, p: nat, open: char, close: char, e: nat)
    requires s.cur <= |buf| && p == Span(buf, s.cur, IsWhitespace) && At(buf, p) == open && open != '\0'
    requires p <= e <= |buf| && Marked(buf, open, close, p, e)
    ensures Scan(buf, s, open, close) == Parsed(Done, s.(cur := e), buf[p..e])
  {
    hide Marked, IsWhitespace, Span, At, Onward, Measure;
    OnlyEnd(buf, p, open, close, e);
  }

  lemma OnlyEnd(buf: string, lo: nat, open: char, close: char, hi: nat)
    requires Marked(buf, open, close, lo, hi)
    ensures forall e: nat :: Marked(buf, open, close, lo, e) ==> e == hi
  {
    hide Marked;
    forall e: nat | Marked(buf, open, close, lo, e) ensures e == hi {
      MarkedUnique(buf, open, close, lo, e, hi);
    }
  }

  /** The text ends at its first ch. */
  predicate EndsAtFirst(text: string, ch: char) {
    text != "" && text[|text| - 1] == ch && ch !in text[..|text| - 1]
  }

  /** getEndChContent on the very next characters. */
  lemma ScanToReads(buf: string, s: State, text: string, rest: Script, ch: char)
    requires s.cur <= |buf| && Spells(buf, s.cur, Then(Verbatim(text), rest))
    requires EndsAtFirst(text, ch) && s.token.start <= s.cur
    ensures var r := ScanTo(buf, s, ch);
      && s.cur + |text| <= |buf| && r == Parsed(Done, s.(cur := s.cur + |text|), buf[s.token.start..s.cur] + text)
      && Spells(buf, s.cur + |text|, rest)
  {
    hide Spells, PieceEnd, Span;
    RawPiece(buf, s.cur, Verbatim(text), rest);
    ScanToFrom(buf, s, text, ch);
  }

  lemma ScanToFrom(buf: string, s: State, text: string, ch: char)
    requires s.cur + |text| <= |buf| && buf[s.cur..s.cur + |text|] == text && EndsAtFirst(text, ch)
    requires s.token.start <= s.cur
    ensures ScanTo(buf, s, ch) == Parsed(Done, s.(cur := s.cur + |text|), buf[s.token.start..s.cur] + text)
  {
    var last := s.cur + |text| - 1;
    FirstInSlice(text, buf, s.cur, ch);
    FirstIs(buf, s.cur, ch, last);
    SliceInTwo(buf, s.token.start, s.cur, last + 1);
    hide UpTo;
  }

  lemma FirstInSlice(text: string, buf: string, lo: nat, ch: char)
    requires lo + |text| <= |buf| && buf[lo..lo + |text|] == text && EndsAtFirst(text, ch)
    ensures buf[lo + |text| - 1] == ch && ch !in buf[lo..lo + |text| - 1]
  {
    assert buf[lo..lo + |text| - 1] == text[..|text| - 1];
    assert buf[lo + |text| - 1] == buf[lo..lo + |text|][|text| - 1];
  }

  lemma SliceInTwo(buf: string, lo: nat, mid: nat, hi: nat)
    requires lo <= mid <= hi <= |buf|
    ensures buf[lo..hi] == buf[lo..mid] + buf[mid..hi]
  {
  }

  /** The text of joined tokens is the text itself. */
  lemma JoinText(buf: string, s: State, start: nat, before: string, p: Piece, rest: Script)
    requires s.cur <= |buf| && Spells(buf, s.cur, Then(p, rest)) && p.Joined?
    requires start <= s.cur && buf[start..s.cur] == before
    ensures var r := Advance(buf, s);
      && Reads(buf, r, Then(p, rest)) && r.custom == s.custom && r.token.length == |p.text|
      && start <= r.cur <= |buf| && buf[start..r.cur] == before + p.text
  {
    AdvanceReads(buf, s, Then(p, rest));
    hide Spells, Advance, IsTokenText, KindOf;
    var r := Advance(buf, s);
    SliceInTwo(buf, start, s.cur, r.cur);
  }

  // ----- scripts of tokens only -----

  predicate OnlyWords(script: Script) {
    match script
    case End => true
    case Then(p, rest) => p.Spaced? && OnlyWords(rest)
  }

  function PieceTexts(script: Script): seq<string> {
    match script
    case End => []
    case Then(p, rest) => [p.text] + PieceTexts(rest)
  }

  /** The texts of a run of tokens that ends the file. */
  ghost predicate RunIs(buf: string, run: (seq<Token>, nat), texts: seq<string>) {
    && |run.0| == |texts| && At(buf, run.1) == '\0'
    && forall k :: 0 <= k < |texts| ==> run.0[k].Within(buf) && run.0[k].Content(buf) == texts[k]
  }

  lemma RunIsMore(buf: string, t: Token, ts: seq<Token>, hi: nat, text: string, texts: seq<string>)
    ensures RunIs(buf, ([t] + ts, hi), [text] + texts) <==>
      t.Within(buf) && t.Content(buf) == text && RunIs(buf, (ts, hi), texts)
  {
    assert ([t] + ts)[0] == t && ([text] + texts)[0] == text;
    assert forall k :: 0 <= k < |ts| ==> ([t] + ts)[k + 1] == ts[k];
    assert forall k :: 0 <= k < |texts| ==> ([text] + texts)[k + 1] == texts[k];
  }

  /** A text spells a script of words exactly if these are the tokens of its run, which ends the file. */
  lemma {:induction false} WordsAreTheRun(buf: string, cur: nat, token: Token, script: Script)
    requires cur <= |buf| && OnlyWords(script)
    ensures Spells(buf, cur, script) <==> RunIs(buf, Run(buf, cur, token), PieceTexts(script))
    decreases script
  {
    SameToken(buf, cur, token);
    NextMeans(buf, cur, START);
    EndOfRun(buf, cur);
    var (t, c) := NextToken(buf, cur, token);
    if script.Then? && t.Live() {
      WordsAreTheRun(buf, c, t, script.rest);
      var (ts, hi) := Run(buf, c, t);
      RunIsMore(buf, t, ts, hi, script.piece.text, PieceTexts(script.rest));
      assert t.Within(buf);
      hide RunIs;
    }
    hide NextToken, IsTokenText, KindOf, StartsToken, Span, IsWhitespace;
  }
}
