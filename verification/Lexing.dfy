/** Lexer.cpp of the frontend generator: a cursor over a NUL-terminated buffer. */
module Lexing {
  import opened Options

  // ----- characters -----

  predicate IsAscii(ch: char) { ch as int <= 127 }

  predicate IsWhitespace(ch: char) {
    IsAscii(ch) && (ch == ' ' || ch == '\t' || ch == '\U{000C}' || ch == '\U{000B}' || ch == '\r' || ch == '\n')
  }

  predicate IsIdentifierHead(ch: char) {
    IsAscii(ch) && (ch == '_' || 'a' <= ch <= 'z' || 'A' <= ch <= 'Z')
  }

  predicate IsDigit(ch: char) { IsAscii(ch) && '0' <= ch <= '9' }

  predicate IsIdentifierBody(ch: char) { IsIdentifierHead(ch) || IsDigit(ch) }

  /** Reading through a pointer into the buffer; the terminator follows the last character. */
  function At(buf: string, i: nat): char { if i < |buf| then buf[i] else '\0' }

  // ----- tokens -----

  /** The enumeration of Token.def, in its order. */
  newtype TokenKind = k: int | 0 <= k < 25

  const UNKNOWN: TokenKind := 0
  const EOF: TokenKind := 1
  const IDENTIFIER: TokenKind := 2
  const NUMBER: TokenKind := 3
  const SEMI: TokenKind := 4
  const COLON: TokenKind := 5
  const APOSTROPHE: TokenKind := 6
  const ASTERISK: TokenKind := 7
  const PARENTHESE_OPEN: TokenKind := 8
  const PARENTHESE_CLOSE: TokenKind := 9
  const QUESTION_MARK: TokenKind := 10
  const PLUS: TokenKind := 11
  const EQUAL: TokenKind := 12
  const CURLY_BRACKET_OPEN: TokenKind := 13
  const CURLY_BRACKET_CLOSE: TokenKind := 14
  const DOLLAR: TokenKind := 15
  const COMMA: TokenKind := 16
  const ANGLE_BRACKET_OPEN: TokenKind := 17
  const ANGLE_BRACKET_CLOSE: TokenKind := 18
  const SQUARE_BRACKET_OPEN: TokenKind := 19
  const SQUARE_BRACKET_CLOSE: TokenKind := 20
  const DOUBLE_QUOTATION_MARK: TokenKind := 21
  const KW_RULE: TokenKind := 22
  const KW_OP: TokenKind := 23
  const KW_DIALECT: TokenKind := 24

  datatype Token = Token(kind: TokenKind, start: nat, length: nat)
  {
    /** `next` formed this token, rather than leaving an old one with a new kind. */
    predicate Live() { kind != EOF && kind != UNKNOWN }

    predicate Within(buf: string) { start + length <= |buf| }

    function Content(buf: string): string
      requires Within(buf)
    {
      buf[start..start + length]
    }
  }

  function Punctuator(ch: char): Option<TokenKind> {
    match ch
    case ';' => Some(SEMI)
    case ':' => Some(COLON)
    case '\'' => Some(APOSTROPHE)
    case '(' => Some(PARENTHESE_OPEN)
    case ')' => Some(PARENTHESE_CLOSE)
    case '*' => Some(ASTERISK)
    case '?' => Some(QUESTION_MARK)
    case '+' => Some(PLUS)
    case '=' => Some(EQUAL)
    case '{' => Some(CURLY_BRACKET_OPEN)
    case '}' => Some(CURLY_BRACKET_CLOSE)
    case '$' => Some(DOLLAR)
    case ',' => Some(COMMA)
    case '<' => Some(ANGLE_BRACKET_OPEN)
    case '>' => Some(ANGLE_BRACKET_CLOSE)
    case '[' => Some(SQUARE_BRACKET_OPEN)
    case ']' => Some(SQUARE_BRACKET_CLOSE)
    case '\"' => Some(DOUBLE_QUOTATION_MARK)
    case _ => None
  }

  function GetKeyWord(name: string): TokenKind {
    if name == "rule" then KW_RULE
    else if name == "op" then KW_OP
    else if name == "dialect" then KW_DIALECT
    else IDENTIFIER
  }

  // ----- what `next` does, as a function of the cursor and the old token -----

  /** The first position from i on where p fails. */
  function Span(buf: string, i: nat, p: char -> bool): (e: nat)
    requires i <= |buf|
    ensures i <= e <= |buf| && (forall k :: i <= k < e ==> p(buf[k])) && (e < |buf| ==> !p(buf[e]))
    decreases |buf| - i
  {
    if i < |buf| && p(buf[i]) then Span(buf, i + 1, p) else i
  }

  function NextToken(buf: string, cur: nat, token: Token): (r: (Token, nat))
    requires cur <= |buf|
  {
    var p := Span(buf, cur, IsWhitespace);
    var ch := At(buf, p);
    if ch == '\0' then (token.(kind := EOF), p)
    else if IsIdentifierHead(ch) then
      var e := Span(buf, p + 1, IsIdentifierBody);
      (Token(GetKeyWord(buf[p..e]), p, e - p), e)
    else if IsDigit(ch) then
      var e := Span(buf, p + 1, IsDigit);
      (Token(NUMBER, p, e - p), e)
    else match Punctuator(ch)
      case Some(kind) => (Token(kind, p, 1), p + 1)
      case None => (token.(kind := UNKNOWN), p)
  }

  /** A character that can start a token. */
  predicate StartsToken(ch: char) { IsIdentifierHead(ch) || IsDigit(ch) || Punctuator(ch).Some? }

  /** The text of some token: an identifier or keyword, a number, or a punctuator. */
  predicate IsTokenText(s: string) {
    && s != "" && StartsToken(s[0])
    && if IsIdentifierHead(s[0]) then forall k :: 0 <= k < |s| ==> IsIdentifierBody(s[k])
       else if IsDigit(s[0]) then forall k :: 0 <= k < |s| ==> IsDigit(s[k])
       else |s| == 1
  }

  function KindOf(s: string): TokenKind
    requires IsTokenText(s)
  {
    if IsIdentifierHead(s[0]) then GetKeyWord(s)
    else if IsDigit(s[0]) then NUMBER
    else Punctuator(s[0]).value
  }

  /** The characters by their ASCII codes. */
  lemma Characters(ch: char)
    ensures IsWhitespace(ch) <==> ch as int == 32 || 9 <= ch as int <= 13
    ensures IsIdentifierHead(ch) <==> 65 <= ch as int <= 90 || 97 <= ch as int <= 122 || ch as int == 95
    ensures IsDigit(ch) <==> 48 <= ch as int <= 57
  {
  }

  /** The signs in the order of their kinds. */
  const SIGNS: string := ";:'*()?+={}$,<>[]\""

  /** A sign's kind is its place in the list, and nothing else is a sign. */
  lemma SignKinds(ch: char, kind: TokenKind)
    ensures Punctuator(ch) == Some(kind) <==> SEMI <= kind <= DOUBLE_QUOTATION_MARK && SIGNS[kind as int - 4] == ch
  {
  }

  /** An identifier that is not a keyword. */
  ghost predicate Name(s: string) { IsTokenText(s) && KindOf(s) == IDENTIFIER }

  lemma PunctuatorsApart(ch: char)
    ensures Punctuator(ch).Some? ==>
      && !IsIdentifierBody(ch) && !IsWhitespace(ch) && ch != '\0'
      && Punctuator(ch).value != EOF && Punctuator(ch).value != UNKNOWN
  {
  }

  lemma WordText(buf: string, p: nat, e: nat)
    requires p < e <= |buf|
    requires if IsIdentifierHead(buf[p]) then forall k :: p <= k < e ==> IsIdentifierBody(buf[k])
             else if IsDigit(buf[p]) then forall k :: p <= k < e ==> IsDigit(buf[k])
             else e == p + 1 && Punctuator(buf[p]).Some?
    ensures IsTokenText(buf[p..e])
    ensures KindOf(buf[p..e]) == if IsIdentifierHead(buf[p]) then GetKeyWord(buf[p..e])
                                 else if IsDigit(buf[p]) then NUMBER else Punctuator(buf[p]).value
  {
    hide GetKeyWord, Punctuator;
    var text := buf[p..e];
    assert text[0] == buf[p] && forall k :: 0 <= k < |text| ==> text[k] == buf[p + k];
  }

  /** Everything a caller may rely on: a live token is separated from the old cursor by
      whitespace only, ends at the new cursor, has the kind its text determines and cannot be
      extended; otherwise the old span is kept and no token starts at the new cursor. */
  lemma NextMeans(buf: string, cur: nat, token: Token)
    requires cur <= |buf|
    ensures var (t, c) := NextToken(buf, cur, token);
      && cur <= c <= |buf|
      && if t.Live() then
           && cur <= t.start < c == t.start + t.length
           && (forall k :: cur <= k < t.start ==> IsWhitespace(buf[k]))
           && IsTokenText(t.Content(buf)) && t.kind == KindOf(t.Content(buf))
           && (IsIdentifierHead(buf[t.start]) ==> !IsIdentifierBody(At(buf, c)))
           && (IsDigit(buf[t.start]) ==> !IsDigit(At(buf, c)))
         else
           && (forall k :: cur <= k < c ==> IsWhitespace(buf[k]))
           && t == token.(kind := t.kind)
           && !StartsToken(At(buf, c)) && !IsWhitespace(At(buf, c))
           && (t.kind == EOF <==> At(buf, c) == '\0')
  {
    var p := Span(buf, cur, IsWhitespace);
    var (t, c) := NextToken(buf, cur, token);
    PunctuatorsApart(At(buf, p));
    hide Punctuator, GetKeyWord, IsTokenText, KindOf;
    if IsIdentifierHead(At(buf, p)) {
      WordText(buf, p, c);
    } else if IsDigit(At(buf, p)) {
      WordText(buf, p, c);
    } else if Punctuator(At(buf, p)).Some? && At(buf, p) != '\0' {
      WordText(buf, p, c);
    }
  }

  /** `eof` and `unknown` are fixed points: the cursor stays and the kind repeats. */
  lemma DeadEnd(buf: string, cur: nat, token: Token, again: Token)
    requires cur <= |buf| && !NextToken(buf, cur, token).0.Live()
    ensures var (t, c) := NextToken(buf, cur, token);
      NextToken(buf, c, again) == (again.(kind := t.kind), c)
  {
    NextMeans(buf, cur, token);
    var c := NextToken(buf, cur, token).1;
    assert Span(buf, c, IsWhitespace) == c;
  }

  /** How a call ends: normally, with an uncaught C++ exception, or by running off the buffer. */
  datatype Outcome = Done | Threw | Overran

  /** Opening marks minus closing marks in buf[lo..hi]. */
  function Depth(buf: string, open: char, close: char, lo: nat, hi: nat): int
    requires lo <= hi <= |buf|
    decreases hi
  {
    if lo == hi then 0
    else Depth(buf, open, close, lo, hi - 1) +
         (if buf[hi - 1] == open then 1 else 0) - (if buf[hi - 1] == close then 1 else 0)
  }

  /** buf[lo..hi] runs from a mark to the mark that closes it. */
  ghost predicate Marked(buf: string, open: char, close: char, lo: nat, hi: nat) {
    && lo + 2 <= hi <= |buf| && buf[lo] == open && buf[hi - 1] == close
    && if open == close then forall k :: lo < k < hi - 1 ==> buf[k] != close
       else Depth(buf, open, close, lo, hi) == 0 &&
            forall k :: lo < k < hi ==> Depth(buf, open, close, lo, k) > 0
  }

  class Lexer {
    const buf: string
    var cur: nat

    constructor (buf: string)
      ensures this.buf == buf && cur == 0
    {
      this.buf := buf;
      cur := 0;
    }

    ghost predicate Valid()
      reads this
    {
      cur <= |buf|
    }

    method SkipWhitespace()
      requires Valid()
      modifies this
      ensures Valid() && cur == Span(buf, old(cur), IsWhitespace)
    {
      while At(buf, cur) != '\0' && IsWhitespace(At(buf, cur))
        invariant Valid() && Span(buf, cur, IsWhitespace) == Span(buf, old(cur), IsWhitespace)
        decreases |buf| - cur
      {
        cur := cur + 1;
      }
    }

    method FormToken(tokenEnd: nat, kind: TokenKind) returns (t: Token)
      requires Valid() && cur <= tokenEnd <= |buf|
      modifies this
      ensures Valid() && t == Token(kind, old(cur), tokenEnd - old(cur)) && cur == tokenEnd
    {
      t := Token(kind, cur, tokenEnd - cur);
      cur := tokenEnd;
    }

    method ScanIdentifier() returns (t: Token)
      requires Valid() && cur < |buf|
      modifies this
      ensures Valid() && cur == Span(buf, old(cur) + 1, IsIdentifierBody)
      ensures t == Token(GetKeyWord(buf[old(cur)..cur]), old(cur), cur - old(cur))
    {
      var end := cur + 1;
      while IsIdentifierBody(At(buf, end))
        invariant cur < end <= |buf| && Span(buf, end, IsIdentifierBody) == Span(buf, cur + 1, IsIdentifierBody)
        decreases |buf| - end
      {
        end := end + 1;
      }
      t := FormToken(end, GetKeyWord(buf[cur..end]));
    }

    method ScanNumber() returns (t: Token)
      requires Valid() && cur < |buf|
      modifies this
      ensures Valid() && cur == Span(buf, old(cur) + 1, IsDigit)
      ensures t == Token(NUMBER, old(cur), cur - old(cur))
    {
      var end := cur + 1;
      while IsDigit(At(buf, end))
        invariant cur < end <= |buf| && Span(buf, end, IsDigit) == Span(buf, cur + 1, IsDigit)
        decreases |buf| - end
      {
        end := end + 1;
      }
      t := FormToken(end, NUMBER);
    }

    method Next(token: Token) returns (t: Token)
      requires Valid()
      modifies this
      ensures Valid() && (t, cur) == NextToken(buf, old(cur), token)
    {
      SkipWhitespace();
      var ch := At(buf, cur);
      if ch == '\0' {
        return token.(kind := EOF);
      }
      if IsIdentifierHead(ch) {
        t := ScanIdentifier();
      } else if IsDigit(ch) {
        t := ScanNumber();
      } else if Punctuator(ch).Some? {
        t := FormToken(cur + 1, Punctuator(ch).value);
      } else {
        t := token.(kind := UNKNOWN);
      }
    }

    /** The position of ch in marks, or -1. */
    method Find(marks: string, ch: char) returns (index: int)
      ensures -1 <= index < |marks|
      ensures if index == -1 then ch !in marks else marks[index] == ch && ch !in marks[..index]
    {
      index := 0;
      while index < |marks|
        invariant 0 <= index <= |marks| && ch !in marks[..index]
      {
        if marks[index] == ch { return; }
        index := index + 1;
      }
      index := -1;
    }

    /** Returns the marked text at the cursor and moves past it.  It runs off the buffer exactly
        when the opening mark is never closed. */
    method GetMarkContent(open: string, close: string) returns (o: Outcome, content: string)
      requires Valid() && |open| <= |close| && '\0' !in open
      modifies this
      ensures Valid() && old(cur) <= Span(buf, old(cur), IsWhitespace) <= cur
      ensures var p := Span(buf, old(cur), IsWhitespace);
        if At(buf, p) !in open then o == Done && content == "" && cur == p
        else exists index ::
          && 0 <= index < |open| && open[index] == buf[p] && buf[p] !in open[..index]
          && if o == Done then content == buf[p..cur] && Marked(buf, open[index], close[index], p, cur)
             else o == Overran && forall e :: p <= e <= |buf| ==> !Marked(buf, open[index], close[index], p, e)
    {
      content := "";
      SkipWhitespace();
      var index := Find(open, At(buf, cur));
      if index == -1 {
        return Done, "";
      }
      var s, e := open[index], close[index];
      var endPtr := cur + 1;
      var number := 1;
      if s == e {
        while At(buf, endPtr) != e
          invariant cur < endPtr <= |buf| && forall k :: cur < k < endPtr ==> buf[k] != e
          decreases |buf| - endPtr
        {
          if endPtr == |buf| { return Overran, ""; }
          endPtr := endPtr + 1;
        }
        if endPtr == |buf| { return Overran, ""; }
      } else {
        while number != 0
          invariant cur < endPtr <= |buf|
          invariant number != 0 ==> number == Depth(buf, s, e, cur, endPtr)
          invariant number == 0 ==> endPtr < |buf| && buf[endPtr] == e && Depth(buf, s, e, cur, endPtr) == 1
          invariant 0 <= number && forall k :: cur < k <= endPtr ==> Depth(buf, s, e, cur, k) > 0
          decreases |buf| - endPtr, number
        {
          if endPtr == |buf| { return Overran, ""; }
          if buf[endPtr] == s { number := number + 1; }
          if buf[endPtr] == e { number := number - 1; }
          if number != 0 { endPtr := endPtr + 1; }
        }
      }
      endPtr := endPtr + 1;
      o, content := Done, buf[cur..endPtr];
      cur := endPtr;
    }

    /** Moves past the next ch and returns the text from `start` to there.  It runs off the buffer
        exactly when there is no ch. */
    method GetEndChContent(start: nat, ch: char) returns (o: Outcome, content: string)
      requires Valid() && start <= cur && ch != '\0'
      modifies this
      ensures Valid() && old(cur) <= cur
      ensures o == Done ==>
        old(cur) < cur && buf[cur - 1] == ch && ch !in buf[old(cur)..cur - 1] && content == buf[start..cur]
      ensures o != Done ==> o == Overran && ch !in buf[old(cur)..]
    {
      content := "";
      var endPtr := cur;
      while At(buf, endPtr) != ch
        invariant cur <= endPtr <= |buf| && ch !in buf[cur..endPtr]
        decreases |buf| - endPtr
      {
        if endPtr == |buf| { return Overran, ""; }
        endPtr := endPtr + 1;
      }
      endPtr := endPtr + 1;
      cur := endPtr;
      return Done, buf[start..endPtr];
    }
  }
}
