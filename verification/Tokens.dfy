/** What a whole run of Lexer::next produces. */
module Tokens {
  import opened Lexing

  /** The tokens `next` forms from cur until it stops forming any, and where it stops. */
  function Run(buf: string, cur: nat, token: Token): (r: (seq<Token>, nat))
    requires cur <= |buf|
    decreases |buf| - cur
  {
    var (t, c) := NextToken(buf, cur, token);
    NextMeans(buf, cur, token);
    if !t.Live() then ([], c)
    else
      var (ts, e) := Run(buf, c, t);
      ([t] + ts, e)
  }

  ghost predicate Blank(buf: string, lo: nat, hi: nat)
    requires hi <= |buf|
  {
    lo <= hi && forall k :: lo <= k < hi ==> IsWhitespace(buf[k])
  }

  /** t is a token of the text, as long as it can be. */
  ghost predicate Maximal(buf: string, t: Token) {
    && t.Within(buf) && IsTokenText(t.Content(buf)) && t.kind == KindOf(t.Content(buf))
    && (IsIdentifierHead(buf[t.start]) ==> !IsIdentifierBody(At(buf, t.start + t.length)))
    && (IsDigit(buf[t.start]) ==> !IsDigit(At(buf, t.start + t.length)))
  }

  /** buf[lo..hi] is whitespace and the given tokens in order, each maximal, and nothing else;
      no token and no whitespace follows. */
  ghost predicate Tiling(buf: string, lo: nat, ts: seq<Token>, hi: nat)
    requires lo <= |buf| && hi <= |buf|
    decreases |ts|
  {
    if ts == [] then Blank(buf, lo, hi) && !StartsToken(At(buf, hi)) && !IsWhitespace(At(buf, hi))
    else
      && Maximal(buf, ts[0]) && Blank(buf, lo, ts[0].start)
      && Tiling(buf, ts[0].start + ts[0].length, ts[1..], hi)
  }

  lemma WordToken(buf: string, lo: nat, t: Token, last: Token)
    requires lo <= |buf| && Maximal(buf, t) && Blank(buf, lo, t.start) && IsIdentifierHead(buf[t.start])
    ensures NextToken(buf, lo, last) == (t, t.start + t.length)
  {
    var text, end := t.Content(buf), t.start + t.length;
    assert text[0] == buf[t.start];
    assert forall k :: t.start <= k < end ==> buf[k] == text[k - t.start];
    SpanIs(buf, lo, IsWhitespace, t.start);
    SpanIs(buf, t.start + 1, IsIdentifierBody, end);
    hide Punctuator, GetKeyWord, Span;
  }

  lemma NumberToken(buf: string, lo: nat, t: Token, last: Token)
    requires lo <= |buf| && Maximal(buf, t) && Blank(buf, lo, t.start) && IsDigit(buf[t.start])
    ensures NextToken(buf, lo, last) == (t, t.start + t.length)
  {
    var text, end := t.Content(buf), t.start + t.length;
    assert text[0] == buf[t.start];
    assert forall k :: t.start <= k < end ==> buf[k] == text[k - t.start];
    SpanIs(buf, lo, IsWhitespace, t.start);
    SpanIs(buf, t.start + 1, IsDigit, end);
    hide Punctuator, GetKeyWord, Span;
  }

  lemma PunctuatorToken(buf: string, lo: nat, t: Token, last: Token)
    requires lo <= |buf| && Maximal(buf, t) && Blank(buf, lo, t.start) && !IsIdentifierBody(buf[t.start])
    ensures NextToken(buf, lo, last) == (t, t.start + t.length)
  {
    var text := t.Content(buf);
    assert text[0] == buf[t.start];
    PunctuatorsApart(text[0]);
    SpanIs(buf, lo, IsWhitespace, t.start);
    hide Punctuator, GetKeyWord, Span;
  }

  lemma OneToken(buf: string, lo: nat, t: Token, last: Token)
    requires lo <= |buf| && Maximal(buf, t) && Blank(buf, lo, t.start)
    ensures NextToken(buf, lo, last) == (t, t.start + t.length)
  {
    hide Punctuator, GetKeyWord, Span, NextToken, KindOf;
    if IsIdentifierHead(buf[t.start]) {
      WordToken(buf, lo, t, last);
    } else if IsDigit(buf[t.start]) {
      NumberToken(buf, lo, t, last);
    } else {
      PunctuatorToken(buf, lo, t, last);
    }
  }

  lemma SpanIs(buf: string, i: nat, p: char -> bool, e: nat)
    requires i <= e <= |buf| && (forall k :: i <= k < e ==> p(buf[k])) && (e < |buf| ==> !p(buf[e]))
    ensures Span(buf, i, p) == e
  {
  }

  lemma NoToken(buf: string, lo: nat, hi: nat, token: Token)
    requires lo <= |buf| && hi <= |buf| && Blank(buf, lo, hi)
    requires !StartsToken(At(buf, hi)) && !IsWhitespace(At(buf, hi))
    ensures var (t, c) := NextToken(buf, lo, token); !t.Live() && c == hi
  {
    hide Punctuator;
    SpanIs(buf, lo, IsWhitespace, hi);
  }

  lemma {:induction false} TilingIsRun(buf: string, lo: nat, token: Token, ts: seq<Token>, hi: nat)
    requires lo <= |buf| && hi <= |buf| && Tiling(buf, lo, ts, hi)
    ensures (ts, hi) == Run(buf, lo, token)
    decreases |ts|
  {
    hide NextToken, Maximal, StartsToken, Punctuator;
    if ts == [] {
      NoToken(buf, lo, hi, token);
    } else {
      OneToken(buf, lo, ts[0], token);
      LiveWhenMaximal(buf, ts[0]);
      NextMeans(buf, lo, token);
      TilingIsRun(buf, ts[0].start + ts[0].length, ts[0], ts[1..], hi);
      assert [ts[0]] + ts[1..] == ts;
    }
  }

  lemma LiveWhenMaximal(buf: string, t: Token)
    requires Maximal(buf, t)
    ensures t.Live()
  {
    PunctuatorsApart(t.Content(buf)[0]);
    hide Punctuator;
  }

  lemma {:induction false} RunTiles(buf: string, lo: nat, token: Token)
    requires lo <= |buf|
    ensures var (ts, hi) := Run(buf, lo, token); hi <= |buf| && Tiling(buf, lo, ts, hi)
    decreases |buf| - lo
  {
    hide NextToken, StartsToken, IsTokenText, Punctuator, KindOf;
    var (t, c) := NextToken(buf, lo, token);
    NextMeans(buf, lo, token);
    if t.Live() {
      RunTiles(buf, c, t);
      var (us, e) := Run(buf, c, t);
      assert ([t] + us)[1..] == us;
    }
  }

  /** A run yields exactly the one tiling of the text: tokens are disjoint, increasing, separated
      by whitespace only and maximal, and no other division of the text is. */
  lemma RunIsTiling(buf: string, lo: nat, token: Token, ts: seq<Token>, hi: nat)
    requires lo <= |buf| && hi <= |buf|
    ensures Tiling(buf, lo, ts, hi) <==> (ts, hi) == Run(buf, lo, token)
  {
    RunTiles(buf, lo, token);
    if Tiling(buf, lo, ts, hi) {
      TilingIsRun(buf, lo, token, ts, hi);
    }
  }
}
