/** The operands of a DAG: text put together from token lengths, bracket counts and raw scans. */
module OperandSpec {
  import opened Lexing
  import opened GeneratorSpec

  ghost predicate NoSpace(buf: string, lo: nat, hi: nat)
    requires hi <= |buf|
  {
    forall k :: lo <= k < hi ==> !IsWhitespace(buf[k])
  }

  /** `len` characters were counted for buf[lo..hi]: all of them exactly if there is no whitespace. */
  ghost predicate Counted(buf: string, lo: nat, hi: nat, len: nat) {
    && lo <= hi <= |buf| && len <= hi - lo
    && (len == hi - lo <==> NoSpace(buf, lo, hi))
  }

  lemma TokenTextHasNoSpace(s: string)
    requires IsTokenText(s)
    ensures forall k :: 0 <= k < |s| ==> !IsWhitespace(s[k])
  {
    PunctuatorsApart(s[0]);
    hide Punctuator;
  }

  lemma SliceHasNoSpace(buf: string, start: nat, end: nat)
    requires start <= end <= |buf| && forall k :: 0 <= k < end - start ==> !IsWhitespace(buf[start..end][k])
    ensures NoSpace(buf, start, end)
  {
    hide IsWhitespace;
    forall k | start <= k < end ensures !IsWhitespace(buf[k]) {
      assert buf[start..end][k - start] == buf[k];
    }
  }

  lemma CountMore(buf: string, lo: nat, len: nat, cur: nat, start: nat, end: nat)
    requires Counted(buf, lo, cur, len) && cur <= start < end <= |buf|
    requires (forall k :: cur <= k < start ==> IsWhitespace(buf[k])) && NoSpace(buf, start, end)
    ensures Counted(buf, lo, end, len + (end - start))
  {
    hide IsWhitespace;
    if cur < start { assert IsWhitespace(buf[cur]); }
  }

  /** Counting one more token. */
  lemma CountToken(buf: string, lo: nat, len: nat, s: State)
    requires Ok(buf, s) && Counted(buf, lo, s.cur, len)
    ensures var r := Advance(buf, s); r.token.Live() ==>
      Counted(buf, lo, r.cur, len + r.token.length) && r.cur == r.token.start + r.token.length
  {
    NextMeans(buf, s.cur, s.token);
    var r := Advance(buf, s);
    if r.token.Live() {
      TokenTextHasNoSpace(r.token.Content(buf));
      hide IsTokenText, IsWhitespace, NextToken, Counted;
      SliceHasNoSpace(buf, r.token.start, r.cur);
      CountMore(buf, lo, len, s.cur, r.token.start, r.cur);
    }
  }

  /** StringRef(start, length): characters from the terminator on read as '\0'. */
  function Slice(buf: string, start: nat, length: nat): (s: string)
    ensures |s| == length
    ensures start + length <= |buf| ==> s == buf[start..start + length]
  {
    if start + length <= |buf| then buf[start..start + length]
    else seq(length, k requires 0 <= k => At(buf, start + k))
  }

  predicate IsBracket(kind: TokenKind) {
    || kind == ANGLE_BRACKET_OPEN || kind == ANGLE_BRACKET_CLOSE
    || kind == SQUARE_BRACKET_OPEN || kind == SQUARE_BRACKET_CLOSE
  }

  /** A one-character token. */
  lemma OneCharacter(buf: string, s: State)
    requires Ok(buf, s) && IsBracket(s.token.kind)
    ensures s.token.length == 1
  {
  }

  /** A bracket closes just before `end`, and the operand is the source text up to there exactly if
      there is no whitespace inside it. */
  ghost predicate TypeOperand(buf: string, start: nat, operand: string, end: nat) {
    && start < end <= |buf| && buf[end - 1] == '>'
    && (operand == buf[start..end] <==> NoSpace(buf, start, end))
  }

  /** From the last token of the type to the closing bracket, `len` characters being counted already:
      the state after it, the operand, whether the bracket was closed, and where. */
  function AfterType(buf: string, start: nat, len: nat, s: State): (r: (State, string, bool, nat))
    requires s.cur <= |buf|
    ensures r.0.cur <= |buf| && Measure(buf, r.0) <= Measure(buf, s) && r.0.custom == s.custom
  {
    var s1 := Advance(buf, s);
    var s2 := Accept(buf, s1, SQUARE_BRACKET_CLOSE);
    var brackets := 1 + if s1.token.kind == SQUARE_BRACKET_CLOSE then 1 else 0;
    (Accept(buf, s2, ANGLE_BRACKET_CLOSE), Slice(buf, start, len + brackets),
     s2.token.kind == ANGLE_BRACKET_CLOSE, s2.cur)
  }

  /** The same from the token before the type on. */
  function Parameter(buf: string, start: nat, len: nat, s: State): (r: (State, string, bool, nat))
    requires s.cur <= |buf|
    ensures r.0.cur <= |buf| && Measure(buf, r.0) <= Measure(buf, s) && r.0.custom == s.custom
  {
    var s1 := Advance(buf, s);
    AfterType(buf, start, len + s1.token.length, s1)
  }

  /** parserDAG on a TableGen type. */
  function TypeOperandSpec(buf: string, s: State): (r: (State, string, bool, nat))
    requires s.cur <= |buf| && s.token.Live()
    ensures r.0.cur <= |buf| && Measure(buf, r.0) < Measure(buf, s) && r.0.custom == s.custom
  {
    var s1 := Advance(buf, s);
    var s2 := Advance(buf, s1);
    if s1.token.kind != ANGLE_BRACKET_OPEN then (s1, Text(buf, s), false, 0)
    else if s2.token.kind == SQUARE_BRACKET_OPEN then Parameter(buf, s.token.start, s.token.length + 2, s2)
    else Parameter(buf, s.token.start, s.token.length + 1, s1)
  }

  lemma StartCounting(buf: string, s: State)
    requires Ok(buf, s) && s.token.Live() && s.cur == s.token.start + s.token.length
    ensures Counted(buf, s.token.start, s.cur, s.token.length)
  {
    TokenTextHasNoSpace(s.token.Content(buf));
    hide IsTokenText, IsWhitespace;
    assert forall k :: s.token.start <= k < s.cur ==> buf[k] == s.token.Content(buf)[k - s.token.start];
  }

  lemma StaysDead(buf: string, s: State)
    requires s.cur <= |buf| && !Advance(buf, s).token.Live()
    ensures !Advance(buf, Advance(buf, s)).token.Live()
  {
    DeadEnd(buf, s.cur, s.token, Advance(buf, s).token);
    hide NextToken;
  }

  lemma CloseOperand(buf: string, start: nat, len: nat, s: State)
    requires Ok(buf, s) && s.token.kind == ANGLE_BRACKET_CLOSE && s.cur == s.token.start + 1 && s.token.length == 1
    requires Counted(buf, start, s.cur, len) && 0 < len
    ensures TypeOperand(buf, start, Slice(buf, start, len), s.cur)
  {
    assert s.token.Content(buf)[0] == buf[s.token.start];
    hide NoSpace, IsWhitespace;
  }

  /** Counting one more bracket. */
  lemma CountBracket(buf: string, lo: nat, len: nat, s: State)
    requires Ok(buf, s) && Counted(buf, lo, s.cur, len)
    ensures var r := Advance(buf, s);
      IsBracket(r.token.kind) ==>
        Counted(buf, lo, r.cur, len + 1) && r.token.length == 1 && r.cur == r.token.start + 1
  {
    CountToken(buf, lo, len, s);
    AdvanceOk(buf, s);
    hide Counted, Advance;
    if IsBracket(Advance(buf, s).token.kind) {
      OneCharacter(buf, Advance(buf, s));
    }
  }

  /** The bracket right after the counted text. */
  lemma CloseNow(buf: string, start: nat, len: nat, s: State)
    requires Ok(buf, s) && Counted(buf, start, s.cur, len)
    ensures var r := Advance(buf, s);
      r.token.kind == ANGLE_BRACKET_CLOSE ==> TypeOperand(buf, start, Slice(buf, start, len + 1), r.cur)
  {
    AdvanceOk(buf, s);
    CountBracket(buf, start, len, s);
    hide Ok, Advance, Counted, TypeOperand, Slice;
    if Advance(buf, s).token.kind == ANGLE_BRACKET_CLOSE {
      CloseOperand(buf, start, len + 1, Advance(buf, s));
    }
  }

  /** The parameter's last token has been counted. */
  lemma CloseAfter(buf: string, start: nat, len: nat, s: State)
    requires Ok(buf, s) && Counted(buf, start, s.cur, len)
    ensures var r := Advance(buf, s);
      && (r.token.kind == ANGLE_BRACKET_CLOSE ==> TypeOperand(buf, start, Slice(buf, start, len + 1), r.cur))
      && (r.token.kind == SQUARE_BRACKET_CLOSE && Advance(buf, r).token.kind == ANGLE_BRACKET_CLOSE ==>
            TypeOperand(buf, start, Slice(buf, start, len + 2), Advance(buf, r).cur))
  {
    CloseNow(buf, start, len, s);
    AdvanceOk(buf, s);
    CountBracket(buf, start, len, s);
    hide Ok, Advance, Counted, TypeOperand, Slice;
    if Advance(buf, s).token.kind == SQUARE_BRACKET_CLOSE {
      CloseNow(buf, start, len + 1, Advance(buf, s));
    }
  }

  lemma AfterTypeMeans(buf: string, start: nat, len: nat, s: State)
    requires Ok(buf, s) && Counted(buf, start, s.cur, len)
    ensures var r := AfterType(buf, start, len, s); r.2 ==> TypeOperand(buf, start, r.1, r.3)
  {
    CloseAfter(buf, start, len, s);
    assert s.cur <= |buf|;
    hide Ok, Advance, Counted, TypeOperand, Slice, Measure;
  }

  /** A bracket cannot close after eof or an unknown character. */
  lemma DeadParameter(buf: string, start: nat, len: nat, s: State)
    requires s.cur <= |buf| && !Advance(buf, s).token.Live()
    ensures !Parameter(buf, start, len, s).2
  {
    StaysDead(buf, s);
    hide Advance, Slice, Measure;
  }

  lemma ParameterMeans(buf: string, start: nat, len: nat, s: State)
    requires Ok(buf, s) && Counted(buf, start, s.cur, len)
    ensures var r := Parameter(buf, start, len, s); r.2 ==> TypeOperand(buf, start, r.1, r.3)
  {
    assert s.cur <= |buf|;
    hide Ok, Advance, Counted, TypeOperand, Slice, Measure, AfterType;
    if Advance(buf, s).token.Live() {
      AdvanceOk(buf, s);
      CountToken(buf, start, len, s);
      AfterTypeMeans(buf, start, len + Advance(buf, s).token.length, Advance(buf, s));
    } else {
      DeadParameter(buf, start, len, s);
    }
  }

  lemma TypeOperandMeans(buf: string, s: State)
    requires Ok(buf, s) && s.token.Live() && s.cur == s.token.start + s.token.length
    ensures var (_, operand, closed, end) := TypeOperandSpec(buf, s);
      closed ==> TypeOperand(buf, s.token.start, operand, end)
  {
    var start, size := s.token.start, s.token.length;
    var s1 := Advance(buf, s);
    StartCounting(buf, s);
    CountBracket(buf, start, size, s);
    AdvanceOk(buf, s);
    hide Ok, Advance, Counted, TypeOperand, Parameter;
    if s1.token.kind == ANGLE_BRACKET_OPEN {
      var s2 := Advance(buf, s1);
      AdvanceOk(buf, s1);
      CountBracket(buf, start, size + 1, s1);
      if s2.token.kind == SQUARE_BRACKET_OPEN {
        ParameterMeans(buf, start, size + 2, s2);
      } else {
        ParameterMeans(buf, start, size + 1, s1);
      }
    }
  }

  /** The bracket closes just before `end`, and the operand is the text from the word up to there
      exactly if `<` directly follows the word. */
  ghost predicate AnyTypeOfOperand(buf: string, start: nat, operand: string, end: nat) {
    && start + 9 < end <= |buf| && buf[end - 1] == '>' && '>' !in buf[start..end - 1]
    && (operand == buf[start..end] <==> buf[start + 9] == '<')
  }

  /** The first ch from lo on ends just before hi. */
  predicate Found(buf: string, lo: nat, hi: nat, ch: char) {
    lo < hi <= |buf| && buf[hi - 1] == ch && ch !in buf[lo..hi - 1]
  }

  predicate SpanOk(buf: string, s: State) {
    s.token.Within(buf) && s.token.start + s.token.length <= s.cur <= |buf|
  }

  lemma OpensAt(buf: string, s: State)
    requires s.cur <= |buf| && Advance(buf, s).token.kind == ANGLE_BRACKET_OPEN
    ensures var t := Advance(buf, s);
      && s.cur <= t.token.start < |buf| && buf[t.token.start] == '<' && t.cur == t.token.start + 1
      && forall k :: s.cur <= k < t.token.start ==> IsWhitespace(buf[k])
  {
    NextMeans(buf, s.cur, s.token);
    hide NextToken, IsWhitespace;
    assert Advance(buf, s).token.Content(buf)[0] == buf[Advance(buf, s).token.start];
  }

  lemma AnyTypeOfSlice(buf: string, s: State, t: State, end: nat)
    requires s.cur <= |buf| && SpanOk(buf, s) && s.token.Content(buf) == "AnyTypeOf" && s.token.start + 9 == s.cur
    requires t == Advance(buf, s) && t.token.kind == ANGLE_BRACKET_OPEN
    requires Found(buf, t.cur, end, '>')
    ensures t.token.start < end &&
      AnyTypeOfOperand(buf, s.token.start, Slice(buf, s.token.start, 9 + (end - t.token.start)), end)
  {
    OpensAt(buf, s);
    hide Advance, IsWhitespace;
    var start, lt := s.token.start, t.token.start;
    assert buf[start..start + 9] == "AnyTypeOf";
    forall k | start <= k < end - 1 ensures buf[k] != '>' {
      if k < start + 9 {
        assert buf[k] == buf[start..start + 9][k - start];
      } else if t.cur <= k {
        assert buf[k] == buf[t.cur..end - 1][k - t.cur];
      }
    }
    assert lt != start + 9 ==> IsWhitespace(buf[start + 9]);
  }
}
