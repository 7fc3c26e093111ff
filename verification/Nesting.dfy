/** Bracketed texts: what stands between a mark and the mark that closes it. */
module Nesting {
  import opened Lexing

  /** A text in which every opening mark is closed. */
  datatype Nested = Other(ch: char) | Group(items: seq<Nested>)

  function Show(n: Nested, open: char, close: char): string {
    match n
    case Other(ch) => [ch]
    case Group(items) => [open] + ShowAll(items, open, close) + [close]
  }

  function ShowAll(items: seq<Nested>, open: char, close: char): string {
    if items == [] then "" else Show(items[0], open, close) + ShowAll(items[1..], open, close)
  }

  /** What is not a group is no mark. */
  predicate Plain(n: Nested, open: char, close: char) {
    match n
    case Other(ch) => ch != open && ch != close
    case Group(items) => forall k :: 0 <= k < |items| ==> Plain(items[k], open, close)
  }

  lemma {:induction false} DepthConcat(a: string, b: string, open: char, close: char, k: nat)
    requires k <= |b|
    ensures Depth(a + b, open, close, 0, |a| + k) == Depth(a, open, close, 0, |a|) + Depth(b, open, close, 0, k)
  {
    if k != 0 {
      DepthConcat(a, b, open, close, k - 1);
      assert (a + b)[|a| + k - 1] == b[k - 1];
    } else {
      DepthPrefix(a, b, open, close, |a|);
    }
  }

  lemma {:induction false} DepthPrefix(a: string, b: string, open: char, close: char, k: nat)
    requires k <= |a|
    ensures Depth(a + b, open, close, 0, k) == Depth(a, open, close, 0, k)
  {
    if k != 0 {
      DepthPrefix(a, b, open, close, k - 1);
      assert (a + b)[k - 1] == a[k - 1];
    }
  }

  ghost predicate Balanced(s: string, open: char, close: char) {
    && Depth(s, open, close, 0, |s|) == 0
    && forall k :: 0 <= k <= |s| ==> Depth(s, open, close, 0, k) >= 0
  }

  lemma BalancedConcat(a: string, b: string, open: char, close: char)
    requires Balanced(a, open, close) && Balanced(b, open, close)
    ensures Balanced(a + b, open, close)
  {
    forall k | 0 <= k <= |a + b| ensures Depth(a + b, open, close, 0, k) >= 0 {
      if k <= |a| { DepthPrefix(a, b, open, close, k); } else { DepthConcat(a, b, open, close, k - |a|); }
    }
    DepthConcat(a, b, open, close, |b|);
  }

  /** A balanced text between a pair of marks. */
  lemma Enclose(s: string, open: char, close: char)
    requires Balanced(s, open, close) && open != close
    ensures var text := [open] + s + [close];
      Balanced(text, open, close) && Marked(text, open, close, 0, |text|)
  {
    var text := [open] + s + [close];
    assert text == [open] + (s + [close]);
    assert Depth([open], open, close, 0, 0) == 0 && Depth([open], open, close, 0, 1) == 1;
    assert Depth([close], open, close, 0, 0) == 0 && Depth([close], open, close, 0, 1) == -1;
    forall k: nat | k <= |s| ensures Depth(text, open, close, 0, 1 + k) == 1 + Depth(s, open, close, 0, k) {
      DepthConcat([open], s + [close], open, close, k);
      DepthPrefix(s, [close], open, close, k);
    }
    DepthConcat([open], s + [close], open, close, |s| + 1);
    DepthConcat(s, [close], open, close, 1);
    forall k | 0 < k < |text| ensures Depth(text, open, close, 0, k) > 0 {
      var j: nat := k - 1;
      assert Depth(text, open, close, 0, 1 + j) == 1 + Depth(s, open, close, 0, j);
    }
  }

  lemma {:induction false} NestedIsBalanced(n: Nested, open: char, close: char)
    requires Plain(n, open, close) && open != close
    ensures Balanced(Show(n, open, close), open, close)
    decreases n, 0
  {
    match n {
      case Other(ch) =>
        assert Depth([ch], open, close, 0, 0) == 0;
      case Group(items) =>
        NestedAreBalanced(items, open, close);
        Enclose(ShowAll(items, open, close), open, close);
    }
  }

  lemma {:induction false} NestedAreBalanced(items: seq<Nested>, open: char, close: char)
    requires (forall k :: 0 <= k < |items| ==> Plain(items[k], open, close)) && open != close
    ensures Balanced(ShowAll(items, open, close), open, close)
    decreases items
  {
    if items != [] {
      hide Balanced;
      NestedIsBalanced(items[0], open, close);
      NestedAreBalanced(items[1..], open, close);
      BalancedConcat(Show(items[0], open, close), ShowAll(items[1..], open, close), open, close);
    } else {
      assert Depth("", open, close, 0, 0) == 0;
    }
  }

  /** A group is marked: its opening mark is closed by its closing mark, whatever groups it contains. */
  lemma GroupIsMarked(items: seq<Nested>, open: char, close: char)
    requires (forall k :: 0 <= k < |items| ==> Plain(items[k], open, close)) && open != close
    ensures var text := Show(Group(items), open, close); Marked(text, open, close, 0, |text|)
  {
    NestedAreBalanced(items, open, close);
    hide Balanced;
    Enclose(ShowAll(items, open, close), open, close);
  }

  /** Of texts without marks in between, the marks only. */
  lemma QuoteIsMarked(s: string, mark: char)
    requires mark !in s
    ensures Marked([mark] + s + [mark], mark, mark, 0, |s| + 2)
  {
    var text := [mark] + s + [mark];
    assert forall k :: 0 < k < |s| + 1 ==> text[k] == s[k - 1];
  }
}
