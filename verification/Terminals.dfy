/** Terminator.h and Terminator.def: the lexer rules a generated grammar will contain. */
module Terminals {
  import opened Lexing
  import opened Options

  /** The terminators every grammar has, with their patterns. */
  const BUILTIN: map<string, string> := map[
    "Var" := "'var'", "Add" := "'add'", "Sub" := "'sub'", "Def" := "'def'", "Return" := "'return'",
    "ParentheseOpen" := "'('", "ParentheseClose" := "')'", "Comma" := "','",
    "BracketOpen" := "'{'", "BracketClose" := "'}'", "SbracketOpen" := "'['", "SbracketClose" := "']'",
    "Semi" := "';'", "AngleBracketOpen" := "'<'", "AngleBracketClose" := "'>'",
    "Number" := "[0-9]+", "Equal" := "'='"]

  /** Adding 32 to an 8-bit character. */
  function Plus32(ch: char): char { ((ch as int + 32) % 256) as char }

  /** The name printed for a terminator. */
  function Capitalised(name: string): string {
    if name != "" && 'a' <= name[0] <= 'z' then [(name[0] as int - 32) as char] + name[1..] else name
  }

  /** isTerminator, given the custom terminators collected so far. */
  predicate IsTerminator(custom: set<string>, name: string)
    requires name != ""
  {
    [Plus32(name[0])] + name[1..] in custom || name in BUILTIN
  }

  /** Some lexer rule is printed under this name. */
  ghost predicate HasLexerRule(custom: set<string>, printed: string) {
    printed in BUILTIN || exists t :: t in custom && Capitalised(t) == printed
  }

  ghost predicate TokenTexts(custom: set<string>) { forall t :: t in custom ==> IsTokenText(t) }

  /** A name classified as a terminator is printed as the name of a lexer rule, because every
      custom terminator is the text of some token. */
  lemma ClassifiedTerminatorHasRule(custom: set<string>, name: string)
    requires IsTokenText(name) && IsIdentifierHead(name[0])
    requires TokenTexts(custom)
    requires IsTerminator(custom, name)
    ensures Capitalised(name) == name && HasLexerRule(custom, Capitalised(name))
  {
    if name in BUILTIN { BuiltinsAreCapitalised(name); }
    hide BUILTIN, IsTokenText;
    var t := [Plus32(name[0])] + name[1..];
    if t in custom {
      assert IsTokenText(t);
      OnlyCapitalsClassify(name, t);
    }
  }

  /** A word is a known terminator if it is built in, or if it is a word quoted in small letters before,
      now written with a capital. */
  predicate KnownTerminator(custom: set<string>, name: string) {
    name in BUILTIN || exists t :: t in custom && t != "" && 'a' <= t[0] <= 'z' && Capitalised(t) == name
  }

  /** Which is what isTerminator finds, although it adds 32 to any first character. */
  lemma KnownTerminators(custom: set<string>, name: string)
    requires IsTokenText(name) && IsIdentifierHead(name[0])
    requires TokenTexts(custom)
    ensures IsTerminator(custom, name) <==> KnownTerminator(custom, name)
  {
    assert name != "";
    hide BUILTIN, IsTokenText;
    var u := [Plus32(name[0])] + name[1..];
    if u in custom {
      assert IsTokenText(u);
      OnlyCapitalsClassify(name, u);
      SmallLetter(name, u);
    }
    if t :| t in custom && t != "" && 'a' <= t[0] <= 'z' && Capitalised(t) == name {
      assert t == [t[0]] + t[1..] && t[0] == Plus32(name[0]) && t[1..] == name[1..];
    }
  }

  lemma SmallLetter(name: string, t: string)
    requires name != "" && IsIdentifierHead(name[0]) && IsTokenText(t)
    requires t == [Plus32(name[0])] + name[1..]
    ensures 'a' <= t[0] <= 'z'
  {
    PunctuatorsApart(t[0]);
  }

  function InQuotes(s: string): string { "'" + s + "'" }

  /** The built-in keywords are quoted, in small letters. */
  lemma BuiltinKeywords(name: string)
    requires name in ["var", "add", "sub", "def", "return"]
    ensures Capitalised(name) in BUILTIN && BUILTIN[Capitalised(name)] == InQuotes(name)
  {
    assert Capitalised("var") == "Var" && BUILTIN["Var"] == InQuotes("var");
    assert Capitalised("add") == "Add" && BUILTIN["Add"] == InQuotes("add");
    assert Capitalised("sub") == "Sub" && BUILTIN["Sub"] == InQuotes("sub");
    assert Capitalised("def") == "Def" && BUILTIN["Def"] == InQuotes("def");
    assert Capitalised("return") == "Return" && BUILTIN["Return"] == InQuotes("return");
    hide BUILTIN, Capitalised, InQuotes;
  }

  function BuiltinSign(kind: TokenKind): Option<string> {
    if kind == PARENTHESE_OPEN then Some("ParentheseOpen")
    else if kind == PARENTHESE_CLOSE then Some("ParentheseClose")
    else if kind == COMMA then Some("Comma")
    else if kind == CURLY_BRACKET_OPEN then Some("BracketOpen")
    else if kind == CURLY_BRACKET_CLOSE then Some("BracketClose")
    else if kind == SQUARE_BRACKET_OPEN then Some("SbracketOpen")
    else if kind == SQUARE_BRACKET_CLOSE then Some("SbracketClose")
    else if kind == SEMI then Some("Semi")
    else if kind == ANGLE_BRACKET_OPEN then Some("AngleBracketOpen")
    else if kind == ANGLE_BRACKET_CLOSE then Some("AngleBracketClose")
    else if kind == EQUAL then Some("Equal")
    else None
  }

  /** The built-in signs are the lexer's, named like its tokens. */
  lemma BuiltinSigns(ch: char)
    requires Punctuator(ch).Some? && BuiltinSign(Punctuator(ch).value).Some?
    ensures var name := BuiltinSign(Punctuator(ch).value).value; name in BUILTIN && BUILTIN[name] == InQuotes([ch])
  {
  }

  lemma BuiltinsAreCapitalised(name: string)
    requires name in BUILTIN
    ensures name != "" && 'A' <= name[0] <= 'Z' && Capitalised(name) == name
  {
  }

  /** Only a capital letter plus 32 can start a token: an underscore gives 127, and a small letter
      leaves the ASCII range. */
  lemma OnlyCapitalsClassify(name: string, t: string)
    requires name != "" && IsIdentifierHead(name[0]) && IsTokenText(t)
    requires t == [Plus32(name[0])] + name[1..]
    ensures Capitalised(t) == name == Capitalised(name)
  {
    assert t[0] == Plus32(name[0]) && t[1..] == name[1..] && name == [name[0]] + name[1..];
    PunctuatorsApart(t[0]);
  }

  class Terminators {
    var custom: set<string>

    constructor ()
      ensures custom == {}
    {
      custom := {};
    }

    method IsTerminatorName(name: string) returns (b: bool)
      requires name != ""
      ensures b == IsTerminator(custom, name)
    {
      var tmp := [Plus32(name[0])] + name[1..];
      if tmp in custom {
        return true;
      }
      b := name in BUILTIN;
    }

    method AddCustomTerminators(terminator: string)
      modifies this
      ensures custom == old(custom) + {terminator}
    {
      custom := custom + {terminator};
    }
  }
}
