/**
 * The token set of the expression grammar (src/parser/grammar.rs, `__intern_token::new_builder`)
 * and the lexer that splits an input into tokens: at every position each pattern of the table
 * is matched as a prefix, the longest match wins (a tie goes to the later pattern), and the
 * last pattern, a run of white space, is skipped. When nothing but the empty white-space run
 * matches, the input holds an invalid token and the token stream ends with `Invalid`.
 */
module Lexer {
  import opened Results

  datatype Token =
    | StringLit(text: string)   // `'...'`, quotes included
    | IntLit(digits: string)    // `[0-9]+`
    | FloatLit(text: string)    // `[0-9]+.[0-9]+`
    | IdentLit(text: string)    // `{name}`, braces included
    | Fixed(text: string)       // one of `FixedTokens`
    | Invalid(location: nat)    // no token starts at this character offset

  /** The fixed tokens, in the order of patterns 4 to 24 of the matcher table. */
  const FixedTokens: seq<string> :=
    ["!=", "%", "&&", "(", ")", "*", "+", ",", "-", "/", "<", "<=", "==", ">", ">=",
     "[", "]", "false", "in", "true", "||"]

  const StringPattern: nat := 0
  const IntPattern: nat := 1
  const FloatPattern: nat := 2
  const IdentPattern: nat := 3
  const FirstFixed: nat := 4
  const WhitespacePattern: nat := 25
  const PatternCount: nat := 26

  // ---------------------------------------------------------------------------------------
  // Character classes
  // ---------------------------------------------------------------------------------------

  predicate IsDigit(c: char) {
    '0' <= c <= '9'
  }

  predicate IsLower(c: char) {
    'a' <= c <= 'z'
  }

  /** `[0-9_a-z]`, the characters after the first one of an identifier. */
  predicate IsIdentChar(c: char) {
    IsDigit(c) || IsLower(c) || c == '_'
  }

  /** `\s`: the Unicode White_Space property. */
  predicate IsWhitespace(c: char) {
    ('\U{9}' <= c <= '\U{D}') || c == ' ' || c == '\U{85}' || c == '\U{A0}' || c == '\U{1680}' ||
    ('\U{2000}' <= c <= '\U{200A}') || c == '\U{2028}' || c == '\U{2029}' || c == '\U{202F}' ||
    c == '\U{205F}' || c == '\U{3000}'
  }

  // ---------------------------------------------------------------------------------------
  // The patterns, each as the length of its match at the start of the input
  // ---------------------------------------------------------------------------------------

  /** The length of the longest prefix of `s` whose characters all satisfy `p`. */
  function Run(s: string, p: char -> bool): (n: nat)
    ensures n <= |s|
    ensures forall i :: 0 <= i < n ==> p(s[i])
    ensures n < |s| ==> !p(s[n])
  {
    if s == [] || !p(s[0]) then 0 else 1 + Run(s[1..], p)
  }

  /** `'[^']*'`: a quote, any characters but a quote, a quote. */
  function StringMatch(s: string): Option<nat> {
    if |s| >= 2 && s[0] == '\'' then
      var n := Run(s[1..], c => c != '\'');
      if 1 + n < |s| then Some(n + 2) else None
    else None
  }

  /** `[0-9]+` */
  function IntMatch(s: string): Option<nat> {
    var n := Run(s, IsDigit);
    if n > 0 then Some(n) else None
  }

  /** `[0-9]+\.[0-9]+` */
  function FloatMatch(s: string): Option<nat> {
    var n := Run(s, IsDigit);
    if 0 < n < |s| && s[n] == '.' then
      var m := Run(s[n + 1..], IsDigit);
      if m > 0 then Some(n + 1 + m) else None
    else None
  }

  /** `\{[a-z][0-9_a-z]*\}` */
  function IdentMatch(s: string): Option<nat> {
    if |s| >= 3 && s[0] == '{' && IsLower(s[1]) then
      var n := Run(s[2..], IsIdentChar);
      if 2 + n < |s| && s[2 + n] == '}' then Some(n + 3) else None
    else None
  }

  /** The match of pattern `i` at the start of `s`; the white-space run always matches, possibly empty. */
  function MatchLength(i: nat, s: string): (r: Option<nat>)
    requires i < PatternCount
    ensures r.Some? ==> r.value <= |s|
    ensures r.Some? && i != WhitespacePattern ==> r.value > 0
    ensures i == WhitespacePattern ==> r.Some?
  {
    if i == StringPattern then StringMatch(s)
    else if i == IntPattern then IntMatch(s)
    else if i == FloatPattern then FloatMatch(s)
    else if i == IdentPattern then IdentMatch(s)
    else if i < WhitespacePattern then
      var t := FixedTokens[i - FirstFixed];
      if t <= s then Some(|t|) else None
    else Some(Run(s, IsWhitespace))
  }

  /**
   * The longest match among patterns `i` onwards, given the best `(len, idx)` among the
   * patterns before `i`; a match at least as long as the best so far replaces it.
   */
  function Pick(s: string, i: nat, len: nat, idx: nat): (r: (nat, nat))
    requires i <= PatternCount
    ensures r.0 >= len
    ensures r == (len, idx) || (i <= r.1 < PatternCount && MatchLength(r.1, s) == Some(r.0))
    decreases PatternCount - i
  {
    if i == PatternCount then (len, idx)
    else
      match MatchLength(i, s)
      case Some(l) => if l >= len then Pick(s, i + 1, l, i) else Pick(s, i + 1, len, idx)
      case None => Pick(s, i + 1, len, idx)
  }

  /** The pattern chosen at the start of `s` and the length it consumes. */
  function Longest(s: string): (r: (nat, nat))
    ensures r.1 < PatternCount
    ensures r.0 <= |s|
    ensures r.1 != WhitespacePattern ==> r.0 > 0
  {
    PickIsLongest(s, 0, 0, 0, WhitespacePattern);
    Pick(s, 0, 0, 0)
  }

  /** The chosen pattern does match, with the chosen length. */
  lemma LongestIsMatch(s: string)
    ensures MatchLength(Longest(s).1, s) == Some(Longest(s).0)
  {
    PickIsLongest(s, 0, 0, 0, WhitespacePattern);
  }

  /**
   * The chosen match is a longest one, and among the longest ones the last in the table:
   * no pattern matches more, and a pattern that matches as much comes no later.
   */
  lemma LongestMatch(s: string, j: nat)
    requires j < PatternCount && MatchLength(j, s).Some?
    ensures MatchLength(j, s).value <= Longest(s).0
    ensures MatchLength(j, s).value == Longest(s).0 ==> j <= Longest(s).1
    ensures MatchLength(Longest(s).1, s) == Some(Longest(s).0)
  {
    PickIsLongest(s, 0, 0, 0, j);
    LongestIsMatch(s);
  }

  /** No pattern from `i` on matches more than `Pick` returns, and one that matches as much is no later. */
  lemma {:induction false} PickIsLongest(s: string, i: nat, len: nat, idx: nat, j: nat)
    requires i <= j < PatternCount && MatchLength(j, s).Some?
    ensures MatchLength(j, s).value <= Pick(s, i, len, idx).0
    ensures MatchLength(j, s).value == Pick(s, i, len, idx).0 ==> j <= Pick(s, i, len, idx).1
    decreases PatternCount - i
  {
    var m := MatchLength(i, s);
    var len', idx' := if m.Some? && m.value >= len then m.value else len, if m.Some? && m.value >= len then i else idx;
    assert Pick(s, i, len, idx) == Pick(s, i + 1, len', idx');
    if j > i {
      PickIsLongest(s, i + 1, len', idx', j);
    } else {
      var r := Pick(s, i + 1, len', idx');
      assert r.0 >= len';
      if MatchLength(j, s).value == r.0 && r != (len', idx') {
        assert r.1 >= i + 1;
      }
    }
  }

  /** The token for the text matched by a pattern other than white space. */
  function MakeToken(i: nat, text: string): Token
    requires i < WhitespacePattern
  {
    if i == StringPattern then StringLit(text)
    else if i == IntPattern then IntLit(text)
    else if i == FloatPattern then FloatLit(text)
    else if i == IdentPattern then IdentLit(text)
    else Fixed(text)
  }

  /**
   * The tokens of `s`, whose first character is at offset `offset` of the whole input.
   * White space between tokens is skipped; a position where only the empty white-space run
   * matches ends the stream with `Invalid` at that offset.
   */
  function Tokenize(s: string, offset: nat): (ts: seq<Token>)
    ensures IdentTokensOk(ts)
    decreases |s|
  {
    if s == [] then []
    else
      var m := Longest(s);
      if m.1 == WhitespacePattern then
        if m.0 == 0 then [Invalid(offset)] else Tokenize(s[m.0..], offset + m.0)
      else
        var head := MakeToken(m.1, s[..m.0]);
        HeadTokenShaped(s);
        IdentTokensOkCons(head, Tokenize(s[m.0..], offset + m.0));
        [head] + Tokenize(s[m.0..], offset + m.0)
  }

  /** The tokens of a whole input. */
  function Tokens(s: string): seq<Token> {
    Tokenize(s, 0)
  }

  // ---------------------------------------------------------------------------------------
  // Properties of the token set
  // ---------------------------------------------------------------------------------------

  /** An input matched as a whole by pattern `j`, and by no later pattern, is that one token. */
  lemma WholeInputToken(s: string, j: nat)
    requires j < WhitespacePattern && MatchLength(j, s) == Some(|s|)
    requires forall i :: j < i < PatternCount ==> MatchLength(i, s) != Some(|s|)
    ensures Tokens(s) == [MakeToken(j, s)]
  {
    LongestMatch(s, j);
    var (len, idx) := Longest(s);
    assert len == |s|;
    assert idx == j;
    assert s[..len] == s;
    assert Tokenize(s, 0) == [MakeToken(j, s)] + Tokenize(s[len..], len);
    assert s[len..] == [];
  }

  /** The fixed tokens are pairwise distinct, and none starts with white space. */
  lemma FixedTokensDistinct()
    ensures forall a, b :: 0 <= a < b < |FixedTokens| ==> FixedTokens[a] != FixedTokens[b]
    ensures forall a :: 0 <= a < |FixedTokens| ==> |FixedTokens[a]| > 0 && !IsWhitespace(FixedTokens[a][0])
  {
  }

  /** Each fixed token, alone in the input, lexes to exactly itself. */
  lemma FixedTokenAlone(t: string)
    requires t in FixedTokens
    ensures Tokens(t) == [Fixed(t)]
  {
    FixedTokensDistinct();
    var k :| 0 <= k < |FixedTokens| && FixedTokens[k] == t;
    forall i | FirstFixed + k < i < PatternCount
      ensures MatchLength(i, t) != Some(|t|)
    {
      if i < WhitespacePattern {
        assert FixedTokens[i - FirstFixed] != t;
      }
    }
    WholeInputToken(t, FirstFixed + k);
  }

  /** A parameter name as the identifier token spells it: `[a-z][0-9_a-z]*`. */
  predicate IsIdentifierName(name: string) {
    |name| > 0 && IsLower(name[0]) && forall i :: 1 <= i < |name| ==> IsIdentChar(name[i])
  }

  /** A name in braces lexes to exactly one identifier token. */
  lemma IdentifierAlone(name: string)
    requires IsIdentifierName(name)
    ensures Tokens("{" + name + "}") == [IdentLit("{" + name + "}")]
  {
    var s := "{" + name + "}";
    var n := Run(s[2..], IsIdentChar);
    assert s[2..] == name[1..] + "}";
    assert s[2..][|name| - 1] == '}';
    assert IdentMatch(s) == Some(|s|);
    forall i | IdentPattern < i < PatternCount
      ensures MatchLength(i, s) != Some(|s|)
    {
      if i < WhitespacePattern {
        assert FixedTokens[i - FirstFixed][0] != '{';
      }
    }
    WholeInputToken(s, IdentPattern);
  }

  /** No fixed token starts with a digit, a quote, a brace or white space. */
  lemma FixedTokenStarts()
    ensures forall a :: 0 <= a < |FixedTokens| ==>
      var c := FixedTokens[a][0]; !IsDigit(c) && c != '\'' && c != '{' && !IsWhitespace(c)
  {
  }

  /** A fixed token matches only where the input starts with the token's first character. */
  lemma FixedNeedsFirstChar(s: string, i: nat)
    requires FirstFixed <= i < WhitespacePattern && |s| > 0 && MatchLength(i, s).Some?
    ensures FixedTokens[i - FirstFixed][0] == s[0]
    ensures [s[0]] <= FixedTokens[i - FirstFixed]
  {
    var t := FixedTokens[i - FirstFixed];
    assert |t| > 0 by {
      FixedTokenStarts();
    }
    assert t[0] == s[0];
  }

  /** At a digit the lexer reads a float token when one matches, else an integer token. */
  lemma DigitStart(s: string)
    requires |s| > 0 && IsDigit(s[0])
    ensures Longest(s) == if FloatMatch(s).Some? then (FloatMatch(s).value, FloatPattern) else (IntMatch(s).value, IntPattern)
  {
    var (len, idx) := Longest(s);
    LongestMatch(s, IntPattern);
    if FirstFixed <= idx < WhitespacePattern {
      FixedNeedsFirstChar(s, idx);
      FixedTokenStarts();
      assert false;
    }
    if FloatMatch(s).Some? {
      LongestMatch(s, FloatPattern);
    }
  }

  /** At white space the lexer skips the whole run of white space. */
  lemma WhitespaceStart(s: string)
    requires |s| > 0 && IsWhitespace(s[0])
    ensures Longest(s) == (Run(s, IsWhitespace), WhitespacePattern)
  {
    var (len, idx) := Longest(s);
    LongestMatch(s, WhitespacePattern);
    if FirstFixed <= idx < WhitespacePattern {
      FixedNeedsFirstChar(s, idx);
      FixedTokenStarts();
      assert false;
    }
  }

  /**
   * Elsewhere (not a digit, quote, brace or white space) the lexer reads the longest fixed
   * token the input starts with.
   */
  lemma FixedStart(s: string, a: nat)
    requires |s| > 0 && !IsDigit(s[0]) && s[0] != '\'' && s[0] != '{' && !IsWhitespace(s[0])
    requires a < |FixedTokens| && FixedTokens[a] <= s
    requires forall b :: 0 <= b < |FixedTokens| && FixedTokens[b] <= s ==> |FixedTokens[b]| <= |FixedTokens[a]|
    ensures Longest(s) == (|FixedTokens[a]|, FirstFixed + a)
  {
    FixedTokensDistinct();
    LongestMatch(s, FirstFixed + a);
  }

  /** At an opening brace the lexer reads an identifier token when one matches there. */
  lemma BraceStart(s: string)
    requires |s| > 0 && s[0] == '{' && IdentMatch(s).Some?
    ensures Longest(s) == (IdentMatch(s).value, IdentPattern)
  {
    var (len, idx) := Longest(s);
    LongestMatch(s, IdentPattern);
    if FirstFixed <= idx < WhitespacePattern {
      FixedNeedsFirstChar(s, idx);
      FixedTokenStarts();
      assert false;
    }
  }

  /**
   * A character that starts no token (not a digit, quote, brace or white space, and not the
   * first character of a fixed token) ends the stream with `Invalid` at its offset.
   */
  lemma UnknownStart(s: string, offset: nat)
    requires |s| > 0 && !IsDigit(s[0]) && s[0] != '\'' && s[0] != '{' && !IsWhitespace(s[0])
    requires forall a :: 0 <= a < |FixedTokens| ==> !([s[0]] <= FixedTokens[a])
    ensures Longest(s) == (0, WhitespacePattern)
    ensures Tokenize(s, offset) == [Invalid(offset)]
  {
    NoMatchAtUnknown(s);
    TokenizeSkips(s, offset);
  }

  lemma NoMatchAtUnknown(s: string)
    requires |s| > 0 && !IsDigit(s[0]) && s[0] != '\'' && s[0] != '{' && !IsWhitespace(s[0])
    requires forall a :: 0 <= a < |FixedTokens| ==> !([s[0]] <= FixedTokens[a])
    ensures Longest(s) == (0, WhitespacePattern)
  {
    var idx := Longest(s).1;
    LongestIsMatch(s);
    if FirstFixed <= idx < WhitespacePattern {
      FixedNeedsFirstChar(s, idx);
      assert false;
    }
  }

  /** `{name}` with a name of the identifier form. */
  predicate IsIdentifierText(text: string) {
    |text| >= 3 && text[0] == '{' && text[|text| - 1] == '}' && IsIdentifierName(text[1..|text| - 1])
  }

  lemma IdentMatchShape(s: string)
    requires IdentMatch(s).Some?
    ensures IsIdentifierText(s[..IdentMatch(s).value])
  {
    var n := Run(s[2..], IsIdentChar);
    var text := s[..n + 3];
    var name := text[1..|text| - 1];
    assert name == s[1..n + 2];
    forall i | 1 <= i < |name|
      ensures IsIdentChar(name[i])
    {
      assert name[i] == s[2..][i - 1];
    }
  }

  /** One step of the lexer at a token: the token, then the tokens of the rest. */
  lemma TokenizeEmits(s: string, offset: nat)
    requires s != [] && Longest(s).1 != WhitespacePattern
    ensures Tokenize(s, offset) ==
      [MakeToken(Longest(s).1, s[..Longest(s).0])] + Tokenize(s[Longest(s).0..], offset + Longest(s).0)
  {
  }

  /** One step of the lexer at white space: skipped, or the end of the stream at an invalid character. */
  lemma TokenizeSkips(s: string, offset: nat)
    requires s != [] && Longest(s).1 == WhitespacePattern
    ensures Longest(s).0 > 0 ==> Tokenize(s, offset) == Tokenize(s[Longest(s).0..], offset + Longest(s).0)
    ensures Longest(s).0 == 0 ==> Tokenize(s, offset) == [Invalid(offset)]
  {
  }

  /** `c` occurs in no fixed token, so a fixed token cannot run on over it. */
  predicate OutsideFixedTokens(c: char) {
    forall a, i :: 0 <= a < |FixedTokens| && 0 <= i < |FixedTokens[a]| ==> FixedTokens[a][i] != c
  }

  /** Digits and the space occur in no fixed token. */
  lemma DigitOrSpaceOutsideFixed(c: char)
    requires IsDigit(c) || c == ' '
    ensures OutsideFixedTokens(c)
  {
  }

  /** A single digit followed by neither a digit nor a point is an integer token. */
  lemma LexDigit(s: string, offset: nat)
    requires |s| > 0 && IsDigit(s[0]) && (|s| == 1 || (!IsDigit(s[1]) && s[1] != '.'))
    ensures Tokenize(s, offset) == [IntLit([s[0]])] + Tokenize(s[1..], offset + 1)
  {
    assert Run(s, IsDigit) == 1;
    assert IntMatch(s) == Some(1);
    assert FloatMatch(s).None?;
    DigitStart(s);
    TokenizeEmits(s, offset);
    assert s[..1] == [s[0]];
  }

  /** A single space before a character that is not white space is skipped. */
  lemma LexSpace(s: string, offset: nat)
    requires |s| > 0 && s[0] == ' ' && (|s| == 1 || !IsWhitespace(s[1]))
    ensures Tokenize(s, offset) == Tokenize(s[1..], offset + 1)
  {
    assert Run(s, IsWhitespace) == 1;
    WhitespaceStart(s);
    TokenizeSkips(s, offset);
  }

  /** The characters that are fixed tokens on their own. */
  predicate SymbolChar(c: char) {
    c == '%' || c == '(' || c == ')' || c == '*' || c == '+' || c == ',' ||
    c == '-' || c == '/' || c == '<' || c == '>' || c == '[' || c == ']'
  }

  /** Where the one-character fixed token `c` sits in `FixedTokens`. */
  function SymbolIndex(c: char): (a: nat)
    requires SymbolChar(c)
    ensures a < |FixedTokens| && FixedTokens[a] == [c]
  {
    if c == '%' then 1 else if c == '(' then 3 else if c == ')' then 4
    else if c == '*' then 5 else if c == '+' then 6 else if c == ',' then 7
    else if c == '-' then 8 else if c == '/' then 9 else if c == '<' then 10
    else if c == '>' then 13 else if c == '[' then 15 else 16
  }

  /**
   * A one-character fixed token, at the end of the input or before a character no fixed
   * token holds, is lexed as that token.
   */
  lemma LexSymbol(s: string, offset: nat)
    requires |s| > 0 && SymbolChar(s[0]) && (|s| == 1 || OutsideFixedTokens(s[1]))
    ensures Tokenize(s, offset) == [Fixed([s[0]])] + Tokenize(s[1..], offset + 1)
  {
    var a := SymbolIndex(s[0]);
    assert FixedTokens[a] <= s;
    FixedLongest(s, a);
    TokenizeEmits(s, offset);
    assert s[..1] == [s[0]];
  }

  /** The keyword `in`, at the end of the input or before a character no fixed token holds, is lexed as that keyword. */
  lemma LexIn(s: string, offset: nat)
    requires |s| >= 2 && s[0] == 'i' && s[1] == 'n' && (|s| == 2 || OutsideFixedTokens(s[2]))
    ensures Tokenize(s, offset) == [Fixed("in")] + Tokenize(s[2..], offset + 2)
  {
    assert FixedTokens[18] == "in" && FixedTokens[18] <= s;
    FixedLongest(s, 18);
    TokenizeEmits(s, offset);
    assert s[..2] == "in";
  }

  /** The lexer picks a fixed token that the input starts with, at its end or before a character no fixed token holds. */
  lemma FixedLongest(s: string, a: nat)
    requires a < |FixedTokens| && FixedTokens[a] <= s
    requires |s| == |FixedTokens[a]| || OutsideFixedTokens(s[|FixedTokens[a]|])
    ensures Longest(s) == (|FixedTokens[a]|, FirstFixed + a)
  {
    FixedTokenStarts();
    assert s[0] == FixedTokens[a][0];
    NoLongerFixedPrefix(s, FixedTokens[a]);
    FixedStart(s, a);
  }

  lemma NoLongerFixedPrefix(s: string, t: string)
    requires t <= s && (|s| == |t| || OutsideFixedTokens(s[|t|]))
    ensures forall b :: 0 <= b < |FixedTokens| && FixedTokens[b] <= s ==> |FixedTokens[b]| <= |t|
  {
  }

  /** `{name}` spanning the first `n` characters, with a name of the identifier form, is matched by the identifier pattern. */
  lemma IdentMatchAt(s: string, n: nat)
    requires 3 <= n <= |s| && s[0] == '{' && IsLower(s[1]) && s[n - 1] == '}'
    requires forall i :: 2 <= i < n - 1 ==> IsIdentChar(s[i])
    ensures IdentMatch(s) == Some(n)
  {
  }

  /** All identifier tokens of `ts` are `{name}` with a name of the identifier form. */
  predicate IdentTokensOk(ts: seq<Token>) {
    ts == [] || ((ts[0].IdentLit? ==> IsIdentifierText(ts[0].text)) && IdentTokensOk(ts[1..]))
  }

  /** The token the lexer emits at the start of `s`, if an identifier, is `{name}` with a name of the identifier form. */
  lemma HeadTokenShaped(s: string)
    requires s != [] && Longest(s).1 != WhitespacePattern
    ensures var t := MakeToken(Longest(s).1, s[..Longest(s).0]); t.IdentLit? ==> IsIdentifierText(t.text)
  {
    if Longest(s).1 == IdentPattern {
      LongestIsMatch(s);
      IdentMatchShape(s);
    }
  }

  lemma IdentTokensOkCons(head: Token, rest: seq<Token>)
    requires head.IdentLit? ==> IsIdentifierText(head.text)
    requires IdentTokensOk(rest)
    ensures IdentTokensOk([head] + rest)
  {
    assert ([head] + rest)[1..] == rest;
  }
}
