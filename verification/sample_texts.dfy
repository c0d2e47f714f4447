/**
 * The texts of the crate's documented examples and tests, lexed one token at a time. Each
 * lemma is stated for any text `s` holding the given characters, and for a text that starts
 * at any offset `o` of the whole input; the offset only matters to an `Invalid` token, and
 * none occurs here. Each lemma takes one step of the lexer (a token, or a space it skips)
 * and leaves the rest of the text to the next; a caller applies the lemma for a whole text
 * to the example's own string. In the comments `op` is a one-character operator and `d`,
 * `e` are digits, each number ending where the next space or symbol starts.
 */
module SampleTexts {
  import opened Lexer

  // ---------------------------------------------------------------------------------------
  // One token in front of a list of tokens, written out
  // ---------------------------------------------------------------------------------------

  lemma Prepend2(a: Token, b: Token) ensures [a] + [b] == [a, b] { }
  lemma Prepend3(a: Token, b: Token, c: Token) ensures [a] + [b, c] == [a, b, c] { }
  lemma Prepend4(a: Token, b: Token, c: Token, d: Token) ensures [a] + [b, c, d] == [a, b, c, d] { }
  lemma Prepend5(a: Token, b: Token, c: Token, d: Token, e: Token)
    ensures [a] + [b, c, d, e] == [a, b, c, d, e]
  { }
  lemma Prepend6(a: Token, b: Token, c: Token, d: Token, e: Token, f: Token)
    ensures [a] + [b, c, d, e, f] == [a, b, c, d, e, f]
  { }
  lemma Prepend7(a: Token, b: Token, c: Token, d: Token, e: Token, f: Token, g: Token)
    ensures [a] + [b, c, d, e, f, g] == [a, b, c, d, e, f, g]
  { }

  // ---------------------------------------------------------------------------------------
  // Suffixes shared by several texts
  // ---------------------------------------------------------------------------------------

  /** ` d` at the end of the input. */
  lemma SpacedDigit(s: string, o: nat)
    requires |s| == 2 && s[0] == ' ' && IsDigit(s[1])
    ensures Tokenize(s, o) == [IntLit([s[1]])]
  {
    LexSpace(s, o);
    LexDigit(s[1..], o + 1);
    assert s[1..][1..] == [];
  }

  /** `op d` at the end of the input. */
  lemma OpDigit(s: string, o: nat)
    requires |s| == 3 && SymbolChar(s[0]) && s[1] == ' ' && IsDigit(s[2])
    ensures Tokenize(s, o) == [Fixed([s[0]]), IntLit([s[2]])]
  {
    DigitOrSpaceOutsideFixed(' ');
    LexSymbol(s, o);
    SpacedDigit(s[1..], o + 1);
    Prepend2(Fixed([s[0]]), IntLit([s[1..][1]]));
  }

  /** ` op d` at the end of the input. */
  lemma SpacedOpDigit(s: string, o: nat)
    requires |s| == 4 && s[0] == ' ' && SymbolChar(s[1]) && s[2] == ' ' && IsDigit(s[3])
    ensures Tokenize(s, o) == [Fixed([s[1]]), IntLit([s[3]])]
  {
    LexSpace(s, o);
    OpDigit(s[1..], o + 1);
  }

  /** `d op e` at the end of the input. */
  lemma DigitOpDigit(s: string, o: nat)
    requires |s| == 5 && IsDigit(s[0]) && s[1] == ' ' && SymbolChar(s[2]) && s[3] == ' ' && IsDigit(s[4])
    ensures Tokenize(s, o) == [IntLit([s[0]]), Fixed([s[2]]), IntLit([s[4]])]
  {
    LexDigit(s, o);
    SpacedOpDigit(s[1..], o + 1);
    Prepend3(IntLit([s[0]]), Fixed([s[1..][1]]), IntLit([s[1..][3]]));
  }

  /** ` d op e` at the end of the input. */
  lemma SpacedDigitOpDigit(s: string, o: nat)
    requires |s| == 6 && s[0] == ' ' && IsDigit(s[1]) && s[2] == ' '
    requires SymbolChar(s[3]) && s[4] == ' ' && IsDigit(s[5])
    ensures Tokenize(s, o) == [IntLit([s[1]]), Fixed([s[3]]), IntLit([s[5]])]
  {
    LexSpace(s, o);
    DigitOpDigit(s[1..], o + 1);
  }

  /** `op d op e` at the end of the input. */
  lemma OpDigitOpDigit(s: string, o: nat)
    requires |s| == 7 && SymbolChar(s[0]) && s[1] == ' ' && IsDigit(s[2])
    requires s[3] == ' ' && SymbolChar(s[4]) && s[5] == ' ' && IsDigit(s[6])
    ensures Tokenize(s, o) == [Fixed([s[0]]), IntLit([s[2]]), Fixed([s[4]]), IntLit([s[6]])]
  {
    DigitOrSpaceOutsideFixed(' ');
    LexSymbol(s, o);
    SpacedDigitOpDigit(s[1..], o + 1);
    Prepend4(Fixed([s[0]]), IntLit([s[1..][1]]), Fixed([s[1..][3]]), IntLit([s[1..][5]]));
  }

  /** ` op d op e` at the end of the input. */
  lemma SpacedOpDigitOpDigit(s: string, o: nat)
    requires |s| == 8 && s[0] == ' ' && SymbolChar(s[1]) && s[2] == ' ' && IsDigit(s[3])
    requires s[4] == ' ' && SymbolChar(s[5]) && s[6] == ' ' && IsDigit(s[7])
    ensures Tokenize(s, o) == [Fixed([s[1]]), IntLit([s[3]]), Fixed([s[5]]), IntLit([s[7]])]
  {
    LexSpace(s, o);
    OpDigitOpDigit(s[1..], o + 1);
  }

  // ---------------------------------------------------------------------------------------
  // Sums and products
  // ---------------------------------------------------------------------------------------

  /** `1 + 2`. */
  lemma OnePlusTwoTokens(s: string, o: nat)
    requires |s| == 5 && s[0] == '1' && s[1] == ' ' && s[2] == '+' && s[3] == ' ' && s[4] == '2'
    ensures Tokenize(s, o) == [IntLit("1"), Fixed("+"), IntLit("2")]
  {
    DigitOpDigit(s, o);
  }

  /** `{a} + 2 + 3`. */
  lemma SumTokens(s: string, o: nat)
    requires |s| == 11 && s[0] == '{' && s[1] == 'a' && s[2] == '}' && s[3] == ' '
    requires s[4] == '+' && s[5] == ' ' && s[6] == '2' && s[7] == ' '
    requires s[8] == '+' && s[9] == ' ' && s[10] == '3'
    ensures Tokenize(s, o) == [IdentLit("{a}"), Fixed("+"), IntLit("2"), Fixed("+"), IntLit("3")]
  {
    IdentMatchAt(s, 3);
    BraceStart(s);
    TokenizeEmits(s, o);
    assert s[..3] == "{a}";
    SpacedOpDigitOpDigit(s[3..], o + 3);
    Prepend5(IdentLit("{a}"), Fixed("+"), IntLit("2"), Fixed("+"), IntLit("3"));
  }

  /** ` + 2 * 3` at the end of the input. */
  lemma PlusTwoTimesThree(s: string, o: nat)
    requires |s| == 8 && s[0] == ' ' && s[1] == '+' && s[2] == ' ' && s[3] == '2'
    requires s[4] == ' ' && s[5] == '*' && s[6] == ' ' && s[7] == '3'
    ensures Tokenize(s, o) == [Fixed("+"), IntLit("2"), Fixed("*"), IntLit("3")]
  {
    SpacedOpDigitOpDigit(s, o);
  }

  /** `1 + 2 * 3`. */
  lemma TighterProductTokens(s: string, o: nat)
    requires |s| == 9 && s[0] == '1' && s[1] == ' ' && s[2] == '+' && s[3] == ' '
    requires s[4] == '2' && s[5] == ' ' && s[6] == '*' && s[7] == ' ' && s[8] == '3'
    ensures Tokenize(s, o) == [IntLit("1"), Fixed("+"), IntLit("2"), Fixed("*"), IntLit("3")]
  {
    LexDigit(s, o);
    PlusTwoTimesThree(s[1..], o + 1);
    Prepend5(IntLit([s[0]]), Fixed("+"), IntLit("2"), Fixed("*"), IntLit("3"));
  }

  /** `) * 3` at the end of the input. */
  lemma CloseTimesThree(s: string, o: nat)
    requires |s| == 5 && s[0] == ')' && s[1] == ' ' && s[2] == '*' && s[3] == ' ' && s[4] == '3'
    ensures Tokenize(s, o) == [Fixed(")"), Fixed("*"), IntLit("3")]
  {
    DigitOrSpaceOutsideFixed(' ');
    LexSymbol(s, o);
    SpacedOpDigit(s[1..], o + 1);
    Prepend3(Fixed([s[0]]), Fixed([s[1..][1]]), IntLit([s[1..][3]]));
  }

  /** `2) * 3` at the end of the input. */
  lemma TwoCloseTimesThree(s: string, o: nat)
    requires |s| == 6 && s[0] == '2' && s[1] == ')' && s[2] == ' ' && s[3] == '*' && s[4] == ' ' && s[5] == '3'
    ensures Tokenize(s, o) == [IntLit("2"), Fixed(")"), Fixed("*"), IntLit("3")]
  {
    LexDigit(s, o);
    CloseTimesThree(s[1..], o + 1);
    Prepend4(IntLit([s[0]]), Fixed(")"), Fixed("*"), IntLit("3"));
  }

  /** ` 2) * 3` at the end of the input. */
  lemma SpacedTwoCloseTimesThree(s: string, o: nat)
    requires |s| == 7 && s[0] == ' ' && s[1] == '2' && s[2] == ')'
    requires s[3] == ' ' && s[4] == '*' && s[5] == ' ' && s[6] == '3'
    ensures Tokenize(s, o) == [IntLit("2"), Fixed(")"), Fixed("*"), IntLit("3")]
  {
    LexSpace(s, o);
    TwoCloseTimesThree(s[1..], o + 1);
  }

  /** `+ 2) * 3` at the end of the input. */
  lemma PlusTwoCloseTimesThree(s: string, o: nat)
    requires |s| == 8 && s[0] == '+' && s[1] == ' ' && s[2] == '2' && s[3] == ')'
    requires s[4] == ' ' && s[5] == '*' && s[6] == ' ' && s[7] == '3'
    ensures Tokenize(s, o) == [Fixed("+"), IntLit("2"), Fixed(")"), Fixed("*"), IntLit("3")]
  {
    DigitOrSpaceOutsideFixed(' ');
    LexSymbol(s, o);
    SpacedTwoCloseTimesThree(s[1..], o + 1);
    Prepend5(Fixed([s[0]]), IntLit("2"), Fixed(")"), Fixed("*"), IntLit("3"));
  }

  /** ` + 2) * 3` at the end of the input. */
  lemma SpacedPlusTwoCloseTimesThree(s: string, o: nat)
    requires |s| == 9 && s[0] == ' ' && s[1] == '+' && s[2] == ' ' && s[3] == '2'
    requires s[4] == ')' && s[5] == ' ' && s[6] == '*' && s[7] == ' ' && s[8] == '3'
    ensures Tokenize(s, o) == [Fixed("+"), IntLit("2"), Fixed(")"), Fixed("*"), IntLit("3")]
  {
    LexSpace(s, o);
    PlusTwoCloseTimesThree(s[1..], o + 1);
  }

  /** `1 + 2) * 3` at the end of the input. */
  lemma OnePlusTwoCloseTimesThree(s: string, o: nat)
    requires |s| == 10 && s[0] == '1' && s[1] == ' ' && s[2] == '+' && s[3] == ' ' && s[4] == '2'
    requires s[5] == ')' && s[6] == ' ' && s[7] == '*' && s[8] == ' ' && s[9] == '3'
    ensures Tokenize(s, o) == [IntLit("1"), Fixed("+"), IntLit("2"), Fixed(")"), Fixed("*"), IntLit("3")]
  {
    LexDigit(s, o);
    SpacedPlusTwoCloseTimesThree(s[1..], o + 1);
    Prepend6(IntLit([s[0]]), Fixed("+"), IntLit("2"), Fixed(")"), Fixed("*"), IntLit("3"));
  }

  /** `(1 + 2) * 3`. */
  lemma GroupedSumTokens(s: string, o: nat)
    requires |s| == 11 && s[0] == '(' && s[1] == '1' && s[2] == ' ' && s[3] == '+'
    requires s[4] == ' ' && s[5] == '2' && s[6] == ')' && s[7] == ' '
    requires s[8] == '*' && s[9] == ' ' && s[10] == '3'
    ensures Tokenize(s, o) ==
      [Fixed("("), IntLit("1"), Fixed("+"), IntLit("2"), Fixed(")"), Fixed("*"), IntLit("3")]
  {
    DigitOrSpaceOutsideFixed('1');
    LexSymbol(s, o);
    OnePlusTwoCloseTimesThree(s[1..], o + 1);
    Prepend7(Fixed([s[0]]), IntLit("1"), Fixed("+"), IntLit("2"), Fixed(")"), Fixed("*"), IntLit("3"));
  }

  // ---------------------------------------------------------------------------------------
  // A comparison and a membership test
  // ---------------------------------------------------------------------------------------

  /** `{name} > 1`. */
  lemma GreaterThanTokens(s: string, o: nat)
    requires |s| == 10 && s[0] == '{' && s[1] == 'n' && s[2] == 'a' && s[3] == 'm' && s[4] == 'e'
    requires s[5] == '}' && s[6] == ' ' && s[7] == '>' && s[8] == ' ' && s[9] == '1'
    ensures Tokenize(s, o) == [IdentLit("{name}"), Fixed(">"), IntLit("1")]
  {
    IdentMatchAt(s, 6);
    BraceStart(s);
    TokenizeEmits(s, o);
    assert s[..6] == "{name}";
    SpacedOpDigit(s[6..], o + 6);
    Prepend3(IdentLit("{name}"), Fixed([s[6..][1]]), IntLit([s[6..][3]]));
  }

  /** `2]` at the end of the input. */
  lemma TwoClose(s: string, o: nat)
    requires |s| == 2 && s[0] == '2' && s[1] == ']'
    ensures Tokenize(s, o) == [IntLit("2"), Fixed("]")]
  {
    LexDigit(s, o);
    LexSymbol(s[1..], o + 1);
    assert s[1..][1..] == [];
    Prepend2(IntLit([s[0]]), Fixed([s[1..][0]]));
  }

  /** ` 2]` at the end of the input. */
  lemma SpacedTwoClose(s: string, o: nat)
    requires |s| == 3 && s[0] == ' ' && s[1] == '2' && s[2] == ']'
    ensures Tokenize(s, o) == [IntLit("2"), Fixed("]")]
  {
    LexSpace(s, o);
    TwoClose(s[1..], o + 1);
  }

  /** `, 2]` at the end of the input. */
  lemma CommaTwoClose(s: string, o: nat)
    requires |s| == 4 && s[0] == ',' && s[1] == ' ' && s[2] == '2' && s[3] == ']'
    ensures Tokenize(s, o) == [Fixed(","), IntLit("2"), Fixed("]")]
  {
    DigitOrSpaceOutsideFixed(' ');
    LexSymbol(s, o);
    SpacedTwoClose(s[1..], o + 1);
    Prepend3(Fixed([s[0]]), IntLit("2"), Fixed("]"));
  }

  /** `1, 2]` at the end of the input. */
  lemma OneCommaTwoClose(s: string, o: nat)
    requires |s| == 5 && s[0] == '1' && s[1] == ',' && s[2] == ' ' && s[3] == '2' && s[4] == ']'
    ensures Tokenize(s, o) == [IntLit("1"), Fixed(","), IntLit("2"), Fixed("]")]
  {
    LexDigit(s, o);
    CommaTwoClose(s[1..], o + 1);
    Prepend4(IntLit([s[0]]), Fixed(","), IntLit("2"), Fixed("]"));
  }

  /** `[1, 2]` at the end of the input. */
  lemma ArrayTokens(s: string, o: nat)
    requires |s| == 6 && s[0] == '[' && s[1] == '1' && s[2] == ',' && s[3] == ' ' && s[4] == '2' && s[5] == ']'
    ensures Tokenize(s, o) == [Fixed("["), IntLit("1"), Fixed(","), IntLit("2"), Fixed("]")]
  {
    DigitOrSpaceOutsideFixed('1');
    LexSymbol(s, o);
    OneCommaTwoClose(s[1..], o + 1);
    Prepend5(Fixed([s[0]]), IntLit("1"), Fixed(","), IntLit("2"), Fixed("]"));
  }

  /** ` [1, 2]` at the end of the input. */
  lemma SpacedArray(s: string, o: nat)
    requires |s| == 7 && s[0] == ' ' && s[1] == '[' && s[2] == '1' && s[3] == ','
    requires s[4] == ' ' && s[5] == '2' && s[6] == ']'
    ensures Tokenize(s, o) == [Fixed("["), IntLit("1"), Fixed(","), IntLit("2"), Fixed("]")]
  {
    LexSpace(s, o);
    ArrayTokens(s[1..], o + 1);
  }

  /** `in [1, 2]` at the end of the input: `in` is a keyword token, not the start of a longer word. */
  lemma InArray(s: string, o: nat)
    requires |s| == 9 && s[0] == 'i' && s[1] == 'n' && s[2] == ' ' && s[3] == '['
    requires s[4] == '1' && s[5] == ',' && s[6] == ' ' && s[7] == '2' && s[8] == ']'
    ensures Tokenize(s, o) == [Fixed("in"), Fixed("["), IntLit("1"), Fixed(","), IntLit("2"), Fixed("]")]
  {
    DigitOrSpaceOutsideFixed(' ');
    LexIn(s, o);
    SpacedArray(s[2..], o + 2);
    Prepend6(Fixed("in"), Fixed("["), IntLit("1"), Fixed(","), IntLit("2"), Fixed("]"));
  }

  /** ` in [1, 2]` at the end of the input. */
  lemma SpacedInArray(s: string, o: nat)
    requires |s| == 10 && s[0] == ' ' && s[1] == 'i' && s[2] == 'n' && s[3] == ' ' && s[4] == '['
    requires s[5] == '1' && s[6] == ',' && s[7] == ' ' && s[8] == '2' && s[9] == ']'
    ensures Tokenize(s, o) == [Fixed("in"), Fixed("["), IntLit("1"), Fixed(","), IntLit("2"), Fixed("]")]
  {
    LexSpace(s, o);
    InArray(s[1..], o + 1);
  }

  /** `d in [1, 2]`, for any digit `d`. */
  lemma MembershipTokens(s: string, d: char, o: nat)
    requires IsDigit(d)
    requires |s| == 11 && s[0] == d && s[1] == ' ' && s[2] == 'i' && s[3] == 'n' && s[4] == ' '
    requires s[5] == '[' && s[6] == '1' && s[7] == ',' && s[8] == ' ' && s[9] == '2' && s[10] == ']'
    ensures Tokenize(s, o) ==
      [IntLit([d]), Fixed("in"), Fixed("["), IntLit("1"), Fixed(","), IntLit("2"), Fixed("]")]
  {
    LexDigit(s, o);
    SpacedInArray(s[1..], o + 1);
    Prepend7(IntLit([s[0]]), Fixed("in"), Fixed("["), IntLit("1"), Fixed(","), IntLit("2"), Fixed("]"));
  }
}
