# evaluator_rs in Dafny

A model of evaluator_rs, a small expression language for business rules such as
`{age} >= 18 && {country} in ['US', 'CA']`. The crate reads an expression either as text,
through an LALR grammar, or as a JSON tree of `{"lhs", "op", "rhs"}` objects. Both front-ends
build the same `Expr` tree, and a tree-walking evaluator computes a `Value` from that tree
and a map of named parameters.

The model has the following parts:

- **`Numbers`**: the `f64` inside `Value::Number`. It is a finite real or one of `+inf`,
  `-inf` and NaN. Arithmetic is exact, `%` is the truncated remainder, and NaN is unequal and
  unordered to everything.
- **`Values`**: the `Value` enum, its `From` conversions, `Display`, and the conversion from a
  JSON value. The older copy in `ast/src/value.rs` has the same conversions and is modelled by
  the same members.
- **`Ops`**: the five operator families and their printed symbols.
- **`Exprs`**: the `Expr` tree and its fully parenthesised `Display`.
- **`ParameterNames`**: `parse_parameter_name`, written as the character-iterator loop of the
  source and proved against a function.
- **`Evaluator`**: `evaluate` and the per-family operator tables. Both operands are evaluated
  left first with no short-circuit, and a combination of operand variants outside an
  operator's table is an `InvalidOperation` error.
- **`Lexer`**: the 26-pattern token table of `src/parser/grammar.rs`. At each position the
  longest match wins, and a tie goes to the later pattern. White space is skipped. A character
  where only the empty white-space run matches ends the stream with an `Invalid` token.
- **`Grammar`**: the productions and semantic actions of the same file, parsed by precedence
  climbing over the token stream.
- **`Derivations`**: the productions as a declarative relation between tokens and trees. The
  parser is proved to compute exactly that relation, so the grammar is unambiguous. Left
  association, precedence between levels and parentheses are proved from it.
- **`Parser`**: `parse_expr_from_str` and `parse_expr_from_json_value`.
- **`LegacyParser`**: `parse_expr` of the older `parser` crate.
- **`SampleTexts`**: the texts of those examples, lexed one token at a time.
- **`Scenarios`**: the crate's documented examples and tests, worked from expression text and
  JSON trees through the tree to the value.

A panic in the source is an error variant in the model:

- `Aborted(IntegerTooLarge(digits))` for an integer literal above `i64::MAX`, which the
  source unwraps.
- `Aborted(NotAValue(node))` for a JSON null or object inside an array, where the source's
  `From<&JsonValue>` panics.

`==`, `!=` and `in` belong to `EqualityOp` in `src/ast/op.rs:90-99` and in the evaluator. The
generated `src/parser/grammar.rs` builds them as `RelationalOp::Eq`, `RelationalOp::Neq` and
`RelationalOp::In` (lines 7183-7215), which that enum does not have. The model follows
`op.rs` and the evaluator, and keeps these three tokens at the relational level of the
grammar.

`src/parser/parser.rs` calls `grammar::OpParser` and `grammar::IdentifierParser`, which the
generated `grammar.rs` does not define. The model reads them as "the string lexes to exactly
one operator token" and "the string lexes to exactly one identifier token", over the same
token table.

The evaluator's tests in src/evaluator/evaluator.rs call `parser::parse_expr`, which
src/parser/parser.rs no longer defines. The scenarios read those texts with
`parse_expr_from_str`, which `LegacyParser.AgreesWithCurrent` shows to agree with the older
`parse_expr`.

## Model

| member | source | states |
|---|---|---|
| Evaluator.Evaluate | src/evaluator/evaluator.rs:18-27 | `evaluate`; its contract is stated by `EvaluateFrame`, `ErrorClassification`, `KindSoundness` and `OperandOrder` |
| Evaluator.EvaluateOp | src/evaluator/evaluator.rs:29-45 | `evaluate_op`; `OperandOrder` states that the left operand's error wins, then the right one's, then the operator's table |
| Evaluator.Apply | src/evaluator/evaluator.rs:38-44 | the dispatch on the operator family; `ApplyMatchesTable` states where it succeeds and what it returns |
| Evaluator.EvaluateLogical | src/evaluator/evaluator.rs:47-70 | `evaluate_logical_expr`; `LogicalSemantics` and `ApplyMatchesTable` state it |
| Evaluator.EvaluateEquality | src/evaluator/evaluator.rs:72-109 | `evaluate_equality_expr`; `EqIsValueEquality`, `NeqNegatesEq` and `InIsMembership` state it |
| Evaluator.EvaluateRelational | src/evaluator/evaluator.rs:111-154 | `evaluate_relational_expr`; `BoolOrder`, `RelationalConverse` and `NumberOrderTotal` state it |
| Evaluator.EvaluateAdditive | src/evaluator/evaluator.rs:156-179 | `evaluate_additive_expr`; `ApplyMatchesTable` and `Numbers.NaNPropagates` state it |
| Evaluator.EvaluateMultiplicative | src/evaluator/evaluator.rs:181-212 | `evaluate_multiplicative_expr`; `ApplyMatchesTable`, `Numbers.RemFinite` and `Numbers.NaNPropagates` state it |
| Parser.ParseExprFromStr | src/parser/parser.rs:40-45 | `parse_expr_from_str`; `FromStrMatchesGrammar` states it |
| Parser.ParseExprFromJson | src/parser/parser.rs:72-104 | `parse_expr_from_json_value`; `KeyOrder`, `OperatorNode`, `JsonStrings`, `JsonScalars` and `JsonIdentifiersWellFormed` state it |
| Parser.OpOfString | src/parser/parser.rs:87-90 | the reading of an `op` string; `OperatorStrings` states it |
| Parser.IdentifierOfString | src/parser/parser.rs:97-98 | the reading of an identifier string; `JsonStrings` and `IdentifierTokenText` state it |
| Grammar.ParseTokens | src/parser/grammar.rs:2232-2263 | `ExprParser::parse` on a token stream; `Derivations.ParseTokensCorrect` and `Derivations.Unambiguous` state it |
| Grammar.ValueOf | src/parser/grammar.rs:7350-7436 | the actions for literal tokens; `FloatValueBounds` and `Scenarios.DigitLeaf` state it |
| Grammar.LevelOp | src/parser/grammar.rs:7117-7270 | the operator productions of each level; `TokenLevelOp` and `OperatorTokens` state it |
| Lexer.Tokens | src/parser/grammar.rs:6942-6972 | the token stream of a text; `Tokenize`, `TokenizeEmits`, `TokenizeSkips` and the `Lex…` lemmas state it |
| Exprs.ShowExpr | src/ast/expr.rs:12-21 | `Display for Expr`; `FullyParenthesised`, `IdentifierRoundTrip` and `ShowShapes` state it |
| Values.Show | src/ast/value.rs:13-35 | `Display for Value`; `Format`, `ShowElemsSnoc` and `DisplayShapes` state it |
| Values.JsonToValue | src/ast/value.rs:133-150 | `From<&JsonValue>`; `ItemsToValuesSpec` and `ValueFromJson` state it |
| Values.ValueEq | src/ast/value.rs:4-11 | the derived `PartialEq`; `ValueEqIsIdentity` and `Evaluator.ValueEqSymmetric` state it |
| Values.Contains | src/evaluator/evaluator.rs:98-107 | `Vec::contains` under that equality; `NaNNotContained` and `Evaluator.InIsMembership` state it |
| Ops.Symbol | src/ast/op.rs:46-111 | `Display for Op`; `SymbolTable`, `SymbolInjective` and `SymbolRoundTrip` state it |
| ParameterNames.ParameterName | src/parser/parser.rs:105-110 | `parse_parameter_name`; `ParseParameterName` and `BracesRoundTrip` state it |
| LegacyParser.ParseExpr | parser/src/parser.rs:13-18 | the older `parse_expr`; `ParseExprWrapsGrammar` and `AgreesWithCurrent` state it |
| Numbers.Trichotomy | src/evaluator/evaluator.rs:111-154 | without NaN, exactly one of `<`, `==` and `>` holds between two numbers |
| Numbers.NaNUnordered | src/evaluator/evaluator.rs:72-154 | NaN is not `==`, `<` or `<=` to any number, itself included |
| Numbers.LtTransitive | src/evaluator/evaluator.rs:111-154 | `<` on numbers is transitive |
| Numbers.FromIntMonotone | src/ast/value.rs:95-115 | `FromInt`, the model's exact integer-to-number conversion, makes two numbers equal or ordered exactly when the integers are |
| Numbers.TruncBounds | src/evaluator/evaluator.rs:203-210 | truncation moves toward zero by less than one |
| Numbers.RemFinite | src/evaluator/evaluator.rs:203-210 | with a nonzero divisor, `%` yields a value that differs from the dividend by a whole multiple of the divisor, is smaller than the divisor in magnitude, and is zero or has the dividend's sign |
| Numbers.NaNPropagates | src/evaluator/evaluator.rs:156-212 | every arithmetic operator with a NaN operand yields NaN |
| Values.FromStr | src/ast/value.rs:47-51 | `Value::from(&str)`, and the older `From<String>` and `From<&str>` of ast/src/value.rs:24-34, are the string variant holding the same text |
| Values.FromF64 | src/ast/value.rs:63-83 | `Value::from(f64)` and the exact widening `Value::from(f32)`, and their older copies at ast/src/value.rs:36-46, hold the same number |
| Values.FromI64 | src/ast/value.rs:95-99 | `Value::from(i64)`, and its older copy at ast/src/value.rs:48-52, is the number equal to the integer |
| Values.FromI32 | src/ast/value.rs:111-115 | `Value::from(i32)`, and its older copy at ast/src/value.rs:54-58, is the number equal to the integer |
| Values.FromBool | src/ast/value.rs:127-131 | `Value::from(bool)`, and its older copy at ast/src/value.rs:60-64, is the boolean variant holding the same flag |
| Values.IntConversionsExact | src/ast/value.rs:95-115 | distinct `i32` values, and distinct `i64` values up to 2^53 in magnitude, convert to unequal numbers ordered as the integers are |
| Values.ValueEqIsIdentity | src/ast/value.rs:4-11 | away from NaN, the derived `PartialEq` is structural identity, through arrays of any depth |
| Values.NaNNotContained | src/evaluator/evaluator.rs:98-107 | no array contains a NaN number, since NaN is unequal to every element |
| Values.ShowElemsSnoc | src/ast/value.rs:20-32 | printing one more array element appends `", "` and that element's text |
| Values.Format | src/ast/value.rs:13-35 | the `once`-flag loop writes exactly the specified display text of the value |
| Values.DisplayShapes | src/ast/value.rs:170-186 | booleans print as `true`/`false`, strings raw, `[]` for an empty array and `[a, b]` with a `", "` separator |
| Values.ItemsToValuesSpec | src/ast/value.rs:133-150 | a JSON array converts iff every item does, to the same length with each item's conversion at its index; otherwise the error is the first failing item's |
| Values.ItemsToValuesAppend | src/ast/value.rs:139-146 | the items of `p + q` convert as those of `p` followed by those of `q` |
| Values.ValueFromJson | src/ast/value.rs:133-150 | the push loop over the array items computes the item-wise conversion, and null or an object is the panic node |
| Ops.AllOpsComplete | src/ast/op.rs:3-44 | there are exactly fourteen operators, each listed once |
| Ops.SymbolTable | src/ast/op.rs:46-111 | the printed symbols are `&& \|\| == != in > < >= <= + - * / %` in family order |
| Ops.SymbolInjective | src/ast/op.rs:46-111 | distinct operators print distinct symbols |
| Ops.SymbolRoundTrip | src/ast/op.rs:117-146 | reading a printed symbol gives back the operator, and a string read as an operator is its symbol |
| Exprs.FullyParenthesised | src/ast/expr.rs:12-21 | without parentheses in the leaves, the printed tree has exactly one `(` and one `)` per operator node |
| Exprs.SymbolsParenFree | src/ast/op.rs:59-111 | no operator symbol contains a parenthesis |
| Exprs.IdentifierRoundTrip | src/ast/expr.rs:12-21 | stripping the braces of a printed identifier gives back its name |
| Exprs.ShowShapes | src/ast/expr.rs:29-44 | an identifier prints as `{name}`, a literal as its value and an operator node as `(l op r)` |
| ParameterNames.ParseParameterName | src/parser/parser.rs:105-110 | the result is the text without its first and last characters, and empty when there are fewer than two; the older copy at parser/src/parser.rs:20-25 is the same |
| ParameterNames.BracesRoundTrip | src/parser/parser.rs:276-281 | stripping `{` and `}` from `{name}` gives `name` for any name |
| Evaluator.ApplyMatchesTable | src/evaluator/evaluator.rs:38-212 | an operator succeeds exactly on its family's operand variants, with a result of the family's kind; otherwise the error is `InvalidOperation` with the operands in order |
| Evaluator.LogicalSemantics | src/evaluator/evaluator.rs:47-70 | `&&` and `\|\|` on booleans are conjunction and disjunction |
| Evaluator.NeqNegatesEq | src/evaluator/evaluator.rs:72-97 | `!=` is defined exactly where `==` is and is its negation |
| Evaluator.EqIsValueEquality | src/evaluator/evaluator.rs:72-97 | `==` on two scalars of one variant is value equality, which is identity away from NaN |
| Evaluator.InIsMembership | src/evaluator/evaluator.rs:98-107 | `x in [..]` is true iff some element is `==` to `x`; false for `[]`; plain membership away from NaN |
| Evaluator.ValueEqSymmetric | src/ast/value.rs:4-11 | the derived `PartialEq` is symmetric |
| Evaluator.BoolOrder | src/evaluator/evaluator.rs:111-154 | booleans compare with `false < true` under all four relational operators |
| Evaluator.RelationalConverse | src/evaluator/evaluator.rs:111-154 | `x > y` succeeds iff `y < x` does, and then equals it; likewise `x >= y` and `y <= x`; when they fail, each is `InvalidOperation` with its own operands in order |
| Evaluator.NumberOrderTotal | src/evaluator/evaluator.rs:111-154 | on numbers other than NaN, `>=` negates `<` and `<=` negates `>` |
| Evaluator.OperandOrder | src/evaluator/evaluator.rs:29-45 | the left operand's error wins, then the right one's, even when `&&` or `\|\|` could decide from the left operand alone |
| Evaluator.EvaluateFrame | src/evaluator/evaluator.rs:18-27 | the result depends only on the parameters the expression names |
| Evaluator.ErrorClassification | src/evaluator/evaluator.rs:10-45 | every error is a missing parameter that the expression names, or an operator of the expression outside its table |
| Evaluator.KindSoundness | src/evaluator/evaluator.rs:18-212 | evaluation succeeds iff the expression kind-checks against the parameters' kinds, and the result has the predicted kind |
| Lexer.MatchLength | src/parser/grammar.rs:6942-6972 | a pattern's match fits in the input and is nonempty except for white space, which always matches |
| Lexer.Pick | src/parser/grammar.rs:6942-6972 | the scan keeps the best match so far or takes a later pattern's match that is at least as long |
| Lexer.Longest | src/parser/grammar.rs:6942-6972 | the chosen pattern is in the table, fits the input, and consumes something unless it is white space |
| Lexer.LongestIsMatch | src/parser/grammar.rs:6942-6972 | the chosen pattern matches with the chosen length |
| Lexer.LongestMatch | src/parser/grammar.rs:6942-6972 | no pattern matches more, and a pattern matching as much comes no later in the table |
| Lexer.PickIsLongest | src/parser/grammar.rs:6942-6972 | the scan from any pattern on returns a longest match, and the last one among equals |
| Lexer.Tokenize | src/parser/grammar.rs:6947 | every identifier token produced is `{name}` with a name of the identifier form |
| Lexer.WholeInputToken | src/parser/grammar.rs:6944-6969 | an input matched whole by one pattern, and by no later one, is that single token |
| Lexer.FixedTokensDistinct | src/parser/grammar.rs:6948-6968 | the 21 fixed tokens are distinct and none starts with white space |
| Lexer.FixedTokenAlone | src/parser/grammar.rs:6948-6968 | each fixed token alone lexes to exactly itself |
| Lexer.IdentifierAlone | src/parser/grammar.rs:6947 | `{name}` with a well-formed name lexes to exactly one identifier token |
| Lexer.FixedTokenStarts | src/parser/grammar.rs:6944-6969 | no fixed token starts with a digit, a quote, a brace or white space |
| Lexer.FixedNeedsFirstChar | src/parser/grammar.rs:6948-6968 | a fixed token matches only where the input starts with its first character |
| Lexer.DigitStart | src/parser/grammar.rs:6945-6946 | at a digit the lexer reads a float when one matches, else an integer |
| Lexer.WhitespaceStart | src/parser/grammar.rs:6969 | at white space the lexer consumes the whole run |
| Lexer.FixedStart | src/parser/grammar.rs:6948-6968 | elsewhere the lexer reads the longest fixed token the input starts with |
| Lexer.BraceStart | src/parser/grammar.rs:6947 | at `{` the lexer reads an identifier when one matches |
| Lexer.UnknownStart | src/parser/grammar.rs:6944-6969 | a character that starts no token ends the stream with `Invalid` at its offset |
| Lexer.NoMatchAtUnknown | src/parser/grammar.rs:6944-6969 | at such a character only the empty white-space run matches |
| Lexer.IdentMatchShape | src/parser/grammar.rs:6947 | an identifier match is `{`, a lowercase letter, then `[0-9_a-z]*`, then `}` |
| Lexer.TokenizeEmits | src/parser/grammar.rs:6942-6972 | at a token, the stream is that token followed by the tokens of the rest |
| Lexer.TokenizeSkips | src/parser/grammar.rs:6969 | white space is skipped, and an empty match ends the stream with `Invalid` |
| Lexer.HeadTokenShaped | src/parser/grammar.rs:6947 | an identifier token emitted at the head has the identifier form |
| Lexer.LexDigit | src/parser/grammar.rs:6945-6946 | a digit followed by neither a digit nor a point is a one-digit integer token, and lexing goes on after it |
| Lexer.LexSpace | src/parser/grammar.rs:6969 | a single space before a character that is not white space is skipped |
| Lexer.SymbolIndex | src/parser/grammar.rs:6948-6968 | each of the twelve one-character operators and brackets is a fixed token |
| Lexer.LexSymbol | src/parser/grammar.rs:6948-6968 | a one-character fixed token not followed by a character of any fixed token is that token, and lexing goes on after it |
| Lexer.LexIn | src/parser/grammar.rs:6966 | `in` not followed by a character of any fixed token is the keyword token |
| Lexer.FixedLongest | src/parser/grammar.rs:6948-6968 | a fixed token the input starts with, not followed by a character of any fixed token, is the longest match |
| Lexer.IdentMatchAt | src/parser/grammar.rs:6947 | `{`, a lowercase letter, identifier characters and `}` are matched whole by the identifier pattern |
| Lexer.DigitOrSpaceOutsideFixed | src/parser/grammar.rs:6948-6968 | no fixed token contains a digit or a space |
| SampleTexts.OnePlusTwoTokens | src/parser/parser.rs:262 | `1 + 2` lexes to `1`, `+`, `2` |
| SampleTexts.SumTokens | src/parser/parser.rs:35 | `{a} + 2 + 3` lexes to the identifier `{a}`, `+`, `2`, `+`, `3` |
| SampleTexts.TighterProductTokens | src/evaluator/evaluator.rs:735 | `1 + 2 * 3` lexes to `1`, `+`, `2`, `*`, `3` |
| SampleTexts.GroupedSumTokens | src/evaluator/evaluator.rs:739 | `(1 + 2) * 3` lexes to `(`, `1`, `+`, `2`, `)`, `*`, `3` |
| SampleTexts.GreaterThanTokens | src/evaluator/evaluator.rs:683 | `{name} > 1` lexes to the identifier `{name}`, `>`, `1` |
| SampleTexts.MembershipTokens | src/evaluator/evaluator.rs:644-648 | `d in [1, 2]` lexes to `d`, the keyword `in`, `[`, `1`, `,`, `2`, `]` |
| Grammar.TokenLevelOp | src/parser/grammar.rs:1215-1510 | a token is an operator of level `j` exactly when `j` is its level |
| Grammar.OperatorTokens | src/parser/grammar.rs:7117-7270 | each operator token builds the operator that prints as it, at one level only, and no other token builds an operator |
| Grammar.FloatValueBounds | src/parser/grammar.rs:7427-7436 | a float token's value lies between its integer part and the next integer |
| Grammar.ParseLevel | src/parser/grammar.rs:942-1510 | a parsed level consumes at least one token and stays within the stream |
| Grammar.FoldRest | src/parser/grammar.rs:942-1510 | the left fold ends within the stream and never moves backward |
| Grammar.ParseTerm | src/parser/grammar.rs:1544-1649 | a parsed term consumes at least one token and stays within the stream |
| Grammar.ParseArray | src/parser/grammar.rs:7438-7457 | a parsed array body consumes at least its `]` and stays within the stream |
| Derivations.ArraySound | src/parser/grammar.rs:7438-7457 | what the array parser returns is an array body the productions derive |
| Derivations.TermSound | src/parser/grammar.rs:1544-1649 | what the term parser returns is derived by `Term` |
| Derivations.LevelSound | src/parser/grammar.rs:942-1510 | what a level parser returns is derived by that level's productions |
| Derivations.FoldSound | src/parser/grammar.rs:942-1510 | extending a derived left operand by the fold stays derived |
| Derivations.ArrayComplete | src/parser/grammar.rs:7438-7457 | every derived array body is what the array parser returns |
| Derivations.TermComplete | src/parser/grammar.rs:1544-1649 | every tree `Term` derives is what the term parser returns |
| Derivations.LevelComplete | src/parser/grammar.rs:942-1510 | every tree a level derives, up to a token that cannot continue it, is what the level parser returns |
| Derivations.ParseTokensCorrect | src/parser/grammar.rs:2232-2263 | `ExprParser` returns a tree iff the productions derive that tree from the whole token stream |
| Derivations.Unambiguous | src/parser/grammar.rs:942-1649 | no token stream derives two different trees |
| Derivations.Lift | src/parser/grammar.rs:962-1391 | by the unit productions, what a level derives every higher level derives |
| Derivations.Join | src/parser/grammar.rs:942-1371 | a left-recursive production joins a level's tree, an operator of the level and the next lower level's tree |
| Derivations.LeftFold | src/parser/grammar.rs:942-1371 | two operators of one level associate to the left |
| Derivations.Precedence | src/parser/grammar.rs:942-1391 | for term operands, an operator of a lower level binds tighter on either side; the general statement follows from `Derivations.ParseTokensCorrect` and `Derivations.Unambiguous` |
| Derivations.Parenthesised | src/parser/grammar.rs:7337-7349 | parentheses give the same tree, with no node of their own |
| Parser.FromStrMatchesGrammar | src/parser/parser.rs:40-45 | text parses to a tree iff the grammar derives it from the text's tokens; otherwise `InvalidExpr` or the integer panic |
| Parser.OperatorStrings | src/parser/parser.rs:87-90 | each symbol is accepted as its operator, and an accepted string is that operator's token alone |
| Parser.SymbolIsFixedToken | src/parser/grammar.rs:6948-6968 | every operator symbol is a fixed token of the lexer |
| Parser.KeyOrder | src/parser/parser.rs:75-81 | the first missing key of `lhs`, `op`, `rhs` is the error; other keys play no part |
| Parser.OperatorNode | src/parser/parser.rs:83-95 | the operator is checked before the operands, the left operand before the right, and the node joins them |
| Parser.JsonStrings | src/parser/parser.rs:97-100 | `{name}` with a well-formed name is that parameter; any other string is a literal with the same text; strings never fail |
| Parser.JsonScalars | src/parser/parser.rs:101-102 | null is `InvalidValue("null")`; numbers, booleans and arrays are literals of their conversion |
| Parser.JsonIdentifiersWellFormed | src/parser/parser.rs:72-104 | every parameter name in a tree built from JSON has the identifier form |
| Parser.IdentifierTokenText | src/parser/parser.rs:97-98 | the name taken from an identifier string has the identifier form |
| LegacyParser.ParseExprWrapsGrammar | parser/src/parser.rs:13-18 | the older `parse_expr` returns a tree iff the grammar derives it, and wraps every other grammar failure in `InvalidExpr` |
| LegacyParser.AgreesWithCurrent | parser/src/parser.rs:13-18 | the older and current text front-ends accept the same texts with the same trees and fail for the same reasons |
| Scenarios.DigitLeaf | src/parser/grammar.rs:7394-7425 | a one-digit integer token derives the number literal of that digit, converted exactly |
| Scenarios.SumExample | src/parser/parser.rs:35-38 | the text `{a} + 2 + 3` parses to `({a} + 2) + 3` and gives 9 with `a` bound to 4 |
| Scenarios.TighterProductExample | src/evaluator/evaluator.rs:735-738 | the text `1 + 2 * 3` parses to `1 + (2 * 3)` and gives 7 |
| Scenarios.GroupedSumExample | src/evaluator/evaluator.rs:739-742 | the text `(1 + 2) * 3` parses to `(1 + 2) * 3` and gives 9 |
| Scenarios.GreaterThanExample | src/evaluator/evaluator.rs:682-701 | the text `{name} > 1` parses to a comparison of the parameter with 1, true with `name` bound to 2 and false with it bound to 0 |
| Scenarios.GreaterThan | src/evaluator/evaluator.rs:111-154 | with `name` bound to a number, `{name} > 1` is that number's `>` comparison with 1 |
| Scenarios.MembershipExample | src/evaluator/evaluator.rs:643-650 | the texts `1 in [1, 2]` and `3 in [1, 2]` parse to membership tests of a number literal in an array literal, true and false |
| Scenarios.DigitMembershipParses | src/parser/grammar.rs:7183-7215 | `d in [1, 2]`, for any digit `d`, parses to the membership test of the number `d` in the array of 1 and 2 |
| Scenarios.LiteralMembership | src/evaluator/evaluator.rs:98-107 | membership of a finite number literal in an array literal is list membership |
| Scenarios.Membership | src/evaluator/evaluator.rs:98-107 | with `a` bound to a finite number, `{a} in [..]` is that number's membership |
| Scenarios.JsonMembershipExample | src/parser/parser.rs:55-63 | the documented JSON document is `{a} in [4, 5, 6]`: true for 4, false for 7, and a missing `a` is `InvalidParameter("a")` |
| Scenarios.FrontEndsAgree | src/parser/parser.rs:260-268 | the text `1 + 2` and the JSON `{"lhs":1,"op":"+","rhs":2}` both give the tree of `1 + 2` that the test expects |
| Scenarios.OperatorByName | src/parser/parser.rs:87-90 | an operator spelled `add` is rejected as `InvalidOp("add")` |

## Left out

- Floating point: `f64` rounding, overflow to infinity and signed zero. Finite numbers are exact reals.
- Rust's float formatting in `Display`: the text of a number is a parameter `numText` of the printers.
- JSON text: `serde_json` parsing and the `parse_expr_from_json` wrapper (src/parser/parser.rs:65-70). The model starts from the parsed JSON tree, and serde's compact printing of a non-string `op` is a parameter `jsonText`.
- Error messages: lalrpop's messages are not modelled. `InvalidExpr` carries the grammar's reason and a position instead of the message string: a character offset for an `Invalid` token and a token index otherwise, where lalrpop reports byte offsets.
- LALR tables: the generated state machine is replaced by a precedence-climbing parser that is proved to compute the same relation as the productions.
- Panic timing: the model reports an integer literal above `i64::MAX` as soon as the parser reaches it. The source panics only when the LALR parser reduces that literal, which depends on the token after it, so for such a literal followed by a syntax error the two may report different failures.
- Recursion depth: stack overflow on deeply nested input is not modelled.
- Values.FromI64, Grammar.ValueOf: the integer is converted exactly, so rounding of `i64` values above 2^53 by `as f64` is not modelled; this holds for `Value::from(i64)` and for integer literals of the grammar alike.
- Debug printing: the `Debug` impls of ast/src/value.rs:12-22 and ast/src/expr.rs are left out, since the evaluator only shows them in error messages.
- The older crate's grammar file is not part of this model. `LegacyParser` takes its grammar to be that of src/parser/grammar.rs.
- `HashMap` is a Dafny `map` from names to values.
