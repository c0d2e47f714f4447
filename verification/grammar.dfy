/**
 * The expression grammar of src/parser/grammar.rs, read as the language it accepts and the
 * trees its semantic actions build, and parsed by precedence climbing over the token stream.
 *
 *   Expr               = Expr LogicalOp RelationalExpr | RelationalExpr                  (level 4)
 *   RelationalExpr     = RelationalExpr RelationalOp AdditiveExpr | AdditiveExpr         (level 3)
 *   AdditiveExpr       = AdditiveExpr AdditiveOp MultiplicativeExpr | MultiplicativeExpr (level 2)
 *   MultiplicativeExpr = MultiplicativeExpr MultiplicativeOp Term | Term                 (level 1)
 *   Term               = Value | Array<Value> | Identifier | "(" Expr ")"                (level 0)
 *   Array<Value>       = "[" (Value ",")* Value? "]"
 *   Value              = StringValue | NumberValue | BoolValue
 */
module Grammar {
  import opened Results
  import opened Numbers
  import opened Values
  import opened Ops
  import opened Exprs
  import opened ParameterNames
  import opened Lexer

  /** Why the token stream is not an expression. */
  datatype GrammarError =
    | InvalidToken(location: nat)      // the lexer found no token at this character offset
    | UnrecognizedToken(index: nat)    // no production continues with the token at this index
    | UnrecognizedEof                  // the input ended inside an expression
    | IntegerOverflow(digits: string)  // `i64::from_str(..).unwrap()` of an integer token above `i64::MAX`

  const ExprLevel: nat := 4
  const I64Max: int := 0x7FFF_FFFF_FFFF_FFFF

  // ---------------------------------------------------------------------------------------
  // Operator tokens (semantic actions 12 to 25)
  // ---------------------------------------------------------------------------------------

  /** `LogicalOp = "&&" | "||"` */
  function LogicalOpOf(t: Token): Option<Op> {
    match t
    case Fixed("&&") => Some(Logical(And))
    case Fixed("||") => Some(Logical(Or))
    case _ => None
  }

  /** `RelationalOp = ">" | "<" | ">=" | "<=" | "==" | "!=" | "in"`, the last three in the equality family. */
  function RelationalOpOf(t: Token): Option<Op> {
    match t
    case Fixed(">") => Some(Relational(Gt))
    case Fixed("<") => Some(Relational(Lt))
    case Fixed(">=") => Some(Relational(Gte))
    case Fixed("<=") => Some(Relational(Lte))
    case Fixed("==") => Some(Equality(Eq))
    case Fixed("!=") => Some(Equality(Neq))
    case Fixed("in") => Some(Equality(In))
    case _ => None
  }

  /** `AdditiveOp = "+" | "-"` */
  function AdditiveOpOf(t: Token): Option<Op> {
    match t
    case Fixed("+") => Some(Additive(Add))
    case Fixed("-") => Some(Additive(Sub))
    case _ => None
  }

  /** `MultiplicativeOp = "*" | "/" | "%"` */
  function MultiplicativeOpOf(t: Token): Option<Op> {
    match t
    case Fixed("*") => Some(Multiplicative(Mul))
    case Fixed("/") => Some(Multiplicative(Div))
    case Fixed("%") => Some(Multiplicative(Mod))
    case _ => None
  }

  /** The operator token `t` stands for at binary level `k` (1 to 4), if any. */
  function LevelOp(k: nat, t: Token): Option<Op> {
    if k == 4 then LogicalOpOf(t)
    else if k == 3 then RelationalOpOf(t)
    else if k == 2 then AdditiveOpOf(t)
    else if k == 1 then MultiplicativeOpOf(t)
    else None
  }

  /** The binary level of an operator: logical 4, equality and relational 3, additive 2, multiplicative 1. */
  function LevelOf(op: Op): nat {
    match op
    case Logical(_) => 4
    case Equality(_) => 3
    case Relational(_) => 3
    case Additive(_) => 2
    case Multiplicative(_) => 1
  }

  /** The level (1 to 4) of the operator a token stands for, or 0 for a token that is not an operator. */
  function TokenLevel(t: Token): nat {
    if LogicalOpOf(t).Some? then 4
    else if RelationalOpOf(t).Some? then 3
    else if AdditiveOpOf(t).Some? then 2
    else if MultiplicativeOpOf(t).Some? then 1
    else 0
  }

  /** A token stands for an operator at level `j` exactly when `j` is its level. */
  lemma TokenLevelOp(j: nat, t: Token)
    requires 1 <= j <= ExprLevel
    ensures LevelOp(j, t).Some? <==> TokenLevel(t) == j
  {
  }

  /**
   * Each operator token stands for the operator that prints as that token, at that operator's
   * level and no other; no other token stands for an operator.
   */
  lemma OperatorTokens(k: nat, t: Token, op: Op)
    ensures LevelOp(LevelOf(op), Fixed(Symbol(op))) == Some(op)
    ensures LevelOp(k, t) == Some(op) ==> t == Fixed(Symbol(op)) && k == LevelOf(op)
  {
  }

  // ---------------------------------------------------------------------------------------
  // Literal values (semantic actions 26 to 28 and 33 to 40)
  // ---------------------------------------------------------------------------------------

  function DigitValue(c: char): nat {
    if IsDigit(c) then c as int - '0' as int else 0
  }

  /** The decimal value of a digit string. */
  function DigitsValue(d: string): nat
    decreases |d|
  {
    if d == [] then 0 else 10 * DigitsValue(d[..|d| - 1]) + DigitValue(d[|d| - 1])
  }

  function Pow10(n: nat): (p: nat)
    ensures p > 0
  {
    if n == 0 then 1 else 10 * Pow10(n - 1)
  }

  /** The value of a float token `[0-9]+.[0-9]+`: integer part plus fraction digits over their power of ten. */
  function FloatValue(s: string): real {
    var n := Run(s, IsDigit);
    var frac := if n < |s| then s[n + 1..] else "";
    DigitsValue(s[..n]) as real + DigitsValue(frac) as real / Pow10(|frac|) as real
  }

  /** Tokens that form a `Value`: a string, an integer, a float, `true` or `false`. */
  predicate IsValueToken(t: Token) {
    t.StringLit? || t.IntLit? || t.FloatLit? || t == Fixed("true") || t == Fixed("false")
  }

  /**
   * The value of a value token: a string keeps its quotes; an integer above `i64::MAX` cannot
   * be converted and is an error.
   */
  function ValueOf(t: Token): Result<Value, GrammarError>
    requires IsValueToken(t)
  {
    match t
    case StringLit(s) => Ok(String(s))
    case IntLit(d) =>
      if DigitsValue(d) <= I64Max then Ok(Number(FromInt(DigitsValue(d)))) else Err(IntegerOverflow(d))
    case FloatLit(s) => Ok(Number(Finite(FloatValue(s))))
    case Fixed(b) => Ok(Bool(b == "true"))
  }

  /** The digits of a decimal number of `n` digits are below `10^n`. */
  lemma {:induction false} DigitsBound(d: string)
    ensures DigitsValue(d) < Pow10(|d|)
    decreases |d|
  {
    if d != [] {
      DigitsBound(d[..|d| - 1]);
    }
  }

  /** A float token's value lies between its integer part and the next integer. */
  lemma FloatValueBounds(s: string)
    ensures var n := Run(s, IsDigit);
      DigitsValue(s[..n]) as real <= FloatValue(s) < DigitsValue(s[..n]) as real + 1.0
  {
    var n := Run(s, IsDigit);
    var frac := if n < |s| then s[n + 1..] else "";
    DigitsBound(frac);
    ProperFraction(DigitsValue(frac), Pow10(|frac|));
  }

  lemma ProperFraction(x: nat, y: nat)
    requires x < y
    ensures 0.0 <= x as real / y as real < 1.0
  {
    var q := x as real / y as real;
    assert q * y as real == x as real;
  }

  // ---------------------------------------------------------------------------------------
  // The parser
  // ---------------------------------------------------------------------------------------

  /** The error for a stream that cannot continue at token index `p`. */
  function ErrorAt(toks: seq<Token>, p: nat): GrammarError
    requires p <= |toks|
  {
    if p == |toks| then UnrecognizedEof
    else if toks[p].Invalid? then InvalidToken(toks[p].location)
    else UnrecognizedToken(p)
  }

  /**
   * Level `k` from token `pos`: the first operand one level down, then any number of
   * `op operand` pairs folded to the left. On success, the tree and the index after it.
   */
  function ParseLevel(k: nat, toks: seq<Token>, pos: nat): (r: Result<(Expr, nat), GrammarError>)
    requires k <= ExprLevel && pos <= |toks|
    ensures r.Ok? ==> pos < r.value.1 <= |toks|
    decreases |toks| - pos, k, 1
  {
    if k == 0 then ParseTerm(toks, pos)
    else
      var first :- ParseLevel(k - 1, toks, pos);
      FoldRest(k, toks, first.0, first.1)
  }

  /** The rest of level `k` after the tree `acc`, which ends before token `pos`. */
  function FoldRest(k: nat, toks: seq<Token>, acc: Expr, pos: nat): (r: Result<(Expr, nat), GrammarError>)
    requires 1 <= k <= ExprLevel && pos <= |toks|
    ensures r.Ok? ==> pos <= r.value.1 <= |toks|
    decreases |toks| - pos, k, 0
  {
    if pos < |toks| && LevelOp(k, toks[pos]).Some? then
      var right :- ParseLevel(k - 1, toks, pos + 1);
      FoldRest(k, toks, BinOp(acc, LevelOp(k, toks[pos]).value, right.0), right.1)
    else Ok((acc, pos))
  }

  /** `Term`: a value, an array of values, an identifier with its braces stripped, or a parenthesised expression. */
  function ParseTerm(toks: seq<Token>, pos: nat): (r: Result<(Expr, nat), GrammarError>)
    requires pos <= |toks|
    ensures r.Ok? ==> pos < r.value.1 <= |toks|
    decreases |toks| - pos, 0, 0
  {
    if pos == |toks| then Err(UnrecognizedEof)
    else if IsValueToken(toks[pos]) then
      var v :- ValueOf(toks[pos]);
      Ok((Literal(v), pos + 1))
    else if toks[pos].IdentLit? then
      Ok((Identifier(ParameterName(toks[pos].text)), pos + 1))
    else if toks[pos] == Fixed("(") then
      var inner :- ParseLevel(ExprLevel, toks, pos + 1);
      if inner.1 < |toks| && toks[inner.1] == Fixed(")") then Ok((inner.0, inner.1 + 1))
      else Err(ErrorAt(toks, inner.1))
    else if toks[pos] == Fixed("[") then
      var arr :- ParseArray(toks, pos + 1, []);
      Ok((Literal(Array(arr.0)), arr.1))
    else Err(ErrorAt(toks, pos))
  }

  /** The elements of an array after `[` (or after an element's comma), appended to `acc`, up to and including `]`. */
  function ParseArray(toks: seq<Token>, pos: nat, acc: seq<Value>): (r: Result<(seq<Value>, nat), GrammarError>)
    requires pos <= |toks|
    ensures r.Ok? ==> pos < r.value.1 <= |toks|
    decreases |toks| - pos
  {
    if pos < |toks| && toks[pos] == Fixed("]") then Ok((acc, pos + 1))
    else if pos < |toks| && IsValueToken(toks[pos]) then
      var v :- ValueOf(toks[pos]);
      if pos + 1 < |toks| && toks[pos + 1] == Fixed(",") then ParseArray(toks, pos + 2, acc + [v])
      else if pos + 1 < |toks| && toks[pos + 1] == Fixed("]") then Ok((acc + [v], pos + 2))
      else Err(ErrorAt(toks, pos + 1))
    else Err(ErrorAt(toks, pos))
  }

  /** `ExprParser::parse`: an expression that spans the whole token stream. */
  function ParseTokens(toks: seq<Token>): Result<Expr, GrammarError> {
    var r :- ParseLevel(ExprLevel, toks, 0);
    if r.1 == |toks| then Ok(r.0) else Err(ErrorAt(toks, r.1))
  }
}
