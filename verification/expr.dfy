/** The expression tree and its fully parenthesised printed form (src/ast/expr.rs). */
module Exprs {
  import opened Numbers
  import opened Values
  import opened Ops
  import opened ParameterNames

  /**
   * `Expr`: a parameter reference, a literal, or a binary application that exclusively owns
   * its two operand trees (Rust's `Box`es become the datatype's own fields).
   */
  datatype Expr =
    | Identifier(name: string)
    | Literal(value: Value)
    | BinOp(left: Expr, op: Op, right: Expr)

  /** `impl Display for Expr`; `numText` prints numbers, as for `Value`. */
  function ShowExpr(e: Expr, numText: F64 -> string): string {
    match e
    case Identifier(n) => "{" + n + "}"
    case Literal(v) => Values.Show(v, numText)
    case BinOp(l, op, r) => "(" + ShowExpr(l, numText) + " " + Symbol(op) + " " + ShowExpr(r, numText) + ")"
  }

  /** The number of operator nodes in a tree. */
  function OpCount(e: Expr): nat {
    match e
    case BinOp(l, _, r) => OpCount(l) + 1 + OpCount(r)
    case _ => 0
  }

  /** The number of occurrences of `c` in `s`. */
  function Occurrences(s: string, c: char): nat {
    if |s| == 0 then 0 else (if s[0] == c then 1 else 0) + Occurrences(s[1..], c)
  }

  lemma {:induction false} OccurrencesAppend(s: string, t: string, c: char)
    ensures Occurrences(s + t, c) == Occurrences(s, c) + Occurrences(t, c)
    decreases |s|
  {
    if |s| == 0 {
      assert s + t == t;
    } else {
      assert (s + t)[1..] == s[1..] + t;
      OccurrencesAppend(s[1..], t, c);
    }
  }

  /**
   * The printed form is fully parenthesised: when no identifier, string literal or number text
   * holds a parenthesis, it has exactly one `(` and one `)` per operator node.
   */
  lemma {:induction false} FullyParenthesised(e: Expr, numText: F64 -> string)
    requires ParenFree(e, numText)
    ensures Occurrences(ShowExpr(e, numText), '(') == OpCount(e)
    ensures Occurrences(ShowExpr(e, numText), ')') == OpCount(e)
  {
    match e
    case Identifier(n) =>
      OccurrencesAppend("{", n, '(');
      OccurrencesAppend("{" + n, "}", '(');
      OccurrencesAppend("{", n, ')');
      OccurrencesAppend("{" + n, "}", ')');
    case Literal(v) =>
    case BinOp(l, op, r) =>
      FullyParenthesised(l, numText);
      FullyParenthesised(r, numText);
      var sl, so, sr := ShowExpr(l, numText), Symbol(op), ShowExpr(r, numText);
      assert Occurrences(so, '(') == 0 && Occurrences(so, ')') == 0 by {
        SymbolsParenFree(op);
      }
      forall c | c == '(' || c == ')'
        ensures Occurrences(ShowExpr(e, numText), c) == OpCount(l) + 1 + OpCount(r)
      {
        calc {
          Occurrences(ShowExpr(e, numText), c);
          Occurrences("(" + sl + " " + so + " " + sr + ")", c);
          { OccurrencesAppend("(" + sl + " " + so + " " + sr, ")", c);
            OccurrencesAppend("(" + sl + " " + so + " ", sr, c);
            OccurrencesAppend("(" + sl + " " + so, " ", c);
            OccurrencesAppend("(" + sl + " ", so, c);
            OccurrencesAppend("(" + sl, " ", c);
            OccurrencesAppend("(", sl, c); }
          Occurrences("(", c) + Occurrences(sl, c) + Occurrences(so, c) + Occurrences(sr, c) + Occurrences(")", c);
        }
      }
  }

  lemma SymbolsParenFree(op: Op)
    ensures Occurrences(Symbol(op), '(') == 0 && Occurrences(Symbol(op), ')') == 0
  {
  }

  /** No identifier name, literal text or number text in `e` contains a parenthesis. */
  predicate ParenFree(e: Expr, numText: F64 -> string) {
    match e
    case Identifier(n) => Occurrences(n, '(') == 0 && Occurrences(n, ')') == 0
    case Literal(v) =>
      Occurrences(Values.Show(v, numText), '(') == 0 && Occurrences(Values.Show(v, numText), ')') == 0
    case BinOp(l, _, r) => ParenFree(l, numText) && ParenFree(r, numText)
  }

  /** Dropping the braces of a printed identifier gives back its name. */
  lemma IdentifierRoundTrip(name: string, numText: F64 -> string)
    ensures ParameterName(ShowExpr(Identifier(name), numText)) == name
  {
    BracesRoundTrip(name);
  }

  /** The printed forms of the three node kinds: `{name}`, the value's text, and `(l op r)`. */
  lemma ShowShapes(name: string, v: Value, l: Expr, op: Op, r: Expr, numText: F64 -> string)
    ensures ShowExpr(Identifier(name), numText) == "{" + name + "}"
    ensures ShowExpr(Literal(v), numText) == Values.Show(v, numText)
    ensures var s := ShowExpr(BinOp(l, op, r), numText);
      s[0] == '(' && s[|s| - 1] == ')' &&
      s == "(" + ShowExpr(l, numText) + " " + Symbol(op) + " " + ShowExpr(r, numText) + ")"
  {
  }
}
