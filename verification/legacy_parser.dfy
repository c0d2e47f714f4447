/**
 * The older `parser` crate (parser/src/parser.rs). Its `parse_expr` hands the text to the
 * generated grammar and wraps every grammar failure in the one error it knows, `InvalidExpr`.
 * That crate's grammar file is not part of this model: its grammar is taken to be the one of
 * src/parser/grammar.rs, with the same integer panic. Its `parse_parameter_name` is identical
 * to the current one and is `ParameterNames.ParseParameterName`.
 */
module LegacyParser {
  import opened Results
  import opened Exprs
  import opened Lexer
  import opened Grammar
  import Parser
  import Derivations

  /** The older crate's `ParserError`, plus the panic of an integer literal above `i64::MAX`. */
  datatype ParserError =
    | InvalidExpr(cause: GrammarError)
    | Aborted(panic: Parser.Panic)

  /** `parse_expr`: the grammar's tree unchanged, or `InvalidExpr` with the grammar's complaint. */
  function ParseExpr(text: string): Result<Expr, ParserError> {
    match ParseTokens(Tokens(text))
    case Ok(e) => Ok(e)
    case Err(IntegerOverflow(d)) => Err(Aborted(Parser.IntegerTooLarge(d)))
    case Err(g) => Err(InvalidExpr(g))
  }

  /**
   * A tree is returned exactly when the grammar derives it, and every grammar failure other
   * than the integer panic is `InvalidExpr` carrying that failure.
   */
  lemma ParseExprWrapsGrammar(text: string, e: Expr)
    ensures ParseExpr(text) == Ok(e) <==> Derivations.Derives(ExprLevel, Tokens(text), e)
    ensures ParseTokens(Tokens(text)).Err? && !ParseTokens(Tokens(text)).error.IntegerOverflow? ==>
      ParseExpr(text) == Err(InvalidExpr(ParseTokens(Tokens(text)).error))
  {
    Derivations.ParseTokensCorrect(Tokens(text), e);
  }

  /**
   * The older and the current text front-ends accept the same texts with the same trees and
   * reject the others for the same reason.
   */
  lemma AgreesWithCurrent(text: string)
    ensures ParseExpr(text).Ok? <==> Parser.ParseExprFromStr(text).Ok?
    ensures ParseExpr(text).Ok? ==> ParseExpr(text).value == Parser.ParseExprFromStr(text).value
    ensures forall g :: ParseExpr(text) == Err(InvalidExpr(g)) <==> Parser.ParseExprFromStr(text) == Err(Parser.InvalidExpr(g))
    ensures forall p :: ParseExpr(text) == Err(Aborted(p)) <==> Parser.ParseExprFromStr(text) == Err(Parser.Aborted(p))
  {
  }
}
