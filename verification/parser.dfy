/**
 * The two front-ends of src/parser/parser.rs: expression text through the grammar
 * (`parse_expr_from_str`), and a parsed JSON tree (`parse_expr_from_json_value`), whose
 * objects `{"lhs": .., "op": .., "rhs": ..}` are operator nodes and whose strings are
 * identifiers `{name}` or string literals.
 */
module Parser {
  import opened Results
  import opened JsonModel
  import opened Values
  import opened Ops
  import opened Exprs
  import opened ParameterNames
  import opened Lexer
  import opened Grammar
  import Derivations

  /** Where the source panics instead of returning an error. */
  datatype Panic =
    | IntegerTooLarge(digits: string)  // `i64::from_str(..).unwrap()` in the grammar's integer action
    | NotAValue(node: Json)            // `panic!` converting a JSON null or object nested in an array

  datatype ParserError =
    | InvalidExpr(cause: GrammarError)
    | InvalidValue(text: string)
    | InvalidOp(text: string)
    | MissingValue(key: string)
    | Aborted(panic: Panic)

  /** `parse_expr_from_str`: the grammar's tree, or `InvalidExpr` with the grammar's complaint. */
  function ParseExprFromStr(text: string): Result<Expr, ParserError> {
    match ParseTokens(Tokens(text))
    case Ok(e) => Ok(e)
    case Err(IntegerOverflow(d)) => Err(Aborted(IntegerTooLarge(d)))
    case Err(g) => Err(InvalidExpr(g))
  }

  /** `OpParser`: a string that is exactly one operator token, around which only white space may stand. */
  function OpOfString(s: string): Option<Op> {
    var ts := Tokens(s);
    if |ts| == 1 then LevelOp(TokenLevel(ts[0]), ts[0]) else None
  }

  /** `IdentifierParser`: the text of the one identifier token a string consists of, braces included. */
  function IdentifierOfString(s: string): Option<string> {
    var ts := Tokens(s);
    if |ts| == 1 && ts[0].IdentLit? then Some(ts[0].text) else None
  }

  /**
   * `parse_expr_from_json_value`. `jsonText` is serde_json's compact printing of a JSON value,
   * used for the message of an `op` that is not a string.
   */
  function ParseExprFromJson(j: Json, jsonText: Json -> string): Result<Expr, ParserError>
    decreases j
  {
    match j
    case JObject(fields) =>
      if Get(j, "lhs").None? then Err(MissingValue("lhs"))
      else if Get(j, "op").None? then Err(MissingValue("op"))
      else if Get(j, "rhs").None? then Err(MissingValue("rhs"))
      else
        var opNode := fields["op"];
        if !opNode.JString? then Err(InvalidOp(jsonText(opNode)))
        else if OpOfString(opNode.s).None? then Err(InvalidOp(opNode.s))
        else
          var lhs :- ParseExprFromJson(fields["lhs"], jsonText);
          var rhs :- ParseExprFromJson(fields["rhs"], jsonText);
          Ok(BinOp(lhs, OpOfString(opNode.s).value, rhs))
    case JString(v) =>
      (match IdentifierOfString(v)
       case Some(var_) => Ok(Identifier(ParameterName(var_)))
       case None => Ok(Literal(FromStr(v))))
    case JNull => Err(InvalidValue("null"))
    case _ =>
      (match JsonToValue(j)
       case Ok(v) => Ok(Literal(v))
       case Err(bad) => Err(Aborted(NotAValue(bad))))
  }

  // ---------------------------------------------------------------------------------------
  // The text front-end
  // ---------------------------------------------------------------------------------------

  /**
   * Text parses to `e` exactly when the grammar derives `e` from its tokens; every other
   * outcome is `InvalidExpr`, or the integer panic.
   */
  lemma FromStrMatchesGrammar(text: string, e: Expr)
    ensures ParseExprFromStr(text) == Ok(e) <==> Derivations.Derives(ExprLevel, Tokens(text), e)
    ensures ParseExprFromStr(text).Err? ==>
      ParseExprFromStr(text).error.InvalidExpr? || ParseExprFromStr(text).error.Aborted?
  {
    Derivations.ParseTokensCorrect(Tokens(text), e);
  }

  // ---------------------------------------------------------------------------------------
  // The JSON front-end
  // ---------------------------------------------------------------------------------------

  /** Every operator is accepted by its printed symbol, and a string accepted as an operator is that operator's symbol alone. */
  lemma OperatorStrings(op: Op, s: string)
    ensures OpOfString(Symbol(op)) == Some(op)
    ensures OpOfString(s) == Some(op) ==> Tokens(s) == [Fixed(Symbol(op))]
  {
    SymbolIsFixedToken(op);
    FixedTokenAlone(Symbol(op));
    OperatorTokens(0, Fixed(Symbol(op)), op);
    TokenLevelOp(LevelOf(op), Fixed(Symbol(op)));
    if OpOfString(s) == Some(op) {
      var t := Tokens(s)[0];
      OperatorTokens(TokenLevel(t), t, op);
    }
  }

  lemma SymbolIsFixedToken(op: Op)
    ensures Symbol(op) in FixedTokens
  {
  }

  /**
   * The keys are looked up in the order `lhs`, `op`, `rhs`: the first one missing is the
   * error, whatever the others hold; keys other than these three play no part.
   */
  lemma KeyOrder(fields: map<string, Json>, jsonText: Json -> string)
    ensures "lhs" !in fields ==> ParseExprFromJson(JObject(fields), jsonText) == Err(MissingValue("lhs"))
    ensures "lhs" in fields && "op" !in fields ==> ParseExprFromJson(JObject(fields), jsonText) == Err(MissingValue("op"))
    ensures "lhs" in fields && "op" in fields && "rhs" !in fields ==>
      ParseExprFromJson(JObject(fields), jsonText) == Err(MissingValue("rhs"))
    ensures ParseExprFromJson(JObject(fields), jsonText) ==
      ParseExprFromJson(JObject(map k | k in fields && k in {"lhs", "op", "rhs"} :: fields[k]), jsonText)
  {
  }

  /**
   * With all three keys present, the operator is checked before either operand is
   * translated, the left operand before the right one, and the node joins them.
   */
  lemma OperatorNode(lhs: Json, op: Json, rhs: Json, fields: map<string, Json>, jsonText: Json -> string)
    requires "lhs" in fields && "op" in fields && "rhs" in fields
    requires fields["lhs"] == lhs && fields["op"] == op && fields["rhs"] == rhs
    ensures var r := ParseExprFromJson(JObject(fields), jsonText);
      var l, rr := ParseExprFromJson(lhs, jsonText), ParseExprFromJson(rhs, jsonText);
      (!op.JString? ==> r == Err(InvalidOp(jsonText(op)))) &&
      (op.JString? && OpOfString(op.s).None? ==> r == Err(InvalidOp(op.s))) &&
      (op.JString? && OpOfString(op.s).Some? ==>
        (l.Err? ==> r == Err(l.error)) &&
        (l.Ok? && rr.Err? ==> r == Err(rr.error)) &&
        (l.Ok? && rr.Ok? ==> r == Ok(BinOp(l.value, OpOfString(op.s).value, rr.value))))
  {
  }

  /**
   * A string `{name}` with a name of the identifier form is that parameter; a string that is
   * not one identifier token is a string literal holding exactly that text.
   */
  lemma JsonStrings(name: string, v: string, jsonText: Json -> string)
    ensures IsIdentifierName(name) ==> ParseExprFromJson(JString("{" + name + "}"), jsonText) == Ok(Identifier(name))
    ensures IdentifierOfString(v).None? ==> ParseExprFromJson(JString(v), jsonText) == Ok(Literal(String(v)))
    ensures ParseExprFromJson(JString(v), jsonText).Ok?
  {
    if IsIdentifierName(name) {
      IdentifierAlone(name);
      BracesRoundTrip(name);
    }
  }

  /**
   * `null` is `InvalidValue("null")`; a number, boolean or array is the literal of its
   * conversion, never an identifier; a null or object nested in an array is the conversion's panic.
   */
  lemma JsonScalars(j: Json, jsonText: Json -> string)
    ensures j.JNull? ==> ParseExprFromJson(j, jsonText) == Err(InvalidValue("null"))
    ensures j.JNumber? || j.JBool? || j.JArray? ==>
      ParseExprFromJson(j, jsonText) == (if JsonToValue(j).Ok? then Ok(Literal(JsonToValue(j).value))
                                         else Err(Aborted(NotAValue(JsonToValue(j).error))))
  {
  }

  /**
   * The JSON front-end only ever builds operator nodes from objects, identifiers from
   * identifier strings and literals from everything else, so every parameter name it
   * produces has the identifier form.
   */
  lemma {:induction false} JsonIdentifiersWellFormed(j: Json, jsonText: Json -> string)
    ensures ParseExprFromJson(j, jsonText).Ok? ==> AllNamesWellFormed(ParseExprFromJson(j, jsonText).value)
    decreases j
  {
    match j
    case JObject(fields) =>
      if "lhs" in fields && "rhs" in fields {
        JsonIdentifiersWellFormed(fields["lhs"], jsonText);
        JsonIdentifiersWellFormed(fields["rhs"], jsonText);
      }
    case JString(v) =>
      if IdentifierOfString(v).Some? {
        IdentifierTokenText(v);
      }
    case _ =>
  }

  /** Every identifier of the tree is a name of the form `[a-z][0-9_a-z]*`. */
  predicate AllNamesWellFormed(e: Expr) {
    match e
    case Identifier(n) => IsIdentifierName(n)
    case Literal(_) => true
    case BinOp(l, _, r) => AllNamesWellFormed(l) && AllNamesWellFormed(r)
  }

  /** The text of an identifier token is a name of the identifier form in braces. */
  lemma IdentifierTokenText(s: string)
    requires IdentifierOfString(s).Some?
    ensures IsIdentifierName(ParameterName(IdentifierOfString(s).value))
  {
    assert IdentTokensOk(Tokens(s));
  }
}
