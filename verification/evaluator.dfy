/**
 * The type-checked tree-walking evaluator (src/evaluator/evaluator.rs): both operands are
 * always evaluated, left first, and the operator's family decides which operand variants it
 * accepts; every other combination is an `InvalidOperation` error.
 */
module Evaluator {
  import opened Numbers
  import opened Results
  import opened Values
  import opened Ops
  import opened Exprs

  datatype EvaluatorError =
    | InvalidParameter(name: string)
    | InvalidOperation(lhs: Value, op: Op, rhs: Value)

  type Parameters = map<string, Value>

  // ---------------------------------------------------------------------------------------
  // The evaluator
  // ---------------------------------------------------------------------------------------

  /** `evaluate`: parameters are looked up by name, literals stand for themselves. */
  function Evaluate(e: Expr, parameters: Parameters): Result<Value, EvaluatorError>
    decreases e, 1
  {
    match e
    case Identifier(name) =>
      if name in parameters then Ok(parameters[name]) else Err(InvalidParameter(name))
    case BinOp(l, op, r) => EvaluateOp(l, op, r, parameters)
    case Literal(v) => Ok(v)
  }

  /** `evaluate_op`: the left operand, then the right one (each error returned at once), then the operator. */
  function EvaluateOp(l: Expr, op: Op, r: Expr, parameters: Parameters): Result<Value, EvaluatorError>
    decreases BinOp(l, op, r), 0
  {
    var lv :- Evaluate(l, parameters);
    var rv :- Evaluate(r, parameters);
    Apply(lv, op, rv)
  }

  /** The dispatch on the operator's family. */
  function Apply(x: Value, op: Op, y: Value): Result<Value, EvaluatorError> {
    match op
    case Logical(o) => EvaluateLogical(x, o, y)
    case Equality(o) => EvaluateEquality(x, o, y)
    case Relational(o) => EvaluateRelational(x, o, y)
    case Additive(o) => EvaluateAdditive(x, o, y)
    case Multiplicative(o) => EvaluateMultiplicative(x, o, y)
  }

  function EvaluateLogical(x: Value, o: LogicalOp, y: Value): Result<Value, EvaluatorError> {
    match (x, y)
    case (Bool(a), Bool(b)) => Ok(Bool(if o == And then a && b else a || b))
    case _ => Err(InvalidOperation(x, Logical(o), y))
  }

  function EvaluateEquality(x: Value, o: EqualityOp, y: Value): Result<Value, EvaluatorError> {
    match o
    case Eq =>
      (match (x, y)
       case (Bool(a), Bool(b)) => Ok(Bool(a == b))
       case (Number(a), Number(b)) => Ok(Bool(Numbers.Eq(a, b)))
       case (String(a), String(b)) => Ok(Bool(a == b))
       case _ => Err(InvalidOperation(x, Equality(o), y)))
    case Neq =>
      (match (x, y)
       case (Bool(a), Bool(b)) => Ok(Bool(a != b))
       case (Number(a), Number(b)) => Ok(Bool(!Numbers.Eq(a, b)))
       case (String(a), String(b)) => Ok(Bool(a != b))
       case _ => Err(InvalidOperation(x, Equality(o), y)))
    case In =>
      (match (x, y)
       case (Number(_), Array(es)) => Ok(Bool(Contains(es, x)))
       case (String(_), Array(es)) => Ok(Bool(Contains(es, x)))
       case (Bool(_), Array(es)) => Ok(Bool(Contains(es, x)))
       case _ => Err(InvalidOperation(x, Equality(o), y)))
  }

  /** `bool`'s order: `false < true`. */
  predicate BoolLt(a: bool, b: bool) {
    !a && b
  }

  function EvaluateRelational(x: Value, o: RelationalOp, y: Value): Result<Value, EvaluatorError> {
    match (x, y)
    case (Bool(a), Bool(b)) =>
      Ok(Bool(match o
              case Gt => BoolLt(b, a)
              case Lt => BoolLt(a, b)
              case Gte => BoolLt(b, a) || a == b
              case Lte => BoolLt(a, b) || a == b))
    case (Number(a), Number(b)) =>
      Ok(Bool(match o
              case Gt => Numbers.Gt(a, b)
              case Lt => Numbers.Lt(a, b)
              case Gte => Numbers.Ge(a, b)
              case Lte => Numbers.Le(a, b)))
    case _ => Err(InvalidOperation(x, Relational(o), y))
  }

  function EvaluateAdditive(x: Value, o: AdditiveOp, y: Value): Result<Value, EvaluatorError> {
    match (x, y)
    case (Number(a), Number(b)) => Ok(Number(if o == Add then Numbers.Add(a, b) else Numbers.Sub(a, b)))
    case _ => Err(InvalidOperation(x, Additive(o), y))
  }

  function EvaluateMultiplicative(x: Value, o: MultiplicativeOp, y: Value): Result<Value, EvaluatorError> {
    match (x, y)
    case (Number(a), Number(b)) =>
      Ok(Number(match o
                case Mul => Numbers.Mul(a, b)
                case Div => Numbers.Div(a, b)
                case Mod => Numbers.Rem(a, b)))
    case _ => Err(InvalidOperation(x, Multiplicative(o), y))
  }

  // ---------------------------------------------------------------------------------------
  // The operand table, stated on its own
  // ---------------------------------------------------------------------------------------

  datatype Kind = KBool | KNumber | KString | KArray

  function KindOf(v: Value): Kind {
    match v
    case Bool(_) => KBool
    case Number(_) => KNumber
    case String(_) => KString
    case Array(_) => KArray
  }

  /**
   * The table of accepted operand variants: the kind of the result when the operator accepts
   * operands of kinds `a` and `b`, and nothing when it rejects them.
   */
  function Signature(op: Op, a: Kind, b: Kind): Option<Kind> {
    match op
    case Logical(_) => if a == KBool && b == KBool then Some(KBool) else None
    case Equality(In) => if a != KArray && b == KArray then Some(KBool) else None
    case Equality(_) => if a == b && a != KArray then Some(KBool) else None
    case Relational(_) => if a == b && (a == KBool || a == KNumber) then Some(KBool) else None
    case Additive(_) => if a == KNumber && b == KNumber then Some(KNumber) else None
    case Multiplicative(_) => if a == KNumber && b == KNumber then Some(KNumber) else None
  }

  /**
   * Applying an operator succeeds exactly on the operand variants of its table row, with a
   * result of the row's kind (Bool for logical, equality and relational operators, Number for
   * arithmetic ones); anything else is `InvalidOperation` carrying the operands in order.
   */
  lemma ApplyMatchesTable(x: Value, op: Op, y: Value)
    ensures Apply(x, op, y).Ok? <==> Signature(op, KindOf(x), KindOf(y)).Some?
    ensures Apply(x, op, y).Ok? ==> KindOf(Apply(x, op, y).value) == Signature(op, KindOf(x), KindOf(y)).value
    ensures Apply(x, op, y).Err? ==> Apply(x, op, y).error == InvalidOperation(x, op, y)
  {
  }

  // ---------------------------------------------------------------------------------------
  // Operator semantics
  // ---------------------------------------------------------------------------------------

  /** `&&` and `||` on booleans are conjunction and disjunction. */
  lemma LogicalSemantics(a: bool, b: bool)
    ensures Apply(Bool(a), Logical(And), Bool(b)) == Ok(Bool(a && b))
    ensures Apply(Bool(a), Logical(Or), Bool(b)) == Ok(Bool(a || b))
  {
  }

  /** `!=` is defined exactly where `==` is, and is its negation. */
  lemma NeqNegatesEq(x: Value, y: Value)
    ensures Apply(x, Equality(Neq), y).Ok? <==> Apply(x, Equality(Eq), y).Ok?
    ensures Apply(x, Equality(Eq), y).Ok? ==>
      Apply(x, Equality(Eq), y).value.Bool? &&
      Apply(x, Equality(Neq), y).value == Bool(!Apply(x, Equality(Eq), y).value.b)
  {
  }

  /**
   * `==` on two values of the same scalar variant is `true` iff they are equal values
   * (for numbers, equal and not NaN).
   */
  lemma EqIsValueEquality(x: Value, y: Value)
    requires KindOf(x) == KindOf(y) && KindOf(x) != KArray
    ensures Apply(x, Equality(Eq), y) == Ok(Bool(ValueEq(x, y)))
    ensures NaNFree(x) ==> Apply(x, Equality(Eq), y) == Ok(Bool(x == y))
  {
    if NaNFree(x) {
      ValueEqIsIdentity(x, y);
    }
  }

  /**
   * `x in [e1, ..., en]` for a scalar `x` is `true` iff some element is `==` to `x`, so it is
   * `false` for `[]`; away from NaN, that is plain membership.
   */
  lemma InIsMembership(x: Value, es: seq<Value>)
    requires !x.Array?
    ensures Apply(x, Equality(In), Array(es)) == Ok(Bool(exists i :: 0 <= i < |es| && ValueEq(es[i], x)))
    ensures es == [] ==> Apply(x, Equality(In), Array(es)) == Ok(Bool(false))
    ensures NaNFree(x) ==> Apply(x, Equality(In), Array(es)) == Ok(Bool(x in es))
  {
    if NaNFree(x) {
      if x in es {
        var i :| 0 <= i < |es| && es[i] == x;
        ValueEqIsIdentity(x, es[i]);
        assert ValueEq(es[i], x);
      }
      forall i | 0 <= i < |es| && ValueEq(es[i], x)
        ensures es[i] == x
      {
        ValueEqIsIdentity(x, es[i]);
        assert ValueEq(x, es[i]) by {
          ValueEqSymmetric(es[i], x);
        }
      }
    }
  }

  lemma {:induction false} ValueEqSymmetric(x: Value, y: Value)
    ensures ValueEq(x, y) == ValueEq(y, x)
    decreases x
  {
    match (x, y)
    case (Array(xs), Array(ys)) =>
      if |xs| == |ys| {
        forall i | 0 <= i < |xs|
          ensures ValueEq(xs[i], ys[i]) == ValueEq(ys[i], xs[i])
        {
          ValueEqSymmetric(xs[i], ys[i]);
        }
      }
    case _ =>
  }

  /** Booleans are ordered `false < true`. */
  lemma BoolOrder(a: bool, b: bool)
    ensures Apply(Bool(a), Relational(Lt), Bool(b)) == Ok(Bool(!a && b))
    ensures Apply(Bool(a), Relational(Lte), Bool(b)) == Ok(Bool(!a || b))
    ensures Apply(Bool(a), Relational(Gt), Bool(b)) == Ok(Bool(a && !b))
    ensures Apply(Bool(a), Relational(Gte), Bool(b)) == Ok(Bool(a || !b))
  {
  }

  /** `x > y` is `y < x` and `x >= y` is `y <= x`; both fail together, each naming its own operands. */
  lemma RelationalConverse(x: Value, y: Value)
    ensures Apply(x, Relational(Gt), y).Ok? <==> Apply(y, Relational(Lt), x).Ok?
    ensures Apply(x, Relational(Gt), y).Ok? ==> Apply(x, Relational(Gt), y) == Apply(y, Relational(Lt), x)
    ensures Apply(x, Relational(Gte), y).Ok? <==> Apply(y, Relational(Lte), x).Ok?
    ensures Apply(x, Relational(Gte), y).Ok? ==> Apply(x, Relational(Gte), y) == Apply(y, Relational(Lte), x)
    ensures Apply(x, Relational(Gt), y).Err? ==>
      Apply(x, Relational(Gt), y) == Err(InvalidOperation(x, Relational(Gt), y)) &&
      Apply(y, Relational(Lt), x) == Err(InvalidOperation(y, Relational(Lt), x))
    ensures Apply(x, Relational(Gte), y).Err? ==>
      Apply(x, Relational(Gte), y) == Err(InvalidOperation(x, Relational(Gte), y)) &&
      Apply(y, Relational(Lte), x) == Err(InvalidOperation(y, Relational(Lte), x))
  {
  }

  /** On numbers other than NaN, `>=` is the negation of `<` and `<=` that of `>`. */
  lemma NumberOrderTotal(a: F64, b: F64)
    requires !a.NaN? && !b.NaN?
    ensures Apply(Number(a), Relational(Gte), Number(b)) == Ok(Bool(!Numbers.Lt(a, b)))
    ensures Apply(Number(a), Relational(Lte), Number(b)) == Ok(Bool(!Numbers.Gt(a, b)))
  {
    Trichotomy(a, b);
  }

  // ---------------------------------------------------------------------------------------
  // Properties of evaluation
  // ---------------------------------------------------------------------------------------

  /** The parameter names an expression refers to. */
  function FreeVars(e: Expr): set<string> {
    match e
    case Identifier(n) => {n}
    case Literal(_) => {}
    case BinOp(l, _, r) => FreeVars(l) + FreeVars(r)
  }

  /** The operators occurring in an expression. */
  function OpsOf(e: Expr): set<Op> {
    match e
    case Identifier(_) => {}
    case Literal(_) => {}
    case BinOp(l, op, r) => OpsOf(l) + {op} + OpsOf(r)
  }

  /**
   * Both operands are evaluated, left first, with no short-circuit: an error of the left
   * operand wins, then one of the right operand, even for `&&` and `||` when the left
   * operand alone would decide the result.
   */
  lemma OperandOrder(l: Expr, op: Op, r: Expr, p: Parameters)
    ensures Evaluate(l, p).Err? ==> Evaluate(BinOp(l, op, r), p) == Err(Evaluate(l, p).error)
    ensures Evaluate(l, p).Ok? && Evaluate(r, p).Err? ==> Evaluate(BinOp(l, op, r), p) == Err(Evaluate(r, p).error)
    ensures Evaluate(l, p) == Ok(Bool(false)) && Evaluate(r, p).Err? ==>
      Evaluate(BinOp(l, Logical(And), r), p).Err?
    ensures Evaluate(l, p) == Ok(Bool(true)) && Evaluate(r, p).Err? ==>
      Evaluate(BinOp(l, Logical(Or), r), p).Err?
  {
  }

  /** The result depends only on the parameters the expression names. */
  lemma {:induction false} EvaluateFrame(e: Expr, p: Parameters, q: Parameters)
    requires forall n :: n in FreeVars(e) ==> (n in p <==> n in q) && (n in p ==> p[n] == q[n])
    ensures Evaluate(e, p) == Evaluate(e, q)
  {
    match e
    case Identifier(n) =>
    case Literal(_) =>
    case BinOp(l, op, r) =>
      EvaluateFrame(l, p, q);
      EvaluateFrame(r, p, q);
  }

  /**
   * Every error names its cause: a missing parameter that the expression refers to, or an
   * operator of the expression applied to operand variants outside its table row.
   */
  lemma {:induction false} ErrorClassification(e: Expr, p: Parameters)
    ensures Evaluate(e, p).Err? && Evaluate(e, p).error.InvalidParameter? ==>
      Evaluate(e, p).error.name in FreeVars(e) && Evaluate(e, p).error.name !in p
    ensures Evaluate(e, p).Err? && Evaluate(e, p).error.InvalidOperation? ==>
      var err := Evaluate(e, p).error;
      err.op in OpsOf(e) && Signature(err.op, KindOf(err.lhs), KindOf(err.rhs)).None?
  {
    match e
    case Identifier(n) =>
    case Literal(_) =>
    case BinOp(l, op, r) =>
      ErrorClassification(l, p);
      ErrorClassification(r, p);
      if Evaluate(l, p).Ok? && Evaluate(r, p).Ok? {
        ApplyMatchesTable(Evaluate(l, p).value, op, Evaluate(r, p).value);
      }
  }

  // ---------------------------------------------------------------------------------------
  // Static kind checking: evaluation succeeds exactly on well-kinded expressions
  // ---------------------------------------------------------------------------------------

  /** The kind an expression evaluates to under an environment of parameter kinds, if it is well-kinded. */
  function KindCheck(e: Expr, env: map<string, Kind>): Option<Kind> {
    match e
    case Identifier(n) => if n in env then Some(env[n]) else None
    case Literal(v) => Some(KindOf(v))
    case BinOp(l, op, r) =>
      match (KindCheck(l, env), KindCheck(r, env))
      case (Some(a), Some(b)) => Signature(op, a, b)
      case _ => None
  }

  /** The kinds of the supplied parameters. */
  function KindsOf(p: Parameters): map<string, Kind> {
    map n | n in p :: KindOf(p[n])
  }

  /**
   * Evaluation never fails on an expression that kind-checks against the parameters' kinds and
   * always fails on one that does not; a result has the predicted kind.
   */
  lemma {:induction false} KindSoundness(e: Expr, p: Parameters)
    ensures Evaluate(e, p).Ok? <==> KindCheck(e, KindsOf(p)).Some?
    ensures Evaluate(e, p).Ok? ==> KindOf(Evaluate(e, p).value) == KindCheck(e, KindsOf(p)).value
  {
    match e
    case Identifier(n) =>
    case Literal(_) =>
    case BinOp(l, op, r) =>
      KindSoundness(l, p);
      KindSoundness(r, p);
      if Evaluate(l, p).Ok? && Evaluate(r, p).Ok? {
        ApplyMatchesTable(Evaluate(l, p).value, op, Evaluate(r, p).value);
      }
  }
}
