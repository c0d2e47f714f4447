/** The binary operators, grouped in five families, and their printed symbols (src/ast/op.rs). */
module Ops {
  import opened Results

  datatype LogicalOp = And | Or
  datatype EqualityOp = Eq | Neq | In
  datatype RelationalOp = Gt | Lt | Gte | Lte
  datatype AdditiveOp = Add | Sub
  datatype MultiplicativeOp = Mul | Div | Mod

  datatype Op =
    | Logical(l: LogicalOp)
    | Equality(e: EqualityOp)
    | Relational(r: RelationalOp)
    | Additive(a: AdditiveOp)
    | Multiplicative(m: MultiplicativeOp)

  function LogicalSymbol(o: LogicalOp): string {
    match o
    case And => "&&"
    case Or => "||"
  }

  function EqualitySymbol(o: EqualityOp): string {
    match o
    case Eq => "=="
    case Neq => "!="
    case In => "in"
  }

  function RelationalSymbol(o: RelationalOp): string {
    match o
    case Gt => ">"
    case Lt => "<"
    case Gte => ">="
    case Lte => "<="
  }

  function AdditiveSymbol(o: AdditiveOp): string {
    match o
    case Add => "+"
    case Sub => "-"
  }

  function MultiplicativeSymbol(o: MultiplicativeOp): string {
    match o
    case Mul => "*"
    case Div => "/"
    case Mod => "%"
  }

  /** `impl Display for Op`: the symbol of the wrapped family operator. */
  function Symbol(op: Op): string {
    match op
    case Logical(o) => LogicalSymbol(o)
    case Equality(o) => EqualitySymbol(o)
    case Relational(o) => RelationalSymbol(o)
    case Additive(o) => AdditiveSymbol(o)
    case Multiplicative(o) => MultiplicativeSymbol(o)
  }

  /** The fourteen operators, one per symbol, family by family. */
  const AllOps: seq<Op> := [
    Logical(And), Logical(Or),
    Equality(Eq), Equality(Neq), Equality(In),
    Relational(Gt), Relational(Lt), Relational(Gte), Relational(Lte),
    Additive(Add), Additive(Sub),
    Multiplicative(Mul), Multiplicative(Div), Multiplicative(Mod)
  ]

  /**
   * The operator whose symbol is `s`, if any: the inverse of `Symbol`. The grammar does not
   * use it; it reads operators through `Grammar.LevelOp` and the per-level tables beside it.
   */
  function FromSymbol(s: string): Option<Op> {
    match s
    case "&&" => Some(Logical(And))
    case "||" => Some(Logical(Or))
    case "==" => Some(Equality(Eq))
    case "!=" => Some(Equality(Neq))
    case "in" => Some(Equality(In))
    case ">" => Some(Relational(Gt))
    case "<" => Some(Relational(Lt))
    case ">=" => Some(Relational(Gte))
    case "<=" => Some(Relational(Lte))
    case "+" => Some(Additive(Add))
    case "-" => Some(Additive(Sub))
    case "*" => Some(Multiplicative(Mul))
    case "/" => Some(Multiplicative(Div))
    case "%" => Some(Multiplicative(Mod))
    case _ => None
  }

  /** Every operator is listed once in `AllOps`, so there are exactly fourteen. */
  lemma AllOpsComplete(op: Op)
    ensures op in AllOps
    ensures |AllOps| == 14
    ensures forall i, j :: 0 <= i < j < |AllOps| ==> AllOps[i] != AllOps[j]
  {
    var i := match op
      case Logical(And) => 0
      case Logical(Or) => 1
      case Equality(Eq) => 2
      case Equality(Neq) => 3
      case Equality(In) => 4
      case Relational(Gt) => 5
      case Relational(Lt) => 6
      case Relational(Gte) => 7
      case Relational(Lte) => 8
      case Additive(Add) => 9
      case Additive(Sub) => 10
      case Multiplicative(Mul) => 11
      case Multiplicative(Div) => 12
      case Multiplicative(Mod) => 13;
    assert AllOps[i] == op;
  }

  /** The symbol table is `&& || == != in > < >= <= + - * / %`, in the order of `AllOps`. */
  lemma SymbolTable()
    ensures seq(|AllOps|, i requires 0 <= i < |AllOps| => Symbol(AllOps[i])) ==
      ["&&", "||", "==", "!=", "in", ">", "<", ">=", "<=", "+", "-", "*", "/", "%"]
  {
  }

  /** The fourteen symbols are pairwise distinct: `Display` is injective. */
  lemma {:induction false} SymbolInjective(a: Op, b: Op)
    ensures Symbol(a) == Symbol(b) ==> a == b
  {
    SymbolRoundTrip(a);
    SymbolRoundTrip(b);
  }

  /** Reading back a printed operator gives the operator; a string read as an operator prints as itself. */
  lemma SymbolRoundTrip(op: Op)
    ensures FromSymbol(Symbol(op)) == Some(op)
    ensures forall s :: FromSymbol(s) == Some(op) ==> Symbol(op) == s
  {
  }
}
