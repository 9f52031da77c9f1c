/** The precedence of operators as a grammar with one layer for each level (section 2.5.6 of the Lua 5.1 Reference
    Manual), from `or`, which binds weakest, to exponentiation, which binds strongest. */
module CodeLayers {
  import opened CodeMachine
  import opened CodeExpr

  /** Constants, local variables, and anything in parentheses. */
  predicate Atom(x: Expr)
    decreases x, 0
  {
    match x
    case EParen(y) => Layered(y)
    case EUnary(_, _) => false
    case EBinary(_, _, _) => false
    case _ => true
  }

  /** power ::= atom [`^` unary], so `^` is right associative and -x^y is -(x^y). */
  predicate PowerLayer(x: Expr)
    decreases x, 1
  {
    match x
    case EBinary(Numeric(Pow), y, z) => Atom(y) && UnaryLayer(z)
    case _ => Atom(x)
  }

  /** unary ::= (`not` | `-`) unary | power */
  predicate UnaryLayer(x: Expr)
    decreases x, 2
  {
    match x
    case EUnary(_, y) => UnaryLayer(y)
    case _ => PowerLayer(x)
  }

  /** product ::= [product (`*` | `/` | `%`)] unary */
  predicate ProductLayer(x: Expr)
    decreases x, 3
  {
    match x
    case EBinary(Numeric(Mul), y, z) => ProductLayer(y) && UnaryLayer(z)
    case EBinary(Numeric(Div), y, z) => ProductLayer(y) && UnaryLayer(z)
    case EBinary(Numeric(Mod), y, z) => ProductLayer(y) && UnaryLayer(z)
    case _ => UnaryLayer(x)
  }

  /** sum ::= [sum (`+` | `-`)] product */
  predicate SumLayer(x: Expr)
    decreases x, 4
  {
    match x
    case EBinary(Numeric(Add), y, z) => SumLayer(y) && ProductLayer(z)
    case EBinary(Numeric(Sub), y, z) => SumLayer(y) && ProductLayer(z)
    case _ => ProductLayer(x)
  }

  /** relation ::= [relation (`<` | `>` | `<=` | `>=` | `~=` | `==`)] sum */
  predicate RelationLayer(x: Expr)
    decreases x, 5
  {
    match x
    case EBinary(Relational(_), y, z) => RelationLayer(y) && SumLayer(z)
    case _ => SumLayer(x)
  }

  /** conjunction ::= [conjunction `and`] relation */
  predicate AndLayer(x: Expr)
    decreases x, 6
  {
    match x
    case EBinary(And, y, z) => AndLayer(y) && RelationLayer(z)
    case _ => RelationLayer(x)
  }

  /** expression ::= [expression `or`] conjunction */
  predicate Layered(x: Expr)
    decreases x, 7
  {
    match x
    case EBinary(Or, y, z) => Layered(y) && AndLayer(z)
    case _ => AndLayer(x)
  }

  /** How often one goes into a second operand on the way to a leaf. */
  function RightNesting(x: Expr): nat {
    match x
    case EParen(y) => RightNesting(y)
    case EUnary(_, y) => RightNesting(y)
    case EBinary(_, y, z) => if RightNesting(y) > RightNesting(z) then RightNesting(y) else RightNesting(z) + 1
    case _ => 0
  }
}
