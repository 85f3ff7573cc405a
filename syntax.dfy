/** The OOPsy parse tree, as both backends see it. Each syntactic category
    is a datatype; the optional children of the grammar are `Option`s or
    empty sequences. Identifiers, operators and literal tokens keep their
    source text. */
module Syntax {
  import opened Base

  datatype MethodCall = MethodCall(objName: string, methodName: string, args: seq<ValueExpr>)

  datatype ValueExpr =
    | IntLit(digits: string)            // INT_LITERAL token text
    | StrLit(text: string)              // STRING_LITERAL token text, quotes included
    | CharLit(text: string)             // CHAR_LITERAL token text, quotes included
    | BoolLit(b: bool)                  // BOOL_LITERAL_TRUE / BOOL_LITERAL_FALSE
    | Var(name: string)                 // IDENTIFIER
    | Call(call: MethodCall)            // obj.method(args)
    | Member(base: string, field: string)  // base.field, base possibly "self"
    | Binary(left: ValueExpr, op: string, right: ValueExpr)
    | Paren(inner: ValueExpr)

  /** logicalExpression: logicalTerm ('||' logicalTerm)* */
  datatype LogicalExpr = LogicalExpr(first: LogicalTerm, rest: seq<LogicalTerm>) {
    function Terms(): seq<LogicalTerm> { [first] + rest }
  }

  /** logicalTerm: logicalFactor ('&&' logicalFactor)* */
  datatype LogicalTerm = LogicalTerm(first: LogicalFactor, rest: seq<LogicalFactor>) {
    function Factors(): seq<LogicalFactor> { [first] + rest }
  }

  datatype LogicalFactor =
    | Comparison(left: ValueExpr, op: string, right: ValueExpr)
    | Nested(expr: LogicalExpr)         // '(' logicalExpression ')'
    | Single(value: ValueExpr)

  /** The left-hand side of an assignment: a variable or `base.field`. */
  datatype Target = VarTarget(name: string) | FieldTarget(base: string, field: string)

  datatype Stmt =
    | Create(varName: string, className: string, args: seq<ValueExpr>)
    | Assign(target: Target, value: ValueExpr)
    | Print(value: ValueExpr)
    | If(cond: LogicalExpr, thenBlock: seq<Stmt>, elseClause: ElseClause)
    | Loop(body: seq<Stmt>, cond: LogicalExpr)      // post-test: repeat body until cond
    | Return(result: Option<ValueExpr>)
    | ExprStmt(expr: ValueExpr)                     // a value expression used as a statement
    | Break
    | Continue
    | SuperCall(args: seq<ValueExpr>)               // super(args) inside a constructor body

  /** The optional `else` block of an if statement. */
  datatype ElseClause = NoElse | Else(block: seq<Stmt>)

  datatype Param = Param(typeName: string, name: string)

  datatype MethodDecl = MethodDecl(name: string, params: seq<Param>, body: seq<Stmt>)

  datatype ClassElement =
    | AttributeDecl(typeName: string, attrName: string)
    | MethodElement(decl: MethodDecl)
    | ConstructorDecl(params: seq<Param>)

  datatype ClassDecl = ClassDecl(name: string, inherits: Option<string>, elements: seq<ClassElement>)

  datatype Program = Program(classes: seq<ClassDecl>, main: seq<Stmt>)

  /** An expression with no method call in it: evaluating it cannot run a
      method body. */
  predicate CallFree(e: ValueExpr)
  {
    match e
    case Call(_) => false
    case Binary(l, _, r) => CallFree(l) && CallFree(r)
    case Paren(inner) => CallFree(inner)
    case _ => true
  }

  /** A logical factor whose value expressions have no method call in them
      (a parenthesised logical expression is never evaluated). */
  predicate CallFreeFactor(f: LogicalFactor)
  {
    match f
    case Comparison(l, _, r) => CallFree(l) && CallFree(r)
    case Nested(_) => true
    case Single(v) => CallFree(v)
  }

  predicate CallFreeTerm(t: LogicalTerm)
  {
    forall i :: 0 <= i < |t.Factors()| ==> CallFreeFactor(t.Factors()[i])
  }

  predicate CallFreeLogical(le: LogicalExpr)
  {
    forall i :: 0 <= i < |le.Terms()| ==> CallFreeTerm(le.Terms()[i])
  }
}
