/** The syntax tree both passes walk. It stands for the parse tree the front end builds:
    one node kind per grammar rule the analyzer and the generator inspect. Every expression
    carries `text`, the concatenated token text of its subtree (`getText()`), because the
    generator decides some instructions from that text. */
module Ast {
  import opened Wrappers

  /** The base of a type annotation: a type keyword or an identifier (`void` or an interface). */
  datatype BaseType = NumberKw | StringKw | BooleanKw | NamedType(id: string)

  /** A type annotation: a base type followed by `dims` pairs of brackets. */
  datatype TypeExpr = TypeExpr(base: BaseType, dims: nat)

  /** A literal token; numbers and strings keep their token text (strings with quotes). */
  datatype Literal = NumberLit(token: string) | StringLit(token: string) | BooleanLit(value: bool)

  datatype BinOp = OrOp | AndOp | EqOp | NeOp | LtOp | LeOp | GtOp | GeOp | AddOp | SubOp | MulOp | DivOp | ModOp

  /** The grammar rule a chain of binary operators belongs to. */
  datatype Level = LogicalOr | LogicalAnd | Equality | Relational | Additive | Multiplicative

  datatype UnaryOp = Neg | Not

  datatype Expr =
    | Assign(target: Expr, value: Expr, text: string)
      /** `first op1 arg1 op2 arg2 ...` at one precedence level, left-associative. */
    | Binary(level: Level, first: Expr, rest: seq<Operand>, text: string)
    | Unary(op: UnaryOp, operand: Expr, text: string)
      /** A primary followed by index, member and call suffixes. */
    | Postfix(primary: Primary, ops: seq<PostOp>, text: string)

  datatype Operand = Operand(op: BinOp, arg: Expr)

  datatype Primary =
    | Lit(lit: Literal)
    | Ident(name: string)
    | Paren(inner: Expr)
    | ArrayLit(elems: seq<Expr>)
    | ObjectLit(entries: seq<Entry>)

  /** An object-literal entry; a quoted key is stored without its quotes. */
  datatype Entry = Entry(key: string, value: Expr)

  datatype PostOp = Index(index: Expr) | Member(name: string) | Call(args: seq<Expr>)

  datatype Param = Param(name: string, ty: TypeExpr)

  datatype PropDecl = PropDecl(name: string, ty: TypeExpr)

  datatype Stmt =
      /** `let` (isConst false) or `const` declaration. */
    | VarDecl(isConst: bool, name: string, declType: TypeExpr, initializer: Option<Expr>)
    | FunctionDecl(name: string, params: seq<Param>, returnType: TypeExpr, block: seq<Stmt>)
    | InterfaceDecl(name: string, props: seq<PropDecl>)
    | Return(value: Option<Expr>)
    | If(cond: Expr, thenBranch: Stmt, elseBranch: Option<Stmt>)
    | While(cond: Expr, body: Stmt)
    | For(init: Option<Stmt>, test: Option<Expr>, update: Option<Expr>, body: Stmt)
    | ExprStmt(expr: Expr)
    | Block(stmts: seq<Stmt>)
}
