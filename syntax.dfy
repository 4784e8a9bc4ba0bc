/**
  * The fragment of Go's syntax tree (package go/ast) that the scanner in
  * main.go looks at: top-level declarations, function signatures and the
  * type expressions inside them.
  */
module Syntax {
  import opened Wrappers

  /**
    * A type expression. `Ident` is `*ast.Ident`, `Star` is `*ast.StarExpr`;
    * every other node (`*ast.ArrayType`, `*ast.SelectorExpr`, `*ast.Ellipsis`,
    * ...) is `Other`, remembered by the name of its Go type.
    */
  datatype Expr = Ident(name: string) | Star(x: Expr) | Other(kind: string)

  /** `*ast.Field`: names that share one type; `(a, b int)` is ONE field with two names. */
  datatype Field = Field(names: seq<string>, typ: Expr)

  /**
    * `*ast.FuncDecl`, reduced to its name, its parameter fields and its result
    * fields; `results` is `None` when `Type.Results` is nil.
    */
  datatype Func = Func(name: string, params: seq<Field>, results: Option<seq<Field>>)

  /** A top-level declaration: a function, or anything else (`*ast.GenDecl`, `*ast.BadDecl`). */
  datatype Decl = FuncDecl(fn: Func) | OtherDecl

  /** Number of `*` wrapped around the innermost non-pointer node. */
  function StarDepth(e: Expr): nat
  {
    match e
    case Star(x) => 1 + StarDepth(x)
    case _ => 0
  }

  /** The innermost node once every `*` is peeled off. */
  function Base(e: Expr): (b: Expr)
    ensures !b.Star?
  {
    match e
    case Star(x) => Base(x)
    case _ => e
  }

  /** `n` stars in front of `e`. */
  function Stars(n: nat, e: Expr): Expr
  {
    if n == 0 then e else Star(Stars(n - 1, e))
  }

  /** Every type expression is its base under exactly StarDepth stars. */
  lemma {:induction false} Decompose(e: Expr)
    ensures e == Stars(StarDepth(e), Base(e))
  {
    match e
    case Star(x) => Decompose(x);
    case _ =>
  }
}
