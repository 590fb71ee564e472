/** Expression and statement trees, as libintend/libparser/parser.h lays them out. */
module Syntax {

  datatype OpType =
    | Plus | Minus | Mul | Div | Mod | BoolAnd | BoolOr | And | Or | Xor | Pow
    | Equal | NotEqual | Seq | Leq | Smaller | Larger
    | PostInc | PostDec | Not | PreInc | PreDec | Neg | LShift | RShift

  datatype ConstKind = BoolText | IntText | FloatText | StringText

  // index lists, and the single index of Index, hold Field nodes or ordinary expressions.
  datatype Expr =
    | Nop
    | Assign(name: string, inner: Expr)
    | AssignArray(name: string, index: seq<Expr>, inner: Expr)
    | Cast(typename: string, inner: Expr)
    | Call(name: string, args: seq<Expr>)
    | New(name: string, args: seq<Expr>)
    | Static(tname: string, name: string, args: seq<Expr>)
    | Method(inner: Expr, name: string, args: seq<Expr>)
    | Ref(name: string)
    | RefArray(name: string, index: seq<Expr>)
    | Const(kind: ConstKind, text: string)
    | ConstVoid
    | Infix(op: OpType, left: Expr, right: Expr)
    | Postfix(op: OpType, inner: Expr)
    | Prefix(op: OpType, inner: Expr)
    | Field(name: string)
    | Index(inner: Expr, index: seq<Expr>)
    | StaticRef(tname: string, name: string)
    | Lambda(f: Stmt)
    | If(test: Expr, thn: Expr, els: Expr)
    | PassRef(inner: Expr)
    | File
    | Line

  datatype Stmt =
    | NopStmt
    | Block(body: seq<Stmt>)
    | IfStmt(cond: Expr, thn: Stmt)
    | IfElse(cond: Expr, thn: Stmt, els: Stmt)
    | While(cond: Expr, loop: Stmt)
    | Do(loop: Stmt, cond: Expr)
    | For(init: Expr, cond: Expr, guard: Expr, loop: Stmt)
    | Continue
    | Break
    | Return
    | ReturnValue(value: Expr)
    | ExprStmt(value: Expr)
    | Func(rettype: char, name: string, types: string, names: seq<string>, loop: Stmt)
    | Switch(cond: Expr, body: seq<Stmt>)
    | Case(guard: Expr, body: seq<Stmt>, thru: bool)
    | Default(body: seq<Stmt>)
    | Try(tried: Stmt, name: string, handler: Stmt)
    | Throw(value: Expr)
}
