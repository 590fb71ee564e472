/** The parser actions of libintend/libparser/expr_parse.c and stmt_parse.c: each one pops and
    pushes the stacks of libintend/libparser/parser.h.  None is where a sanity check aborts. */
module BuilderMachine {
  import opened Wrappers
  import opened Syntax

  // What is known of a function whose declaration is still open.
  datatype Signature = Signature(types: string, names: seq<string>, rettype: char)

  datatype Parser = Parser(exprs: seq<Expr>, counts: seq<nat>, lists: seq<seq<Stmt>>, sigs: seq<Signature>)

  datatype Initializer = ArrayInit | StructInit | OtherInit

  datatype Event =
    | EndEmpty
    | EndAssign(name: string)
    | EndOpAssign(name: string, op: OpType)
    | EndAssignArray(name: string)
    | EndOpAssignArray(name: string, op: OpType)
    | EndCast(typename: string)
    | EndCallVoid(name: string, cons: bool)
    | EndCall(name: string, cons: bool)
    | EndStaticVoid(tname: string, name: string)
    | EndStatic(tname: string, name: string)
    | EndMethodVoid(name: string)
    | EndMethod(name: string)
    | EndTypeinitVoid(init: Initializer)
    | EndTypeinit(init: Initializer)
    | EndKeyarraySingle
    | EndUse
    | EndRef(name: string)
    | EndRefArray(name: string)
    | EndIndex
    | EndConst(kind: ConstKind, text: string)
    | EndConstVoid
    | EndField(name: string)
    | EndInfix(op: OpType)
    | EndPostfix(op: OpType)
    | EndPrefix(op: OpType)
    | EndFirst
    | EndNext
    | EndStaticRef(tname: string, name: string)
    | EndCond
    | EndPassRef
    | EndFile
    | EndLine
    | BeginLambda
    | EndLambda
    | Begin                       // of a block, if, while, do, for, switch, case or try
    | EndBlock
    | EndIf
    | EndWhile
    | EndDo
    | EndFor
    | EndContinue
    | EndBreak
    | EndReturn
    | EndReturnValue
    | EndNop
    | EndExpr
    | BeginFunc
    | EndRettype(rettype: char)
    | EndArg(typespec: char, name: string)
    | EndFunc(name: string)
    | EndSwitch
    | EndCase(thru: bool)
    | EndDefault
    | EndTry(name: string)
    | EndThrow

  // ---- the stacks ----

  function Last<T>(s: seq<T>): T
    requires s != []
  {
    s[|s| - 1]
  }

  function Front<T>(s: seq<T>): seq<T>
    requires s != []
  {
    s[..|s| - 1]
  }

  function PushExpr(p: Parser, e: Expr): Parser {
    p.(exprs := p.exprs + [e])
  }

  // The top n expressions, deepest first, and the stacks without them.
  function PopExprs(p: Parser, n: nat): (r: Option<(seq<Expr>, Parser)>)
    ensures r.Some? ==> |r.value.0| == n && r.value.1.exprs + r.value.0 == p.exprs
  {
    if n <= |p.exprs| then Some((p.exprs[|p.exprs| - n..], p.(exprs := p.exprs[..|p.exprs| - n]))) else None
  }

  function PopExpr(p: Parser): Option<(Expr, Parser)> {
    var (es, q) :- PopExprs(p, 1);
    Some((es[0], q))
  }

  // The arguments that the top count speaks of.
  function TakeArgs(p: Parser): Option<(seq<Expr>, Parser)> {
    if p.counts == [] then None else PopExprs(p.(counts := Front(p.counts)), Last(p.counts))
  }

  function Enter(p: Parser): Parser {
    p.(lists := p.lists + [[]])
  }

  function PushStmt(p: Parser, st: Stmt): Option<Parser> {
    if p.lists == [] then None else Some(p.(lists := Front(p.lists) + [Last(p.lists) + [st]]))
  }

  // The last statement of the innermost list.
  function PopStmt(p: Parser): Option<(Stmt, Parser)> {
    if p.lists == [] || Last(p.lists) == [] then None
    else Some((Last(Last(p.lists)), p.(lists := Front(p.lists) + [Front(Last(p.lists))])))
  }

  function Leave(p: Parser): Option<(seq<Stmt>, Parser)> {
    if p.lists == [] then None else Some((Last(p.lists), p.(lists := Front(p.lists))))
  }

  // ---- the actions ----

  function InfixAct(p: Parser, op: OpType): Option<Parser> {
    var (es, q) :- PopExprs(p, 2);
    Some(PushExpr(q, Infix(op, es[0], es[1])))
  }

  // The reference that is read is pushed under the value, combined, and made the target.
  function OpAssignAct(p: Parser, name: string, op: OpType): Option<Parser> {
    var (mod, q) :- PopExpr(p);
    var q1 :- InfixAct(PushExpr(PushExpr(q, Ref(name)), mod), op);
    var (value, q2) :- PopExpr(q1);
    Some(PushExpr(q2, Assign(name, value)))
  }

  function AssignArrayAct(p: Parser, name: string): Option<Parser> {
    var (value, q) :- PopExpr(p);
    var (index, q1) :- TakeArgs(q);
    Some(PushExpr(q1, AssignArray(name, index, value)))
  }

  function OpAssignArrayAct(p: Parser, name: string, op: OpType): Option<Parser> {
    var (mod, q) :- PopExpr(p);
    var (index, q1) :- TakeArgs(q);
    var q2 :- InfixAct(PushExpr(PushExpr(q1, RefArray(name, index)), mod), op);
    var (value, q3) :- PopExpr(q2);
    Some(PushExpr(q3, AssignArray(name, index, value)))
  }

  function MethodAct(p: Parser, name: string): Option<Parser> {
    var (args, q) :- TakeArgs(p);
    var (receiver, q1) :- PopExpr(q);
    Some(PushExpr(q1, Method(receiver, name, args)))
  }

  function IndexAct(p: Parser): Option<Parser> {
    var (index, q) :- TakeArgs(p);
    var (inner, q1) :- PopExpr(q);
    Some(PushExpr(q1, Index(inner, index)))
  }

  function KeyarrayAct(p: Parser): Option<Parser> {
    var (e, q) :- PopExpr(p);
    Some(PushExpr(PushExpr(q, ConstVoid), e))
  }

  function CondAct(p: Parser): Option<Parser> {
    var (es, q) :- PopExprs(p, 3);
    Some(PushExpr(q, If(es[0], es[1], es[2])))
  }

  function CallNode(name: string, args: seq<Expr>, cons: bool): Expr {
    if cons then New(name, args) else Call(name, args)
  }

  function InitName(init: Initializer, empty: bool): string {
    match init
    case ArrayInit => if empty then "mkarray" else "mkkeyarray"
    case StructInit => "mkstruct"
    case OtherInit => "invalid_type_initialization"
  }

  function NextAct(p: Parser): Option<Parser> {
    if p.counts == [] then None else Some(p.(counts := Front(p.counts) + [Last(p.counts) + 1]))
  }

  function BeginFuncAct(p: Parser): Parser {
    Enter(p.(sigs := p.sigs + [Signature([], [], '?')]))
  }

  function EndLambdaAct(p: Parser): Option<Parser> {
    if p.sigs == [] then None
    else
      var (body, q) :- Leave(p.(sigs := Front(p.sigs)));
      var sig := Last(p.sigs);
      Some(PushExpr(q, Lambda(Func('?', "\\lambda", sig.types, sig.names, Block(body)))))
  }

  // Nodes without parts.
  predicate IsLeaf(ev: Event) {
    ev.EndEmpty? || ev.EndCallVoid? || ev.EndStaticVoid? || ev.EndTypeinitVoid? || ev.EndRef? || ev.EndConst?
    || ev.EndConstVoid? || ev.EndField? || ev.EndStaticRef? || ev.EndFile? || ev.EndLine?
  }

  function LeafNode(ev: Event): Expr
    requires IsLeaf(ev)
  {
    match ev
    case EndEmpty => Nop
    case EndCallVoid(name, cons) => CallNode(name, [], cons)
    case EndStaticVoid(tname, name) => Static(tname, name, [])
    case EndTypeinitVoid(init) => Call(InitName(init, true), [])
    case EndRef(name) => Ref(name)
    case EndConst(kind, text) => Const(kind, text)
    case EndConstVoid => ConstVoid
    case EndField(name) => Field(name)
    case EndStaticRef(tname, name) => StaticRef(tname, name)
    case EndFile => File
    case EndLine => Line
  }

  // Nodes made of one expression.
  predicate IsUnary(ev: Event) {
    ev.EndAssign? || ev.EndCast? || ev.EndMethodVoid? || ev.EndPostfix? || ev.EndPrefix? || ev.EndPassRef?
  }

  function UnaryNode(ev: Event, e: Expr): Expr
    requires IsUnary(ev)
  {
    match ev
    case EndAssign(name) => Assign(name, e)
    case EndCast(typename) => Cast(typename, e)
    case EndMethodVoid(name) => Method(e, name, [])
    case EndPostfix(op) => Postfix(op, e)
    case EndPrefix(op) => Prefix(op, e)
    case EndPassRef => PassRef(e)
  }

  // Nodes made of counted arguments.
  predicate IsCounted(ev: Event) {
    ev.EndCall? || ev.EndStatic? || ev.EndTypeinit? || ev.EndUse? || ev.EndRefArray?
  }

  function CountedNode(ev: Event, args: seq<Expr>): Expr
    requires IsCounted(ev)
  {
    match ev
    case EndCall(name, cons) => CallNode(name, args, cons)
    case EndStatic(tname, name) => Static(tname, name, args)
    case EndTypeinit(init) => Call(InitName(init, false), args)
    case EndUse => Call("module_load", args)
    case EndRefArray(name) => RefArray(name, args)
  }

  function OtherExprAct(ev: Event, p: Parser): Option<Parser> {
    match ev
    case EndOpAssign(name, op) => OpAssignAct(p, name, op)
    case EndAssignArray(name) => AssignArrayAct(p, name)
    case EndOpAssignArray(name, op) => OpAssignArrayAct(p, name, op)
    case EndMethod(name) => MethodAct(p, name)
    case EndKeyarraySingle => KeyarrayAct(p)
    case EndIndex => IndexAct(p)
    case EndInfix(op) => InfixAct(p, op)
    case EndFirst => Some(p.(counts := p.counts + [1]))
    case EndNext => NextAct(p)
    case EndCond => CondAct(p)
    case BeginLambda => Some(BeginFuncAct(p))
    case EndLambda => EndLambdaAct(p)
    case _ => None
  }

  function ExprAct(ev: Event, p: Parser): Option<Parser> {
    if IsLeaf(ev) then Some(PushExpr(p, LeafNode(ev)))
    else if IsUnary(ev) then
      var (e, q) :- PopExpr(p);
      Some(PushExpr(q, UnaryNode(ev, e)))
    else if IsCounted(ev) then
      var (args, q) :- TakeArgs(p);
      Some(PushExpr(q, CountedNode(ev, args)))
    else OtherExprAct(ev, p)
  }

  // The last statement of a list that is then given up.
  function CloseBody(p: Parser): Option<(Stmt, Parser)> {
    var (body, q) :- PopStmt(p);
    var (_, q1) :- Leave(q);
    Some((body, q1))
  }

  // One statement, then optionally the one before it: the branches of an if.
  function EndIfAct(p: Parser): Option<Parser> {
    var (one, q) :- PopStmt(p);
    if PopStmt(q).Some? then
      var (two, q1) :- CloseBody(q);
      var (cond, q2) :- PopExpr(q1);
      PushStmt(q2, IfElse(cond, two, one))
    else
      var (_, q1) :- Leave(q);
      var (cond, q2) :- PopExpr(q1);
      PushStmt(q2, IfStmt(cond, one))
  }

  function WhileAct(p: Parser): Option<Parser> {
    var (cond, q) :- PopExpr(p);
    var (body, q1) :- CloseBody(q);
    PushStmt(q1, While(cond, body))
  }

  function DoAct(p: Parser): Option<Parser> {
    var (cond, q) :- PopExpr(p);
    var (body, q1) :- CloseBody(q);
    PushStmt(q1, Do(body, cond))
  }

  function ForAct(p: Parser): Option<Parser> {
    var (es, q) :- PopExprs(p, 3);
    var (body, q1) :- CloseBody(q);
    PushStmt(q1, For(es[0], es[1], es[2], body))
  }

  function EndFuncAct(p: Parser, name: string): Option<Parser> {
    if p.sigs == [] then None
    else
      var sig := Last(p.sigs);
      var (body, q) :- CloseBody(p.(sigs := Front(p.sigs)));
      PushStmt(q, Func(sig.rettype, name, sig.types, sig.names, body))
  }

  function EndArgAct(p: Parser, typespec: char, name: string): Option<Parser> {
    if p.sigs == [] then None
    else
      var sig := Last(p.sigs);
      Some(p.(sigs := Front(p.sigs) + [sig.(types := sig.types + [typespec], names := sig.names + [name])]))
  }

  function EndRettypeAct(p: Parser, rettype: char): Option<Parser> {
    if p.sigs == [] then None
    else Some(p.(sigs := Front(p.sigs) + [Last(p.sigs).(rettype := rettype)]))
  }

  function SwitchAct(p: Parser): Option<Parser> {
    var (cond, q) :- PopExpr(p);
    var (body, q1) :- Leave(q);
    PushStmt(q1, Switch(cond, body))
  }

  // A case that holds nothing but a break is an empty one that does not fall through.
  function CaseAct(p: Parser, thru: bool): Option<Parser> {
    var (body, q) :- Leave(p);
    var (guard, q1) :- PopExpr(q);
    PushStmt(q1, if body == [Break] then Case(guard, [NopStmt], false) else Case(guard, body, thru))
  }

  function TryAct(p: Parser, name: string): Option<Parser> {
    var (handler, q) :- PopStmt(p);
    var (tried, q1) :- CloseBody(q);
    PushStmt(q1, Try(tried, name, handler))
  }

  predicate IsSimple(ev: Event) { ev.EndContinue? || ev.EndBreak? || ev.EndReturn? || ev.EndNop? }

  function SimpleNode(ev: Event): Stmt
    requires IsSimple(ev)
  {
    match ev
    case EndContinue => Continue
    case EndBreak => Break
    case EndReturn => Return
    case EndNop => NopStmt
  }

  predicate IsSimpleExpr(ev: Event) { ev.EndReturnValue? || ev.EndExpr? || ev.EndThrow? }

  function SimpleExprNode(ev: Event, e: Expr): Stmt
    requires IsSimpleExpr(ev)
  {
    match ev
    case EndReturnValue => ReturnValue(e)
    case EndExpr => ExprStmt(e)
    case EndThrow => Throw(e)
  }

  predicate IsList(ev: Event) { ev.EndBlock? || ev.EndDefault? }

  function ListNode(ev: Event, body: seq<Stmt>): Stmt
    requires IsList(ev)
  {
    if ev.EndBlock? then Block(body) else Default(body)
  }

  function OtherStmtAct(ev: Event, p: Parser): Option<Parser> {
    match ev
    case Begin => Some(Enter(p))
    case EndIf => EndIfAct(p)
    case EndWhile => WhileAct(p)
    case EndDo => DoAct(p)
    case EndFor => ForAct(p)
    case BeginFunc => Some(BeginFuncAct(p))
    case EndRettype(rettype) => EndRettypeAct(p, rettype)
    case EndArg(typespec, name) => EndArgAct(p, typespec, name)
    case EndFunc(name) => EndFuncAct(p, name)
    case EndSwitch => SwitchAct(p)
    case EndCase(thru) => CaseAct(p, thru)
    case EndTry(name) => TryAct(p, name)
    case _ => None
  }

  function StmtAct(ev: Event, p: Parser): Option<Parser> {
    if IsSimple(ev) then PushStmt(p, SimpleNode(ev))
    else if IsSimpleExpr(ev) then
      var (e, q) :- PopExpr(p);
      PushStmt(q, SimpleExprNode(ev, e))
    else if IsList(ev) then
      var (body, q) :- Leave(p);
      PushStmt(q, ListNode(ev, body))
    else OtherStmtAct(ev, p)
  }

  predicate IsStmtEvent(ev: Event) {
    IsSimple(ev) || IsSimpleExpr(ev) || IsList(ev) || ev.Begin? || ev.EndIf? || ev.EndWhile? || ev.EndDo? || ev.EndFor?
    || ev.BeginFunc? || ev.EndRettype? || ev.EndArg? || ev.EndFunc? || ev.EndSwitch? || ev.EndCase? || ev.EndTry?
  }

  function Act(ev: Event, p: Parser): Option<Parser> {
    if IsStmtEvent(ev) then StmtAct(ev, p) else ExprAct(ev, p)
  }

  function Run(evs: seq<Event>, p: Parser): Option<Parser> {
    if evs == [] then Some(p)
    else
      var q :- Act(evs[0], p);
      Run(evs[1..], q)
  }
}
