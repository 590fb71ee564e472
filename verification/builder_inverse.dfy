/** The parser actions, run in the order in which the grammar reduces a tree, rebuild that tree
    and leave every stack as it was below it. */
module BuilderInverse {
  import opened Wrappers
  import opened Syntax
  import opened BuilderMachine

  // ---- the actions that the grammar runs for a tree ----

  function ExprEvents(e: Expr): seq<Event>
    decreases e, 0
  {
    match e
    case Nop => [EndEmpty]
    case Assign(name, inner) => ExprEvents(inner) + [EndAssign(name)]
    case AssignArray(name, index, inner) => ArgEvents(index, true) + ExprEvents(inner) + [EndAssignArray(name)]
    case Cast(typename, inner) => ExprEvents(inner) + [EndCast(typename)]
    case Call(name, args) => CallEvents(args, EndCallVoid(name, false), EndCall(name, false))
    case New(name, args) => CallEvents(args, EndCallVoid(name, true), EndCall(name, true))
    case Static(tname, name, args) => CallEvents(args, EndStaticVoid(tname, name), EndStatic(tname, name))
    case Method(inner, name, args) => ExprEvents(inner) + CallEvents(args, EndMethodVoid(name), EndMethod(name))
    case Ref(name) => [EndRef(name)]
    case RefArray(name, index) => ArgEvents(index, true) + [EndRefArray(name)]
    case Const(kind, text) => [EndConst(kind, text)]
    case ConstVoid => [EndConstVoid]
    case Infix(op, left, right) => ExprEvents(left) + ExprEvents(right) + [EndInfix(op)]
    case Postfix(op, inner) => ExprEvents(inner) + [EndPostfix(op)]
    case Prefix(op, inner) => ExprEvents(inner) + [EndPrefix(op)]
    case Field(name) => [EndField(name)]
    case Index(inner, index) => ExprEvents(inner) + ArgEvents(index, true) + [EndIndex]
    case StaticRef(tname, name) => [EndStaticRef(tname, name)]
    case Lambda(f) => LambdaEvents(f)
    case If(test, thn, els) => ExprEvents(test) + ExprEvents(thn) + ExprEvents(els) + [EndCond]
    case PassRef(inner) => ExprEvents(inner) + [EndPassRef]
    case File => [EndFile]
    case Line => [EndLine]
  }

  function ArgEvents(args: seq<Expr>, first: bool): seq<Event>
    decreases args, 0
  {
    if args == [] then []
    else ExprEvents(args[0]) + [if first then EndFirst else EndNext] + ArgEvents(args[1..], false)
  }

  function CallEvents(args: seq<Expr>, none: Event, some: Event): seq<Event>
    decreases args, 1
  {
    if args == [] then [none] else ArgEvents(args, true) + [some]
  }

  function LambdaEvents(f: Stmt): seq<Event>
    decreases f, 1
  {
    if f.Func? && f.loop.Block? then
      [BeginLambda] + SignatureEvents(f.types, f.names) + StmtsEvents(f.loop.body) + [EndLambda]
    else []
  }

  function SignatureEvents(types: string, names: seq<string>): seq<Event>
  {
    if types == [] || names == [] then []
    else [EndArg(types[0], names[0])] + SignatureEvents(types[1..], names[1..])
  }

  function StmtEvents(st: Stmt): seq<Event>
    decreases st, 0
  {
    match st
    case NopStmt => [EndNop]
    case Block(body) => [Begin] + StmtsEvents(body) + [EndBlock]
    case IfStmt(cond, thn) => [Begin] + ExprEvents(cond) + StmtEvents(thn) + [EndIf]
    case IfElse(cond, thn, els) => [Begin] + ExprEvents(cond) + StmtEvents(thn) + StmtEvents(els) + [EndIf]
    case While(cond, loop) => [Begin] + ExprEvents(cond) + StmtEvents(loop) + [EndWhile]
    case Do(loop, cond) => [Begin] + StmtEvents(loop) + ExprEvents(cond) + [EndDo]
    case For(init, cond, guard, loop) =>
      [Begin] + ExprEvents(init) + ExprEvents(cond) + ExprEvents(guard) + StmtEvents(loop) + [EndFor]
    case Continue => [EndContinue]
    case Break => [EndBreak]
    case Return => [EndReturn]
    case ReturnValue(value) => ExprEvents(value) + [EndReturnValue]
    case ExprStmt(value) => ExprEvents(value) + [EndExpr]
    case Func(rettype, name, types, names, loop) =>
      [BeginFunc] + [EndRettype(rettype)] + SignatureEvents(types, names) + StmtEvents(loop) + [EndFunc(name)]
    case Switch(cond, body) => [Begin] + ExprEvents(cond) + StmtsEvents(body) + [EndSwitch]
    case Case(guard, body, thru) => [Begin] + ExprEvents(guard) + StmtsEvents(body) + [EndCase(thru)]
    case Default(body) => [Begin] + StmtsEvents(body) + [EndDefault]
    case Try(tried, name, handler) => [Begin] + StmtEvents(tried) + StmtEvents(handler) + [EndTry(name)]
    case Throw(value) => ExprEvents(value) + [EndThrow]
  }

  function StmtsEvents(body: seq<Stmt>): seq<Event>
    decreases body, 0
  {
    if body == [] then [] else StmtEvents(body[0]) + StmtsEvents(body[1..])
  }

  // ---- the tree that comes back ----

  function Built(e: Expr): Expr
    decreases e, 0
  {
    match e
    case Assign(name, inner) => Assign(name, Built(inner))
    case AssignArray(name, index, inner) => AssignArray(name, BuiltAll(index), Built(inner))
    case Cast(typename, inner) => Cast(typename, Built(inner))
    case Call(name, args) => Call(name, BuiltAll(args))
    case New(name, args) => New(name, BuiltAll(args))
    case Static(tname, name, args) => Static(tname, name, BuiltAll(args))
    case Method(inner, name, args) => Method(Built(inner), name, BuiltAll(args))
    case RefArray(name, index) => RefArray(name, BuiltAll(index))
    case Infix(op, left, right) => Infix(op, Built(left), Built(right))
    case Postfix(op, inner) => Postfix(op, Built(inner))
    case Prefix(op, inner) => Prefix(op, Built(inner))
    case Index(inner, index) => Index(Built(inner), BuiltAll(index))
    case Lambda(f) => Lambda(BuiltStmt(f))
    case If(test, thn, els) => If(Built(test), Built(thn), Built(els))
    case PassRef(inner) => PassRef(Built(inner))
    case _ => e
  }

  function BuiltAll(es: seq<Expr>): (r: seq<Expr>)
    ensures |r| == |es|
    decreases es, 0
  {
    if es == [] then [] else [Built(es[0])] + BuiltAll(es[1..])
  }

  // A case body that is a lone break is an empty statement, and the case does not fall through.
  function BuiltStmt(st: Stmt): Stmt
    decreases st, 0
  {
    match st
    case Block(body) => Block(BuiltStmts(body))
    case IfStmt(cond, thn) => IfStmt(Built(cond), BuiltStmt(thn))
    case IfElse(cond, thn, els) => IfElse(Built(cond), BuiltStmt(thn), BuiltStmt(els))
    case While(cond, loop) => While(Built(cond), BuiltStmt(loop))
    case Do(loop, cond) => Do(BuiltStmt(loop), Built(cond))
    case For(init, cond, guard, loop) => For(Built(init), Built(cond), Built(guard), BuiltStmt(loop))
    case ReturnValue(value) => ReturnValue(Built(value))
    case ExprStmt(value) => ExprStmt(Built(value))
    case Func(rettype, name, types, names, loop) => Func(rettype, name, types, names, BuiltStmt(loop))
    case Switch(cond, body) => Switch(Built(cond), BuiltStmts(body))
    case Case(guard, body, thru) =>
      if body == [Break] then Case(Built(guard), [NopStmt], false) else Case(Built(guard), BuiltStmts(body), thru)
    case Default(body) => Default(BuiltStmts(body))
    case Try(tried, name, handler) => Try(BuiltStmt(tried), name, BuiltStmt(handler))
    case Throw(value) => Throw(Built(value))
    case _ => st
  }

  function BuiltStmts(body: seq<Stmt>): (r: seq<Stmt>)
    ensures |r| == |body|
    decreases body, 0
  {
    if body == [] then [] else [BuiltStmt(body[0])] + BuiltStmts(body[1..])
  }

  // ---- the trees that the parser builds ----

  // An array reference has an index, a lambda is a nameless function whose body is a block, and
  // a parameter list gives every name a type.
  predicate Buildable(e: Expr)
    decreases e, 0
  {
    match e
    case Assign(_, inner) => Buildable(inner)
    case AssignArray(_, index, inner) => index != [] && AllBuildable(index) && Buildable(inner)
    case Cast(_, inner) => Buildable(inner)
    case Call(_, args) => AllBuildable(args)
    case New(_, args) => AllBuildable(args)
    case Static(_, _, args) => AllBuildable(args)
    case Method(inner, _, args) => Buildable(inner) && AllBuildable(args)
    case RefArray(_, index) => index != [] && AllBuildable(index)
    case Infix(_, left, right) => Buildable(left) && Buildable(right)
    case Postfix(_, inner) => Buildable(inner)
    case Prefix(_, inner) => Buildable(inner)
    case Index(inner, index) => index != [] && Buildable(inner) && AllBuildable(index)
    case Lambda(f) =>
      f.Func? && f.rettype == '?' && f.name == "\\lambda" && |f.types| == |f.names|
      && f.loop.Block? && StmtsBuildable(f.loop.body)
    case If(test, thn, els) => Buildable(test) && Buildable(thn) && Buildable(els)
    case PassRef(inner) => Buildable(inner)
    case _ => true
  }

  predicate AllBuildable(es: seq<Expr>)
    decreases es, 0
  {
    es == [] || (Buildable(es[0]) && AllBuildable(es[1..]))
  }

  predicate StmtBuildable(st: Stmt)
    decreases st, 0
  {
    match st
    case Block(body) => StmtsBuildable(body)
    case IfStmt(cond, thn) => Buildable(cond) && StmtBuildable(thn)
    case IfElse(cond, thn, els) => Buildable(cond) && StmtBuildable(thn) && StmtBuildable(els)
    case While(cond, loop) => Buildable(cond) && StmtBuildable(loop)
    case Do(loop, cond) => Buildable(cond) && StmtBuildable(loop)
    case For(init, cond, guard, loop) => Buildable(init) && Buildable(cond) && Buildable(guard) && StmtBuildable(loop)
    case ReturnValue(value) => Buildable(value)
    case ExprStmt(value) => Buildable(value)
    case Func(_, _, types, names, loop) => |types| == |names| && StmtBuildable(loop)
    case Switch(cond, body) => Buildable(cond) && StmtsBuildable(body)
    case Case(guard, body, _) => Buildable(guard) && StmtsBuildable(body)
    case Default(body) => StmtsBuildable(body)
    case Try(tried, _, handler) => StmtBuildable(tried) && StmtBuildable(handler)
    case Throw(value) => Buildable(value)
    case _ => true
  }

  predicate StmtsBuildable(body: seq<Stmt>)
    decreases body, 0
  {
    body == [] || (StmtBuildable(body[0]) && StmtsBuildable(body[1..]))
  }

  // ---- running ----

  lemma {:induction false} RunAppend(a: seq<Event>, b: seq<Event>, p: Parser)
    ensures Run(a + b, p) == if Run(a, p).None? then None else Run(b, Run(a, p).value)
    decreases |a|
  {
    if a == [] {
      assert a + b == b;
    } else {
      assert (a + b)[0] == a[0] && (a + b)[1..] == a[1..] + b;
      if Act(a[0], p).Some? { RunAppend(a[1..], b, Act(a[0], p).value); }
    }
  }

  lemma RunOne(a: seq<Event>, ev: Event, p: Parser, q: Parser)
    requires Run(a, p) == Some(q)
    ensures Run(a + [ev], p) == Act(ev, q)
  {
    RunAppend(a, [ev], p);
    assert [ev][1..] == [];
    assert Run([ev], q) == if Act(ev, q).None? then None else Run([], Act(ev, q).value);
  }

  lemma RunFirst(ev: Event, a: seq<Event>, p: Parser, q: Parser)
    requires Act(ev, p) == Some(q)
    ensures Run([ev] + a, p) == Run(a, q)
  {
    assert ([ev] + a)[0] == ev && ([ev] + a)[1..] == a;
  }

  lemma RunThen(a: seq<Event>, b: seq<Event>, p: Parser, q: Parser)
    requires Run(a, p) == Some(q)
    ensures Run(a + b, p) == Run(b, q)
  {
    RunAppend(a, b, p);
  }

  // Popping what was pushed.
  lemma PopPushed(p: Parser, es: seq<Expr>, q: Parser)
    requires q == p.(exprs := p.exprs + es)
    ensures PopExprs(q, |es|) == Some((es, p))
    ensures |es| == 1 ==> PopExpr(q) == Some((es[0], p))
  {
    assert q.exprs[..|p.exprs|] == p.exprs && q.exprs[|p.exprs|..] == es;
  }

  // Arguments on the stack, with their number above the other counts.
  function Pushed(p: Parser, es: seq<Expr>): Parser {
    p.(exprs := p.exprs + es, counts := p.counts + [|es|])
  }

  lemma TakePushed(p: Parser, es: seq<Expr>)
    ensures TakeArgs(Pushed(p, es)) == Some((es, p))
  {
    var q := Pushed(p, es);
    assert Front(q.counts) == p.counts;
    PopPushed(p, es, q.(counts := p.counts));
  }

  lemma RunSingle(ev: Event, p: Parser, q: Parser)
    requires Act(ev, p) == Some(q)
    ensures Run([ev], p) == Some(q)
  {
    assert [ev][1..] == [];
    assert Run([], q) == Some(q);
  }

  // ---- what the actions do with what was pushed ----

  lemma LeafActs(ev: Event, p: Parser)
    requires IsLeaf(ev)
    ensures Act(ev, p) == Some(PushExpr(p, LeafNode(ev)))
  {
    hide LeafNode;
  }

  lemma UnaryActs(ev: Event, x: Expr, p: Parser)
    requires IsUnary(ev)
    ensures Act(ev, PushExpr(p, x)) == Some(PushExpr(p, UnaryNode(ev, x)))
  {
    hide PopExprs, UnaryNode;
    PopPushed(p, [x], PushExpr(p, x));
  }

  lemma CountedActs(ev: Event, args: seq<Expr>, p: Parser)
    requires IsCounted(ev)
    ensures Act(ev, Pushed(p, args)) == Some(PushExpr(p, CountedNode(ev, args)))
  {
    hide TakeArgs, CountedNode;
    TakePushed(p, args);
  }

  lemma IndexedActs(p: Parser, x: Expr, name: string, args: seq<Expr>)
    ensures Act(EndMethod(name), Pushed(PushExpr(p, x), args)) == Some(PushExpr(p, Method(x, name, args)))
    ensures Act(EndIndex, Pushed(PushExpr(p, x), args)) == Some(PushExpr(p, Index(x, args)))
  {
    hide TakeArgs, PopExprs;
    TakePushed(PushExpr(p, x), args);
    PopPushed(p, [x], PushExpr(p, x));
  }

  lemma AssignArrayActs(p: Parser, name: string, index: seq<Expr>, x: Expr)
    ensures Act(EndAssignArray(name), PushExpr(Pushed(p, index), x)) == Some(PushExpr(p, AssignArray(name, index, x)))
  {
    hide TakeArgs, PopExprs;
    TakePushed(p, index);
    PopPushed(Pushed(p, index), [x], PushExpr(Pushed(p, index), x));
  }

  lemma InfixPushed(p: Parser, a: Expr, b: Expr, op: OpType)
    ensures InfixAct(PushExpr(PushExpr(p, a), b), op) == Some(PushExpr(p, Infix(op, a, b)))
  {
    assert p.exprs + [a] + [b] == p.exprs + [a, b];
    PopPushed(p, [a, b], PushExpr(PushExpr(p, a), b));
  }

  lemma InfixActs(p: Parser, a: Expr, b: Expr, op: OpType)
    ensures Act(EndInfix(op), PushExpr(PushExpr(p, a), b)) == Some(PushExpr(p, Infix(op, a, b)))
  {
    hide InfixAct;
    InfixPushed(p, a, b, op);
  }

  lemma CondActs(p: Parser, a: Expr, b: Expr, c: Expr)
    ensures Act(EndCond, PushExpr(PushExpr(PushExpr(p, a), b), c)) == Some(PushExpr(p, If(a, b, c)))
  {
    hide PopExprs;
    assert p.exprs + [a] + [b] + [c] == p.exprs + [a, b, c];
    PopPushed(p, [a, b, c], PushExpr(PushExpr(PushExpr(p, a), b), c));
  }

  lemma CountActs(p: Parser)
    ensures Act(EndFirst, p) == Some(p.(counts := p.counts + [1]))
    ensures p.counts != [] ==> Act(EndNext, p) == Some(p.(counts := Front(p.counts) + [Last(p.counts) + 1]))
  {
  }

  lemma BeginActs(p: Parser)
    ensures Act(BeginLambda, p) == Some(BeginFuncAct(p)) && Act(BeginFunc, p) == Some(BeginFuncAct(p))
  {
    hide BeginFuncAct;
  }

  lemma SignatureActs(ev: Event, p: Parser)
    requires ev.EndRettype? || ev.EndArg?
    ensures Act(ev, p) == OtherStmtAct(ev, p)
  {
    hide OtherStmtAct;
  }

  lemma LambdaActs(p: Parser)
    ensures Act(EndLambda, p) == EndLambdaAct(p)
  {
    hide EndLambdaAct;
  }

  // ---- expressions ----

  lemma {:induction false} BuildExpr(e: Expr, p: Parser)
    requires Buildable(e)
    ensures Run(ExprEvents(e), p) == Some(PushExpr(p, Built(e)))
    decreases e, 3
  {
    hide Run, Act, ExprEvents, Built;
    match e
    case Assign(_, _) => BuildUnary(e, p);
    case Cast(_, _) => BuildUnary(e, p);
    case Postfix(_, _) => BuildUnary(e, p);
    case Prefix(_, _) => BuildUnary(e, p);
    case PassRef(_) => BuildUnary(e, p);
    case AssignArray(_, _, _) => BuildAssignArray(e, p);
    case Call(_, _) => BuildCall(e, p);
    case New(_, _) => BuildCall(e, p);
    case Static(_, _, _) => BuildCall(e, p);
    case Method(_, _, _) => BuildMethod(e, p);
    case RefArray(_, _) => BuildRefArray(e, p);
    case Infix(_, _, _) => BuildInfix(e, p);
    case Index(_, _) => BuildIndex(e, p);
    case If(_, _, _) => BuildCond(e, p);
    case Lambda(_) => BuildLambda(e, p);
    case _ => BuildLeaf(e, p);
  }

  lemma BuildLeaf(e: Expr, p: Parser)
    requires e.Nop? || e.Ref? || e.Const? || e.ConstVoid? || e.Field? || e.StaticRef? || e.File? || e.Line?
    ensures Run(ExprEvents(e), p) == Some(PushExpr(p, Built(e)))
  {
    hide Run, Act;
    LeafShape(e);
    LeafActs(ExprEvents(e)[0], p);
    RunSingle(ExprEvents(e)[0], p, PushExpr(p, e));
  }

  lemma LeafShape(e: Expr)
    requires e.Nop? || e.Ref? || e.Const? || e.ConstVoid? || e.Field? || e.StaticRef? || e.File? || e.Line?
    ensures |ExprEvents(e)| == 1 && IsLeaf(ExprEvents(e)[0]) && LeafNode(ExprEvents(e)[0]) == e && Built(e) == e
  {
  }

  lemma RunUnary(events: seq<Event>, ev: Event, x: Expr, p: Parser)
    requires IsUnary(ev) && Run(events, p) == Some(PushExpr(p, x))
    ensures Run(events + [ev], p) == Some(PushExpr(p, UnaryNode(ev, x)))
  {
    hide Run, Act, UnaryNode;
    UnaryActs(ev, x, p);
    RunOne(events, ev, p, PushExpr(p, x));
  }

  lemma {:induction false} BuildUnary(e: Expr, p: Parser)
    requires e.Assign? || e.Cast? || e.Postfix? || e.Prefix? || e.PassRef?
    requires Buildable(e)
    ensures Run(ExprEvents(e), p) == Some(PushExpr(p, Built(e)))
    decreases e, 2
  {
    hide Run, Act;
    BuildExpr(e.inner, p);
    match e
    case Assign(name, inner) => RunUnary(ExprEvents(inner), EndAssign(name), Built(inner), p);
    case Cast(typename, inner) => RunUnary(ExprEvents(inner), EndCast(typename), Built(inner), p);
    case Postfix(op, inner) => RunUnary(ExprEvents(inner), EndPostfix(op), Built(inner), p);
    case Prefix(op, inner) => RunUnary(ExprEvents(inner), EndPrefix(op), Built(inner), p);
    case PassRef(inner) => RunUnary(ExprEvents(inner), EndPassRef, Built(inner), p);
  }

  lemma {:induction false} BuildInfix(e: Expr, p: Parser)
    requires e.Infix? && Buildable(e)
    ensures Run(ExprEvents(e), p) == Some(PushExpr(p, Built(e)))
    decreases e, 2
  {
    hide Run, Act;
    var (a, b) := (Built(e.left), Built(e.right));
    var q := PushExpr(PushExpr(p, a), b);
    BuildExpr(e.left, p);
    BuildExpr(e.right, PushExpr(p, a));
    RunThen(ExprEvents(e.left), ExprEvents(e.right), p, PushExpr(p, a));
    RunOne(ExprEvents(e.left) + ExprEvents(e.right), EndInfix(e.op), p, q);
    InfixActs(p, a, b, e.op);
  }

  lemma {:induction false} BuildCond(e: Expr, p: Parser)
    requires e.If? && Buildable(e)
    ensures Run(ExprEvents(e), p) == Some(PushExpr(p, Built(e)))
    decreases e, 2
  {
    hide Run, Act;
    var (a, b, c) := (Built(e.test), Built(e.thn), Built(e.els));
    var q := PushExpr(PushExpr(p, a), b);
    BuildExpr(e.test, p);
    BuildExpr(e.thn, PushExpr(p, a));
    BuildExpr(e.els, q);
    RunThen(ExprEvents(e.test), ExprEvents(e.thn), p, PushExpr(p, a));
    RunThen(ExprEvents(e.test) + ExprEvents(e.thn), ExprEvents(e.els), p, q);
    RunOne(ExprEvents(e.test) + ExprEvents(e.thn) + ExprEvents(e.els), EndCond, p, PushExpr(q, c));
    CondActs(p, a, b, c);
  }

  // Arguments are left on the stack with their count.
  lemma {:induction false} BuildArgs(args: seq<Expr>, p: Parser)
    requires AllBuildable(args) && args != []
    ensures Run(ArgEvents(args, true), p) == Some(Pushed(p, BuiltAll(args)))
    decreases args, 2
  {
    hide Run, Act, ExprEvents, ArgEvents, Built, BuiltAll, Buildable, AllBuildable;
    ArgsShape(args, true);
    var q := PushExpr(p, Built(args[0])).(counts := p.counts + [1]);
    BuildOneArg(args[0], true, p);
    BuildMoreArgs(args[1..], q);
    RunThen(ExprEvents(args[0]) + [EndFirst], ArgEvents(args[1..], false), p, q);
    assert Front(q.counts) == p.counts;
    assert p.exprs + [Built(args[0])] + BuiltAll(args[1..]) == p.exprs + BuiltAll(args);
  }

  lemma ArgsShape(args: seq<Expr>, first: bool)
    requires args != []
    ensures ArgEvents(args, first)
         == ExprEvents(args[0]) + [if first then EndFirst else EndNext] + ArgEvents(args[1..], false)
    ensures BuiltAll(args) == [Built(args[0])] + BuiltAll(args[1..])
    ensures AllBuildable(args) ==> Buildable(args[0]) && AllBuildable(args[1..])
  {
    hide ExprEvents, Built, Buildable;
  }

  lemma {:induction false} BuildOneArg(e: Expr, first: bool, p: Parser)
    requires Buildable(e) && (first || p.counts != [])
    ensures Run(ExprEvents(e) + [if first then EndFirst else EndNext], p)
         == Some(PushExpr(p, Built(e)).(counts :=
                   if first then p.counts + [1] else Front(p.counts) + [Last(p.counts) + 1]))
    decreases e, 4
  {
    hide Run, Act, ExprEvents, Built, Buildable;
    BuildExpr(e, p);
    CountActs(PushExpr(p, Built(e)));
    RunOne(ExprEvents(e), if first then EndFirst else EndNext, p, PushExpr(p, Built(e)));
  }

  lemma {:induction false} BuildMoreArgs(args: seq<Expr>, p: Parser)
    requires AllBuildable(args) && p.counts != []
    ensures Run(ArgEvents(args, false), p)
         == Some(p.(exprs := p.exprs + BuiltAll(args), counts := Front(p.counts) + [Last(p.counts) + |args|]))
    decreases args, 1
  {
    hide Act, ExprEvents, Built, Buildable;
    if args == [] {
      assert p.exprs + BuiltAll(args) == p.exprs;
      assert Front(p.counts) + [Last(p.counts)] == p.counts;
    } else {
      BuildNextArg(args, p);
    }
  }

  lemma {:induction false} BuildNextArg(args: seq<Expr>, p: Parser)
    requires AllBuildable(args) && args != [] && p.counts != []
    ensures Run(ArgEvents(args, false), p)
         == Some(p.(exprs := p.exprs + BuiltAll(args), counts := Front(p.counts) + [Last(p.counts) + |args|]))
    decreases args, 0
  {
    hide Run, Act, ExprEvents, ArgEvents, Built, BuiltAll, Buildable, AllBuildable;
    ArgsShape(args, false);
    var q := PushExpr(p, Built(args[0])).(counts := Front(p.counts) + [Last(p.counts) + 1]);
    BuildOneArg(args[0], false, p);
    BuildMoreArgs(args[1..], q);
    RunThen(ExprEvents(args[0]) + [EndNext], ArgEvents(args[1..], false), p, q);
    assert Front(q.counts) == Front(p.counts);
    assert p.exprs + [Built(args[0])] + BuiltAll(args[1..]) == p.exprs + BuiltAll(args);
  }

  lemma {:induction false} BuildCall(e: Expr, p: Parser)
    requires (e.Call? || e.New? || e.Static?) && Buildable(e)
    ensures Run(ExprEvents(e), p) == Some(PushExpr(p, Built(e)))
    decreases e, 2
  {
    hide Run, ArgEvents, Act, BuiltAll;
    match e
    case Call(name, args) => RunCall(args, EndCallVoid(name, false), EndCall(name, false), p);
    case New(name, args) => RunCall(args, EndCallVoid(name, true), EndCall(name, true), p);
    case Static(tname, name, args) => RunCall(args, EndStaticVoid(tname, name), EndStatic(tname, name), p);
  }

  lemma {:induction false} RunCall(args: seq<Expr>, none: Event, some: Event, p: Parser)
    requires AllBuildable(args) && IsLeaf(none) && IsCounted(some) && LeafNode(none) == CountedNode(some, [])
    ensures Run(CallEvents(args, none, some), p) == Some(PushExpr(p, CountedNode(some, BuiltAll(args))))
    decreases args, 3
  {
    hide Run, Act, ArgEvents, LeafNode, CountedNode;
    if args == [] {
      LeafActs(none, p);
      RunSingle(none, p, PushExpr(p, LeafNode(none)));
    } else {
      BuildArgs(args, p);
      CountedActs(some, BuiltAll(args), p);
      RunOne(ArgEvents(args, true), some, p, Pushed(p, BuiltAll(args)));
    }
  }

  lemma {:induction false} BuildMethod(e: Expr, p: Parser)
    requires e.Method? && Buildable(e)
    ensures Run(ExprEvents(e), p) == Some(PushExpr(p, Built(e)))
    decreases e, 2
  {
    hide Run, Act, ArgEvents;
    var q := PushExpr(p, Built(e.inner));
    var inner := ExprEvents(e.inner);
    BuildExpr(e.inner, p);
    if e.args == [] {
      RunUnary(inner, EndMethodVoid(e.name), Built(e.inner), p);
    } else {
      var args := BuiltAll(e.args);
      var events := ArgEvents(e.args, true);
      BuildArgs(e.args, q);
      RunThen(inner, events, p, q);
      RunOne(inner + events, EndMethod(e.name), p, Pushed(q, args));
      IndexedActs(p, Built(e.inner), e.name, args);
      assert inner + (events + [EndMethod(e.name)]) == inner + events + [EndMethod(e.name)];
    }
  }

  lemma {:induction false} BuildIndex(e: Expr, p: Parser)
    requires e.Index? && Buildable(e)
    ensures Run(ExprEvents(e), p) == Some(PushExpr(p, Built(e)))
    decreases e, 2
  {
    hide Run, Act, ArgEvents, BuiltAll;
    var q := PushExpr(p, Built(e.inner));
    var events := ArgEvents(e.index, true);
    BuildExpr(e.inner, p);
    BuildArgs(e.index, q);
    RunThen(ExprEvents(e.inner), events, p, q);
    RunOne(ExprEvents(e.inner) + events, EndIndex, p, Pushed(q, BuiltAll(e.index)));
    IndexedActs(p, Built(e.inner), "", BuiltAll(e.index));
  }

  lemma {:induction false} BuildRefArray(e: Expr, p: Parser)
    requires e.RefArray? && Buildable(e)
    ensures Run(ExprEvents(e), p) == Some(PushExpr(p, Built(e)))
    decreases e, 2
  {
    hide Run, Act, ArgEvents, BuiltAll;
    BuildArgs(e.index, p);
    CountedActs(EndRefArray(e.name), BuiltAll(e.index), p);
    RunOne(ArgEvents(e.index, true), EndRefArray(e.name), p, Pushed(p, BuiltAll(e.index)));
  }

  lemma {:induction false} BuildAssignArray(e: Expr, p: Parser)
    requires e.AssignArray? && Buildable(e)
    ensures Run(ExprEvents(e), p) == Some(PushExpr(p, Built(e)))
    decreases e, 2
  {
    hide Run, Act, ArgEvents, BuiltAll;
    var events := ArgEvents(e.index, true);
    var q := Pushed(p, BuiltAll(e.index));
    BuildArgs(e.index, p);
    BuildExpr(e.inner, q);
    RunThen(events, ExprEvents(e.inner), p, q);
    RunOne(events + ExprEvents(e.inner), EndAssignArray(e.name), p, PushExpr(q, Built(e.inner)));
    AssignArrayActs(p, e.name, BuiltAll(e.index), Built(e.inner));
  }

  // ---- functions ----

  function AddParams(p: Parser, types: string, names: seq<string>): Parser
    requires p.sigs != []
  {
    var sig := Last(p.sigs);
    p.(sigs := Front(p.sigs) + [sig.(types := sig.types + types, names := sig.names + names)])
  }

  lemma {:induction false} BuildSignature(types: string, names: seq<string>, p: Parser)
    requires |types| == |names| && p.sigs != []
    ensures Run(SignatureEvents(types, names), p) == Some(AddParams(p, types, names))
    decreases |types|
  {
    hide Act;
    var sig := Last(p.sigs);
    if types == [] {
      assert sig.types + types == sig.types && sig.names + names == sig.names;
      assert Front(p.sigs) + [sig] == p.sigs;
    } else {
      var q := AddParams(p, [types[0]], [names[0]]);
      SignatureActs(EndArg(types[0], names[0]), p);
      BuildSignature(types[1..], names[1..], q);
      RunFirst(EndArg(types[0], names[0]), SignatureEvents(types[1..], names[1..]), p, q);
      assert Front(q.sigs) == Front(p.sigs);
      assert sig.types + [types[0]] + types[1..] == sig.types + types;
      assert sig.names + [names[0]] + names[1..] == sig.names + names;
    }
  }

  // A declaration that has been begun and given its parameters.
  function Opened(p: Parser, rettype: char, types: string, names: seq<string>): Parser {
    Enter(p.(sigs := p.sigs + [Signature(types, names, rettype)]))
  }

  lemma OpenLambda(types: string, names: seq<string>, p: Parser)
    requires |types| == |names|
    ensures Run([BeginLambda] + SignatureEvents(types, names), p) == Some(Opened(p, '?', types, names))
  {
    hide Run, Act, SignatureEvents;
    var q := BeginFuncAct(p);
    BeginActs(p);
    RunSingle(BeginLambda, p, q);
    BuildSignature(types, names, q);
    RunThen([BeginLambda], SignatureEvents(types, names), p, q);
    assert Front(q.sigs) == p.sigs && [] + types == types && [] + names == names;
  }

  lemma OpenFunc(rettype: char, types: string, names: seq<string>, p: Parser)
    requires |types| == |names|
    ensures Run([BeginFunc] + [EndRettype(rettype)] + SignatureEvents(types, names), p)
         == Some(Opened(p, rettype, types, names))
  {
    hide Run, Act, SignatureEvents;
    var q := BeginFuncAct(p);
    BeginActs(p);
    SignatureActs(EndRettype(rettype), q);
    var q1 := q.(sigs := p.sigs + [Signature([], [], rettype)]);
    RunSingle(BeginFunc, p, q);
    assert Front(q.sigs) == p.sigs;
    RunOne([BeginFunc], EndRettype(rettype), p, q);
    BuildSignature(types, names, q1);
    RunThen([BeginFunc] + [EndRettype(rettype)], SignatureEvents(types, names), p, q1);
    assert Front(q1.sigs) == p.sigs && [] + types == types && [] + names == names;
  }

  lemma {:induction false} BuildLambda(e: Expr, p: Parser)
    requires e.Lambda? && Buildable(e)
    ensures Run(ExprEvents(e), p) == Some(PushExpr(p, Built(e)))
    decreases e, 2
  {
    hide Run, Act, StmtsEvents, BuiltStmts, SignatureEvents, ExprEvents, Built;
    var f := e.f;
    var open := [BeginLambda] + SignatureEvents(f.types, f.names);
    var q := Opened(p, '?', f.types, f.names);
    var body := BuiltStmts(f.loop.body);
    var q1 := q.(lists := p.lists + [body]);
    OpenLambda(f.types, f.names, p);
    BuildStmts(f.loop.body, q);
    assert Front(q.lists) == p.lists && [] + body == body;
    RunThen(open, StmtsEvents(f.loop.body), p, q);
    RunOne(open + StmtsEvents(f.loop.body), EndLambda, p, q1);
    LambdaActs(q1);
    LambdaShape(e);
    assert Front(q1.sigs) == p.sigs && Front(q1.lists) == p.lists;
  }

  lemma LambdaShape(e: Expr)
    requires e.Lambda? && Buildable(e)
    ensures ExprEvents(e)
         == [BeginLambda] + SignatureEvents(e.f.types, e.f.names) + StmtsEvents(e.f.loop.body) + [EndLambda]
    ensures Built(e) == Lambda(Func('?', "\\lambda", e.f.types, e.f.names, Block(BuiltStmts(e.f.loop.body))))
  {
    assert ExprEvents(e) == LambdaEvents(e.f);
    assert BuiltStmt(e.f.loop) == Block(BuiltStmts(e.f.loop.body));
    assert BuiltStmt(e.f) == Func('?', "\\lambda", e.f.types, e.f.names, BuiltStmt(e.f.loop));
  }

  // ---- statements ----

  function AddStmts(p: Parser, body: seq<Stmt>): Parser
    requires p.lists != []
  {
    p.(lists := Front(p.lists) + [Last(p.lists) + body])
  }

  lemma {:induction false} BuildStmts(body: seq<Stmt>, p: Parser)
    requires StmtsBuildable(body) && p.lists != []
    ensures Run(StmtsEvents(body), p) == Some(AddStmts(p, BuiltStmts(body)))
    decreases body, 4
  {
    if body == [] {
      assert Last(p.lists) + [] == Last(p.lists) && Front(p.lists) + [Last(p.lists)] == p.lists;
    } else {
      var q := AddStmts(p, [BuiltStmt(body[0])]);
      BuildStmt(body[0], p);
      BuildStmts(body[1..], q);
      RunThen(StmtEvents(body[0]), StmtsEvents(body[1..]), p, q);
      assert Front(q.lists) == Front(p.lists);
      assert Last(p.lists) + [BuiltStmt(body[0])] + BuiltStmts(body[1..]) == Last(p.lists) + BuiltStmts(body);
    }
  }

  lemma {:induction false} BuildStmt(st: Stmt, p: Parser)
    requires StmtBuildable(st) && p.lists != []
    ensures Run(StmtEvents(st), p) == Some(AddStmts(p, [BuiltStmt(st)]))
    decreases st, 3
  {
    hide Run, Act, StmtEvents, BuiltStmt;
    match st
    case Block(_) => BuildBlock(st, p);
    case Default(_) => BuildBlock(st, p);
    case IfStmt(_, _) => BuildIf(st, p);
    case IfElse(_, _, _) => BuildIfElse(st, p);
    case While(_, _) => BuildWhile(st, p);
    case Do(_, _) => BuildDo(st, p);
    case For(_, _, _, _) => BuildFor(st, p);
    case ReturnValue(_) => BuildValue(st, p);
    case ExprStmt(_) => BuildValue(st, p);
    case Throw(_) => BuildValue(st, p);
    case Func(_, _, _, _, _) => BuildFunc(st, p);
    case Switch(_, _) => BuildSwitch(st, p);
    case Case(_, _, _) => BuildSwitch(st, p);
    case Try(_, _, _) => BuildTry(st, p);
    case _ => BuildSimple(st, p);
  }

  lemma SimpleActs(p: Parser)
    ensures forall ev | IsSimple(ev) :: Act(ev, p) == PushStmt(p, SimpleNode(ev))
  {
    hide SimpleNode;
  }

  lemma BuildSimple(st: Stmt, p: Parser)
    requires st.NopStmt? || st.Continue? || st.Break? || st.Return?
    requires p.lists != []
    ensures Run(StmtEvents(st), p) == Some(AddStmts(p, [BuiltStmt(st)]))
  {
    hide Run, Act;
    SimpleActs(p);
    RunSingle(StmtEvents(st)[0], p, AddStmts(p, [st]));
  }

  lemma {:induction false} BuildValue(st: Stmt, p: Parser)
    requires (st.ReturnValue? || st.ExprStmt? || st.Throw?) && StmtBuildable(st) && p.lists != []
    ensures Run(StmtEvents(st), p) == Some(AddStmts(p, [BuiltStmt(st)]))
    decreases st, 2
  {
    hide Run, Act, Built, ExprEvents;
    var ev := if st.ReturnValue? then EndReturnValue else if st.ExprStmt? then EndExpr else EndThrow;
    BuildExpr(st.value, p);
    ValueActs(ev, p, Built(st.value));
    RunOne(ExprEvents(st.value), ev, p, PushExpr(p, Built(st.value)));
  }

  lemma ValueActs(ev: Event, p: Parser, x: Expr)
    requires IsSimpleExpr(ev) && p.lists != []
    ensures Act(ev, PushExpr(p, x)) == Some(AddStmts(p, [SimpleExprNode(ev, x)]))
  {
    hide PopExprs, SimpleExprNode;
    PopPushed(p, [x], PushExpr(p, x));
  }

  // The statements built inside a list of their own, and the end of it.
  function Inside(p: Parser, es: seq<Expr>, body: seq<Stmt>): Parser {
    p.(exprs := p.exprs + es, lists := p.lists + [body])
  }

  lemma InsideLists(p: Parser, es: seq<Expr>, body: seq<Stmt>)
    ensures Leave(Inside(p, es, body)) == Some((body, p.(exprs := p.exprs + es)))
    ensures body != [] ==> PopStmt(Inside(p, es, body)) == Some((Last(body), Inside(p, es, Front(body))))
    ensures body == [] ==> PopStmt(Inside(p, es, body)) == None
    ensures |body| == 1 ==> CloseBody(Inside(p, es, body)) == Some((body[0], p.(exprs := p.exprs + es)))
    ensures PopExprs(Inside(p, es, body), |es|) == Some((es, Inside(p, [], body)))
    ensures |es| == 1 ==> PopExpr(Inside(p, es, body)) == Some((es[0], Inside(p, [], body)))
    ensures |es| == 1 ==> PopExpr(p.(exprs := p.exprs + es)) == Some((es[0], p))
    ensures p.(exprs := p.exprs + []) == p
  {
    var q := Inside(p, es, body);
    assert Front(q.lists) == p.lists && p.exprs + [] == p.exprs;
    assert body != [] ==> Front(q.lists) + [Front(body)] == p.lists + [Front(body)];
    PopPushed(Inside(p, [], body), es, q);
    PopPushed(p, es, p.(exprs := p.exprs + es));
    if |body| == 1 {
      var q1 := Inside(p, es, Front(body));
      assert Front(q1.lists) == p.lists;
    }
  }

  lemma InsideBegin(p: Parser)
    ensures Run([Begin], p) == Some(Inside(p, [], []))
  {
    hide Run;
    assert p.exprs + [] == p.exprs;
    RunSingle(Begin, p, Inside(p, [], []));
  }

  lemma {:induction false} InsideExpr(events: seq<Event>, e: Expr, p: Parser, es: seq<Expr>, body: seq<Stmt>,
                                      p0: Parser, es1: seq<Expr>)
    requires Buildable(e) && Run(events, p0) == Some(Inside(p, es, body)) && es1 == es + [Built(e)]
    ensures Run(events + ExprEvents(e), p0) == Some(Inside(p, es1, body))
    decreases e, 4
  {
    hide Run;
    BuildExpr(e, Inside(p, es, body));
    RunThen(events, ExprEvents(e), p0, Inside(p, es, body));
    assert p.exprs + es + [Built(e)] == p.exprs + es1;
  }

  lemma {:induction false} InsideStmt(events: seq<Event>, st: Stmt, p: Parser, es: seq<Expr>, body: seq<Stmt>,
                                      p0: Parser, body1: seq<Stmt>)
    requires StmtBuildable(st) && Run(events, p0) == Some(Inside(p, es, body)) && body1 == body + [BuiltStmt(st)]
    ensures Run(events + StmtEvents(st), p0) == Some(Inside(p, es, body1))
    decreases st, 4
  {
    hide Run;
    var q := Inside(p, es, body);
    BuildStmt(st, q);
    RunThen(events, StmtEvents(st), p0, q);
    assert Front(q.lists) == p.lists;
  }

  lemma {:induction false} InsideStmts(events: seq<Event>, more: seq<Stmt>, p: Parser, es: seq<Expr>, p0: Parser)
    requires StmtsBuildable(more) && Run(events, p0) == Some(Inside(p, es, []))
    ensures Run(events + StmtsEvents(more), p0) == Some(Inside(p, es, BuiltStmts(more)))
    decreases more, 5
  {
    hide Run;
    var q := Inside(p, es, []);
    BuildStmts(more, q);
    RunThen(events, StmtsEvents(more), p0, q);
    assert Front(q.lists) == p.lists && [] + BuiltStmts(more) == BuiltStmts(more);
  }

  lemma {:induction false} BuildBlock(st: Stmt, p: Parser)
    requires (st.Block? || st.Default?) && StmtBuildable(st) && p.lists != []
    ensures Run(StmtEvents(st), p) == Some(AddStmts(p, [BuiltStmt(st)]))
    decreases st, 2
  {
    hide Run, Act, Leave, StmtsEvents, BuiltStmts, Inside;
    var body := BuiltStmts(st.body);
    ListActs(if st.Block? then EndBlock else EndDefault, p, body);
    InsideBegin(p);
    InsideStmts([Begin], st.body, p, [], p);
    RunOne([Begin] + StmtsEvents(st.body), if st.Block? then EndBlock else EndDefault, p, Inside(p, [], body));
  }

  lemma ListActs(ev: Event, p: Parser, body: seq<Stmt>)
    requires IsList(ev) && p.lists != []
    ensures Act(ev, Inside(p, [], body)) == Some(AddStmts(p, [ListNode(ev, body)]))
  {
    hide Leave, ListNode, Inside;
    InsideLists(p, [], body);
  }

  // What an action of its own does.
  lemma ActOther(ev: Event, p: Parser)
    requires ev.EndIf? || ev.EndWhile? || ev.EndDo? || ev.EndFor? || ev.EndSwitch? || ev.EndCase? || ev.EndTry? || ev.EndFunc?
    ensures Act(ev, p) == OtherStmtAct(ev, p)
  {
    hide OtherStmtAct;
  }

  lemma {:induction false} BuildIf(st: Stmt, p: Parser)
    requires st.IfStmt? && StmtBuildable(st) && p.lists != []
    ensures Run(StmtEvents(st), p) == Some(AddStmts(p, [BuiltStmt(st)]))
    decreases st, 2
  {
    hide Run, Act, EndIfAct, Built, ExprEvents, Inside, Buildable, AddStmts;
    var (es, thn) := ([Built(st.cond)], BuiltStmt(st.thn));
    var head := [Begin] + ExprEvents(st.cond);
    InsideBegin(p);
    InsideExpr([Begin], st.cond, p, [], [], p, es);
    InsideStmt(head, st.thn, p, es, [], p, [thn]);
    RunOne(head + StmtEvents(st.thn), EndIf, p, Inside(p, es, [thn]));
    ActOther(EndIf, Inside(p, es, [thn]));
    IfInside(p, Built(st.cond), thn);
  }

  lemma IfInside(p: Parser, cond: Expr, thn: Stmt)
    requires p.lists != []
    ensures EndIfAct(Inside(p, [cond], [thn])) == Some(AddStmts(p, [IfStmt(cond, thn)]))
  {
    hide Leave, PopStmt, PopExpr, CloseBody, Inside;
    InsideLists(p, [cond], [thn]);
    InsideLists(p, [cond], []);
  }

  lemma {:induction false} BuildIfElse(st: Stmt, p: Parser)
    requires st.IfElse? && StmtBuildable(st) && p.lists != []
    ensures Run(StmtEvents(st), p) == Some(AddStmts(p, [BuiltStmt(st)]))
    decreases st, 2
  {
    hide Run, Act, EndIfAct, Built, ExprEvents, Inside, Buildable, AddStmts;
    var (es, thn, els) := ([Built(st.cond)], BuiltStmt(st.thn), BuiltStmt(st.els));
    var head := [Begin] + ExprEvents(st.cond);
    InsideBegin(p);
    InsideExpr([Begin], st.cond, p, [], [], p, es);
    InsideStmt(head, st.thn, p, es, [], p, [thn]);
    InsideStmt(head + StmtEvents(st.thn), st.els, p, es, [thn], p, [thn, els]);
    RunOne(head + StmtEvents(st.thn) + StmtEvents(st.els), EndIf, p, Inside(p, es, [thn, els]));
    ActOther(EndIf, Inside(p, es, [thn, els]));
    IfElseInside(p, Built(st.cond), thn, els);
  }

  lemma IfElseInside(p: Parser, cond: Expr, thn: Stmt, els: Stmt)
    requires p.lists != []
    ensures EndIfAct(Inside(p, [cond], [thn, els])) == Some(AddStmts(p, [IfElse(cond, thn, els)]))
  {
    hide Leave, PopStmt, PopExpr, CloseBody, Inside;
    assert Front([thn, els]) == [thn];
    InsideLists(p, [cond], [thn, els]);
    InsideLists(p, [cond], [thn]);
  }

  lemma {:induction false} BuildWhile(st: Stmt, p: Parser)
    requires st.While? && StmtBuildable(st) && p.lists != []
    ensures Run(StmtEvents(st), p) == Some(AddStmts(p, [BuiltStmt(st)]))
    decreases st, 2
  {
    hide Run, Act, WhileAct, Built, ExprEvents, Inside, Buildable, AddStmts;
    ActOther(EndWhile, Inside(p, [Built(st.cond)], [BuiltStmt(st.loop)]));
    var (es, body) := ([Built(st.cond)], [BuiltStmt(st.loop)]);
    var head := [Begin] + ExprEvents(st.cond);
    InsideBegin(p);
    InsideExpr([Begin], st.cond, p, [], [], p, es);
    InsideStmt(head, st.loop, p, es, [], p, body);
    RunOne(head + StmtEvents(st.loop), EndWhile, p, Inside(p, es, body));
    LoopsInside(p, Built(st.cond), BuiltStmt(st.loop));
  }

  lemma LoopsInside(p: Parser, cond: Expr, loop: Stmt)
    requires p.lists != []
    ensures WhileAct(Inside(p, [cond], [loop])) == Some(AddStmts(p, [While(cond, loop)]))
    ensures DoAct(Inside(p, [cond], [loop])) == Some(AddStmts(p, [Do(loop, cond)]))
  {
    hide PopExpr, CloseBody, Inside;
    InsideLists(p, [cond], [loop]);
    InsideLists(p, [], [loop]);
  }

  lemma {:induction false} BuildDo(st: Stmt, p: Parser)
    requires st.Do? && StmtBuildable(st) && p.lists != []
    ensures Run(StmtEvents(st), p) == Some(AddStmts(p, [BuiltStmt(st)]))
    decreases st, 2
  {
    hide Run, Act, DoAct, Built, ExprEvents, Inside, Buildable, AddStmts;
    ActOther(EndDo, Inside(p, [Built(st.cond)], [BuiltStmt(st.loop)]));
    var (es, body) := ([Built(st.cond)], [BuiltStmt(st.loop)]);
    var head := [Begin] + StmtEvents(st.loop);
    InsideBegin(p);
    InsideStmt([Begin], st.loop, p, [], [], p, body);
    InsideExpr(head, st.cond, p, [], body, p, es);
    RunOne(head + ExprEvents(st.cond), EndDo, p, Inside(p, es, body));
    LoopsInside(p, Built(st.cond), BuiltStmt(st.loop));
  }

  lemma {:induction false} BuildFor(st: Stmt, p: Parser)
    requires st.For? && StmtBuildable(st) && p.lists != []
    ensures Run(StmtEvents(st), p) == Some(AddStmts(p, [BuiltStmt(st)]))
    decreases st, 2
  {
    hide Run, Act, ForAct, Built, ExprEvents, Inside, Buildable, AddStmts;
    var (a, b, c, body) := (Built(st.init), Built(st.cond), Built(st.guard), [BuiltStmt(st.loop)]);
    var head := [Begin] + ExprEvents(st.init) + ExprEvents(st.cond) + ExprEvents(st.guard);
    InsideBegin(p);
    InsideExpr([Begin], st.init, p, [], [], p, [a]);
    InsideExpr([Begin] + ExprEvents(st.init), st.cond, p, [a], [], p, [a, b]);
    InsideExpr([Begin] + ExprEvents(st.init) + ExprEvents(st.cond), st.guard, p, [a, b], [], p, [a, b, c]);
    InsideStmt(head, st.loop, p, [a, b, c], [], p, body);
    RunOne(head + StmtEvents(st.loop), EndFor, p, Inside(p, [a, b, c], body));
    ActOther(EndFor, Inside(p, [a, b, c], body));
    ForInside(p, a, b, c, BuiltStmt(st.loop));
  }

  lemma ForInside(p: Parser, init: Expr, cond: Expr, guard: Expr, loop: Stmt)
    requires p.lists != []
    ensures ForAct(Inside(p, [init, cond, guard], [loop])) == Some(AddStmts(p, [For(init, cond, guard, loop)]))
  {
    hide PopExprs, CloseBody, Inside;
    InsideLists(p, [init, cond, guard], [loop]);
    InsideLists(p, [], [loop]);
  }

  lemma {:induction false} BuildSwitch(st: Stmt, p: Parser)
    requires (st.Switch? || st.Case?) && StmtBuildable(st) && p.lists != []
    ensures Run(StmtEvents(st), p) == Some(AddStmts(p, [BuiltStmt(st)]))
    decreases st, 2
  {
    hide Run, Act, SwitchAct, CaseAct, ExprEvents, StmtsEvents, Built, BuiltStmts, Inside, AddStmts, Buildable, StmtsBuildable;
    var e := if st.Switch? then st.cond else st.guard;
    var (es, body) := ([Built(e)], BuiltStmts(st.body));
    var head := [Begin] + ExprEvents(e);
    InsideBegin(p);
    InsideExpr([Begin], e, p, [], [], p, es);
    InsideStmts(head, st.body, p, es, p);
    RunOne(head + StmtsEvents(st.body), if st.Switch? then EndSwitch else EndCase(st.thru), p, Inside(p, es, body));
    ActOther(if st.Switch? then EndSwitch else EndCase(st.thru), Inside(p, es, body));
    LoneBreak(st.body);
    if st.Switch? { SwitchInside(p, Built(e), body); } else { CaseInside(p, Built(e), body, st.thru); }
  }

  lemma SwitchInside(p: Parser, cond: Expr, body: seq<Stmt>)
    requires p.lists != []
    ensures SwitchAct(Inside(p, [cond], body)) == Some(AddStmts(p, [Switch(cond, body)]))
  {
    hide Leave, PopExpr, Inside;
    InsideLists(p, [cond], body);
    InsideLists(p, [], body);
  }

  lemma CaseInside(p: Parser, guard: Expr, body: seq<Stmt>, thru: bool)
    requires p.lists != []
    ensures CaseAct(Inside(p, [guard], body), thru)
         == Some(AddStmts(p, [if body == [Break] then Case(guard, [NopStmt], false) else Case(guard, body, thru)]))
  {
    hide Leave, PopExpr, Inside;
    InsideLists(p, [guard], body);
  }

  lemma LoneBreak(body: seq<Stmt>)
    ensures BuiltStmts(body) == [Break] <==> body == [Break]
  {
    if |body| == 1 {
      assert body == [body[0]] && body[1..] == [];
      assert BuiltStmts(body) == [BuiltStmt(body[0])];
      assert BuiltStmt(body[0]).Break? <==> body[0].Break?;
    }
  }

  lemma {:induction false} BuildTry(st: Stmt, p: Parser)
    requires st.Try? && StmtBuildable(st) && p.lists != []
    ensures Run(StmtEvents(st), p) == Some(AddStmts(p, [BuiltStmt(st)]))
    decreases st, 2
  {
    hide Run, Act, TryAct, Inside, AddStmts;
    var (tried, handler) := (BuiltStmt(st.tried), BuiltStmt(st.handler));
    var head := [Begin] + StmtEvents(st.tried);
    InsideBegin(p);
    InsideStmt([Begin], st.tried, p, [], [], p, [tried]);
    InsideStmt(head, st.handler, p, [], [tried], p, [tried, handler]);
    RunOne(head + StmtEvents(st.handler), EndTry(st.name), p, Inside(p, [], [tried, handler]));
    ActOther(EndTry(st.name), Inside(p, [], [tried, handler]));
    TryInside(p, tried, st.name, handler);
  }

  lemma TryInside(p: Parser, tried: Stmt, name: string, handler: Stmt)
    requires p.lists != []
    ensures TryAct(Inside(p, [], [tried, handler]), name) == Some(AddStmts(p, [Try(tried, name, handler)]))
  {
    hide PopStmt, CloseBody, Inside;
    assert Front([tried, handler]) == [tried];
    InsideLists(p, [], [tried, handler]);
    InsideLists(p, [], [tried]);
  }

  lemma {:induction false} BuildFunc(st: Stmt, p: Parser)
    requires st.Func? && StmtBuildable(st) && p.lists != []
    ensures Run(StmtEvents(st), p) == Some(AddStmts(p, [BuiltStmt(st)]))
    decreases st, 2
  {
    hide Run, Act, CloseBody;
    var open := [BeginFunc] + [EndRettype(st.rettype)] + SignatureEvents(st.types, st.names);
    var p1 := p.(sigs := p.sigs + [Signature(st.types, st.names, st.rettype)]);
    OpenFunc(st.rettype, st.types, st.names, p);
    assert p1.exprs + [] == p1.exprs;
    assert Opened(p, st.rettype, st.types, st.names) == Inside(p1, [], []);
    InsideStmt(open, st.loop, p1, [], [], p, [BuiltStmt(st.loop)]);
    RunOne(open + StmtEvents(st.loop), EndFunc(st.name), p, Inside(p1, [], [BuiltStmt(st.loop)]));
    InsideLists(p, [], [BuiltStmt(st.loop)]);
    ActOther(EndFunc(st.name), Inside(p1, [], [BuiltStmt(st.loop)]));
    assert Front(p1.sigs) == p.sigs;
    assert Inside(p1, [], [BuiltStmt(st.loop)]).(sigs := p.sigs) == Inside(p, [], [BuiltStmt(st.loop)]);
  }

  // ---- abbreviations ----

  // "name op= value" builds what "name = name op value" builds.
  lemma OpAssignIsSugar(name: string, op: OpType, mod: Expr, p: Parser)
    requires Buildable(mod)
    ensures Run(ExprEvents(mod) + [EndOpAssign(name, op)], p)
         == Run(ExprEvents(Assign(name, Infix(op, Ref(name), mod))), p)
  {
    hide Run, PopExprs, InfixAct, ExprEvents, Built;
    var value := Infix(op, Ref(name), Built(mod));
    var q := PushExpr(p, Built(mod));
    BuildExpr(mod, p);
    RunOne(ExprEvents(mod), EndOpAssign(name, op), p, q);
    PopPushed(p, [Built(mod)], q);
    InfixPushed(p, Ref(name), Built(mod), op);
    PopPushed(p, [value], PushExpr(p, value));
    assert Buildable(Infix(op, Ref(name), mod));
    BuildExpr(Assign(name, Infix(op, Ref(name), mod)), p);
    BuiltSugar(name, op, mod);
  }

  lemma BuiltSugar(name: string, op: OpType, mod: Expr)
    ensures Built(Assign(name, Infix(op, Ref(name), mod))) == Assign(name, Infix(op, Ref(name), Built(mod)))
  {
    assert Built(Infix(op, Ref(name), mod)) == Infix(op, Ref(name), Built(mod));
  }

  // The same with an index, which is evaluated once by the parser and stands twice in the tree.
  lemma OpAssignArrayIsSugar(name: string, index: seq<Expr>, op: OpType, mod: Expr, p: Parser)
    requires index != [] && AllBuildable(index) && Buildable(mod)
    ensures Run(ArgEvents(index, true) + ExprEvents(mod) + [EndOpAssignArray(name, op)], p)
         == Run(ExprEvents(AssignArray(name, index, Infix(op, RefArray(name, index), mod))), p)
  {
    hide Run, PopExprs, TakeArgs, InfixAct, ExprEvents, Built;
    var index1 := BuiltAll(index);
    var ref := RefArray(name, index1);
    var value := Infix(op, ref, Built(mod));
    var q := Pushed(p, index1);
    var q1 := PushExpr(q, Built(mod));
    BuildArgs(index, p);
    BuildExpr(mod, q);
    RunThen(ArgEvents(index, true), ExprEvents(mod), p, q);
    RunOne(ArgEvents(index, true) + ExprEvents(mod), EndOpAssignArray(name, op), p, q1);
    PopPushed(q, [Built(mod)], q1);
    TakePushed(p, index1);
    InfixPushed(p, ref, Built(mod), op);
    PopPushed(p, [value], PushExpr(p, value));
    assert Buildable(RefArray(name, index));
    assert Buildable(Infix(op, RefArray(name, index), mod));
    BuildExpr(AssignArray(name, index, Infix(op, RefArray(name, index), mod)), p);
    BuiltArraySugar(name, index, op, mod);
  }

  lemma BuiltArraySugar(name: string, index: seq<Expr>, op: OpType, mod: Expr)
    ensures Built(AssignArray(name, index, Infix(op, RefArray(name, index), mod)))
         == AssignArray(name, BuiltAll(index), Infix(op, RefArray(name, BuiltAll(index)), Built(mod)))
  {
    assert Built(RefArray(name, index)) == RefArray(name, BuiltAll(index));
    assert Built(Infix(op, RefArray(name, index), mod)) == Infix(op, RefArray(name, BuiltAll(index)), Built(mod));
  }

  // One element of "new array(...)": a key and a value, or a value alone.
  datatype Element = Element(key: Option<Expr>, value: Expr)

  predicate ElementsBuildable(elems: seq<Element>) {
    forall i :: 0 <= i < |elems| ==>
      Buildable(elems[i].value) && (elems[i].key.Some? ==> Buildable(elems[i].key.value))
  }

  function ElementEvents(e: Element): seq<Event> {
    if e.key.Some? then ExprEvents(e.key.value) + ExprEvents(e.value)
    else ExprEvents(e.value) + [EndKeyarraySingle]
  }

  function ElementsEvents(elems: seq<Element>, first: bool): seq<Event> {
    if elems == [] then []
    else ElementEvents(elems[0]) + [if first then EndFirst else EndNext] + [EndNext] + ElementsEvents(elems[1..], false)
  }

  // The arguments they become: alternating keys and values, with void for a missing key.
  function Alternating(elems: seq<Element>): seq<Expr> {
    if elems == [] then []
    else [if elems[0].key.Some? then Built(elems[0].key.value) else ConstVoid, Built(elems[0].value)]
         + Alternating(elems[1..])
  }

  lemma BuildElement(e: Element, p: Parser)
    requires Buildable(e.value) && (e.key.Some? ==> Buildable(e.key.value))
    ensures Run(ElementEvents(e), p)
         == Some(p.(exprs := p.exprs + [if e.key.Some? then Built(e.key.value) else ConstVoid, Built(e.value)]))
  {
    hide Run, ExprEvents, Built, PopExprs;
    var v := Built(e.value);
    if e.key.Some? {
      var key := Built(e.key.value);
      BuildExpr(e.key.value, p);
      BuildExpr(e.value, PushExpr(p, key));
      RunThen(ExprEvents(e.key.value), ExprEvents(e.value), p, PushExpr(p, key));
      assert p.exprs + [key] + [v] == p.exprs + [key, v];
    } else {
      BuildExpr(e.value, p);
      RunOne(ExprEvents(e.value), EndKeyarraySingle, p, PushExpr(p, v));
      PopPushed(p, [v], PushExpr(p, v));
      assert p.exprs + [ConstVoid] + [v] == p.exprs + [ConstVoid, v];
    }
  }

  lemma {:induction false} BuildElements(elems: seq<Element>, first: bool, p: Parser)
    requires ElementsBuildable(elems) && (if first then elems != [] else p.counts != [])
    ensures Run(ElementsEvents(elems, first), p)
         == Some(p.(exprs := p.exprs + Alternating(elems),
                    counts := (if first then p.counts else Front(p.counts))
                            + [(if first then 0 else Last(p.counts)) + |Alternating(elems)|]))
    decreases |elems|
  {
    if elems == [] {
      assert p.exprs + [] == p.exprs && Front(p.counts) + [Last(p.counts)] == p.counts;
    } else {
      BuildMoreElements(elems, first, p);
    }
  }

  function Pair(e: Element): seq<Expr> {
    [if e.key.Some? then Built(e.key.value) else ConstVoid, Built(e.value)]
  }

  lemma ElementsShape(elems: seq<Element>, first: bool)
    requires elems != []
    ensures ElementsEvents(elems, first)
         == ElementEvents(elems[0]) + [if first then EndFirst else EndNext] + [EndNext] + ElementsEvents(elems[1..], false)
    ensures Alternating(elems) == Pair(elems[0]) + Alternating(elems[1..])
  {
    hide ElementEvents, Built;
  }

  lemma {:induction false} BuildMoreElements(elems: seq<Element>, first: bool, p: Parser)
    requires ElementsBuildable(elems) && elems != [] && (first || p.counts != [])
    ensures Run(ElementsEvents(elems, first), p)
         == Some(p.(exprs := p.exprs + Alternating(elems),
                    counts := (if first then p.counts else Front(p.counts))
                            + [(if first then 0 else Last(p.counts)) + |Alternating(elems)|]))
    decreases |elems|, 0
  {
    hide Run, Act, ElementEvents, Built, ExprEvents, Buildable, ElementsEvents, Alternating;
    ElementsShape(elems, first);
    var (events, ev) := (ElementEvents(elems[0]), if first then EndFirst else EndNext);
    var pair := Pair(elems[0]);
    var base := if first then p.counts else Front(p.counts);
    var n := if first then 0 else Last(p.counts);
    var q := p.(exprs := p.exprs + pair);
    var q1 := q.(counts := base + [n + 1]);
    var q2 := q.(counts := base + [n + 2]);
    BuildElement(elems[0], p);
    CountActs(q);
    RunOne(events, ev, p, q);
    assert Front(q1.counts) == base && Front(q2.counts) == base;
    CountActs(q1);
    RunOne(events + [ev], EndNext, p, q1);
    BuildElements(elems[1..], false, q2);
    RunThen(events + [ev] + [EndNext], ElementsEvents(elems[1..], false), p, q2);
    assert p.exprs + pair + Alternating(elems[1..]) == p.exprs + Alternating(elems);
  }

  // "new array(...)" with elements is a call of mkkeyarray on alternating keys and values.
  lemma ArrayInitIsCall(elems: seq<Element>, p: Parser)
    requires ElementsBuildable(elems) && elems != []
    ensures Run(ElementsEvents(elems, true) + [EndTypeinit(ArrayInit)], p)
         == Some(PushExpr(p, Call("mkkeyarray", Alternating(elems))))
  {
    hide Run, Act, ElementsEvents, Alternating, ElementsBuildable;
    var args := Alternating(elems);
    BuildElements(elems, true, p);
    RunOne(ElementsEvents(elems, true), EndTypeinit(ArrayInit), p, Pushed(p, args));
    CountedActs(EndTypeinit(ArrayInit), args, p);
  }

  // "new struct(...)" with fields is a call of mkstruct on names and values; a field without a
  // value is one with void.
  lemma StructInitIsCall(elems: seq<Element>, p: Parser)
    requires ElementsBuildable(elems) && elems != []
    requires forall i :: 0 <= i < |elems| ==> elems[i].key.Some? && elems[i].key.value.Const?
    ensures Run(ElementsEvents(elems, true) + [EndTypeinit(StructInit)], p)
         == Some(PushExpr(p, Call("mkstruct", Alternating(elems))))
  {
    hide Run, Act, ElementsEvents, Alternating, ElementsBuildable;
    var args := Alternating(elems);
    BuildElements(elems, true, p);
    RunOne(ElementsEvents(elems, true), EndTypeinit(StructInit), p, Pushed(p, args));
    CountedActs(EndTypeinit(StructInit), args, p);
  }

  // Without elements they are calls without arguments.
  lemma EmptyInitIsCall(p: Parser)
    ensures Run([EndTypeinitVoid(ArrayInit)], p) == Some(PushExpr(p, Call("mkarray", [])))
    ensures Run([EndTypeinitVoid(StructInit)], p) == Some(PushExpr(p, Call("mkstruct", [])))
  {
    LeafActs(EndTypeinitVoid(ArrayInit), p);
    LeafActs(EndTypeinitVoid(StructInit), p);
    RunSingle(EndTypeinitVoid(ArrayInit), p, PushExpr(p, Call("mkarray", [])));
    RunSingle(EndTypeinitVoid(StructInit), p, PushExpr(p, Call("mkstruct", [])));
  }

  // "use" is a call of module_load on the names.
  lemma UseIsCall(names: seq<Expr>, p: Parser)
    requires names != [] && AllBuildable(names)
    ensures Run(ArgEvents(names, true) + [EndUse], p) == Some(PushExpr(p, Call("module_load", BuiltAll(names))))
  {
    hide Run, Act, ArgEvents, BuiltAll, AllBuildable;
    BuildArgs(names, p);
    RunOne(ArgEvents(names, true), EndUse, p, Pushed(p, BuiltAll(names)));
    CountedActs(EndUse, BuiltAll(names), p);
  }

  // ---- the tree that comes back is the tree that went in ----

  // No case holds a break alone.
  predicate Lasting(e: Expr)
    decreases e, 0
  {
    match e
    case Assign(_, inner) => Lasting(inner)
    case AssignArray(_, index, inner) => AllLasting(index) && Lasting(inner)
    case Cast(_, inner) => Lasting(inner)
    case Call(_, args) => AllLasting(args)
    case New(_, args) => AllLasting(args)
    case Static(_, _, args) => AllLasting(args)
    case Method(inner, _, args) => Lasting(inner) && AllLasting(args)
    case RefArray(_, index) => AllLasting(index)
    case Infix(_, left, right) => Lasting(left) && Lasting(right)
    case Postfix(_, inner) => Lasting(inner)
    case Prefix(_, inner) => Lasting(inner)
    case Index(inner, index) => Lasting(inner) && AllLasting(index)
    case Lambda(f) => StmtLasting(f)
    case If(test, thn, els) => Lasting(test) && Lasting(thn) && Lasting(els)
    case PassRef(inner) => Lasting(inner)
    case _ => true
  }

  predicate AllLasting(es: seq<Expr>)
    decreases es, 0
  {
    es == [] || (Lasting(es[0]) && AllLasting(es[1..]))
  }

  predicate StmtLasting(st: Stmt)
    decreases st, 0
  {
    match st
    case Block(body) => StmtsLasting(body)
    case IfStmt(cond, thn) => Lasting(cond) && StmtLasting(thn)
    case IfElse(cond, thn, els) => Lasting(cond) && StmtLasting(thn) && StmtLasting(els)
    case While(cond, loop) => Lasting(cond) && StmtLasting(loop)
    case Do(loop, cond) => StmtLasting(loop) && Lasting(cond)
    case For(init, cond, guard, loop) => Lasting(init) && Lasting(cond) && Lasting(guard) && StmtLasting(loop)
    case ReturnValue(value) => Lasting(value)
    case ExprStmt(value) => Lasting(value)
    case Func(_, _, _, _, loop) => StmtLasting(loop)
    case Switch(cond, body) => Lasting(cond) && StmtsLasting(body)
    case Case(guard, body, _) => Lasting(guard) && body != [Break] && StmtsLasting(body)
    case Default(body) => StmtsLasting(body)
    case Try(tried, _, handler) => StmtLasting(tried) && StmtLasting(handler)
    case Throw(value) => Lasting(value)
    case _ => true
  }

  predicate StmtsLasting(body: seq<Stmt>)
    decreases body, 0
  {
    body == [] || (StmtLasting(body[0]) && StmtsLasting(body[1..]))
  }

  lemma {:induction false} ExprComesBack(e: Expr)
    ensures Lasting(e) <==> Built(e) == e
    decreases e, 0
  {
    match e
    case Assign(_, inner) => ExprComesBack(inner);
    case AssignArray(_, index, inner) =>
      AllComeBack(index);
      ExprComesBack(inner);
    case Cast(_, inner) => ExprComesBack(inner);
    case Call(_, args) => AllComeBack(args);
    case New(_, args) => AllComeBack(args);
    case Static(_, _, args) => AllComeBack(args);
    case Method(inner, _, args) =>
      ExprComesBack(inner);
      AllComeBack(args);
    case RefArray(_, index) => AllComeBack(index);
    case Infix(_, left, right) =>
      ExprComesBack(left);
      ExprComesBack(right);
    case Postfix(_, inner) => ExprComesBack(inner);
    case Prefix(_, inner) => ExprComesBack(inner);
    case Index(inner, index) =>
      ExprComesBack(inner);
      AllComeBack(index);
    case Lambda(f) => StmtComesBack(f);
    case If(test, thn, els) =>
      ExprComesBack(test);
      ExprComesBack(thn);
      ExprComesBack(els);
    case PassRef(inner) => ExprComesBack(inner);
    case _ =>
  }

  lemma {:induction false} AllComeBack(es: seq<Expr>)
    ensures AllLasting(es) <==> BuiltAll(es) == es
    decreases es, 0
  {
    if es != [] {
      ExprComesBack(es[0]);
      AllComeBack(es[1..]);
      assert es == [es[0]] + es[1..];
      assert BuiltAll(es)[0] == Built(es[0]) && BuiltAll(es)[1..] == BuiltAll(es[1..]);
    }
  }

  // A statement comes back as it was exactly when no case in it holds a break alone; that one comes
  // back empty, and does not fall through.
  lemma {:induction false} StmtComesBack(st: Stmt)
    ensures StmtLasting(st) <==> BuiltStmt(st) == st
    ensures st.Case? && st.body == [Break] ==> BuiltStmt(st) == Case(Built(st.guard), [NopStmt], false)
    decreases st, 0
  {
    match st
    case Block(body) => StmtsComeBack(body);
    case IfStmt(cond, thn) =>
      ExprComesBack(cond);
      StmtComesBack(thn);
    case IfElse(cond, thn, els) =>
      ExprComesBack(cond);
      StmtComesBack(thn);
      StmtComesBack(els);
    case While(cond, loop) =>
      ExprComesBack(cond);
      StmtComesBack(loop);
    case Do(loop, cond) =>
      ExprComesBack(cond);
      StmtComesBack(loop);
    case For(init, cond, guard, loop) =>
      ExprComesBack(init);
      ExprComesBack(cond);
      ExprComesBack(guard);
      StmtComesBack(loop);
    case ReturnValue(value) => ExprComesBack(value);
    case ExprStmt(value) => ExprComesBack(value);
    case Func(_, _, _, _, loop) => StmtComesBack(loop);
    case Switch(cond, body) =>
      ExprComesBack(cond);
      StmtsComeBack(body);
    case Case(guard, body, _) =>
      ExprComesBack(guard);
      StmtsComeBack(body);
    case Default(body) => StmtsComeBack(body);
    case Try(tried, _, handler) =>
      StmtComesBack(tried);
      StmtComesBack(handler);
    case Throw(value) => ExprComesBack(value);
    case _ =>
  }

  lemma {:induction false} StmtsComeBack(body: seq<Stmt>)
    ensures StmtsLasting(body) <==> BuiltStmts(body) == body
    decreases body, 0
  {
    if body != [] {
      StmtComesBack(body[0]);
      StmtsComeBack(body[1..]);
      assert body == [body[0]] + body[1..];
      assert BuiltStmts(body)[0] == BuiltStmt(body[0]) && BuiltStmts(body)[1..] == BuiltStmts(body[1..]);
    }
  }
}
