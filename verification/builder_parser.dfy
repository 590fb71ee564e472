/** The parser data that the actions change in place (expr_stack.c, stmt_stack.c, expr_parse.c and
    stmt_parse.c in libintend/libparser).  Each precondition is the source's own sanity check. */
module BuilderParser {
  import opened Wrappers
  import opened Syntax
  import opened BuilderMachine
  import opened BuilderInverse

  class ParserData {
    var exprStack: seq<Expr>
    var argCount: seq<nat>
    var stack: seq<seq<Stmt>>
    var fnArgs: seq<Signature>

    ghost function State(): Parser
      reads this
    {
      Parser(exprStack, argCount, stack, fnArgs)
    }

    constructor ()
      ensures State() == Parser([], [], [[]], [])
    {
      exprStack, argCount, stack, fnArgs := [], [], [[]], [];
    }

    // ---- the stacks ----

    method ExprStackPush(e: Expr)
      modifies this`exprStack
      ensures State() == PushExpr(old(State()), e)
    {
      exprStack := exprStack + [e];
    }

    method ExprStackPop() returns (e: Expr)
      requires exprStack != []
      modifies this`exprStack
      ensures PopExpr(old(State())) == Some((e, State()))
    {
      e := Last(exprStack);
      exprStack := Front(exprStack);
      PopPushed(State(), [e], old(State()));
    }

    method ExprArgLeave() returns (n: nat)
      requires argCount != []
      modifies this`argCount
      ensures n == Last(old(argCount)) && argCount == Front(old(argCount))
    {
      n := Last(argCount);
      argCount := Front(argCount);
    }

    // The arguments of a call come off the stack last first, so the vector is filled backwards.
    method SafeArgs() returns (argv: array<Expr>)
      requires TakeArgs(State()).Some?
      modifies this`exprStack, this`argCount
      ensures fresh(argv)
      ensures TakeArgs(old(State())) == Some((argv[..], State()))
    {
      var argc := ExprArgLeave();
      argv := new Expr[argc](_ => Nop);
      ghost var before := exprStack;
      var next := argc - 1;
      var i := 0;
      while i < argc
        invariant 0 <= i <= argc && next == argc - 1 - i
        invariant argc <= |before| && exprStack == before[..|before| - i]
        invariant argv[argc - i..] == before[|before| - i..]
        invariant argCount == Front(old(argCount)) && stack == old(stack) && fnArgs == old(fnArgs)
      {
        var e := ExprStackPop();
        argv[next] := e;
        assert argv[next..] == [e] + argv[next + 1..];
        assert before[|before| - i - 1..] == [before[|before| - i - 1]] + before[|before| - i..];
        next := next - 1;
        i := i + 1;
      }
      assert argv[..] == argv[0..];
    }

    method StmtStackEnter()
      modifies this`stack
      ensures State() == Enter(old(State()))
    {
      stack := stack + [[]];
    }

    method StmtStackLeave() returns (list: seq<Stmt>)
      requires stack != []
      modifies this`stack
      ensures Leave(old(State())) == Some((list, State()))
    {
      list := Last(stack);
      stack := Front(stack);
    }

    method StmtStackPush(st: Stmt)
      requires stack != []
      modifies this`stack
      ensures PushStmt(old(State()), st) == Some(State())
    {
      stack := Front(stack) + [Last(stack) + [st]];
    }

    // No statement when there is no list, or nothing in the innermost one.
    method StmtStackPop() returns (st: Option<Stmt>)
      modifies this`stack
      ensures st.None? ==> PopStmt(old(State())) == None && stack == old(stack)
      ensures st.Some? ==> PopStmt(old(State())) == Some((st.value, State()))
    {
      if stack == [] || Last(stack) == [] {
        st := None;
      } else {
        st := Some(Last(Last(stack)));
        stack := Front(stack) + [Front(Last(stack))];
      }
    }

    // A statement that must be there, and the rest of its list dropped.
    method CloseList() returns (st: Stmt)
      requires CloseBody(State()).Some?
      modifies this`stack
      ensures CloseBody(old(State())) == Some((st, State()))
    {
      var popped := StmtStackPop();
      st := popped.value;
      var _ := StmtStackLeave();
    }

    // ---- expression actions ----

    method ExprEndInfix(op: OpType)
      requires InfixAct(State(), op).Some?
      modifies this`exprStack
      ensures InfixAct(old(State()), op) == Some(State())
    {
      ghost var es := exprStack[|exprStack| - 2..];
      var two := ExprStackPop();
      var one := ExprStackPop();
      assert es == [one, two] && exprStack == old(exprStack)[..|old(exprStack)| - 2];
      ExprStackPush(Infix(op, one, two));
    }

    method ExprEndOpAssign(name: string, op: OpType)
      requires OpAssignAct(State(), name, op).Some?
      modifies this`exprStack
      ensures OpAssignAct(old(State()), name, op) == Some(State())
    {
      var mod := ExprStackPop();
      ExprStackPush(Ref(name));
      ExprStackPush(mod);
      ExprEndInfix(op);
      var value := ExprStackPop();
      ExprStackPush(Assign(name, value));
    }

    method ExprEndAssignArray(name: string)
      requires AssignArrayAct(State(), name).Some?
      modifies this`exprStack, this`argCount
      ensures AssignArrayAct(old(State()), name) == Some(State())
    {
      var value := ExprStackPop();
      var argv := SafeArgs();
      ExprStackPush(AssignArray(name, argv[..], value));
    }

    method ExprEndOpAssignArray(name: string, op: OpType)
      requires OpAssignArrayAct(State(), name, op).Some?
      modifies this`exprStack, this`argCount
      ensures OpAssignArrayAct(old(State()), name, op) == Some(State())
    {
      var mod := ExprStackPop();
      var argv := SafeArgs();
      ExprStackPush(RefArray(name, argv[..]));
      ExprStackPush(mod);
      ExprEndInfix(op);
      var value := ExprStackPop();
      ExprStackPush(AssignArray(name, argv[..], value));
    }

    method ExprEndMethod(name: string)
      requires MethodAct(State(), name).Some?
      modifies this`exprStack, this`argCount
      ensures MethodAct(old(State()), name) == Some(State())
    {
      var argv := SafeArgs();
      var receiver := ExprStackPop();
      ExprStackPush(Method(receiver, name, argv[..]));
    }

    method ExprEndIndex()
      requires IndexAct(State()).Some?
      modifies this`exprStack, this`argCount
      ensures IndexAct(old(State())) == Some(State())
    {
      var argv := SafeArgs();
      var inner := ExprStackPop();
      ExprStackPush(Index(inner, argv[..]));
    }

    method ExprEndIf()
      requires CondAct(State()).Some?
      modifies this`exprStack
      ensures CondAct(old(State())) == Some(State())
    {
      ghost var es := exprStack[|exprStack| - 3..];
      var els := ExprStackPop();
      var thn := ExprStackPop();
      var test := ExprStackPop();
      assert es == [test, thn, els] && exprStack == old(exprStack)[..|old(exprStack)| - 3];
      ExprStackPush(If(test, thn, els));
    }

    // A void goes under the last expression, so that every value has a key.
    method ExprEndKeyarraySingle()
      requires KeyarrayAct(State()).Some?
      modifies this`exprStack
      ensures KeyarrayAct(old(State())) == Some(State())
    {
      var e := ExprStackPop();
      ExprStackPush(ConstVoid);
      ExprStackPush(e);
    }

    method StmtBeginFunc()
      modifies this`fnArgs, this`stack
      ensures State() == BeginFuncAct(old(State()))
    {
      fnArgs := fnArgs + [Signature([], [], '?')];
      StmtStackEnter();
    }

    method ExprEndLambda()
      requires EndLambdaAct(State()).Some?
      modifies this`exprStack, this`fnArgs, this`stack
      ensures EndLambdaAct(old(State())) == Some(State())
    {
      var sig := Last(fnArgs);
      fnArgs := Front(fnArgs);
      var list := StmtStackLeave();
      ExprStackPush(Lambda(Func('?', "\\lambda", sig.types, sig.names, Block(list))));
    }

    // ---- statement actions ----

    method StmtEndIf()
      requires EndIfAct(State()).Some?
      modifies this`exprStack, this`stack
      ensures EndIfAct(old(State())) == Some(State())
    {
      var one := StmtStackPop();
      var two := StmtStackPop();
      var _ := StmtStackLeave();
      var cond := ExprStackPop();
      if two.Some? {
        StmtStackPush(IfElse(cond, two.value, one.value));
      } else {
        StmtStackPush(IfStmt(cond, one.value));
      }
    }

    method StmtEndWhile()
      requires WhileAct(State()).Some?
      modifies this`exprStack, this`stack
      ensures WhileAct(old(State())) == Some(State())
    {
      var cond := ExprStackPop();
      var body := CloseList();
      StmtStackPush(While(cond, body));
    }

    method StmtEndDo()
      requires DoAct(State()).Some?
      modifies this`exprStack, this`stack
      ensures DoAct(old(State())) == Some(State())
    {
      var cond := ExprStackPop();
      var body := CloseList();
      StmtStackPush(Do(body, cond));
    }

    method StmtEndFor()
      requires ForAct(State()).Some?
      modifies this`exprStack, this`stack
      ensures ForAct(old(State())) == Some(State())
    {
      ghost var es := exprStack[|exprStack| - 3..];
      var guard := ExprStackPop();
      var cond := ExprStackPop();
      var init := ExprStackPop();
      assert es == [init, cond, guard] && exprStack == old(exprStack)[..|old(exprStack)| - 3];
      var body := CloseList();
      StmtStackPush(For(init, cond, guard, body));
    }

    method StmtEndArg(typespec: char, name: string)
      requires EndArgAct(State(), typespec, name).Some?
      modifies this`fnArgs
      ensures EndArgAct(old(State()), typespec, name) == Some(State())
    {
      var sig := Last(fnArgs);
      fnArgs := Front(fnArgs) + [sig.(types := sig.types + [typespec], names := sig.names + [name])];
    }

    method StmtEndRettype(rettype: char)
      requires EndRettypeAct(State(), rettype).Some?
      modifies this`fnArgs
      ensures EndRettypeAct(old(State()), rettype) == Some(State())
    {
      fnArgs := Front(fnArgs) + [Last(fnArgs).(rettype := rettype)];
    }

    method StmtEndFunc(name: string)
      requires EndFuncAct(State(), name).Some?
      modifies this`fnArgs, this`stack
      ensures EndFuncAct(old(State()), name) == Some(State())
    {
      var sig := Last(fnArgs);
      fnArgs := Front(fnArgs);
      var body := CloseList();
      StmtStackPush(Func(sig.rettype, name, sig.types, sig.names, body));
    }

    method StmtEndSwitch()
      requires SwitchAct(State()).Some?
      modifies this`exprStack, this`stack
      ensures SwitchAct(old(State())) == Some(State())
    {
      var cond := ExprStackPop();
      var list := StmtStackLeave();
      StmtStackPush(Switch(cond, list));
    }

    method StmtEndCase(thru: bool)
      requires CaseAct(State(), thru).Some?
      modifies this`exprStack, this`stack
      ensures CaseAct(old(State()), thru) == Some(State())
    {
      var list := StmtStackLeave();
      var through := thru;
      if |list| == 1 && list[0] == Break {
        list := [NopStmt];
        through := false;
      }
      var guard := ExprStackPop();
      StmtStackPush(Case(guard, list, through));
    }

    method StmtEndTry(name: string)
      requires TryAct(State(), name).Some?
      modifies this`stack
      ensures TryAct(old(State()), name) == Some(State())
    {
      var handler := StmtStackPop();
      var tried := CloseList();
      StmtStackPush(Try(tried, name, handler.value));
    }

    // ---- whole runs ----

    method UnaryAction(ev: Event)
      requires IsUnary(ev) && exprStack != []
      modifies this`exprStack
      ensures ExprAct(ev, old(State())) == Some(State())
    {
      var e := ExprStackPop();
      ExprStackPush(UnaryNode(ev, e));
    }

    method CountedAction(ev: Event)
      requires IsCounted(ev) && TakeArgs(State()).Some?
      modifies this`exprStack, this`argCount
      ensures ExprAct(ev, old(State())) == Some(State())
    {
      var argv := SafeArgs();
      ExprStackPush(CountedNode(ev, argv[..]));
    }

    method OtherExprAction(ev: Event)
      requires OtherExprAct(ev, State()).Some?
      modifies this
      ensures OtherExprAct(ev, old(State())) == Some(State())
    {
      match ev
      case EndOpAssign(name, op) => ExprEndOpAssign(name, op);
      case EndAssignArray(name) => ExprEndAssignArray(name);
      case EndOpAssignArray(name, op) => ExprEndOpAssignArray(name, op);
      case EndMethod(name) => ExprEndMethod(name);
      case EndKeyarraySingle => ExprEndKeyarraySingle();
      case EndIndex => ExprEndIndex();
      case EndInfix(op) => ExprEndInfix(op);
      case EndFirst => argCount := argCount + [1];
      case EndNext => argCount := Front(argCount) + [Last(argCount) + 1];
      case EndCond => ExprEndIf();
      case BeginLambda => StmtBeginFunc();
      case EndLambda => ExprEndLambda();
    }

    method ExprAction(ev: Event)
      requires ExprAct(ev, State()).Some?
      modifies this
      ensures ExprAct(ev, old(State())) == Some(State())
    {
      hide UnaryNode, LeafNode, CountedNode, OtherExprAct;
      if IsLeaf(ev) {
        ExprStackPush(LeafNode(ev));
      } else if IsUnary(ev) {
        UnaryAction(ev);
      } else if IsCounted(ev) {
        CountedAction(ev);
      } else {
        OtherExprAction(ev);
      }
    }

    method OtherStmtAction(ev: Event)
      requires OtherStmtAct(ev, State()).Some?
      modifies this
      ensures OtherStmtAct(ev, old(State())) == Some(State())
    {
      match ev
      case Begin => StmtStackEnter();
      case EndIf => StmtEndIf();
      case EndWhile => StmtEndWhile();
      case EndDo => StmtEndDo();
      case EndFor => StmtEndFor();
      case BeginFunc => StmtBeginFunc();
      case EndRettype(rettype) => StmtEndRettype(rettype);
      case EndArg(typespec, name) => StmtEndArg(typespec, name);
      case EndFunc(name) => StmtEndFunc(name);
      case EndSwitch => StmtEndSwitch();
      case EndCase(thru) => StmtEndCase(thru);
      case EndTry(name) => StmtEndTry(name);
    }

    method StmtAction(ev: Event)
      requires StmtAct(ev, State()).Some?
      modifies this
      ensures StmtAct(ev, old(State())) == Some(State())
    {
      hide SimpleNode, SimpleExprNode, ListNode, OtherStmtAct;
      if IsSimple(ev) {
        StmtStackPush(SimpleNode(ev));
      } else if IsSimpleExpr(ev) {
        var e := ExprStackPop();
        StmtStackPush(SimpleExprNode(ev, e));
      } else if IsList(ev) {
        var list := StmtStackLeave();
        StmtStackPush(ListNode(ev, list));
      } else {
        OtherStmtAction(ev);
      }
    }

    // The grammar's reductions, one action after another.
    method Reduce(evs: seq<Event>)
      requires Run(evs, State()).Some?
      modifies this
      ensures Run(evs, old(State())) == Some(State())
    {
      var i := 0;
      while i < |evs|
        invariant 0 <= i <= |evs|
        invariant Run(evs[i..], State()).Some?
        invariant Run(evs[i..], State()) == Run(evs, old(State()))
      {
        assert evs[i..][1..] == evs[i + 1..];
        if IsStmtEvent(evs[i]) { StmtAction(evs[i]); } else { ExprAction(evs[i]); }
        i := i + 1;
      }
    }

    // Parsing statements appends them to the innermost list and leaves all else as it was.
    method ParseStatements(body: seq<Stmt>)
      requires StmtsBuildable(body) && stack != []
      modifies this
      ensures stack == Front(old(stack)) + [Last(old(stack)) + BuiltStmts(body)]
      ensures exprStack == old(exprStack) && argCount == old(argCount) && fnArgs == old(fnArgs)
    {
      BuildStmts(body, State());
      Reduce(StmtsEvents(body));
    }
  }
}
