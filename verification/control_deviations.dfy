/** Statements and calls for which the interpreter does something else than the manual promises,
    one for each clause of module Safe that keeps such a program out. */
module Deviations {
  import opened Wrappers
  import opened Language
  import opened FlagMachine
  import opened Structured

  // A calm state inside a function and a loop or outside both, with the function f defined.
  function Begin(f: Func, loops: int, funcs: int): State {
    State(false, false, false, false, false, Void, loops, funcs, 0, None, 0, 1,
          Store([], map["f" := Function(f)]))
  }

  // A function without parameters that may return anything.
  function Untyped(body: Stmt): Func {
    Func([], [], Mixed, body)
  }

  const CALL := Call("f", [])
  const THROWER := Untyped(Throw(Const(Int(7))))

  // ---- return under two loops ----

  // Once the inner loop has cleared the break flag, a pending return does not stop the outer one.
  lemma {:induction false} PendingReturnSpins(s: State, body: Stmt, cookie: int, fuel: nat)
    requires s.ret && !s.brk && !s.exc && !s.exit
    ensures ExecLoop(s, While(Const(Bool(true)), body), cookie, fuel) == None
    decreases fuel
  {
    var st := While(Const(Bool(true)), body);
    assert Eval(s, st.test, fuel) == Some((s, Bool(true)));
    if fuel > 0 { PendingReturnSpins(s.(cont := false), body, cookie, fuel - 1); }
  }

  // while (true) while (true) return; never ends, though the return is reached at once.
  lemma ReturnUnderTwoLoopsDiverges(f: Func, cookie: int, fuel: nat)
    ensures var s := Begin(f, 0, 1);
            var t := Const(Bool(true));
            && Exec(s, While(t, While(t, Return(None))), cookie, fuel) == None
            && Perform(s.store, While(t, While(t, Return(None))), Context(false, true, false), fuel + 2)
               == Some((s.store, Returned(Void)))
  {
    var s := Begin(f, 0, 1);
    var t := Const(Bool(true));
    var inner := While(t, Return(None));
    var outer := While(t, inner);
    var c := Context(true, true, false);
    assert Perform(s.store, Return(None), c, fuel) == Some((s.store, Returned(Void)));
    assert Loop(s.store, inner, c, fuel + 1) == Some((s.store, Returned(Void)));
    assert Perform(s.store, inner, c, fuel + 1) == Some((s.store, Returned(Void)));
    assert Loop(s.store, outer, Context(false, true, false), fuel + 2) == Some((s.store, Returned(Void)));
    var s1 := s.(loops := 1);
    assert Exec(s, outer, cookie, fuel) == None by {
      if fuel > 0 {
        InnerReturn(s1, cookie, fuel - 1);
        assert Eval(s1, t, fuel) == Some((s1, Bool(true)));
        var r := Exec(s1, inner, cookie, fuel - 1);
        if r.Some? { PendingReturnSpins(r.value.(cont := false), inner, cookie, fuel - 1); }
      }
      assert ExecLoop(s1, outer, cookie, fuel) == None;
      assert ExecLoops(s, outer, cookie, fuel) == None;
    }
  }

  lemma InnerReturn(s: State, cookie: int, fuel: nat)
    requires !s.ret && !s.exc && !s.exit && s.loops == 1 && s.funcs == 1
    ensures var r := Exec(s, While(Const(Bool(true)), Return(None)), cookie, fuel);
            r.Some? ==> r.value.ret && !r.value.brk && !r.value.exc && !r.value.exit
  {
    var st := While(Const(Bool(true)), Return(None));
    var s1 := s.(loops := 2);
    var s2 := s1.(retval := Some(Void), retCookie := cookie, ret := true, cont := true, brk := true);
    assert Eval(s1, st.test, fuel) == Some((s1, Bool(true)));
    assert ExecReturn(s1, Return(None), cookie, fuel) == Some(s2);
    if fuel > 0 { assert Exec(s1, Return(None), cookie, fuel - 1) == Some(s2); }
    assert ExecLoop(s1, st, cookie, fuel) == if fuel == 0 then None else Some(s2.(cont := false));
    assert Exec(s, st, cookie, fuel) == ExecLoops(s, st, cookie, fuel);
  }

  // ---- a call in the test of a do loop ----

  // A call of a parameterless f that leaves its own table with nothing to write back.
  lemma CallSteps(s: State, f: Func, s1: State, fuel: nat)
    requires !s.exc && !s.exit && s.store.Lookup("f") == Some(Function(f)) && s.funcs >= 0 && fuel > 0
    requires f.params == [] && f.wants == [] && f.result == Mixed
    requires Exec(Entered(s, f), f.body, s.cookie + 1, fuel - 1) == Some(s1)
    ensures Eval(s, CALL, fuel) ==
            var (t, v) := EndFunc(s1, s.cookie + 1);
            Some((t.(store := t.store.Leave()), v))
  {
    hide Exec, BindParams;
    var s0 := s.(store := s.store.Enter());
    assert EvalArgs(s, [], fuel) == Some((s, []));
    assert RunFunc(s0, f, [], fuel) == Some(EndFunc(s1, s.cookie + 1));
    assert CallFunction(s0, f, [], fuel) == RunFunc(s0, f, [], fuel);
    assert EvalCall(s, CALL, fuel) == Eval(s, CALL, fuel);
  }

  // The state in which the body of f starts.
  function Entered(s: State, f: Func): State
    requires f.params == [] && f.wants == [] && f.result == Mixed
  {
    StartFunc(s.(store := s.store.Enter()), f, [])
  }

  lemma InvokeSteps(m: Store, f: Func, inTry: bool, m1: Store, o: Outcome, fuel: nat)
    requires m.Lookup("f") == Some(Function(f)) && fuel > 0
    requires f.params == [] && f.wants == [] && f.result == Mixed
    requires Perform(BindParams(m.Enter(), [], []), f.body, Context(false, true, inTry), fuel - 1) == Some((m1, o))
    ensures Compute(m, CALL, inTry, fuel) == Some((m1.Leave(), match o
                                                               case Returned(v) => Ok(v)
                                                               case Threw(v) => Thrown(v)
                                                               case Quit => Exited
                                                               case _ => Ok(Void)))
  {
    hide Perform, BindParams;
    assert ComputeAll(m, [], inTry, fuel) == Some((m, [], None));
    assert UpdateArgs(m1, [], []) == m1.Leave();
    assert Accept(f, []) == Some([]);
    assert Invoke(m.Enter(), f, [], inTry, fuel).Some?;
    assert InvokeTyped(m.Enter(), f, [], inTry, fuel) == Invoke(m.Enter(), f, [], inTry, fuel);
    assert ComputeCall(m, CALL, inTry, fuel) == Compute(m, CALL, inTry, fuel);
  }

  // One try section whose body has run.
  lemma TrySteps(s: State, st: Stmt, s1: State, cookie: int, fuel: nat)
    requires st.Try? && !s.ret && !s.exc && !s.exit && s.tries >= 0
    requires Exec(s.(tries := s.tries + 1), st.tried, cookie, fuel) == Some(s1)
    ensures Exec(s, st, cookie, fuel) ==
            if s1.exc then Exec(Catch(s1, st.name), st.handler, cookie, fuel)
            else Some(s1.(tries := s1.tries - 1))
  {
    assert Exec(s, st, cookie, fuel) == ExecTry(s, st, cookie, fuel);
    hide Exec;
  }

  lemma CatchSteps(m: Store, st: Stmt, c: Context, m1: Store, v: Value, fuel: nat)
    requires st.Try? && Perform(m, st.tried, c.(inTry := true), fuel) == Some((m1, Threw(v)))
    ensures Perform(m, st, c, fuel) == Perform(m1.Add(st.name, Var(v)), st.handler, c, fuel)
  {
    assert Perform(m, st, c, fuel) == PerformTry(m, st, c, fuel);
    hide Perform;
  }

  // ---- a throw in an operand of a division ----

  // try { f() / 1; } catch (e) {} quits the program: after the throw both operands read as zero.
  lemma ThrowInDivisionQuits(cookie: int)
    ensures var s := Begin(THROWER, 0, 0);
            var st := Try(ExprStmt(Infix(Div, CALL, Const(Int(1)))), "e", Nop);
            && Exec(s, st, cookie, 1).Some? && Exec(s, st, cookie, 1).value.exit
            && Perform(s.store, st, Context(false, false, false), 1)
               == Some((s.store.Add("e", Var(Int(7))), Normal))
  {
    var s := Begin(THROWER, 0, 0);
    var e := Infix(Div, CALL, Const(Int(1)));
    var st := Try(ExprStmt(e), "e", Nop);
    var s0 := s.(tries := 1);
    var s1 := Thrower(s0);
    assert EvalInfix(s0, e, 1) == Some((Fatal(s1), Int(0))) by { hide EvalCall; }
    assert Exec(s0, st.tried, cookie, 1) == Some(Fatal(s1)) by { hide EvalInfix; }
    TrySteps(s, st, Fatal(s1), cookie, 1);
    var c := Context(false, false, true);
    assert ComputeInfix(s.store, e, true, 1) == Some((s.store, Thrown(Int(7)))) by { hide ComputeCall; }
    assert Perform(s.store, st.tried, c, 1) == Some((s.store, Threw(Int(7)))) by { hide ComputeInfix; }
    CatchSteps(s.store, st, Context(false, false, false), s.store, Int(7), 1);
  }

  // What the machine holds after f has thrown under one open try.
  lemma Thrower(s: State) returns (t: State)
    requires !s.exc && !s.exit && !s.ret && s.store.Lookup("f") == Some(Function(THROWER)) && s.funcs >= 0 && s.tries > 0
    ensures Eval(s, CALL, 1) == Some((t, Void))
    ensures t == s.(exc := true, excVal := Int(7), ret := false, cont := false, brk := false, retval := t.retval, cookie := s.cookie + 1)
    ensures Compute(s.store, CALL, true, 1) == Some((s.store, Thrown(Int(7))))
  {
    var s0 := Entered(s, THROWER);
    var s1 := s0.(exc := true, excVal := Int(7));
    assert Eval(s0, Const(Int(7)), 0) == Some((s0, Int(7)));
    assert Exec(s0, THROWER.body, s.cookie + 1, 0) == Some(s1);
    CallSteps(s, THROWER, s1, 1);
    var c := Context(false, true, true);
    assert Compute(s0.store, Const(Int(7)), true, 0) == Some((s0.store, Ok(Int(7))));
    assert Perform(s0.store, THROWER.body, c, 0) == Some((s0.store, Threw(Int(7))));
    InvokeSteps(s.store, THROWER, true, s0.store, Threw(Int(7)), 1);
    assert s0.store.Leave().locals == s.store.locals;
    t := EndFunc(s1, s.cookie + 1).0.(store := s.store);
  }

  // ---- a throw in the expression of a return or of another throw ----

  // try { return f(); } catch (e) { h = 1; } skips its handler: the return is already pending.
  lemma ThrowInReturnSkipsHandler(cookie: int)
    ensures var s := Begin(THROWER, 0, 1);
            var st := Try(Return(Some(CALL)), "e", ExprStmt(Assign("h", Const(Int(1)))));
            && Exec(s, st, cookie, 1).Some?
            && Exec(s, st, cookie, 1).value.store == s.store.Add("e", Var(Int(7)))
            && Perform(s.store, st, Context(false, true, false), 1)
               == Some((s.store.Add("e", Var(Int(7))).Add("h", Var(Int(1))), Normal))
  {
    var s := Begin(THROWER, 0, 1);
    var handler := ExprStmt(Assign("h", Const(Int(1))));
    var st := Try(Return(Some(CALL)), "e", handler);
    var s0 := s.(tries := 1);
    var s1 := Thrower(s0);
    var s2 := s1.(retval := Some(Void), retCookie := cookie, ret := true, cont := true, brk := true);
    assert ExecReturn(s0, st.tried, cookie, 1) == Some(s2) by { hide EvalCall; }
    assert Exec(s0, st.tried, cookie, 1) == Some(s2) by { hide ExecReturn; }
    TrySteps(s, st, s2, cookie, 1);
    var m := s.store.Add("e", Var(Int(7)));
    var c := Context(false, true, false);
    assert PerformReturn(s.store, st.tried, c.(inTry := true), 1) == Some((s.store, Threw(Int(7))));
    assert Perform(s.store, st.tried, c.(inTry := true), 1) == Some((s.store, Threw(Int(7)))) by { hide PerformReturn; }
    CatchSteps(s.store, st, c, s.store, Int(7), 1);
    assert ComputeAssign(m, handler.e, false, 1) == Some((m.Add("h", Var(Int(1))), Ok(Int(1))));
    assert Perform(m, handler, c, 1) == Some((m.Add("h", Var(Int(1))), Normal)) by { hide ComputeAssign; }
  }

  // try { throw f(); } catch (e) {} catches void: the second throw overwrites the first value.
  lemma ThrowOfThrowLosesValue(cookie: int)
    ensures var s := Begin(THROWER, 0, 0);
            var st := Try(Throw(CALL), "e", Nop);
            && Exec(s, st, cookie, 1).Some?
            && Exec(s, st, cookie, 1).value.store == s.store.Add("e", Var(Void))
            && Perform(s.store, st, Context(false, false, false), 1)
               == Some((s.store.Add("e", Var(Int(7))), Normal))
  {
    var s := Begin(THROWER, 0, 0);
    var st := Try(Throw(CALL), "e", Nop);
    var s0 := s.(tries := 1);
    var s1 := Thrower(s0);
    assert Exec(s0, st.tried, cookie, 1) == Some(Raise(s1, Void)) by { hide EvalCall; }
    TrySteps(s, st, Raise(s1, Void), cookie, 1);
    var c := Context(false, false, false);
    assert Perform(s.store, st.tried, c.(inTry := true), 1) == Some((s.store, Threw(Int(7)))) by { hide ComputeCall; }
    CatchSteps(s.store, st, c, s.store, Int(7), 1);
  }

  // ---- break and continue that reach too far ----

  const ZERO := Return(Some(Const(Int(0))))

  // A function whose body is { <first> return 0; }, called while the given flag state holds.
  lemma CutShort(s: State, first: Stmt, s1: State)
    requires !s.exc && !s.exit && !s.ret && s.funcs >= 0
    requires var f := Untyped(Block([first, ZERO]));
             && s.store.Lookup("f") == Some(Function(f))
             && Exec(Entered(s, f), first, s.cookie + 1, 0) == Some(s1)
    requires s1.cont && !s1.ret && s1.retval == None
    ensures Eval(s, CALL, 1) == Some((EndFunc(s1, s.cookie + 1).0.(store := s1.store.Leave()), Void))
  {
    var f := Untyped(Block([first, ZERO]));
    var s0 := Entered(s, f);
    assert ExecSeq(s0, [first, ZERO], s.cookie + 1, 0) == Some(s1);
    assert ExecList(s0, [first, ZERO], s.cookie + 1, 0) == Some(s1);
    assert Exec(s0, f.body, s.cookie + 1, 0) == Some(s1);
    hide Exec;
    CallSteps(s, f, s1, 1);
  }

  // The same call as the manual has it: first does nothing, and the function returns 0.
  lemma RunsOn(m: Store, first: Stmt)
    requires m.Lookup("f") == Some(Function(Untyped(Block([first, ZERO])))) && (first.Nop? || first.Break?)
    ensures Compute(m, CALL, false, 1) == Some((m, Ok(Int(0))))
  {
    var f := Untyped(Block([first, ZERO]));
    var m0 := BindParams(m.Enter(), [], []);
    var c := Context(false, true, false);
    assert Perform(m0, first, c, 0) == Some((m0, Normal));
    assert PerformReturn(m0, ZERO, c, 0) == Some((m0, Returned(Int(0))));
    assert Perform(m0, ZERO, c, 0) == Some((m0, Returned(Int(0))));
    assert PerformAll(m0, [ZERO], c, 0) == Some((m0, Returned(Int(0))));
    assert [first, ZERO][1..] == [ZERO];
    assert PerformAll(m0, [first, ZERO], c, 0) == Some((m0, Returned(Int(0))));
    assert Perform(m0, f.body, c, 0) == Some((m0, Returned(Int(0))));
    hide Perform;
    InvokeSteps(m, f, false, m0, Returned(Int(0)), 1);
    assert m0.Leave().locals == m.locals;
  }

  // do continue; while (x = f()); runs its test with the continue flag up: f stops after its first
  // statement, and x becomes void instead of 0.
  lemma ContinueCutsTestShort(cookie: int)
    ensures var s := Begin(Untyped(Block([Nop, ZERO])), 0, 0);
            var st := Do(Continue, Assign("x", CALL));
            && Exec(s, st, cookie, 1).Some?
            && Exec(s, st, cookie, 1).value.store == s.store.Add("x", Var(Void))
            && Perform(s.store, st, Context(false, false, false), 1)
               == Some((s.store.Add("x", Var(Int(0))), Normal))
  {
    var f := Untyped(Block([Nop, ZERO]));
    var s := Begin(f, 0, 0);
    var st := Do(Continue, Assign("x", CALL));
    var s0 := s.(loops := 1);
    var s1 := s0.(cont := true);
    CutShort(s1, Nop, Entered(s1, f));
    assert Entered(s1, f).store.Leave().locals == s.store.locals;
    var t := Eval(s1, CALL, 1).value.0;
    assert t.store == s.store && !t.exc && !t.exit;
    var t1 := t.(store := s.store.Add("x", Var(Void)));
    assert EvalAssign(s1, st.test, 1) == Some((t1, Void)) by { hide EvalCall; }
    assert DoTest(s1, st, false, 1) == Some((t1, false)) by { hide EvalAssign; }
    assert Exec(s0, st.loop, cookie, 1) == Some(s1);
    assert ExecDo(s0, st, false, cookie, 1) == Some(t1.(cont := false)) by { hide Exec, DoTest; }
    assert Exec(s, st, cookie, 1) == ExecLoops(s, st, cookie, 1);
    assert Exec(s, st, cookie, 1).value.store == t1.store by { hide ExecDo; }
    RunsOn(s.store, Nop);
    var m := s.store.Add("x", Var(Int(0)));
    assert ComputeAssign(s.store, st.test, false, 1) == Some((m, Ok(Int(0)))) by { hide ComputeCall; }
    var c := Context(false, false, false);
    assert Perform(s.store, st.loop, c.(inLoop := true), 1) == Some((s.store, Continued));
    assert Repeat(s.store, st, c, 1) == Some((m, Normal)) by { hide ComputeAssign; }
  }

  // A break outside every loop of f has an effect when f is called from inside one.
  lemma BreakEndsCallee(s: State)
    requires s == Begin(Untyped(Block([Break, ZERO])), 1, 0)
    ensures Eval(s, CALL, 1).Some? && Eval(s, CALL, 1).value.1 == Void
    ensures Compute(s.store, CALL, false, 1) == Some((s.store, Ok(Int(0))))
  {
    var f := Untyped(Block([Break, ZERO]));
    CutShort(s, Break, Entered(s, f).(cont := true, brk := true));
    RunsOn(s.store, Break);
  }

  // In a loop, a break inside a group that falls through still runs the next group's first
  // statement.
  lemma BreakRunsNextGroup(s: State, cookie: int)
    requires s == Begin(THROWER, 1, 0)
    ensures var st := Switch(Const(Int(1)), [Case(Const(Int(1)), [Break], true),
                                             Case(Const(Int(2)), [FuncDef("g", THROWER)], false)]);
            && Exec(s, st, cookie, 0).Some?
            && Exec(s, st, cookie, 0).value.store == s.store.Add("g", Function(THROWER))
            && Perform(s.store, st, Context(true, false, false), 0) == Some((s.store, Broke))
  {
    var k1 := Case(Const(Int(1)), [Break], true);
    var k2 := Case(Const(Int(2)), [FuncDef("g", THROWER)], false);
    var st := Switch(Const(Int(1)), [k1, k2]);
    var s1 := s.(cont := true, brk := true);
    var s2 := s1.(store := s.store.Add("g", Function(THROWER)));
    var v := Int(1);
    assert ExecSeq(s1, k2.body, cookie, 0) == Some(s2) by {
      assert Exec(s1, k2.body[0], cookie, 0) == Some(s2);
    }
    assert ExecList(s1, k2.body, cookie, 0) == Some(s2);
    assert ExecGroup(s1, v, [k2], cookie, 0) == Some((s2, true));
    assert ExecCases(s1, v, [k2], true, cookie, 0) == Some((s2, true));
    assert ExecSeq(s, k1.body, cookie, 0) == Some(s1) by {
      assert Exec(s, k1.body[0], cookie, 0) == Some(s1);
    }
    assert ExecList(s, k1.body, cookie, 0) == Some(s1);
    assert [k1, k2][1..] == [k2];
    assert ExecGroup(s, v, [k1, k2], cookie, 0) == Some((s2, true));
    assert Eval(s, k1.guard, 0) == Some((s, v));
    assert ExecCases(s, v, [k1, k2], false, cookie, 0) == Some((s2, true));
    assert ExecSwitch(s, st, cookie, 0) == Exec(s, st, cookie, 0);
    var c := Context(true, false, false);
    assert PerformAll(s.store, k1.body, c, 0) == Some((s.store, Broke)) by {
      assert Perform(s.store, k1.body[0], c, 0) == Some((s.store, Broke));
    }
    assert PerformGroup(s.store, v, [k1, k2], c, 0) == Some((s.store, Broke, true));
    assert PerformCases(s.store, v, [k1, k2], false, c, 0) == Some((s.store, Broke, true));
    assert PerformSwitch(s.store, st, c, 0) == Perform(s.store, st, c, 0);
  }

  // ---- an index that does more than give a position ----

  // The same with an array g of arrays of integers.
  function BeginWith(f: Func, row: seq<Value>): State {
    var s := Begin(f, 0, 0);
    s.(store := s.store.Add("g", Var(Arr([Arr(row)]))))
  }

  // g[0][f()] = 1, and g[0] = 9.
  const DEEP := AssignElem("g", [Const(Int(0)), CALL], Const(Int(1)))
  const FLAT := AssignElem("g", [Const(Int(0))], Const(Int(9)))

  lemma AllSteps(m: Store, args: seq<Expr>, m1: Store, v: Value, inTry: bool, fuel: nat)
    requires args != [] && Compute(m, args[0], inTry, fuel) == Some((m1, Ok(v)))
    ensures ComputeAll(m, args, inTry, fuel) ==
            var q := ComputeAll(m1, args[1..], inTry, fuel);
            if q.None? then None else Some((q.value.0, [v] + q.value.1, q.value.2))
    ensures |args| == 1 ==> ComputeAll(m, args, inTry, fuel) == Some((m1, [v], None))
  {
    hide Compute;
    if |args| == 1 { assert args[1..] == [] && ComputeAll(m1, [], inTry, fuel) == Some((m1, [], None)) && [v] + [] == [v]; }
  }

  // The one element of g is overwritten.
  lemma PutSteps(s: State, v: Value)
    requires s.store.locals == [] && "g" in s.store.globals
    requires IsArray(s.store.globals["g"]) && |s.store.globals["g"].v.elems| == 1
    ensures Put(s, Global, "g", [], 0, v) == (s.(store := s.store.Add("g", Var(Arr([v])))), Arr([v]))
  {
    assert SetElem(s.store.globals["g"].v.elems, 0, v) == [v];
  }

  // g[g = 5] = 1; is an internal error: the array has gone when its index has been evaluated.
  lemma AssignInIndexQuits(fuel: nat)
    ensures var s := BeginWith(THROWER, []);
            var e := AssignElem("g", [Assign("g", Const(Int(5)))], Const(Int(1)));
            && Eval(s, e, fuel).Some? && Eval(s, e, fuel).value.0.exit
            && Compute(s.store, e, false, fuel)
               == Some((s.store.Add("g", Var(Arr([Void, Void, Void, Void, Void, Int(1)]))), Ok(Int(1))))
  {
    var s := BeginWith(THROWER, []);
    var index := Assign("g", Const(Int(5)));
    var e := AssignElem("g", [index], Const(Int(1)));
    var s1 := s.(store := s.store.Add("g", Var(Int(5))));
    assert s.store.HomeOf("g") == Global;
    assert EvalAssign(s, index, fuel) == Some((s1, Int(5)));
    assert Eval(s, index, fuel) == Some((s1, Int(5)));
    assert ArraySet(s, Global, "g", [], e.path, Int(1), fuel) == Some((Fatal(s1), Void));
    assert EvalAssignElem(s, e, fuel) == Some((Fatal(s1), Int(1))) by { hide ArraySet; }
    var m1 := s1.store;
    assert ComputeAssign(s.store, index, false, fuel) == Some((m1, Ok(Int(5))));
    AllSteps(s.store, [index], m1, Int(5), false, fuel);
    assert Positions([Int(5)]) == [5];
    assert SetPath([], [5], Int(1)) == [Void, Void, Void, Void, Void, Int(1)];
    assert Assigned(m1, "g", [5], Int(1)).globals == s.store.Add("g", Var(Arr([Void, Void, Void, Void, Void, Int(1)]))).globals;
    assert ComputeAssignElem(s.store, e, false, fuel) == Some((Assigned(m1, "g", [5], Int(1)), Ok(Int(1)))) by {
      hide ComputeAll, Assigned;
    }
  }

  // The first index of DEEP, and what follows it.
  lemma DeepSteps(s: State, row: seq<Value>, s2: State, v: Value, fuel: nat)
    requires !s.exc && !s.exit && s.store.locals == []
    requires "g" in s.store.globals && s.store.globals["g"] == Var(Arr([Arr(row)]))
    requires Eval(s, CALL, fuel) == Some((s2, v))
    ensures ArraySet(s, s.store.HomeOf("g"), "g", [], DEEP.path, Int(1), fuel) ==
            Some(Put(s2, Global, "g", [], 0, if s2.exc || s2.exit then Void else Arr(SetElem(row, ToInt(v), Int(1)))))
  {
    assert DEEP.path[1..] == [CALL] && [CALL][1..] == [];
    assert Eval(s, Const(Int(0)), fuel) == Some((s, Int(0)));
    hide Eval;
    assert ArraySet(s, Nowhere, "g", row, [CALL], Int(1), fuel) ==
           Some(if s2.exc || s2.exit then (s2, Void) else (s2, Arr(SetElem(row, ToInt(v), Int(1)))));
  }

  // try { g[0][f()] = 1; } catch (e) {} erases g[0]: what has been copied out is put back as void.
  lemma ThrowInIndexErases(row: seq<Value>, cookie: int)
    ensures var s := BeginWith(THROWER, row);
            var st := Try(ExprStmt(DEEP), "e", Nop);
            && Exec(s, st, cookie, 1).Some?
            && Exec(s, st, cookie, 1).value.store == s.store.Add("g", Var(Arr([Void]))).Add("e", Var(Int(7)))
            && Perform(s.store, st, Context(false, false, false), 1)
               == Some((s.store.Add("e", Var(Int(7))), Normal))
  {
    var s := BeginWith(THROWER, row);
    var st := Try(ExprStmt(DEEP), "e", Nop);
    var s0 := s.(tries := 1);
    var s1 := Thrower(s0);
    DeepSteps(s0, row, s1, Void, 1);
    var s2 := s1.(store := s.store.Add("g", Var(Arr([Void]))));
    PutSteps(s1, Void);
    assert Eval(s0, DEEP.inner, 1) == Some((s0, Int(1)));
    assert EvalAssignElem(s0, DEEP, 1) == Some((s2, Int(1))) by { hide Eval, ArraySet, Put; }
    assert Exec(s0, st.tried, cookie, 1) == Some(s2) by { hide EvalAssignElem; }
    TrySteps(s, st, s2, cookie, 1);
    var c := Context(false, false, true);
    assert Compute(s.store, Const(Int(0)), true, 1) == Some((s.store, Ok(Int(0))));
    assert Compute(s.store, DEEP.inner, true, 1) == Some((s.store, Ok(Int(1))));
    assert DEEP.path[1..] == [CALL];
    assert ComputeAll(s.store, [CALL], true, 1) == Some((s.store, [], Some(Thrown(Int(7))))) by { hide Compute; }
    assert ComputeAll(s.store, DEEP.path, true, 1).Some? by { hide Compute; }
    assert ComputeAssignElem(s.store, DEEP, true, 1) == Some((s.store, Thrown(Int(7)))) by { hide Compute; }
    assert Perform(s.store, st.tried, c, 1) == Some((s.store, Threw(Int(7)))) by { hide ComputeAssignElem; }
    CatchSteps(s.store, st, Context(false, false, false), s.store, Int(7), 1);
  }

  const SETTER := Untyped(Block([ExprStmt(FLAT), ZERO]))
  const SET := Arr([Int(9)])

  // A function that sets an element of a global array changes the array for its caller too,
  // which passes nothing.
  lemma SetterReaches(s: State, row: seq<Value>)
    requires s == BeginWith(SETTER, row)
    ensures Eval(s, CALL, 1).Some?
    ensures var (t, v) := Eval(s, CALL, 1).value;
            v == Int(0) && !t.exc && !t.exit && t.store == s.store.Add("g", Var(SET))
    ensures Compute(s.store, CALL, false, 1) == Some((s.store.Add("g", Var(SET)), Ok(Int(0))))
  {
    var s0 := Entered(s, SETTER);
    var m := s0.store;
    var m1 := m.Write(Global, "g", SET).Add("g", Var(SET));
    assert m.HomeOf("g") == Global;
    FlatSteps(s0, m1);
    var s1 := s0.(store := m1);
    var s2 := s1.(retval := Some(Int(0)), retCookie := s.cookie + 1, ret := true, cont := true, brk := true);
    assert Exec(s0, ExprStmt(FLAT), s.cookie + 1, 0) == Some(s1);
    assert ExecReturn(s1, ZERO, s.cookie + 1, 0) == Some(s2);
    assert Exec(s1, ZERO, s.cookie + 1, 0) == Some(s2);
    assert ExecSeq(s1, [ZERO], s.cookie + 1, 0) == Some(s2) by { hide Exec; }
    assert [ExprStmt(FLAT), ZERO][1..] == [ZERO];
    assert ExecSeq(s0, SETTER.body.body, s.cookie + 1, 0) == Some(s2) by { hide Exec; }
    assert Exec(s0, SETTER.body, s.cookie + 1, 0) == Some(s2) by { hide ExecSeq; }
    CallSteps(s, SETTER, s2, 1);
    var c := Context(false, true, false);
    assert Perform(m, ExprStmt(FLAT), c, 0) == Some((m1, Normal)) by { hide ComputeAssignElem; }
    assert PerformReturn(m1, ZERO, c, 0) == Some((m1, Returned(Int(0))));
    assert Perform(m1, ZERO, c, 0) == Some((m1, Returned(Int(0))));
    assert PerformAll(m1, [ZERO], c, 0) == Some((m1, Returned(Int(0)))) by { hide Perform; }
    assert PerformAll(m, SETTER.body.body, c, 0) == Some((m1, Returned(Int(0)))) by { hide Perform; }
    assert Perform(m, SETTER.body, c, 0) == Some((m1, Returned(Int(0)))) by { hide PerformAll; }
    InvokeSteps(s.store, SETTER, false, m1, Returned(Int(0)), 1);
    assert m1.Leave().locals == s.store.locals;
    assert m1.Leave() == s.store.Add("g", Var(SET));
  }

  lemma FlatSteps(s: State, m1: Store)
    requires !s.exc && !s.exit && s.store.HomeOf("g") == Global
    requires |s.store.ArrayIn(Global, "g").value| == 1
    requires m1 == s.store.Write(Global, "g", SET).Add("g", Var(SET))
    ensures EvalAssignElem(s, FLAT, 0) == Some((s.(store := m1), Int(9)))
    ensures ComputeAssignElem(s.store, FLAT, false, 0) == Some((m1, Ok(Int(9))))
  {
    var m := s.store;
    assert SetElem(m.ArrayIn(Global, "g").value, 0, Int(9)) == [Int(9)];
    assert Eval(s, FLAT.path[0], 0) == Some((s, Int(0)));
    assert Eval(s, FLAT.inner, 0) == Some((s, Int(9)));
    assert Put(s, Global, "g", [], 0, Int(9)) == (s.(store := m.Write(Global, "g", SET)), SET);
    assert ArraySet(s, Global, "g", [], FLAT.path, Int(9), 0) == Some((s.(store := m.Write(Global, "g", SET)), SET)) by {
      hide Eval, Put;
    }
    assert Compute(m, FLAT.path[0], false, 0) == Some((m, Ok(Int(0))));
    assert Compute(m, FLAT.inner, false, 0) == Some((m, Ok(Int(9))));
    AllSteps(m, FLAT.path, m, Int(0), false, 0);
    assert Positions([Int(0)]) == [0];
    assert Assigned(m, "g", [0], Int(9)) == m1;
  }

  // g[0][f()] = 1; undoes what f does to g[0]: the elements were copied out before the call.
  lemma IndexCallIsLost()
    ensures var s := BeginWith(SETTER, [Int(5), Int(6)]);
            && Eval(s, DEEP, 1).Some?
            && Eval(s, DEEP, 1).value.0.store == s.store.Add("g", Var(Arr([Arr([Int(1), Int(6)])])))
            && Compute(s.store, DEEP, false, 1)
               == Some((s.store.Add("g", Var(Arr([Arr([Int(1)])]))), Ok(Int(1))))
  {
    var row := [Int(5), Int(6)];
    var s := BeginWith(SETTER, row);
    SetterReaches(s, row);
    LostSteps(s, row);
    var m := s.store.Add("g", Var(SET));
    assert Compute(s.store, Const(Int(0)), false, 1) == Some((s.store, Ok(Int(0))));
    assert Compute(s.store, DEEP.inner, false, 1) == Some((s.store, Ok(Int(1))));
    assert DEEP.path[1..] == [CALL];
    AllSteps(s.store, [CALL], m, Int(0), false, 1);
    AllSteps(s.store, DEEP.path, s.store, Int(0), false, 1);
    assert [Int(0)] + [Int(0)] == [Int(0), Int(0)];
    LastWrite(m);
    var w := Var(Arr([Arr([Int(1)])]));
    assert m.Add("g", w).globals == s.store.Add("g", w).globals;
    assert Compute(s.store, DEEP, false, 1) == ComputeAssignElem(s.store, DEEP, false, 1);
    assert ComputeAssignElem(s.store, DEEP, false, 1)
        == Some((m.Add("g", w), Ok(Int(1)))) by { hide Compute, ComputeAll, Assigned; }
  }

  lemma LostSteps(s: State, row: seq<Value>)
    requires row == [Int(5), Int(6)] && s == BeginWith(SETTER, row)
    ensures Eval(s, DEEP, 1).Some?
    ensures Eval(s, DEEP, 1).value.0.store == s.store.Add("g", Var(Arr([Arr([Int(1), Int(6)])])))
  {
    hide Compute;
    SetterReaches(s, row);
    var t := Eval(s, CALL, 1).value.0;
    DeepSteps(s, row, t, Int(0), 1);
    assert SetElem(row, 0, Int(1)) == [Int(1), Int(6)];
    PutSteps(t, Arr([Int(1), Int(6)]));
    assert Eval(s, DEEP.inner, 1) == Some((s, Int(1)));
    assert Eval(s, DEEP, 1) == EvalAssignElem(s, DEEP, 1);
    var w := Arr([Arr([Int(1), Int(6)])]);
    var t1 := t.(store := t.store.Add("g", Var(w)));
    assert AssignDirect(s, "g", DEEP.path, Int(1), 1) == Some(t1.(store := t1.store.Add("g", Var(w)))) by {
      hide ArraySet, Put;
    }
    assert EvalAssignElem(s, DEEP, 1).value.0.store == t1.store.Add("g", Var(w)) by { hide AssignDirect, Eval; }
    assert t1.store.Add("g", Var(w)).globals == s.store.Add("g", Var(w)).globals;
  }

  lemma LastWrite(m: Store)
    requires m.locals == [] && "g" in m.globals && m.globals["g"] == Var(SET)
    ensures Assigned(m, "g", Positions([Int(0), Int(0)]), Int(1)) == m.Add("g", Var(Arr([Arr([Int(1)])])))
  {
    assert [Int(0), Int(0)][1..] == [Int(0)] && [Int(0)][1..] == [];
    assert Positions([Int(0), Int(0)]) == [0, 0];
    assert [0, 0][1..] == [0];
    assert ElemsOf(ElemAt([Int(9)], 0)) == [];
    assert SetPath([], [0], Int(1)) == [Int(1)];
    assert SetPath([Int(9)], [0, 0], Int(1)) == [Arr([Int(1)])];
  }
}
