/** The interpreter's own shape: one state object whose flags, counters and tables the
    evaluation methods update in place, with the loops of the source.  Every method is proved to
    take the state where the flag machine takes it, running out of fuel exactly when it does. */
module Interpreter {
  import opened Wrappers
  import opened Language
  import opened FlagMachine

  class Interp {
    var exitFlag: bool
    var returnFlag: bool
    var continueFlag: bool
    var breakFlag: bool
    var exceptFlag: bool
    var exceptValue: Value
    var loopFlag: int
    var funcFlag: int
    var tryFlag: int
    var retval: Option<Value>
    var retvalCookie: int
    var globalCookie: int
    var store: Store

    ghost function Now(): State
      reads this
    {
      State(exitFlag, returnFlag, continueFlag, breakFlag, exceptFlag, exceptValue, loopFlag, funcFlag, tryFlag,
            retval, retvalCookie, globalCookie, store)
    }

    constructor (globals: Table)
      ensures Now() == State(false, false, false, false, false, Void, 0, 0, 0, None, 0, 0, Store([], globals))
    {
      exitFlag, returnFlag, continueFlag, breakFlag, exceptFlag := false, false, false, false, false;
      exceptValue := Void;
      loopFlag, funcFlag, tryFlag := 0, 0, 0;
      retval, retvalCookie, globalCookie := None, 0, 0;
      store := Store([], globals);
    }

    method EvalExpr(e: Expr, fuel: nat) returns (done: bool, v: Value)
      modifies this
      ensures done == Eval(old(Now()), e, fuel).Some?
      ensures done ==> Eval(old(Now()), e, fuel) == Some((Now(), v))
      decreases fuel, 1, e, 1
    {
      done, v := true, Void;
      if exceptFlag || exitFlag { return; }
      hide EvalInfix, EvalAnd, EvalOr, EvalCond, EvalCall, EvalAssignElem, EvalElem;
      match e
      case Const(c) => v := c;
      case Ref(name) => v := RefValue(store.Lookup(name));
      case Assign(name, inner) =>
        done, v := EvalExpr(inner, fuel);
        if done && !exceptFlag && !exitFlag { store := store.Add(name, EntryOf(v)); }
      case AssignElem(_, _, _) => done, v := EvalAssignArray(e, fuel);
      case Elem(_, _) => done, v := EvalRefArray(e, fuel);
      case Not(inner) =>
        done, v := EvalExpr(inner, fuel);
        v := Bool(!ToBool(v));
      case Infix(_, _, _) => done, v := EvalInfixExpr(e, fuel);
      case BoolAnd(_, _) => done, v := EvalBoolExpr(e, fuel);
      case BoolOr(_, _) => done, v := EvalBoolExpr(e, fuel);
      case Cond(_, _, _) => done, v := EvalCondExpr(e, fuel);
      case Call(_, _) => done, v := EvalCallExpr(e, fuel);
      case PassRef(inner) => done, v := EvalExpr(inner, fuel);
      case Lambda(f) =>
        store := store.Enter();
        if !returnFlag { store := store.Add(LAMBDA, Function(f)); }
        match store.Lookup(LAMBDA) {
          case Some(Function(g)) =>
            v := Fn(g);
            store := store.Leave();
          case _ => exitFlag := true;
        }
    }

    method EvalAssignArray(e: Expr, fuel: nat) returns (done: bool, v: Value)
      requires e.AssignElem?
      modifies this
      ensures done == EvalAssignElem(old(Now()), e, fuel).Some?
      ensures done ==> EvalAssignElem(old(Now()), e, fuel) == Some((Now(), v))
      decreases fuel, 1, e, 0
    {
      hide Eval, AssignDirect;
      if e.path == [] {
        exitFlag := true;
        return true, Void;
      }
      done, v := EvalExpr(e.inner, fuel);
      if !done { return false, Void; }
      if !exceptFlag && !exitFlag { done := AssignArrayDirect(e.name, e.path, v, fuel); }
    }

    // The array is changed where it is found, or a new one is filled; in the end the innermost
    // table has it under its name.
    method AssignArrayDirect(name: string, path: seq<Expr>, v: Value, fuel: nat) returns (done: bool)
      requires path != []
      modifies this
      ensures done == AssignDirect(old(Now()), name, path, v, fuel).Some?
      ensures done ==> AssignDirect(old(Now()), name, path, v, fuel) == Some(Now())
      decreases fuel, 1, path, 1
    {
      hide ArraySet;
      var w;
      done, w := SetInArray(store.HomeOf(name), name, [], path, v, fuel);
      if !done { return false; }
      if !exceptFlag && !exitFlag { store := store.Add(name, Var(w)); }
    }

    method SetInArray(h: Home, name: string, elems: seq<Value>, path: seq<Expr>, v: Value, fuel: nat)
      returns (done: bool, w: Value)
      requires path != []
      modifies this
      ensures done == ArraySet(old(Now()), h, name, elems, path, v, fuel).Some?
      ensures done ==> ArraySet(old(Now()), h, name, elems, path, v, fuel) == Some((Now(), w))
      decreases fuel, 1, path, 0
    {
      hide Eval, Put;
      var pos;
      done, pos := EvalExpr(path[0], fuel);
      if !done { return false, Void; }
      if exceptFlag || exitFlag { return true, Void; }
      var elem := v;
      if |path| > 1 {
        var es := Grab(store, h, name, elems);
        if es.None? {
          exitFlag := true;
          return true, Void;
        }
        done, elem := SetInArray(Nowhere, name, ElemsOf(ElemAt(es.value, ToInt(pos))), path[1..], v, fuel);
        if !done { return false, Void; }
      }
      w := SetArray(h, name, elems, ToInt(pos), elem);
    }

    method SetArray(h: Home, name: string, elems: seq<Value>, pos: int, v: Value) returns (w: Value)
      modifies this`store, this`exitFlag
      ensures (Now(), w) == Put(old(Now()), h, name, elems, pos, v)
    {
      var es := Grab(store, h, name, elems);
      if es.None? {
        exitFlag := true;
        return Void;
      }
      w := Arr(SetElem(es.value, pos, v));
      if !h.Nowhere? { store := store.Write(h, name, w); }
    }

    method EvalRefArray(e: Expr, fuel: nat) returns (done: bool, v: Value)
      requires e.Elem?
      modifies this
      ensures done == EvalElem(old(Now()), e, fuel).Some?
      ensures done ==> EvalElem(old(Now()), e, fuel) == Some((Now(), v))
      decreases fuel, 1, e, 0
    {
      hide Eval, ArrayGet;
      if e.path == [] {
        exitFlag := true;
        return true, Void;
      }
      var h := store.HomeOf(e.name);
      if h.Nowhere? { return true, Void; }
      var pos;
      done, pos := EvalExpr(e.path[0], fuel);
      if !done { return false, Void; }
      var es := store.ArrayIn(h, e.name);
      if es.None? {
        exitFlag := true;
        return true, Void;
      }
      done, v := GetFromArray(ElemAt(es.value, ToInt(pos)), e.path[1..], fuel);
    }

    method GetFromArray(arr: Value, path: seq<Expr>, fuel: nat) returns (done: bool, v: Value)
      modifies this
      ensures done == ArrayGet(old(Now()), arr, path, fuel).Some?
      ensures done ==> ArrayGet(old(Now()), arr, path, fuel) == Some((Now(), v))
      decreases fuel, 1, path, 0
    {
      hide Eval;
      if path == [] { return true, arr; }
      if !arr.Arr? { return true, Void; }
      var pos;
      done, pos := EvalExpr(path[0], fuel);
      if !done { return false, Void; }
      done, v := GetFromArray(ElemAt(arr.elems, ToInt(pos)), path[1..], fuel);
    }

    method EvalInfixExpr(e: Expr, fuel: nat) returns (done: bool, v: Value)
      requires e.Infix?
      modifies this
      ensures done == EvalInfix(old(Now()), e, fuel).Some?
      ensures done ==> EvalInfix(old(Now()), e, fuel) == Some((Now(), v))
      decreases fuel, 1, e, 0
    {
      hide Eval;
      var a, b;
      done, a := EvalExpr(e.left, fuel);
      if !done { return false, Void; }
      done, b := EvalExpr(e.right, fuel);
      if !done { return false, Void; }
      match Apply(e.op, a, b) {
        case Some(w) => v := w;
        case None =>
          exitFlag := true;
          v := Int(0);
      }
    }

    // Both short-circuit operators; they differ in the first operand that settles the result.
    method EvalBoolExpr(e: Expr, fuel: nat) returns (done: bool, v: Value)
      requires e.BoolAnd? || e.BoolOr?
      modifies this
      ensures e.BoolAnd? ==> done == EvalAnd(old(Now()), e, fuel).Some?
      ensures e.BoolOr? ==> done == EvalOr(old(Now()), e, fuel).Some?
      ensures done && e.BoolAnd? ==> EvalAnd(old(Now()), e, fuel) == Some((Now(), v))
      ensures done && e.BoolOr? ==> EvalOr(old(Now()), e, fuel) == Some((Now(), v))
      decreases fuel, 1, e, 0
    {
      hide Eval;
      done, v := EvalExpr(e.left, fuel);
      if !done { return false, Void; }
      if ToBool(v) == e.BoolOr? { return true, Bool(e.BoolOr?); }
      done, v := EvalExpr(e.right, fuel);
      v := Bool(ToBool(v));
    }

    method EvalCondExpr(e: Expr, fuel: nat) returns (done: bool, v: Value)
      requires e.Cond?
      modifies this
      ensures done == EvalCond(old(Now()), e, fuel).Some?
      ensures done ==> EvalCond(old(Now()), e, fuel) == Some((Now(), v))
      decreases fuel, 1, e, 0
    {
      hide Eval;
      done, v := EvalExpr(e.test, fuel);
      if !done { return false, Void; }
      done, v := EvalExpr(if ToBool(v) then e.thn else e.els, fuel);
    }

    method EvalCallExpr(e: Expr, fuel: nat) returns (done: bool, v: Value)
      requires e.Call?
      modifies this
      ensures done == EvalCall(old(Now()), e, fuel).Some?
      ensures done ==> EvalCall(old(Now()), e, fuel) == Some((Now(), v))
      decreases fuel, 1, e, 0
    {
      hide EvalArgs, CallFunction;
      done, v := true, Void;
      match Callee(store.Lookup(e.name)) {
        case None => exitFlag := true;
        case Some(f) =>
          var vals;
          done, vals := EvalCallArgs(e.args, fuel);
          if !done { return false, Void; }
          store := store.Enter();
          done, v := Dispatch(f, vals, fuel);
          if !done { return false, Void; }
          UpdateCallArgs(f.params, e.args);
      }
    }

    // Every argument is evaluated in order, whatever happened to the ones before it.
    method EvalCallArgs(args: seq<Expr>, fuel: nat) returns (done: bool, vals: seq<Value>)
      modifies this
      ensures done == EvalArgs(old(Now()), args, fuel).Some?
      ensures done ==> EvalArgs(old(Now()), args, fuel) == Some((Now(), vals))
      decreases fuel, 1, args, 0
    {
      hide Eval;
      ghost var s0 := Now();
      vals := [];
      var i := 0;
      assert args[0..] == args;
      PrependNothing(EvalArgs(s0, args, fuel));
      while i < |args|
        invariant 0 <= i <= |args|
        invariant EvalArgs(s0, args, fuel) == Prepend(vals, EvalArgs(Now(), args[i..], fuel))
      {
        var v;
        done, v := EvalExpr(args[i], fuel);
        assert args[i..][0] == args[i] && args[i..][1..] == args[i + 1..];
        if !done { return false, vals; }
        PrependMore(vals, v, EvalArgs(Now(), args[i + 1..], fuel));
        vals := vals + [v];
        i := i + 1;
      }
      assert vals + [] == vals;
      done := true;
    }

    method Dispatch(f: Func, vals: seq<Value>, fuel: nat) returns (done: bool, v: Value)
      modifies this
      ensures done == CallFunction(old(Now()), f, vals, fuel).Some?
      ensures done ==> CallFunction(old(Now()), f, vals, fuel) == Some((Now(), v))
      decreases fuel, 0, 1
    {
      hide RunFunc;
      done, v := true, Void;
      var args := vals;
      if !exceptFlag && !exitFlag { args := CheckArgs(f, vals); }
      if !exceptFlag && !exitFlag {
        done, v := RunUserFunc(f, args, fuel);
        if !done { return false, Void; }
        if !exceptFlag && !exitFlag {
          match Fit(v, f.result) {
            case Some(w) => v := w;
            case None => exitFlag := true;
          }
        }
      }
    }

    // Hold the arguments against the declared types, casting where that is forced.
    method CheckArgs(f: Func, vals: seq<Value>) returns (args: seq<Value>)
      modifies this`exitFlag
      ensures exitFlag == (old(exitFlag) || Accept(f, vals).None?)
      ensures Accept(f, vals).Some? ==> args == Accept(f, vals).value
    {
      args := vals;
      if |vals| < |f.params| {
        exitFlag := true;
        return;
      }
      var i := 0;
      assert vals[0..] == vals && f.wants[0..] == f.wants;
      PrependNoValues(FitAll(vals, f.wants));
      while i < |f.wants| && i < |vals|
        invariant 0 <= i <= |vals| == |args| && i <= |f.wants|
        invariant exitFlag == old(exitFlag)
        invariant args[i..] == vals[i..]
        invariant FitAll(vals, f.wants) == PrependValues(args[..i], FitAll(vals[i..], f.wants[i..]))
      {
        assert vals[i..][0] == vals[i] && vals[i..][1..] == vals[i + 1..];
        assert f.wants[i..][0] == f.wants[i] && f.wants[i..][1..] == f.wants[i + 1..];
        assert args[i] == vals[i] by { assert args[i..][0] == vals[i..][0]; }
        match Fit(args[i], f.wants[i]) {
          case Some(v) =>
            PrependMoreValues(args[..i], v, FitAll(vals[i + 1..], f.wants[i + 1..]));
            args := args[i := v];
            assert args[..i + 1] == args[..i] + [v];
            assert args[i + 1..] == vals[i..][1..];
          case None =>
            exitFlag := true;
            return;
        }
        i := i + 1;
      }
      assert args[..i] + args[i..] == args;
    }

    method RunUserFunc(f: Func, vals: seq<Value>, fuel: nat) returns (done: bool, v: Value)
      requires |f.params| <= |vals|
      modifies this
      ensures done == RunFunc(old(Now()), f, vals, fuel).Some?
      ensures done ==> RunFunc(old(Now()), f, vals, fuel) == Some((Now(), v))
      decreases fuel, 0, 0
    {
      hide Exec, BindParams;
      done, v := true, Void;
      ghost var s0 := Now();
      funcFlag := funcFlag + 1;
      if funcFlag < 1 {
        exitFlag := true;
        return;
      }
      if fuel == 0 { return false, Void; }
      AddParams(f.params, vals);
      retval := None;
      globalCookie := globalCookie + 1;
      var cookie := globalCookie;
      assert Now() == StartFunc(s0, f, vals);
      done := EvalStmt(f.body, cookie, fuel - 1);
      if !done { return false, Void; }
      v := FinishFunc(cookie);
    }

    // The call's flags go down, and its return value counts only if it stored one itself.
    method FinishFunc(cookie: int) returns (v: Value)
      modifies this
      ensures (Now(), v) == EndFunc(old(Now()), cookie)
    {
      returnFlag, continueFlag, breakFlag := false, false, false;
      if retvalCookie != cookie || retval.None? { retval := Some(Void); }
      funcFlag := funcFlag - 1;
      v := retval.value;
    }

    // The bindings of a call, in the callee's own table.
    method AddParams(params: seq<string>, vals: seq<Value>)
      requires |params| <= |vals|
      modifies this`store
      ensures store == BindParams(old(store), params, vals)
    {
      ghost var m := store;
      store := store.Add("argc", Var(Int(|vals|)));
      store := store.Add("argv", Var(Arr(vals)));
      var i := 0;
      assert params[0..] == params && vals[0..] == vals;
      while i < |params|
        invariant 0 <= i <= |params|
        invariant BindFrom(store, params[i..], vals[i..]) == BindParams(m, params, vals)
      {
        store := store.Add(params[i], Var(vals[i]));
        assert params[i..][1..] == params[i + 1..] && vals[i..][1..] == vals[i + 1..];
        i := i + 1;
      }
    }

    // Pop the callee's table and copy the parameters of & arguments out of it.
    method UpdateCallArgs(params: seq<string>, args: seq<Expr>)
      modifies this`store
      ensures store == UpdateArgs(old(store), params, args)
    {
      if store.locals == [] { return; }
      var frame := store.Top();
      store := store.Leave();
      ghost var start := store;
      var i := 0;
      while i < |args| && i < |params|
        invariant 0 <= i <= |args| && i <= |params|
        invariant WriteBack(store, frame, params[i..], args[i..]) == WriteBack(start, frame, params, args)
      {
        assert params[i..][1..] == params[i + 1..] && args[i..][1..] == args[i + 1..];
        match RefTarget(args[i]) {
          case Some(name) => if params[i] in frame { store := store.Add(name, frame[params[i]]); }
          case None =>
        }
        i := i + 1;
      }
    }

    method EvalStmt(st: Stmt, cookie: int, fuel: nat) returns (done: bool)
      modifies this
      ensures done == Exec(old(Now()), st, cookie, fuel).Some?
      ensures done ==> Exec(old(Now()), st, cookie, fuel) == Some(Now())
      decreases fuel, 2, st, 3
    {
      done := true;
      if returnFlag || exceptFlag || exitFlag { return; }
      hide Eval, ExecList, ExecIf, ExecLoops, ExecReturn, ExecSwitch, ExecTry;
      var v;
      match st
      case Nop =>
      case Block(body) => done := EvalStmtList(body, cookie, fuel);
      case If(_, _) => done := EvalIf(st, cookie, fuel);
      case IfElse(_, _, _) => done := EvalIf(st, cookie, fuel);
      case While(_, _) => done := EvalLoop(st, cookie, fuel);
      case Do(_, _) => done := EvalLoop(st, cookie, fuel);
      case For(_, _, _, _) => done := EvalLoop(st, cookie, fuel);
      case Continue => if loopFlag != 0 { continueFlag := true; }
      case Break => if loopFlag != 0 { continueFlag, breakFlag := true, true; }
      case Return(_) => done := EvalReturn(st, cookie, fuel);
      case ExprStmt(e) => done, v := EvalExpr(e, fuel);
      case FuncDef(name, f) => store := store.Add(name, Function(f));
      case Switch(_, _) => done := EvalSwitch(st, cookie, fuel);
      case Try(_, _, _) => done := EvalTry(st, cookie, fuel);
      case Throw(e) =>
        done, v := EvalExpr(e, fuel);
        if done { ExceptThrow(v); }
    }

    method EvalIf(st: Stmt, cookie: int, fuel: nat) returns (done: bool)
      requires st.If? || st.IfElse?
      modifies this
      ensures done == ExecIf(old(Now()), st, cookie, fuel).Some?
      ensures done ==> ExecIf(old(Now()), st, cookie, fuel) == Some(Now())
      decreases fuel, 2, st, 2
    {
      hide Eval, Exec;
      var v;
      done, v := EvalExpr(st.test, fuel);
      if !done { return false; }
      if ToBool(v) {
        done := EvalStmt(st.thn, cookie, fuel);
      } else if st.IfElse? {
        done := EvalStmt(st.els, cookie, fuel);
      }
    }

    method EvalReturn(st: Stmt, cookie: int, fuel: nat) returns (done: bool)
      requires st.Return?
      modifies this
      ensures done == ExecReturn(old(Now()), st, cookie, fuel).Some?
      ensures done ==> ExecReturn(old(Now()), st, cookie, fuel) == Some(Now())
      decreases fuel, 2, st, 2
    {
      hide Eval;
      done := true;
      if funcFlag != 0 {
        var v := Void;
        if st.result.Some? { done, v := EvalExpr(st.result.value, fuel); }
        if !done { return false; }
        retval := Some(v);
        retvalCookie := cookie;
        returnFlag, continueFlag, breakFlag := true, true, true;
      }
    }

    method EvalTry(st: Stmt, cookie: int, fuel: nat) returns (done: bool)
      requires st.Try?
      modifies this
      ensures done == ExecTry(old(Now()), st, cookie, fuel).Some?
      ensures done ==> ExecTry(old(Now()), st, cookie, fuel) == Some(Now())
      decreases fuel, 2, st, 2
    {
      hide Exec;
      done := true;
      var open := ExceptTry();
      if open {
        done := EvalStmt(st.tried, cookie, fuel);
        if !done { return false; }
        var caught := ExceptCatch();
        if caught.Some? {
          store := store.Add(st.name, Var(caught.value));
          done := EvalStmt(st.handler, cookie, fuel);
        }
      }
    }

    // A throw with no open try ends the program instead of raising the flag.
    method ExceptThrow(v: Value)
      modifies this
      ensures Now() == Raise(old(Now()), v)
    {
      exceptValue := v;
      if tryFlag == 0 {
        exitFlag := true;
        exceptValue := Void;
        return;
      }
      exceptFlag := true;
    }

    method ExceptTry() returns (open: bool)
      modifies this`tryFlag, this`exitFlag
      ensures tryFlag == old(tryFlag) + 1
      ensures open == (old(tryFlag) >= 0)
      ensures exitFlag == (old(exitFlag) || !open)
    {
      open := true;
      tryFlag := tryFlag + 1;
      if tryFlag < 1 {
        exitFlag := true;
        open := false;
      }
    }

    // The pending exception, if any; the try section is closed either way.
    method ExceptCatch() returns (caught: Option<Value>)
      modifies this`tryFlag, this`exceptFlag
      ensures tryFlag == old(tryFlag) - 1 && !exceptFlag
      ensures caught == if old(exceptFlag) then Some(exceptValue) else None
    {
      caught := None;
      tryFlag := tryFlag - 1;
      if exceptFlag {
        caught := Some(exceptValue);
        exceptFlag := false;
      }
    }

    method EvalStmtList(body: seq<Stmt>, cookie: int, fuel: nat) returns (done: bool)
      modifies this
      ensures done == ExecList(old(Now()), body, cookie, fuel).Some?
      ensures done ==> ExecList(old(Now()), body, cookie, fuel) == Some(Now())
      decreases fuel, 2, body, 1
    {
      hide Exec;
      done := true;
      if returnFlag || exitFlag { return; }
      ghost var s0 := Now();
      var i := 0;
      while i < |body|
        invariant 0 <= i <= |body|
        invariant ExecSeq(s0, body, cookie, fuel) == ExecSeq(Now(), body[i..], cookie, fuel)
      {
        assert body[i..][0] == body[i] && body[i..][1..] == body[i + 1..];
        done := EvalStmt(body[i], cookie, fuel);
        if !done { return false; }
        if continueFlag || returnFlag || exceptFlag || exitFlag {
          assert ExecSeq(s0, body, cookie, fuel) == Some(Now());
          return true;
        }
        i := i + 1;
      }
      done := true;
    }

    // The three loop statements.  The rounds of while and for share one loop here.
    method EvalLoop(st: Stmt, cookie: int, fuel: nat) returns (done: bool)
      requires st.While? || st.For? || st.Do?
      modifies this
      ensures done == ExecLoops(old(Now()), st, cookie, fuel).Some?
      ensures done ==> ExecLoops(old(Now()), st, cookie, fuel) == Some(Now())
      decreases fuel, 2, st, 2
    {
      hide Eval, ExecLoop, ExecDo;
      done := true;
      loopFlag := loopFlag + 1;
      if loopFlag < 1 {
        exitFlag := true;
        return;
      }
      if st.Do? {
        done := DoRounds(st, cookie, fuel);
      } else {
        if st.For? {
          var v;
          done, v := EvalExpr(st.init, fuel);
          if !done { return false; }
        }
        done := WhileRounds(st, cookie, fuel);
      }
      if !done { return false; }
      breakFlag := false;
      loopFlag := loopFlag - 1;
    }

    method WhileRounds(st: Stmt, cookie: int, fuel: nat) returns (done: bool)
      requires st.While? || st.For?
      modifies this
      ensures done == ExecLoop(old(Now()), st, cookie, fuel).Some?
      ensures done ==> ExecLoop(old(Now()), st, cookie, fuel) == Some(Now())
      decreases fuel, 2, st, 1
    {
      hide Eval, Exec, ExecLoop;
      ghost var s0 := Now();
      var left: nat := fuel;
      var v;
      done, v := EvalExpr(st.test, left);
      LoopEnds(s0, st, cookie, left);
      if !done { return false; }
      ghost var before := s0;
      while ToBool(v)
        invariant left <= fuel
        invariant Eval(before, st.test, left) == Some((Now(), v))
        invariant ExecLoop(s0, st, cookie, fuel) == ExecLoop(before, st, cookie, left)
        decreases left, if ToBool(v) then Rank(Now()) + 1 else 0
      {
        ghost var (s1, was) := (Now(), left);
        if !exceptFlag && !exitFlag {
          if left == 0 {
            LoopEnds(before, st, cookie, left);
            return false;
          }
          left := left - 1;
        }
        done := EvalStmt(st.loop, cookie, left);
        LoopRound(before, s1, v, st, cookie, was, left);
        if !done { return false; }
        continueFlag := false;
        if breakFlag { return true; }
        if st.For? {
          done, v := EvalExpr(st.guard, left);
          if !done { return false; }
        }
        before := Now();
        done, v := EvalExpr(st.test, left);
        LoopEnds(before, st, cookie, left);
        if !done { return false; }
      }
      LoopEnds(before, st, cookie, left);
    }

    method DoRounds(st: Stmt, cookie: int, fuel: nat) returns (done: bool)
      requires st.Do?
      modifies this
      ensures done == ExecDo(old(Now()), st, false, cookie, fuel).Some?
      ensures done ==> ExecDo(old(Now()), st, false, cookie, fuel) == Some(Now())
      decreases fuel, 2, st, 1
    {
      hide Exec, DoTest;
      ghost var s0 := Now();
      var left: nat := fuel;
      var again := false;
      while true
        invariant left <= fuel
        invariant ExecDo(s0, st, false, cookie, fuel) == ExecDo(Now(), st, again, cookie, left)
        decreases left, Rank(Now())
      {
        ghost var before := Now();
        done := EvalStmt(st.loop, cookie, left);
        if !done { return false; }
        done, again := TestAgain(st, again, left);
        if !done { return false; }
        continueFlag := false;
        if !again || breakFlag { return true; }
        if !exceptFlag && !exitFlag {
          if left == 0 { return false; }
          left := left - 1;
        }
      }
    }

    method TestAgain(st: Stmt, last: bool, fuel: nat) returns (done: bool, again: bool)
      requires st.Do?
      modifies this
      ensures done == DoTest(old(Now()), st, last, fuel).Some?
      ensures done ==> DoTest(old(Now()), st, last, fuel) == Some((Now(), again))
      decreases fuel, 2, st, 0
    {
      hide Eval;
      done, again := true, last;
      if !breakFlag {
        var v;
        done, v := EvalExpr(st.test, fuel);
        again := ToBool(v);
      }
    }

    method EvalSwitch(st: Stmt, cookie: int, fuel: nat) returns (done: bool)
      requires st.Switch?
      modifies this
      ensures done == ExecSwitch(old(Now()), st, cookie, fuel).Some?
      ensures done ==> ExecSwitch(old(Now()), st, cookie, fuel) == Some(Now())
      decreases fuel, 2, st, 2
    {
      hide Eval, ExecList;
      var v;
      done, v := EvalExpr(st.e, fuel);
      if !done { return false; }
      ghost var s1 := Now();
      var i, go, handled, def := 0, false, false, None;
      ghost var result := ExecCases(s1, v, st.cases, false, cookie, fuel);
      while i < |st.cases|
        invariant 0 <= i <= |st.cases|
        invariant go == handled
        invariant def == LastDefault(st.cases[..i])
        invariant result == ExecCases(Now(), v, st.cases[i..], go, cookie, fuel)
      {
        var k := st.cases[i];
        assert st.cases[i..][0] == k && st.cases[i..][1..] == st.cases[i + 1..];
        assert st.cases[..i + 1][..i] == st.cases[..i];
        if k.Default? { def := Some(k.body); }
        i := i + 1;
        if !go && k.Default? { continue; }
        if !go {
          var g;
          done, g := EvalExpr(k.guard, fuel);
          if !done { return false; }
          go := SameValue(v, g);
        }
        if go {
          handled := true;
          done := EvalStmtList(k.body, cookie, fuel);
          if !done { return false; }
          if k.Default? || !k.thru { return true; }
        }
      }
      assert st.cases[..i] == st.cases;
      if !handled && def.Some? { done := EvalStmtList(def.value, cookie, fuel); }
    }
  }

  // Where a loop ends with its test.
  lemma LoopEnds(s: State, st: Stmt, cookie: int, fuel: nat)
    requires st.While? || st.For?
    ensures Eval(s, st.test, fuel).None? ==> ExecLoop(s, st, cookie, fuel) == None
    ensures Eval(s, st.test, fuel).Some? ==>
              var (s1, v) := Eval(s, st.test, fuel).value;
              && (!ToBool(v) ==> ExecLoop(s, st, cookie, fuel) == Some(s1))
              && (ToBool(v) && FuelAfter(s1, fuel).None? ==> ExecLoop(s, st, cookie, fuel) == None)
  {
    hide Eval, Exec;
  }

  // One round, up to the next test.
  lemma LoopRound(s: State, s1: State, v: Value, st: Stmt, cookie: int, fuel: nat, left: nat)
    requires st.While? || st.For?
    requires Eval(s, st.test, fuel) == Some((s1, v)) && ToBool(v) && FuelAfter(s1, fuel) == Some(left)
    ensures var r := Exec(s1, st.loop, cookie, left);
            ExecLoop(s, st, cookie, fuel) ==
            if r.None? then None
            else
              var s3 := r.value.(cont := false);
              if s3.brk then Some(s3)
              else if st.While? then ExecLoop(s3, st, cookie, left)
              else
                var g := Eval(s3, st.guard, left);
                if g.None? then None else ExecLoop(g.value.0, st, cookie, left)
  {
    hide Eval, Exec;
  }

  ghost function Prepend(vals: seq<Value>, r: Option<(State, seq<Value>)>): Option<(State, seq<Value>)> {
    if r.None? then None else Some((r.value.0, vals + r.value.1))
  }

  ghost function PrependValues(vals: seq<Value>, r: Option<seq<Value>>): Option<seq<Value>> {
    if r.None? then None else Some(vals + r.value)
  }

  lemma PrependNoValues(r: Option<seq<Value>>)
    ensures PrependValues([], r) == r
  {
    if r.Some? { assert [] + r.value == r.value; }
  }

  lemma PrependMoreValues(vals: seq<Value>, v: Value, r: Option<seq<Value>>)
    ensures PrependValues(vals, PrependValues([v], r)) == PrependValues(vals + [v], r)
  {
    if r.Some? { assert vals + ([v] + r.value) == (vals + [v]) + r.value; }
  }

  lemma PrependNothing(r: Option<(State, seq<Value>)>)
    ensures Prepend([], r) == r
  {
    if r.Some? { assert [] + r.value.1 == r.value.1; }
  }

  lemma PrependMore(vals: seq<Value>, v: Value, r: Option<(State, seq<Value>)>)
    ensures Prepend(vals, Prepend([v], r)) == Prepend(vals + [v], r)
  {
    if r.Some? { assert vals + ([v] + r.value.1) == (vals + [v]) + r.value.1; }
  }
}
