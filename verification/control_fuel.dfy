/** Fuel only bounds how long the flag machine may run: a run that ends stays the same with more. */
module Fuel {
  import opened Wrappers
  import opened Language
  import opened FlagMachine

  lemma {:induction false} MoreEval(s: State, e: Expr, fuel: nat, more: nat)
    requires fuel <= more && Eval(s, e, fuel).Some?
    ensures Eval(s, e, more) == Eval(s, e, fuel)
    decreases fuel, 1, e, 1
  {
    hide EvalInfix, EvalAnd, EvalOr, EvalCond, EvalCall, EvalAssignElem, EvalElem;
    if !(s.exc || s.exit) {
      match e
      case Const(_) =>
      case Ref(_) =>
      case Assign(_, inner) => MoreEval(s, inner, fuel, more);
      case AssignElem(_, _, _) => MoreAssignElem(s, e, fuel, more);
      case Elem(_, _) => MoreElem(s, e, fuel, more);
      case Not(inner) => MoreEval(s, inner, fuel, more);
      case Infix(_, _, _) => MorePair(s, e, fuel, more);
      case BoolAnd(_, _) => MorePair(s, e, fuel, more);
      case BoolOr(_, _) => MorePair(s, e, fuel, more);
      case Cond(_, _, _) => MoreCond(s, e, fuel, more);
      case Call(_, _) => MoreCall(s, e, fuel, more);
      case PassRef(inner) => MoreEval(s, inner, fuel, more);
      case Lambda(f) =>
    }
  }

  lemma {:induction false} MoreAssignElem(s: State, e: Expr, fuel: nat, more: nat)
    requires fuel <= more && e.AssignElem? && EvalAssignElem(s, e, fuel).Some?
    ensures EvalAssignElem(s, e, more) == EvalAssignElem(s, e, fuel)
    decreases fuel, 1, e, 0
  {
    hide Eval, ArraySet;
    if e.path != [] {
      MoreEval(s, e.inner, fuel, more);
      var (s1, v) := Eval(s, e.inner, fuel).value;
      if !s1.exc && !s1.exit { MoreSet(s1, s1.store.HomeOf(e.name), e.name, [], e.path, v, fuel, more); }
    }
  }

  lemma {:induction false} MoreSet(s: State, h: Home, name: string, elems: seq<Value>, path: seq<Expr>, v: Value,
                                   fuel: nat, more: nat)
    requires fuel <= more && path != [] && ArraySet(s, h, name, elems, path, v, fuel).Some?
    ensures ArraySet(s, h, name, elems, path, v, more) == ArraySet(s, h, name, elems, path, v, fuel)
    decreases fuel, 1, path, 0
  {
    hide Eval, SetRest;
    MoreEval(s, path[0], fuel, more);
    var (s1, p) := Eval(s, path[0], fuel).value;
    if !s1.exc && !s1.exit { MoreRest(s1, h, name, elems, ToInt(p), path[1..], v, fuel, more); }
  }

  lemma {:induction false} MoreRest(s: State, h: Home, name: string, elems: seq<Value>, pos: int, path: seq<Expr>,
                                    v: Value, fuel: nat, more: nat)
    requires fuel <= more && SetRest(s, h, name, elems, pos, path, v, fuel).Some?
    ensures SetRest(s, h, name, elems, pos, path, v, more) == SetRest(s, h, name, elems, pos, path, v, fuel)
    decreases fuel, 1, path, 1
  {
    hide ArraySet, Put, Grab;
    var es := Grab(s.store, h, name, elems);
    if path != [] && es.Some? { MoreSet(s, Nowhere, name, ElemsOf(ElemAt(es.value, pos)), path, v, fuel, more); }
  }

  lemma {:induction false} MoreElem(s: State, e: Expr, fuel: nat, more: nat)
    requires fuel <= more && e.Elem? && EvalElem(s, e, fuel).Some?
    ensures EvalElem(s, e, more) == EvalElem(s, e, fuel)
    decreases fuel, 1, e, 0
  {
    hide Eval, ArrayGet;
    var h := s.store.HomeOf(e.name);
    if e.path != [] && !h.Nowhere? {
      MoreEval(s, e.path[0], fuel, more);
      var (s1, p) := Eval(s, e.path[0], fuel).value;
      var es := s1.store.ArrayIn(h, e.name);
      if es.Some? { MoreGet(s1, ElemAt(es.value, ToInt(p)), e.path[1..], fuel, more); }
    }
  }

  lemma {:induction false} MoreGet(s: State, v: Value, path: seq<Expr>, fuel: nat, more: nat)
    requires fuel <= more && ArrayGet(s, v, path, fuel).Some?
    ensures ArrayGet(s, v, path, more) == ArrayGet(s, v, path, fuel)
    decreases fuel, 1, path, 0
  {
    hide Eval;
    if path != [] && v.Arr? {
      MoreEval(s, path[0], fuel, more);
      var (s1, p) := Eval(s, path[0], fuel).value;
      MoreGet(s1, ElemAt(v.elems, ToInt(p)), path[1..], fuel, more);
    }
  }

  lemma {:induction false} MorePair(s: State, e: Expr, fuel: nat, more: nat)
    requires fuel <= more && (e.Infix? || e.BoolAnd? || e.BoolOr?)
    ensures e.Infix? && EvalInfix(s, e, fuel).Some? ==> EvalInfix(s, e, more) == EvalInfix(s, e, fuel)
    ensures e.BoolAnd? && EvalAnd(s, e, fuel).Some? ==> EvalAnd(s, e, more) == EvalAnd(s, e, fuel)
    ensures e.BoolOr? && EvalOr(s, e, fuel).Some? ==> EvalOr(s, e, more) == EvalOr(s, e, fuel)
    decreases fuel, 1, e, 0
  {
    hide Eval;
    if Eval(s, e.left, fuel).Some? {
      MoreEval(s, e.left, fuel, more);
      var s1 := Eval(s, e.left, fuel).value.0;
      if Eval(s1, e.right, fuel).Some? { MoreEval(s1, e.right, fuel, more); }
    }
  }

  lemma {:induction false} MoreCond(s: State, e: Expr, fuel: nat, more: nat)
    requires fuel <= more && e.Cond? && EvalCond(s, e, fuel).Some?
    ensures EvalCond(s, e, more) == EvalCond(s, e, fuel)
    decreases fuel, 1, e, 0
  {
    hide Eval;
    MoreEval(s, e.test, fuel, more);
    var (s1, v) := Eval(s, e.test, fuel).value;
    MoreEval(s1, if ToBool(v) then e.thn else e.els, fuel, more);
  }

  lemma {:induction false} MoreCall(s: State, e: Expr, fuel: nat, more: nat)
    requires fuel <= more && e.Call? && EvalCall(s, e, fuel).Some?
    ensures EvalCall(s, e, more) == EvalCall(s, e, fuel)
    decreases fuel, 1, e, 0
  {
    hide EvalArgs, RunFunc;
    var callee := Callee(s.store.Lookup(e.name));
    if callee.Some? {
      MoreArgs(s, e.args, fuel, more);
      var (s1, vals) := EvalArgs(s, e.args, fuel).value;
      var s2 := s1.(store := s1.store.Enter());
      var taken := Accept(callee.value, vals);
      if !s2.exc && !s2.exit && taken.Some? { MoreRun(s2, callee.value, taken.value, fuel, more); }
      assert CallFunction(s2, callee.value, vals, more) == CallFunction(s2, callee.value, vals, fuel);
    }
  }

  lemma {:induction false} MoreArgs(s: State, args: seq<Expr>, fuel: nat, more: nat)
    requires fuel <= more && EvalArgs(s, args, fuel).Some?
    ensures EvalArgs(s, args, more) == EvalArgs(s, args, fuel)
    decreases fuel, 1, args, 0
  {
    hide Eval;
    if args != [] {
      MoreEval(s, args[0], fuel, more);
      MoreArgs(Eval(s, args[0], fuel).value.0, args[1..], fuel, more);
    }
  }

  lemma {:induction false} MoreRun(s: State, f: Func, vals: seq<Value>, fuel: nat, more: nat)
    requires fuel <= more && |f.params| <= |vals| && RunFunc(s, f, vals, fuel).Some?
    ensures RunFunc(s, f, vals, more) == RunFunc(s, f, vals, fuel)
    decreases fuel, 0, 0
  {
    hide Exec;
    if fuel > 0 && s.funcs >= 0 {
      var s0 := StartFunc(s, f, vals);
      MoreExec(s0, f.body, s0.cookie, fuel - 1, more - 1);
    }
  }

  // A run of a statement that ends has the same end under any larger bound.
  lemma {:induction false} MoreExec(s: State, st: Stmt, cookie: int, fuel: nat, more: nat)
    requires fuel <= more && Exec(s, st, cookie, fuel).Some?
    ensures Exec(s, st, cookie, more) == Exec(s, st, cookie, fuel)
    decreases fuel, 2, st, 3
  {
    hide Eval, ExecList, ExecIf, ExecLoops, ExecReturn, ExecSwitch, ExecTry;
    if !(s.ret || s.exc || s.exit) {
      match st
      case Nop =>
      case Block(body) => MoreList(s, body, cookie, fuel, more);
      case If(_, _) => MoreIf(s, st, cookie, fuel, more);
      case IfElse(_, _, _) => MoreIf(s, st, cookie, fuel, more);
      case While(_, _) => MoreLoops(s, st, cookie, fuel, more);
      case Do(_, _) => MoreLoops(s, st, cookie, fuel, more);
      case For(_, _, _, _) => MoreLoops(s, st, cookie, fuel, more);
      case Continue =>
      case Break =>
      case Return(_) => MoreReturn(s, st, cookie, fuel, more);
      case ExprStmt(e) => MoreEval(s, e, fuel, more);
      case FuncDef(_, _) =>
      case Switch(_, _) => MoreSwitch(s, st, cookie, fuel, more);
      case Try(_, _, _) => MoreTry(s, st, cookie, fuel, more);
      case Throw(e) => MoreEval(s, e, fuel, more);
    }
  }

  lemma {:induction false} MoreIf(s: State, st: Stmt, cookie: int, fuel: nat, more: nat)
    requires fuel <= more && (st.If? || st.IfElse?) && ExecIf(s, st, cookie, fuel).Some?
    ensures ExecIf(s, st, cookie, more) == ExecIf(s, st, cookie, fuel)
    decreases fuel, 2, st, 2
  {
    hide Eval, Exec;
    MoreEval(s, st.test, fuel, more);
    var (s1, v) := Eval(s, st.test, fuel).value;
    if ToBool(v) {
      MoreExec(s1, st.thn, cookie, fuel, more);
    } else if st.IfElse? {
      MoreExec(s1, st.els, cookie, fuel, more);
    }
  }

  lemma {:induction false} MoreReturn(s: State, st: Stmt, cookie: int, fuel: nat, more: nat)
    requires fuel <= more && st.Return? && ExecReturn(s, st, cookie, fuel).Some?
    ensures ExecReturn(s, st, cookie, more) == ExecReturn(s, st, cookie, fuel)
    decreases fuel, 2, st, 2
  {
    hide Eval;
    if s.funcs != 0 && st.result.Some? { MoreEval(s, st.result.value, fuel, more); }
  }

  lemma {:induction false} MoreTry(s: State, st: Stmt, cookie: int, fuel: nat, more: nat)
    requires fuel <= more && st.Try? && ExecTry(s, st, cookie, fuel).Some?
    ensures ExecTry(s, st, cookie, more) == ExecTry(s, st, cookie, fuel)
    decreases fuel, 2, st, 2
  {
    hide Exec;
    if s.tries + 1 >= 1 {
      var s0 := s.(tries := s.tries + 1);
      MoreExec(s0, st.tried, cookie, fuel, more);
      var s1 := Exec(s0, st.tried, cookie, fuel).value;
      if s1.exc { MoreExec(Catch(s1, st.name), st.handler, cookie, fuel, more); }
    }
  }

  lemma {:induction false} MoreList(s: State, body: seq<Stmt>, cookie: int, fuel: nat, more: nat)
    requires fuel <= more && ExecList(s, body, cookie, fuel).Some?
    ensures ExecList(s, body, cookie, more) == ExecList(s, body, cookie, fuel)
    decreases fuel, 2, body, 1
  {
    hide ExecSeq;
    if !(s.ret || s.exit) { MoreSeq(s, body, cookie, fuel, more); }
  }

  lemma {:induction false} MoreSeq(s: State, body: seq<Stmt>, cookie: int, fuel: nat, more: nat)
    requires fuel <= more && ExecSeq(s, body, cookie, fuel).Some?
    ensures ExecSeq(s, body, cookie, more) == ExecSeq(s, body, cookie, fuel)
    decreases fuel, 2, body, 0
  {
    hide Exec;
    if body != [] {
      MoreExec(s, body[0], cookie, fuel, more);
      var s1 := Exec(s, body[0], cookie, fuel).value;
      if !(s1.cont || s1.ret || s1.exc || s1.exit) { MoreSeq(s1, body[1..], cookie, fuel, more); }
    }
  }

  lemma {:induction false} MoreLoops(s: State, st: Stmt, cookie: int, fuel: nat, more: nat)
    requires fuel <= more && (st.While? || st.For? || st.Do?) && ExecLoops(s, st, cookie, fuel).Some?
    ensures ExecLoops(s, st, cookie, more) == ExecLoops(s, st, cookie, fuel)
    decreases fuel, 2, st, 2
  {
    hide Eval, ExecLoop, ExecDo;
    if s.loops + 1 >= 1 {
      var s0 := s.(loops := s.loops + 1);
      match st
      case While(_, _) => MoreLoop(s0, st, cookie, fuel, more);
      case Do(_, _) => MoreDo(s0, st, false, cookie, fuel, more);
      case For(init, _, _, _) =>
        MoreEval(s0, init, fuel, more);
        MoreLoop(Eval(s0, init, fuel).value.0, st, cookie, fuel, more);
    }
  }

  lemma {:induction false} MoreLoop(s: State, st: Stmt, cookie: int, fuel: nat, more: nat)
    requires fuel <= more && (st.While? || st.For?) && ExecLoop(s, st, cookie, fuel).Some?
    ensures ExecLoop(s, st, cookie, more) == ExecLoop(s, st, cookie, fuel)
    decreases fuel, 2, st, 1, Rank(s)
  {
    hide Eval, Exec;
    MoreEval(s, st.test, fuel, more);
    var (s1, v) := Eval(s, st.test, fuel).value;
    if ToBool(v) {
      var left, left' := FuelAfter(s1, fuel).value, FuelAfter(s1, more).value;
      MoreExec(s1, st.loop, cookie, left, left');
      var s3 := Exec(s1, st.loop, cookie, left).value.(cont := false);
      if !s3.brk {
        if st.For? {
          MoreEval(s3, st.guard, left, left');
          MoreLoop(Eval(s3, st.guard, left).value.0, st, cookie, left, left');
        } else {
          MoreLoop(s3, st, cookie, left, left');
        }
      }
    }
  }

  lemma {:induction false} MoreDo(s: State, st: Stmt, last: bool, cookie: int, fuel: nat, more: nat)
    requires fuel <= more && st.Do? && ExecDo(s, st, last, cookie, fuel).Some?
    ensures ExecDo(s, st, last, cookie, more) == ExecDo(s, st, last, cookie, fuel)
    decreases fuel, 2, st, 1, Rank(s)
  {
    hide Exec, DoTest;
    MoreExec(s, st.loop, cookie, fuel, more);
    var s1 := Exec(s, st.loop, cookie, fuel).value;
    MoreTest(s1, st, last, fuel, more);
    var (s2, again) := DoTest(s1, st, last, fuel).value;
    var s3 := s2.(cont := false);
    if again && !s3.brk {
      MoreDo(s3, st, again, cookie, FuelAfter(s3, fuel).value, FuelAfter(s3, more).value);
    }
  }

  lemma {:induction false} MoreTest(s: State, st: Stmt, last: bool, fuel: nat, more: nat)
    requires fuel <= more && st.Do? && DoTest(s, st, last, fuel).Some?
    ensures DoTest(s, st, last, more) == DoTest(s, st, last, fuel)
    decreases fuel, 2, st, 0
  {
    hide Eval;
    if !s.brk { MoreEval(s, st.test, fuel, more); }
  }

  lemma {:induction false} MoreSwitch(s: State, st: Stmt, cookie: int, fuel: nat, more: nat)
    requires fuel <= more && st.Switch? && ExecSwitch(s, st, cookie, fuel).Some?
    ensures ExecSwitch(s, st, cookie, more) == ExecSwitch(s, st, cookie, fuel)
    decreases fuel, 2, st, 2
  {
    hide Eval, ExecCases, ExecList;
    MoreEval(s, st.e, fuel, more);
    var (s1, v) := Eval(s, st.e, fuel).value;
    MoreCases(s1, v, st.cases, false, cookie, fuel, more);
    var (s2, handled) := ExecCases(s1, v, st.cases, false, cookie, fuel).value;
    var def := LastDefault(st.cases);
    if !handled && def.Some? { MoreList(s2, def.value, cookie, fuel, more); }
  }

  lemma {:induction false} MoreCases(s: State, v: Value, cases: seq<Case>, go: bool, cookie: int, fuel: nat, more: nat)
    requires fuel <= more && ExecCases(s, v, cases, go, cookie, fuel).Some?
    ensures ExecCases(s, v, cases, go, cookie, more) == ExecCases(s, v, cases, go, cookie, fuel)
    decreases fuel, 2, cases, 1
  {
    hide Eval, ExecGroup;
    if cases != [] {
      if go {
        MoreGroup(s, v, cases, cookie, fuel, more);
      } else if cases[0].Default? {
        MoreCases(s, v, cases[1..], false, cookie, fuel, more);
      } else {
        MoreEval(s, cases[0].guard, fuel, more);
        var (s1, g) := Eval(s, cases[0].guard, fuel).value;
        if SameValue(v, g) {
          MoreGroup(s1, v, cases, cookie, fuel, more);
        } else {
          MoreCases(s1, v, cases[1..], false, cookie, fuel, more);
        }
      }
    }
  }

  lemma {:induction false} MoreGroup(s: State, v: Value, cases: seq<Case>, cookie: int, fuel: nat, more: nat)
    requires fuel <= more && cases != [] && ExecGroup(s, v, cases, cookie, fuel).Some?
    ensures ExecGroup(s, v, cases, cookie, more) == ExecGroup(s, v, cases, cookie, fuel)
    decreases fuel, 2, cases, 0
  {
    hide ExecList, ExecCases;
    MoreList(s, cases[0].body, cookie, fuel, more);
    if cases[0].Case? && cases[0].thru {
      MoreCases(ExecList(s, cases[0].body, cookie, fuel).value, v, cases[1..], true, cookie, fuel, more);
    }
  }
}
