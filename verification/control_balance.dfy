/** What every run of the flag machine keeps, over all programs: nesting counters balance, a
    pending exception always has an open try, and only the topmost local table is written. */
module Balance {
  import opened Wrappers
  import opened Language
  import opened FlagMachine

  // Counters that have not wrapped around, and a stored return value of a call already begun.
  ghost predicate Counting(s: State) {
    s.loops >= 0 && s.funcs >= 0 && s.tries >= 0 && s.retCookie <= s.cookie
  }

  // A break also stops the statement lists around it.
  ghost predicate BreakStops(s: State) {
    s.brk ==> s.cont
  }

  // A pending exception has somewhere to go.
  ghost predicate Catchable(s: State) {
    s.exc ==> s.tries > 0
  }

  // A table with the elements of its arrays left out.
  function Skeleton(t: Table): (u: Table)
    ensures u.Keys == t.Keys
  {
    map name | name in t :: if IsArray(t[name]) then Var(Arr([])) else t[name]
  }

  // Only the topmost table is written, and no name is ever taken out of it; but arrays of the
  // global table may change below others.
  ghost predicate SameBelow(m: Store, n: Store) {
    |m.locals| == |n.locals| && m.Below() == n.Below() && m.Top().Keys <= n.Top().Keys
    && (m.locals != [] ==> Skeleton(m.globals) == Skeleton(n.globals))
  }

  // The same entry, or an array that is another one now.
  ghost predicate SameButElements(t: Table, u: Table, name: string) {
    (name in t <==> name in u) && (name in t ==> t[name] == u[name] || (IsArray(t[name]) && IsArray(u[name])))
  }

  lemma SkeletonSays(t: Table, u: Table)
    ensures Skeleton(t) == Skeleton(u) <==> forall name :: SameButElements(t, u, name)
  {
    if Skeleton(t) == Skeleton(u) {
      forall name ensures SameButElements(t, u, name) {
        assert name in Skeleton(t) <==> name in Skeleton(u);
        if name in t { assert Skeleton(t)[name] == Skeleton(u)[name]; }
      }
    }
    if forall name :: SameButElements(t, u, name) {
      forall name ensures name in t <==> name in u { assert SameButElements(t, u, name); }
      forall name | name in t ensures Skeleton(t)[name] == Skeleton(u)[name] { assert SameButElements(t, u, name); }
    }
  }

  ghost predicate Balanced(s: State, t: State) {
    && t.loops == s.loops && t.funcs == s.funcs && t.tries == s.tries
    && t.cookie >= s.cookie && t.retCookie <= t.cookie
    && (s.exit ==> t.exit)
    && (BreakStops(s) ==> BreakStops(t))
    && (Catchable(s) ==> Catchable(t))
    && (!t.exit ==> SameBelow(s.store, t.store))
  }

  // The cookie of the stored return value is the old one, or one handed out since.
  ghost predicate Stamped(s: State, t: State) {
    t.retCookie == s.retCookie || t.retCookie > s.cookie
  }

  // A balanced run that stores no return value for a call that is open.
  ghost predicate Keeps(s: State, t: State) {
    Balanced(s, t) && Stamped(s, t)
  }

  // Every expression's run is one.
  ghost predicate EvalKeeps(s: State, r: Option<(State, Value)>) {
    r.Some? ==> Keeps(s, r.value.0)
  }

  // A statement's run is balanced, and stores no return value for any open call but its own.
  ghost predicate ExecKeeps(s: State, r: Option<State>, cookie: int) {
    r.Some? ==> Balanced(s, r.value) && (Stamped(s, r.value) || r.value.retCookie == cookie)
  }

  // A loop's rounds do the same, with the break flag still to be cleared.
  ghost predicate LoopKeeps(s: State, r: Option<State>, cookie: int) {
    ExecKeeps(s.(brk := false), if r.Some? then Some(r.value.(brk := false)) else None, cookie)
  }

  lemma AddBelow(m: Store, name: string, entry: Entry)
    ensures SameBelow(m, m.Add(name, entry))
  {
  }

  lemma WriteBelow(m: Store, h: Home, name: string, w: Value)
    requires m.ArrayIn(h, name).Some? && w.Arr?
    ensures SameBelow(m, m.Write(h, name, w))
  {
    if h.Global? { assert Skeleton(m.globals) == Skeleton(m.globals[name := Var(w)]); }
  }

  lemma {:induction false} BindBelow(m: Store, params: seq<string>, vals: seq<Value>)
    requires |params| <= |vals|
    ensures SameBelow(m, BindFrom(m, params, vals))
    decreases params
  {
    if params != [] {
      AddBelow(m, params[0], Var(vals[0]));
      BindBelow(m.Add(params[0], Var(vals[0])), params[1..], vals[1..]);
    }
  }

  lemma {:induction false} WriteBackBelow(m: Store, frame: Table, params: seq<string>, args: seq<Expr>)
    ensures SameBelow(m, WriteBack(m, frame, params, args))
    decreases args
  {
    if args != [] && params != [] {
      var m1 := match RefTarget(args[0])
        case Some(name) => if params[0] in frame then m.Add(name, frame[params[0]]) else m
        case None => m;
      WriteBackBelow(m1, frame, params[1..], args[1..]);
    }
  }

  // Leaving the callee's table and writing back touches the caller's table only.
  lemma UpdateBelow(caller: Store, m: Store, params: seq<string>, args: seq<Expr>, exit: bool)
    requires !exit ==> SameBelow(caller.Enter(), m)
    ensures !exit ==> SameBelow(caller, UpdateArgs(m, params, args))
  {
    if !exit {
      assert m.Leave().locals == caller.locals;
      assert Skeleton(caller.globals).Keys == Skeleton(m.globals).Keys;
      WriteBackBelow(m.Leave(), m.Top(), params, args);
    }
  }

  // ---- expressions ----

  lemma {:induction false} EvalBalance(s: State, e: Expr, fuel: nat)
    requires Counting(s)
    ensures EvalKeeps(s, Eval(s, e, fuel))
    decreases fuel, 1, e, 1
  {
    hide EvalAssign, EvalAssignElem, EvalElem, EvalNot, EvalInfix, EvalAnd, EvalOr, EvalCond, EvalCall, EvalLambda;
    hide Keeps, Counting;
    if s.exc || s.exit {
      KeepsSelf(s);
    } else {
      match e
      case Const(_) => KeepsSelf(s);
      case Ref(_) => KeepsSelf(s);
      case Assign(_, _) => UnaryBalance(s, e, fuel);
      case AssignElem(_, _, _) => AssignElemBalance(s, e, fuel);
      case Elem(_, _) => ElemBalance(s, e, fuel);
      case Not(_) => UnaryBalance(s, e, fuel);
      case Infix(_, _, _) => PairBalance(s, e, fuel);
      case BoolAnd(_, _) => PairBalance(s, e, fuel);
      case BoolOr(_, _) => PairBalance(s, e, fuel);
      case Cond(_, _, _) => CondBalance(s, e, fuel);
      case Call(_, _) => CallBalance(s, e, fuel);
      case PassRef(inner) => EvalBalance(s, inner, fuel);
      case Lambda(f) => LambdaBalance(s, f);
    }
  }

  lemma KeepsSelf(s: State)
    requires Counting(s)
    ensures Keeps(s, s) && Keeps(s, Fatal(s))
  {
  }

  lemma KeepsThrough(s: State, t: State)
    requires Counting(s) && Keeps(s, t)
    ensures Counting(t) && Keeps(s, Fatal(t))
    ensures forall u :: Keeps(t, u) ==> Keeps(s, u)
  {
    forall u | Keeps(t, u) ensures Keeps(s, u) {}
  }

  // An entry is written to the innermost table.
  lemma KeepsAdd(s: State, name: string, entry: Entry)
    requires Counting(s)
    ensures Keeps(s, s.(store := s.store.Add(name, entry)))
  {
    AddBelow(s.store, name, entry);
  }

  lemma LambdaBalance(s: State, f: Func)
    requires Counting(s)
    ensures EvalKeeps(s, Some(EvalLambda(s, f)))
  {
    hide Skeleton;
    assert s.store.Enter().Leave().locals == s.store.locals;
    assert s.store.Enter().Add(LAMBDA, Function(f)).Leave().locals == s.store.locals;
  }

  lemma {:induction false} UnaryBalance(s: State, e: Expr, fuel: nat)
    requires Counting(s) && (e.Assign? || e.Not?)
    ensures e.Assign? ==> EvalKeeps(s, EvalAssign(s, e, fuel))
    ensures e.Not? ==> EvalKeeps(s, EvalNot(s, e, fuel))
    decreases fuel, 1, e, 0
  {
    hide Eval, Keeps, Counting;
    EvalBalance(s, e.inner, fuel);
    if Eval(s, e.inner, fuel).Some? {
      var (s1, v) := Eval(s, e.inner, fuel).value;
      KeepsThrough(s, s1);
      if e.Assign? { KeepsAdd(s1, e.name, EntryOf(v)); }
    }
  }

  lemma {:induction false} AssignElemBalance(s: State, e: Expr, fuel: nat)
    requires Counting(s) && e.AssignElem?
    ensures EvalKeeps(s, EvalAssignElem(s, e, fuel))
    decreases fuel, 1, e, 0
  {
    hide Eval, ArraySet, Keeps, Counting;
    KeepsSelf(s);
    if e.path != [] {
      EvalBalance(s, e.inner, fuel);
      if Eval(s, e.inner, fuel).Some? {
        var (s1, v) := Eval(s, e.inner, fuel).value;
        KeepsThrough(s, s1);
        SetBalance(s1, s1.store.HomeOf(e.name), e.name, [], e.path, v, fuel);
        var r := ArraySet(s1, s1.store.HomeOf(e.name), e.name, [], e.path, v, fuel);
        if r.Some? {
          KeepsThrough(s, r.value.0);
          KeepsAdd(r.value.0, e.name, Var(r.value.1));
        }
      }
    }
  }

  lemma {:induction false} SetBalance(s: State, h: Home, name: string, elems: seq<Value>, path: seq<Expr>, v: Value,
                                      fuel: nat)
    requires Counting(s) && path != []
    ensures EvalKeeps(s, ArraySet(s, h, name, elems, path, v, fuel))
    decreases fuel, 1, path, 0
  {
    hide Eval, SetRest, Keeps, Counting;
    EvalBalance(s, path[0], fuel);
    if Eval(s, path[0], fuel).Some? {
      var (s1, p) := Eval(s, path[0], fuel).value;
      KeepsThrough(s, s1);
      RestBalance(s1, h, name, elems, ToInt(p), path[1..], v, fuel);
    }
  }

  lemma {:induction false} RestBalance(s: State, h: Home, name: string, elems: seq<Value>, pos: int, path: seq<Expr>,
                                       v: Value, fuel: nat)
    requires Counting(s)
    ensures EvalKeeps(s, SetRest(s, h, name, elems, pos, path, v, fuel))
    decreases fuel, 1, path, 1
  {
    hide ArraySet, Put, Grab, Keeps, Counting;
    KeepsSelf(s);
    if path == [] {
      PutBalance(s, h, name, elems, pos, v);
    } else if Grab(s.store, h, name, elems).Some? {
      var inner := ElemsOf(ElemAt(Grab(s.store, h, name, elems).value, pos));
      SetBalance(s, Nowhere, name, inner, path, v, fuel);
      var r := ArraySet(s, Nowhere, name, inner, path, v, fuel);
      if r.Some? {
        KeepsThrough(s, r.value.0);
        PutBalance(r.value.0, h, name, elems, pos, r.value.1);
      }
    }
  }

  lemma PutBalance(s: State, h: Home, name: string, elems: seq<Value>, pos: int, v: Value)
    requires Counting(s)
    ensures Keeps(s, Put(s, h, name, elems, pos, v).0)
  {
    if Grab(s.store, h, name, elems).Some? && !h.Nowhere? {
      WriteBelow(s.store, h, name, Arr(SetElem(Grab(s.store, h, name, elems).value, pos, v)));
    }
  }

  lemma {:induction false} ElemBalance(s: State, e: Expr, fuel: nat)
    requires Counting(s) && e.Elem?
    ensures EvalKeeps(s, EvalElem(s, e, fuel))
    decreases fuel, 1, e, 0
  {
    hide Eval, ArrayGet, Keeps, Counting;
    KeepsSelf(s);
    var h := s.store.HomeOf(e.name);
    if e.path != [] && !h.Nowhere? {
      EvalBalance(s, e.path[0], fuel);
      if Eval(s, e.path[0], fuel).Some? {
        var (s1, p) := Eval(s, e.path[0], fuel).value;
        KeepsThrough(s, s1);
        var es := s1.store.ArrayIn(h, e.name);
        if es.Some? { GetBalance(s1, ElemAt(es.value, ToInt(p)), e.path[1..], fuel); }
      }
    }
  }

  lemma {:induction false} GetBalance(s: State, v: Value, path: seq<Expr>, fuel: nat)
    requires Counting(s)
    ensures EvalKeeps(s, ArrayGet(s, v, path, fuel))
    decreases fuel, 1, path, 0
  {
    hide Eval, Keeps, Counting;
    KeepsSelf(s);
    if path != [] && v.Arr? {
      EvalBalance(s, path[0], fuel);
      if Eval(s, path[0], fuel).Some? {
        var (s1, p) := Eval(s, path[0], fuel).value;
        KeepsThrough(s, s1);
        GetBalance(s1, ElemAt(v.elems, ToInt(p)), path[1..], fuel);
      }
    }
  }

  lemma {:induction false} PairBalance(s: State, e: Expr, fuel: nat)
    requires Counting(s) && (e.Infix? || e.BoolAnd? || e.BoolOr?)
    ensures e.Infix? ==> EvalKeeps(s, EvalInfix(s, e, fuel))
    ensures e.BoolAnd? ==> EvalKeeps(s, EvalAnd(s, e, fuel))
    ensures e.BoolOr? ==> EvalKeeps(s, EvalOr(s, e, fuel))
    decreases fuel, 1, e, 0
  {
    hide Eval, Keeps, Counting, Apply;
    EvalBalance(s, e.left, fuel);
    if Eval(s, e.left, fuel).Some? {
      var s1 := Eval(s, e.left, fuel).value.0;
      KeepsThrough(s, s1);
      EvalBalance(s1, e.right, fuel);
      var r := Eval(s1, e.right, fuel);
      if r.Some? { KeepsThrough(s, r.value.0); }
    }
  }

  lemma {:induction false} CondBalance(s: State, e: Expr, fuel: nat)
    requires Counting(s) && e.Cond?
    ensures EvalKeeps(s, EvalCond(s, e, fuel))
    decreases fuel, 1, e, 0
  {
    hide Eval, Keeps, Counting;
    EvalBalance(s, e.test, fuel);
    if Eval(s, e.test, fuel).Some? {
      var (s1, v) := Eval(s, e.test, fuel).value;
      KeepsThrough(s, s1);
      EvalBalance(s1, if ToBool(v) then e.thn else e.els, fuel);
    }
  }

  lemma {:induction false} CallBalance(s: State, e: Expr, fuel: nat)
    requires Counting(s) && e.Call?
    ensures EvalKeeps(s, EvalCall(s, e, fuel))
    decreases fuel, 1, e, 0
  {
    hide EvalArgs, CallFunction, UpdateArgs, Keeps, Counting;
    KeepsSelf(s);
    var callee := Callee(s.store.Lookup(e.name));
    if callee.Some? {
      ArgsBalance(s, e.args, fuel);
      if EvalArgs(s, e.args, fuel).Some? {
        var (s1, vals) := EvalArgs(s, e.args, fuel).value;
        KeepsThrough(s, s1);
        var s2 := s1.(store := s1.store.Enter());
        EnterCounts(s1);
        FunctionBalance(s2, callee.value, vals, fuel);
        var r := CallFunction(s2, callee.value, vals, fuel);
        if r.Some? { UpdateKeeps(s1, r.value.0, callee.value.params, e.args); }
      }
    }
  }

  lemma EnterCounts(s: State)
    requires Counting(s)
    ensures Counting(s.(store := s.store.Enter()))
  {
  }

  // Entering, calling, leaving and writing back, seen from the caller.
  lemma UpdateKeeps(s: State, t: State, params: seq<string>, args: seq<Expr>)
    requires Counting(s) && Keeps(s.(store := s.store.Enter()), t)
    ensures Keeps(s, t.(store := UpdateArgs(t.store, params, args)))
  {
    hide UpdateArgs, SameBelow;
    UpdateBelow(s.store, t.store, params, args, t.exit);
  }

  lemma {:induction false} ArgsBalance(s: State, args: seq<Expr>, fuel: nat)
    requires Counting(s)
    ensures EvalArgs(s, args, fuel).Some? ==> Keeps(s, EvalArgs(s, args, fuel).value.0)
    decreases fuel, 1, args, 0
  {
    hide Eval, Keeps, Counting;
    KeepsSelf(s);
    if args != [] {
      EvalBalance(s, args[0], fuel);
      if Eval(s, args[0], fuel).Some? {
        var s1 := Eval(s, args[0], fuel).value.0;
        KeepsThrough(s, s1);
        ArgsBalance(s1, args[1..], fuel);
      }
    }
  }

  lemma {:induction false} FunctionBalance(s: State, f: Func, vals: seq<Value>, fuel: nat)
    requires Counting(s)
    ensures EvalKeeps(s, CallFunction(s, f, vals, fuel))
    decreases fuel, 0, 1
  {
    hide RunFunc;
    if !s.exc && !s.exit && Accept(f, vals).Some? { RunBalance(s, f, Accept(f, vals).value, fuel); }
  }

  // No break, continue or return survives a function that ran.
  lemma {:induction false} RunBalance(s: State, f: Func, vals: seq<Value>, fuel: nat)
    requires Counting(s) && |vals| >= |f.params|
    ensures EvalKeeps(s, RunFunc(s, f, vals, fuel))
    ensures RunFunc(s, f, vals, fuel).Some? ==>
              var t := RunFunc(s, f, vals, fuel).value.0;
              !t.brk && !t.cont && !t.ret
    decreases fuel, 0, 0
  {
    hide Exec;
    if fuel > 0 {
      var s0 := StartFunc(s, f, vals);
      BindBelow(s.store.Add("argc", Var(Int(|vals|))).Add("argv", Var(Arr(vals))), f.params, vals);
      ExecBalance(s0, f.body, s0.cookie, fuel - 1);
    }
  }

  // ---- statements ----

  lemma {:induction false} ExecBalance(s: State, st: Stmt, cookie: int, fuel: nat)
    requires Counting(s) && cookie <= s.cookie
    ensures ExecKeeps(s, Exec(s, st, cookie, fuel), cookie)
    decreases fuel, 2, st, 3
  {
    hide Eval, ExecList, ExecIf, ExecLoops, ExecReturn, ExecSwitch, ExecTry;
    if !(s.ret || s.exc || s.exit) {
      match st
      case Nop =>
      case Block(body) => ListBalance(s, body, cookie, fuel);
      case If(_, _) => IfBalance(s, st, cookie, fuel);
      case IfElse(_, _, _) => IfBalance(s, st, cookie, fuel);
      case While(_, _) => LoopsBalance(s, st, cookie, fuel);
      case Do(_, _) => LoopsBalance(s, st, cookie, fuel);
      case For(_, _, _, _) => LoopsBalance(s, st, cookie, fuel);
      case Continue =>
      case Break =>
      case Return(_) => ReturnBalance(s, st, cookie, fuel);
      case ExprStmt(e) => EvalBalance(s, e, fuel);
      case FuncDef(name, f) => AddBelow(s.store, name, Function(f));
      case Switch(_, _) => SwitchBalance(s, st, cookie, fuel);
      case Try(_, _, _) => TryBalance(s, st, cookie, fuel);
      case Throw(e) => EvalBalance(s, e, fuel);
    }
  }

  lemma {:induction false} IfBalance(s: State, st: Stmt, cookie: int, fuel: nat)
    requires Counting(s) && cookie <= s.cookie && (st.If? || st.IfElse?)
    ensures ExecKeeps(s, ExecIf(s, st, cookie, fuel), cookie)
    decreases fuel, 2, st, 2
  {
    hide Eval, Exec;
    EvalBalance(s, st.test, fuel);
    if Eval(s, st.test, fuel).Some? {
      var s1 := Eval(s, st.test, fuel).value.0;
      ExecBalance(s1, st.thn, cookie, fuel);
      if st.IfElse? { ExecBalance(s1, st.els, cookie, fuel); }
    }
  }

  lemma {:induction false} ReturnBalance(s: State, st: Stmt, cookie: int, fuel: nat)
    requires Counting(s) && cookie <= s.cookie && st.Return?
    ensures ExecKeeps(s, ExecReturn(s, st, cookie, fuel), cookie)
    decreases fuel, 2, st, 2
  {
    hide Eval;
    if st.result.Some? { EvalBalance(s, st.result.value, fuel); }
  }

  lemma {:induction false} TryBalance(s: State, st: Stmt, cookie: int, fuel: nat)
    requires Counting(s) && cookie <= s.cookie && st.Try? && !s.exc
    ensures ExecKeeps(s, ExecTry(s, st, cookie, fuel), cookie)
    decreases fuel, 2, st, 2
  {
    hide Exec;
    var s0 := s.(tries := s.tries + 1);
    ExecBalance(s0, st.tried, cookie, fuel);
    if Exec(s0, st.tried, cookie, fuel).Some? {
      var s1 := Exec(s0, st.tried, cookie, fuel).value;
      if s1.exc {
        AddBelow(s1.store, st.name, Var(s1.excVal));
        ExecBalance(Catch(s1, st.name), st.handler, cookie, fuel);
      }
    }
  }

  lemma {:induction false} ListBalance(s: State, body: seq<Stmt>, cookie: int, fuel: nat)
    requires Counting(s) && cookie <= s.cookie
    ensures ExecKeeps(s, ExecList(s, body, cookie, fuel), cookie)
    decreases fuel, 2, body, 1
  {
    hide ExecSeq;
    SeqBalance(s, body, cookie, fuel);
  }

  lemma {:induction false} SeqBalance(s: State, body: seq<Stmt>, cookie: int, fuel: nat)
    requires Counting(s) && cookie <= s.cookie
    ensures ExecKeeps(s, ExecSeq(s, body, cookie, fuel), cookie)
    decreases fuel, 2, body, 0
  {
    hide Exec;
    if body != [] {
      ExecBalance(s, body[0], cookie, fuel);
      if Exec(s, body[0], cookie, fuel).Some? {
        SeqBalance(Exec(s, body[0], cookie, fuel).value, body[1..], cookie, fuel);
      }
    }
  }

  // ---- loops ----

  lemma {:induction false} LoopsBalance(s: State, st: Stmt, cookie: int, fuel: nat)
    requires Counting(s) && cookie <= s.cookie && (st.While? || st.For? || st.Do?)
    ensures ExecKeeps(s, ExecLoops(s, st, cookie, fuel), cookie)
    decreases fuel, 2, st, 2
  {
    hide Eval, ExecLoop, ExecDo;
    var s0 := s.(loops := s.loops + 1);
    match st
    case While(_, _) => LoopBalance(s0, st, cookie, fuel);
    case Do(_, _) => DoBalance(s0, st, false, cookie, fuel);
    case For(init, _, _, _) =>
      EvalBalance(s0, init, fuel);
      if Eval(s0, init, fuel).Some? {
        LoopBalance(Eval(s0, init, fuel).value.0, st, cookie, fuel);
      }
  }

  // A part of a loop, with the continue flag cleared after it or not.
  lemma PartKeeps(s: State, t: State, cookie: int)
    requires Counting(s) && cookie <= s.cookie && ExecKeeps(s, Some(t), cookie)
    ensures LoopKeeps(s, Some(t), cookie) && LoopKeeps(s, Some(t.(cont := false)), cookie)
    ensures Counting(t) && Counting(t.(cont := false)) && cookie <= t.cookie
  {
    hide SameBelow;
  }

  // One part after another.
  lemma PartsKeep(s: State, t: State, r: Option<State>, cookie: int)
    requires Counting(s) && cookie <= s.cookie && LoopKeeps(s, Some(t), cookie) && LoopKeeps(t, r, cookie)
    ensures LoopKeeps(s, r, cookie)
  {
  }

  lemma {:induction false} LoopBalance(s: State, st: Stmt, cookie: int, fuel: nat)
    requires Counting(s) && cookie <= s.cookie && (st.While? || st.For?)
    ensures LoopKeeps(s, ExecLoop(s, st, cookie, fuel), cookie)
    decreases fuel, 2, st, 1, Rank(s), 0
  {
    hide Eval, Exec, ExecKeeps, LoopKeeps, Counting;
    EvalPart(s, st.test, cookie, fuel);
    NothingKeeps(s, cookie);
    if Eval(s, st.test, fuel).Some? {
      var (s1, v) := Eval(s, st.test, fuel).value;
      if ToBool(v) && FuelAfter(s1, fuel).Some? {
        var left := FuelAfter(s1, fuel).value;
        ExecBalance(s1, st.loop, cookie, left);
        if Exec(s1, st.loop, cookie, left).Some? {
          var s2 := Exec(s1, st.loop, cookie, left).value;
          PartKeeps(s1, s2, cookie);
          PartsKeep(s, s1, Some(s2.(cont := false)), cookie);
          if !s2.brk { NextBalance(s, s2.(cont := false), st, cookie, left); }
        }
      }
    }
  }

  // A round that runs out of fuel keeps everything there is to keep.
  lemma NothingKeeps(s: State, cookie: int)
    ensures LoopKeeps(s, None, cookie)
  {
  }

  lemma {:induction false} EvalPart(s: State, e: Expr, cookie: int, fuel: nat)
    requires Counting(s) && cookie <= s.cookie
    ensures Eval(s, e, fuel).Some? ==>
              var t := Eval(s, e, fuel).value.0;
              LoopKeeps(s, Some(t), cookie) && Counting(t) && cookie <= t.cookie
    decreases fuel, 1, e, 2
  {
    hide Eval, SameBelow;
    EvalBalance(s, e, fuel);
    if Eval(s, e, fuel).Some? { PartKeeps(s, Eval(s, e, fuel).value.0, cookie); }
  }

  // What follows a loop's body that was not left: s is the state its round began in.
  lemma {:induction false} NextBalance(s: State, s3: State, st: Stmt, cookie: int, fuel: nat)
    requires Counting(s) && cookie <= s.cookie && (st.While? || st.For?)
    requires LoopKeeps(s, Some(s3), cookie) && Counting(s3) && cookie <= s3.cookie
    ensures st.While? ==> LoopKeeps(s, ExecLoop(s3, st, cookie, fuel), cookie)
    ensures st.For? && Eval(s3, st.guard, fuel).Some? ==>
              LoopKeeps(s, ExecLoop(Eval(s3, st.guard, fuel).value.0, st, cookie, fuel), cookie)
    decreases fuel, 2, st, 1, Rank(s3), 1
  {
    hide Eval, ExecLoop, LoopKeeps, Counting;
    if st.While? {
      LoopBalance(s3, st, cookie, fuel);
      PartsKeep(s, s3, ExecLoop(s3, st, cookie, fuel), cookie);
    } else {
      EvalPart(s3, st.guard, cookie, fuel);
      if Eval(s3, st.guard, fuel).Some? {
        var s4 := Eval(s3, st.guard, fuel).value.0;
        LoopBalance(s4, st, cookie, fuel);
        PartsKeep(s3, s4, ExecLoop(s4, st, cookie, fuel), cookie);
        PartsKeep(s, s3, ExecLoop(s4, st, cookie, fuel), cookie);
      }
    }
  }

  lemma {:induction false} DoBalance(s: State, st: Stmt, last: bool, cookie: int, fuel: nat)
    requires Counting(s) && cookie <= s.cookie && st.Do?
    ensures LoopKeeps(s, ExecDo(s, st, last, cookie, fuel), cookie)
    decreases fuel, 2, st, 1, Rank(s)
  {
    hide Exec, DoTest, ExecKeeps, LoopKeeps, Counting, Balanced, Stamped;
    ExecBalance(s, st.loop, cookie, fuel);
    NothingKeeps(s, cookie);
    if Exec(s, st.loop, cookie, fuel).Some? {
      var s1 := Exec(s, st.loop, cookie, fuel).value;
      PartKeeps(s, s1, cookie);
      TestPart(s1, st, last, cookie, fuel);
      if DoTest(s1, st, last, fuel).Some? {
        var (s2, again) := DoTest(s1, st, last, fuel).value;
        var s3 := s2.(cont := false);
        PartsKeep(s, s1, Some(s3), cookie);
        if again && !s3.brk && FuelAfter(s3, fuel).Some? {
          DoBalance(s3, st, again, cookie, FuelAfter(s3, fuel).value);
          PartsKeep(s, s3, ExecDo(s3, st, again, cookie, FuelAfter(s3, fuel).value), cookie);
        }
      }
    }
  }

  lemma {:induction false} TestPart(s: State, st: Stmt, last: bool, cookie: int, fuel: nat)
    requires Counting(s) && cookie <= s.cookie && st.Do?
    ensures DoTest(s, st, last, fuel).Some? ==>
              var t := DoTest(s, st, last, fuel).value.0.(cont := false);
              LoopKeeps(s, Some(t), cookie) && Counting(t) && cookie <= t.cookie
    decreases fuel, 2, st, 0
  {
    hide Eval, SameBelow;
    EvalBalance(s, st.test, fuel);
    SameSelf(s.store);
    if DoTest(s, st, last, fuel).Some? { PartKeeps(s, DoTest(s, st, last, fuel).value.0, cookie); }
  }

  lemma SameSelf(m: Store)
    ensures SameBelow(m, m)
  {
  }

  // ---- switch ----

  lemma {:induction false} SwitchBalance(s: State, st: Stmt, cookie: int, fuel: nat)
    requires Counting(s) && cookie <= s.cookie && st.Switch?
    ensures ExecKeeps(s, ExecSwitch(s, st, cookie, fuel), cookie)
    decreases fuel, 2, st, 2
  {
    hide Eval, ExecCases, ExecList;
    EvalBalance(s, st.e, fuel);
    if Eval(s, st.e, fuel).Some? {
      var (s1, v) := Eval(s, st.e, fuel).value;
      CasesBalance(s1, v, st.cases, false, cookie, fuel);
      var def := LastDefault(st.cases);
      if ExecCases(s1, v, st.cases, false, cookie, fuel).Some? && def.Some? {
        ListBalance(ExecCases(s1, v, st.cases, false, cookie, fuel).value.0, def.value, cookie, fuel);
      }
    }
  }

  ghost predicate CasesKeep(s: State, r: Option<(State, bool)>, cookie: int) {
    ExecKeeps(s, if r.Some? then Some(r.value.0) else None, cookie)
  }

  lemma {:induction false} CasesBalance(s: State, v: Value, cases: seq<Case>, go: bool, cookie: int, fuel: nat)
    requires Counting(s) && cookie <= s.cookie
    ensures CasesKeep(s, ExecCases(s, v, cases, go, cookie, fuel), cookie)
    decreases fuel, 2, cases, 1
  {
    hide Eval, ExecGroup;
    if cases != [] {
      if go {
        GroupBalance(s, v, cases, cookie, fuel);
      } else if cases[0].Default? {
        CasesBalance(s, v, cases[1..], false, cookie, fuel);
      } else {
        EvalBalance(s, cases[0].guard, fuel);
        if Eval(s, cases[0].guard, fuel).Some? {
          var (s1, g) := Eval(s, cases[0].guard, fuel).value;
          if SameValue(v, g) {
            GroupBalance(s1, v, cases, cookie, fuel);
          } else {
            CasesBalance(s1, v, cases[1..], false, cookie, fuel);
          }
        }
      }
    }
  }

  lemma {:induction false} GroupBalance(s: State, v: Value, cases: seq<Case>, cookie: int, fuel: nat)
    requires Counting(s) && cookie <= s.cookie && cases != []
    ensures CasesKeep(s, ExecGroup(s, v, cases, cookie, fuel), cookie)
    decreases fuel, 2, cases, 0
  {
    hide ExecList, ExecCases;
    ListBalance(s, cases[0].body, cookie, fuel);
    if ExecList(s, cases[0].body, cookie, fuel).Some? {
      CasesBalance(ExecList(s, cases[0].body, cookie, fuel).value, v, cases[1..], true, cookie, fuel);
    }
  }
}
