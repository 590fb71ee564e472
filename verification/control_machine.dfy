/** The flag machine of libintend/libeval as a function on states.  Break, continue, return,
    throw and exit are flags in one shared state, tested and cleared where the interpreter
    tests and clears them.  Fuel bounds loop rounds and calls; None is fuel running out. */
module FlagMachine {
  import opened Wrappers
  import opened Language

  const LAMBDA := "\\lambda"

  datatype State = State(
    exit: bool,
    ret: bool,
    cont: bool,
    brk: bool,
    exc: bool,
    excVal: Value,
    loops: int,
    funcs: int,
    tries: int,
    retval: Option<Value>,
    retCookie: int,
    cookie: int,
    store: Store)

  function Fatal(s: State): State {
    s.(exit := true)
  }

  // ---- expressions ----

  // While an exception or exit is pending, nothing is evaluated.
  function Eval(s: State, e: Expr, fuel: nat): (r: Option<(State, Value)>)
    ensures s.exc || s.exit ==> r == Some((s, Void))
    decreases fuel, 1, e, 1
  {
    if s.exc || s.exit then Some((s, Void)) else
    match e
    case Const(v) => Some((s, v))
    case Ref(name) => Some((s, RefValue(s.store.Lookup(name))))
    case Assign(_, _) => EvalAssign(s, e, fuel)
    case AssignElem(_, _, _) => EvalAssignElem(s, e, fuel)
    case Elem(_, _) => EvalElem(s, e, fuel)
    case Not(_) => EvalNot(s, e, fuel)
    case Infix(_, _, _) => EvalInfix(s, e, fuel)
    case BoolAnd(_, _) => EvalAnd(s, e, fuel)
    case BoolOr(_, _) => EvalOr(s, e, fuel)
    case Cond(_, _, _) => EvalCond(s, e, fuel)
    case Call(_, _) => EvalCall(s, e, fuel)
    case PassRef(inner) => Eval(s, inner, fuel)
    case Lambda(f) => Some(EvalLambda(s, f))
  }

  function EvalAssign(s: State, e: Expr, fuel: nat): Option<(State, Value)>
    requires e.Assign?
    decreases fuel, 1, e, 0
  {
    var (s1, v) :- Eval(s, e.inner, fuel);
    Some((if s1.exc || s1.exit then s1 else s1.(store := s1.store.Add(e.name, EntryOf(v))), v))
  }

  function EvalAssignElem(s: State, e: Expr, fuel: nat): Option<(State, Value)>
    requires e.AssignElem?
    decreases fuel, 1, e, 0
  {
    if e.path == [] then Some((Fatal(s), Void))
    else
      var (s1, v) :- Eval(s, e.inner, fuel);
      if s1.exc || s1.exit then Some((s1, v))
      else
        var s2 :- AssignDirect(s1, e.name, e.path, v, fuel);
        Some((s2, v))
  }

  // The array is changed in place, and at the end written to the innermost table under its name.
  function AssignDirect(s: State, name: string, path: seq<Expr>, v: Value, fuel: nat): Option<State>
    requires path != []
    decreases fuel, 1, path, 2
  {
    var (s1, w) :- ArraySet(s, s.store.HomeOf(name), name, [], path, v, fuel);
    Some(if s1.exc || s1.exit then s1 else s1.(store := s1.store.Add(name, Var(w))))
  }

  // The elements of the array at its home, or of the value that has none.  An array that is gone
  // from its home is an internal error.
  function Grab(m: Store, h: Home, name: string, elems: seq<Value>): Option<seq<Value>> {
    if h.Nowhere? then Some(elems) else m.ArrayIn(h, name)
  }

  function Put(s: State, h: Home, name: string, elems: seq<Value>, pos: int, v: Value): (State, Value) {
    match Grab(s.store, h, name, elems)
    case None => (Fatal(s), Void)
    case Some(es) =>
      var w := Arr(SetElem(es, pos, v));
      (if h.Nowhere? then s else s.(store := s.store.Write(h, name, w)), w)
  }

  // Each index is evaluated when it is reached.
  function ArraySet(s: State, h: Home, name: string, elems: seq<Value>, path: seq<Expr>, v: Value, fuel: nat)
    : Option<(State, Value)>
    requires path != []
    decreases fuel, 1, path, 0
  {
    var (s1, p) :- Eval(s, path[0], fuel);
    if s1.exc || s1.exit then Some((s1, Void)) else SetRest(s1, h, name, elems, ToInt(p), path[1..], v, fuel)
  }

  // Below the first index the elements are copied out, changed and put back, whatever is pending
  // by then.
  function SetRest(s: State, h: Home, name: string, elems: seq<Value>, pos: int, path: seq<Expr>, v: Value, fuel: nat)
    : Option<(State, Value)>
    decreases fuel, 1, path, 1
  {
    if path == [] then Some(Put(s, h, name, elems, pos, v))
    else
      match Grab(s.store, h, name, elems)
      case None => Some((Fatal(s), Void))
      case Some(es) =>
        var (s1, x) :- ArraySet(s, Nowhere, name, ElemsOf(ElemAt(es, pos)), path, v, fuel);
        Some(Put(s1, h, name, elems, pos, x))
  }

  // Nothing is evaluated when the variable holds no array.
  function EvalElem(s: State, e: Expr, fuel: nat): Option<(State, Value)>
    requires e.Elem?
    decreases fuel, 1, e, 0
  {
    if e.path == [] then Some((Fatal(s), Void))
    else
      var h := s.store.HomeOf(e.name);
      if h.Nowhere? then Some((s, Void))
      else
        var (s1, p) :- Eval(s, e.path[0], fuel);
        match s1.store.ArrayIn(h, e.name)
        case None => Some((Fatal(s1), Void))
        case Some(es) => ArrayGet(s1, ElemAt(es, ToInt(p)), e.path[1..], fuel)
  }

  function ArrayGet(s: State, v: Value, path: seq<Expr>, fuel: nat): Option<(State, Value)>
    decreases fuel, 1, path, 0
  {
    if path == [] then Some((s, v))
    else if !v.Arr? then Some((s, Void))
    else
      var (s1, p) :- Eval(s, path[0], fuel);
      ArrayGet(s1, ElemAt(v.elems, ToInt(p)), path[1..], fuel)
  }

  function EvalNot(s: State, e: Expr, fuel: nat): Option<(State, Value)>
    requires e.Not?
    decreases fuel, 1, e, 0
  {
    var (s1, v) :- Eval(s, e.inner, fuel);
    Some((s1, Bool(!ToBool(v))))
  }

  function EvalInfix(s: State, e: Expr, fuel: nat): Option<(State, Value)>
    requires e.Infix?
    decreases fuel, 1, e, 0
  {
    var (s1, a) :- Eval(s, e.left, fuel);
    var (s2, b) :- Eval(s1, e.right, fuel);
    var r := Apply(e.op, a, b);
    Some(if r.Some? then (s2, r.value) else (Fatal(s2), Int(0)))
  }

  function EvalAnd(s: State, e: Expr, fuel: nat): Option<(State, Value)>
    requires e.BoolAnd?
    decreases fuel, 1, e, 0
  {
    var (s1, a) :- Eval(s, e.left, fuel);
    if !ToBool(a) then Some((s1, Bool(false)))
    else
      var (s2, b) :- Eval(s1, e.right, fuel);
      Some((s2, Bool(ToBool(b))))
  }

  function EvalOr(s: State, e: Expr, fuel: nat): Option<(State, Value)>
    requires e.BoolOr?
    decreases fuel, 1, e, 0
  {
    var (s1, a) :- Eval(s, e.left, fuel);
    if ToBool(a) then Some((s1, Bool(true)))
    else
      var (s2, b) :- Eval(s1, e.right, fuel);
      Some((s2, Bool(ToBool(b))))
  }

  function EvalCond(s: State, e: Expr, fuel: nat): Option<(State, Value)>
    requires e.Cond?
    decreases fuel, 1, e, 0
  {
    var (s1, a) :- Eval(s, e.test, fuel);
    Eval(s1, if ToBool(a) then e.thn else e.els, fuel)
  }

  function EvalCall(s: State, e: Expr, fuel: nat): Option<(State, Value)>
    requires e.Call?
    decreases fuel, 1, e, 0
  {
    match Callee(s.store.Lookup(e.name))
    case None => Some((Fatal(s), Void))
    case Some(f) =>
      var (s1, vals) :- EvalArgs(s, e.args, fuel);
      var (s2, v) :- CallFunction(s1.(store := s1.store.Enter()), f, vals, fuel);
      Some((s2.(store := UpdateArgs(s2.store, f.params, e.args)), v))
  }

  // The declaration is a statement, so it is skipped while a return is pending.
  function EvalLambda(s: State, f: Func): (State, Value) {
    var m := s.store.Enter();
    var m1 := if s.ret then m else m.Add(LAMBDA, Function(f));
    match m1.Lookup(LAMBDA)
    case Some(Function(g)) => (s.(store := m1.Leave()), Fn(g))
    case _ => (Fatal(s.(store := m1)), Void)
  }

  function EvalArgs(s: State, args: seq<Expr>, fuel: nat): (r: Option<(State, seq<Value>)>)
    ensures r.Some? ==> |r.value.1| == |args|
    decreases fuel, 1, args, 0
  {
    if args == [] then Some((s, []))
    else
      var (s1, v) :- Eval(s, args[0], fuel);
      var (s2, vals) :- EvalArgs(s1, args[1..], fuel);
      Some((s2, [v] + vals))
  }

  function CallFunction(s: State, f: Func, vals: seq<Value>, fuel: nat): Option<(State, Value)>
    decreases fuel, 0, 1
  {
    if s.exc || s.exit then Some((s, Void))
    else
      match Accept(f, vals)
      case None => Some((Fatal(s), Void))
      case Some(args) =>
        var (t, v) :- RunFunc(s, f, args, fuel);
        Some(Deliver(t, f.result, v))
  }

  // The result is held against its declared type unless something is pending.
  function Deliver(t: State, want: Want, v: Value): (State, Value) {
    if t.exc || t.exit then (t, v)
    else
      match Fit(v, want)
      case Some(w) => (t, w)
      case None => (Fatal(t), v)
  }

  function RunFunc(s: State, f: Func, vals: seq<Value>, fuel: nat): Option<(State, Value)>
    requires |f.params| <= |vals|
    decreases fuel, 0, 0
  {
    if s.funcs + 1 < 1 then Some((Fatal(s.(funcs := s.funcs + 1)), Void))
    else if fuel == 0 then None
    else
      var s0 := StartFunc(s, f, vals);
      var s1 :- Exec(s0, f.body, s0.cookie, fuel - 1);
      Some(EndFunc(s1, s0.cookie))
  }

  function StartFunc(s: State, f: Func, vals: seq<Value>): State
    requires |f.params| <= |vals|
  {
    s.(funcs := s.funcs + 1, retval := None, cookie := s.cookie + 1,
       store := BindParams(s.store, f.params, vals))
  }

  // The result counts only if this very call stored it.
  function EndFunc(s: State, cookie: int): (State, Value) {
    var v := if s.retCookie != cookie || s.retval.None? then Void else s.retval.value;
    (s.(ret := false, cont := false, brk := false, retval := Some(v), funcs := s.funcs - 1), v)
  }

  // ---- statements ----

  // While a return, exception or exit is pending, nothing is executed.
  function Exec(s: State, st: Stmt, cookie: int, fuel: nat): (r: Option<State>)
    ensures s.ret || s.exc || s.exit ==> r == Some(s)
    decreases fuel, 2, st, 3
  {
    if s.ret || s.exc || s.exit then Some(s) else
    match st
    case Nop => Some(s)
    case Block(body) => ExecList(s, body, cookie, fuel)
    case If(_, _) => ExecIf(s, st, cookie, fuel)
    case IfElse(_, _, _) => ExecIf(s, st, cookie, fuel)
    case While(_, _) => ExecLoops(s, st, cookie, fuel)
    case Do(_, _) => ExecLoops(s, st, cookie, fuel)
    case For(_, _, _, _) => ExecLoops(s, st, cookie, fuel)
    case Continue => Some(if s.loops != 0 then s.(cont := true) else s)
    case Break => Some(if s.loops != 0 then s.(cont := true, brk := true) else s)
    case Return(_) => ExecReturn(s, st, cookie, fuel)
    case ExprStmt(e) =>
      var (s1, _) :- Eval(s, e, fuel);
      Some(s1)
    case FuncDef(name, f) => Some(s.(store := s.store.Add(name, Function(f))))
    case Switch(_, _) => ExecSwitch(s, st, cookie, fuel)
    case Try(_, _, _) => ExecTry(s, st, cookie, fuel)
    case Throw(e) =>
      var (s1, v) :- Eval(s, e, fuel);
      Some(Raise(s1, v))
  }

  function ExecIf(s: State, st: Stmt, cookie: int, fuel: nat): Option<State>
    requires st.If? || st.IfElse?
    decreases fuel, 2, st, 2
  {
    var (s1, v) :- Eval(s, st.test, fuel);
    if ToBool(v) then Exec(s1, st.thn, cookie, fuel)
    else if st.IfElse? then Exec(s1, st.els, cookie, fuel)
    else Some(s1)
  }

  function ExecReturn(s: State, st: Stmt, cookie: int, fuel: nat): Option<State>
    requires st.Return?
    decreases fuel, 2, st, 2
  {
    if s.funcs == 0 then Some(s)
    else
      var (s1, v) :- if st.result.Some? then Eval(s, st.result.value, fuel) else Some((s, Void));
      Some(s1.(retval := Some(v), retCookie := cookie, ret := true, cont := true, brk := true))
  }

  function ExecTry(s: State, st: Stmt, cookie: int, fuel: nat): Option<State>
    requires st.Try?
    decreases fuel, 2, st, 2
  {
    if s.tries + 1 < 1 then Some(Fatal(s.(tries := s.tries + 1)))
    else
      var s1 :- Exec(s.(tries := s.tries + 1), st.tried, cookie, fuel);
      if s1.exc then Exec(Catch(s1, st.name), st.handler, cookie, fuel)
      else Some(s1.(tries := s1.tries - 1))
  }

  function Catch(s: State, name: string): State {
    s.(tries := s.tries - 1, exc := false, store := s.store.Add(name, Var(s.excVal)))
  }

  function Raise(s: State, v: Value): State {
    if s.tries == 0 then Fatal(s.(excVal := Void)) else s.(excVal := v, exc := true)
  }

  function ExecList(s: State, body: seq<Stmt>, cookie: int, fuel: nat): Option<State>
    decreases fuel, 2, body, 1
  {
    if s.ret || s.exit then Some(s) else ExecSeq(s, body, cookie, fuel)
  }

  function ExecSeq(s: State, body: seq<Stmt>, cookie: int, fuel: nat): Option<State>
    decreases fuel, 2, body, 0
  {
    if body == [] then Some(s)
    else
      var s1 :- Exec(s, body[0], cookie, fuel);
      if s1.cont || s1.ret || s1.exc || s1.exit then Some(s1)
      else ExecSeq(s1, body[1..], cookie, fuel)
  }

  // ---- loops ----

  function ExecLoops(s: State, st: Stmt, cookie: int, fuel: nat): Option<State>
    requires st.While? || st.For? || st.Do?
    decreases fuel, 2, st, 2
  {
    if s.loops + 1 < 1 then Some(Fatal(s.(loops := s.loops + 1)))
    else
      var s0 := s.(loops := s.loops + 1);
      var s1 :- match st
                case While(_, _) => ExecLoop(s0, st, cookie, fuel)
                case Do(_, _) => ExecDo(s0, st, false, cookie, fuel)
                case For(init, _, _, _) =>
                  var (s1, _) :- Eval(s0, init, fuel);
                  ExecLoop(s1, st, cookie, fuel);
      Some(s1.(brk := false, loops := s1.loops - 1))
  }

  // A round entered while an exception or exit is pending does nothing and costs no fuel.
  function FuelAfter(s: State, fuel: nat): (r: Option<nat>)
    ensures r.Some? ==> r.value == fuel || r.value + 1 == fuel
  {
    if s.exc || s.exit then Some(fuel)
    else if fuel == 0 then None
    else Some(fuel - 1)
  }

  function Rank(s: State): nat {
    if s.exc || s.exit then 0 else 1
  }

  // The test-first loop shared by while and for.
  function ExecLoop(s: State, st: Stmt, cookie: int, fuel: nat): Option<State>
    requires st.While? || st.For?
    decreases fuel, 2, st, 1, Rank(s)
  {
    var (s1, v) :- Eval(s, st.test, fuel);
    if !ToBool(v) then Some(s1)
    else
      var left :- FuelAfter(s1, fuel);
      var s2 :- Exec(s1, st.loop, cookie, left);
      var s3 := s2.(cont := false);
      if s3.brk then Some(s3)
      else if st.For? then
        var (s4, _) :- Eval(s3, st.guard, left);
        ExecLoop(s4, st, cookie, left)
      else ExecLoop(s3, st, cookie, left)
  }

  // The test-last loop; last is the outcome of the latest test.
  function ExecDo(s: State, st: Stmt, last: bool, cookie: int, fuel: nat): Option<State>
    requires st.Do?
    decreases fuel, 2, st, 1, Rank(s)
  {
    var s1 :- Exec(s, st.loop, cookie, fuel);
    var (s2, again) :- DoTest(s1, st, last, fuel);
    var s3 := s2.(cont := false);
    if !again || s3.brk then Some(s3)
    else
      var left :- FuelAfter(s3, fuel);
      ExecDo(s3, st, again, cookie, left)
  }

  // The test is skipped after a break, and runs before the continue flag is cleared.
  function DoTest(s: State, st: Stmt, last: bool, fuel: nat): (r: Option<(State, bool)>)
    requires st.Do?
    ensures s.exc || s.exit ==> r == Some((s, s.brk && last))
    decreases fuel, 2, st, 0
  {
    if s.brk then Some((s, last))
    else
      var (s1, v) :- Eval(s, st.test, fuel);
      Some((s1, ToBool(v)))
  }

  // ---- switch ----

  function ExecSwitch(s: State, st: Stmt, cookie: int, fuel: nat): Option<State>
    requires st.Switch?
    decreases fuel, 2, st, 2
  {
    var (s1, v) :- Eval(s, st.e, fuel);
    var (s2, handled) :- ExecCases(s1, v, st.cases, false, cookie, fuel);
    var def := LastDefault(st.cases);
    if !handled && def.Some? then ExecList(s2, def.value, cookie, fuel) else Some(s2)
  }

  // Walk the labels; go is set once one has matched.  The flag returned says whether any did.
  function ExecCases(s: State, v: Value, cases: seq<Case>, go: bool, cookie: int, fuel: nat)
    : Option<(State, bool)>
    decreases fuel, 2, cases, 1
  {
    if cases == [] then Some((s, go))
    else if go then ExecGroup(s, v, cases, cookie, fuel)
    else if cases[0].Default? then ExecCases(s, v, cases[1..], false, cookie, fuel)
    else
      var (s1, g) :- Eval(s, cases[0].guard, fuel);
      if SameValue(v, g) then ExecGroup(s1, v, cases, cookie, fuel)
      else ExecCases(s1, v, cases[1..], false, cookie, fuel)
  }

  // The first group runs, and the rest after it when it falls through.
  function ExecGroup(s: State, v: Value, cases: seq<Case>, cookie: int, fuel: nat)
    : Option<(State, bool)>
    requires cases != []
    decreases fuel, 2, cases, 0
  {
    var s1 :- ExecList(s, cases[0].body, cookie, fuel);
    if cases[0].Default? || !cases[0].thru then Some((s1, true))
    else ExecCases(s1, v, cases[1..], true, cookie, fuel)
  }
}
