/** What the language manual promises, with no flags: every construct has an explicit outcome,
    a return always ends its function, a break leaves the innermost loop, and a throw goes to
    the innermost open try, across calls.  Fuel counts as in FlagMachine. */
module Structured {
  import opened Wrappers
  import opened Language

  datatype Result = Ok(v: Value) | Thrown(v: Value) | Exited

  datatype Outcome = Normal | Broke | Continued | Returned(v: Value) | Threw(v: Value) | Quit

  // What surrounds a statement: a loop of the same function, a function, an open try.
  datatype Context = Context(inLoop: bool, inFunc: bool, inTry: bool)

  function Abrupt(r: Result): Outcome {
    match r
    case Ok(_) => Normal
    case Thrown(v) => Threw(v)
    case Exited => Quit
  }

  // ---- expressions ----

  function Compute(m: Store, e: Expr, inTry: bool, fuel: nat): Option<(Store, Result)>
    decreases fuel, 1, e, 1
  {
    match e
    case Const(v) => Some((m, Ok(v)))
    case Ref(name) => Some((m, Ok(RefValue(m.Lookup(name)))))
    case Assign(_, _) => ComputeAssign(m, e, inTry, fuel)
    case AssignElem(_, _, _) => ComputeAssignElem(m, e, inTry, fuel)
    case Elem(_, _) => ComputeElem(m, e, inTry, fuel)
    case Not(_) => ComputeNot(m, e, inTry, fuel)
    case Infix(_, _, _) => ComputeInfix(m, e, inTry, fuel)
    case BoolAnd(_, _) => ComputeAnd(m, e, inTry, fuel)
    case BoolOr(_, _) => ComputeOr(m, e, inTry, fuel)
    case Cond(_, _, _) => ComputeCond(m, e, inTry, fuel)
    case Call(_, _) => ComputeCall(m, e, inTry, fuel)
    case PassRef(inner) => Compute(m, inner, inTry, fuel)
    case Lambda(f) => Some((m, Ok(Fn(f))))
  }

  function ComputeAssign(m: Store, e: Expr, inTry: bool, fuel: nat): Option<(Store, Result)>
    requires e.Assign?
    decreases fuel, 1, e, 0
  {
    var (m1, r) :- Compute(m, e.inner, inTry, fuel);
    Some((if r.Ok? then m1.Add(e.name, EntryOf(r.v)) else m1, r))
  }

  // The value, then all indices, then one write.
  function ComputeAssignElem(m: Store, e: Expr, inTry: bool, fuel: nat): Option<(Store, Result)>
    requires e.AssignElem?
    decreases fuel, 1, e, 0
  {
    if e.path == [] then Some((m, Exited))
    else
      var (m1, r) :- Compute(m, e.inner, inTry, fuel);
      if !r.Ok? then Some((m1, r))
      else
        var (m2, vals, stop) :- ComputeAll(m1, e.path, inTry, fuel);
        Some(if stop.Some? then (m2, stop.value) else (Assigned(m2, e.name, Positions(vals), r.v), r))
  }

  // The array changes where it stands, and is then the innermost table's own.
  function Assigned(m: Store, name: string, path: seq<int>, v: Value): Store {
    if path == [] then m
    else
      var h := m.HomeOf(name);
      var w := Arr(SetPath(if h.Nowhere? then [] else m.ArrayIn(h, name).value, path, v));
      (if h.Nowhere? then m else m.Write(h, name, w)).Add(name, Var(w))
  }

  function ComputeElem(m: Store, e: Expr, inTry: bool, fuel: nat): Option<(Store, Result)>
    requires e.Elem?
    decreases fuel, 1, e, 0
  {
    if e.path == [] then Some((m, Exited))
    else
      var h := m.HomeOf(e.name);
      if h.Nowhere? then Some((m, Ok(Void)))
      else
        var (m1, r) :- Compute(m, e.path[0], inTry, fuel);
        if !r.Ok? then Some((m1, r))
        else
          var es := m1.ArrayIn(h, e.name);
          ComputeGet(m1, ElemAt(if es.Some? then es.value else [], ToInt(r.v)), e.path[1..], inTry, fuel)
  }

  function ComputeGet(m: Store, v: Value, path: seq<Expr>, inTry: bool, fuel: nat): Option<(Store, Result)>
    decreases fuel, 1, path, 0
  {
    if path == [] then Some((m, Ok(v)))
    else if !v.Arr? then Some((m, Ok(Void)))
    else
      var (m1, r) :- Compute(m, path[0], inTry, fuel);
      if !r.Ok? then Some((m1, r)) else ComputeGet(m1, ElemAt(v.elems, ToInt(r.v)), path[1..], inTry, fuel)
  }

  function ComputeNot(m: Store, e: Expr, inTry: bool, fuel: nat): Option<(Store, Result)>
    requires e.Not?
    decreases fuel, 1, e, 0
  {
    var (m1, r) :- Compute(m, e.inner, inTry, fuel);
    Some((m1, if r.Ok? then Ok(Bool(!ToBool(r.v))) else r))
  }

  function ComputeInfix(m: Store, e: Expr, inTry: bool, fuel: nat): Option<(Store, Result)>
    requires e.Infix?
    decreases fuel, 1, e, 0
  {
    var (m1, a) :- Compute(m, e.left, inTry, fuel);
    if !a.Ok? then Some((m1, a))
    else
      var (m2, b) :- Compute(m1, e.right, inTry, fuel);
      if !b.Ok? then Some((m2, b))
      else
        var r := Apply(e.op, a.v, b.v);
        Some((m2, if r.Some? then Ok(r.value) else Exited))
  }

  function ComputeAnd(m: Store, e: Expr, inTry: bool, fuel: nat): Option<(Store, Result)>
    requires e.BoolAnd?
    decreases fuel, 1, e, 0
  {
    var (m1, a) :- Compute(m, e.left, inTry, fuel);
    if !a.Ok? then Some((m1, a))
    else if !ToBool(a.v) then Some((m1, Ok(Bool(false))))
    else
      var (m2, b) :- Compute(m1, e.right, inTry, fuel);
      Some((m2, if b.Ok? then Ok(Bool(ToBool(b.v))) else b))
  }

  function ComputeOr(m: Store, e: Expr, inTry: bool, fuel: nat): Option<(Store, Result)>
    requires e.BoolOr?
    decreases fuel, 1, e, 0
  {
    var (m1, a) :- Compute(m, e.left, inTry, fuel);
    if !a.Ok? then Some((m1, a))
    else if ToBool(a.v) then Some((m1, Ok(Bool(true))))
    else
      var (m2, b) :- Compute(m1, e.right, inTry, fuel);
      Some((m2, if b.Ok? then Ok(Bool(ToBool(b.v))) else b))
  }

  function ComputeCond(m: Store, e: Expr, inTry: bool, fuel: nat): Option<(Store, Result)>
    requires e.Cond?
    decreases fuel, 1, e, 0
  {
    var (m1, a) :- Compute(m, e.test, inTry, fuel);
    if !a.Ok? then Some((m1, a))
    else Compute(m1, if ToBool(a.v) then e.thn else e.els, inTry, fuel)
  }

  function ComputeCall(m: Store, e: Expr, inTry: bool, fuel: nat): Option<(Store, Result)>
    requires e.Call?
    decreases fuel, 1, e, 0
  {
    match Callee(m.Lookup(e.name))
    case None => Some((m, Exited))
    case Some(f) =>
      var (m1, vals, stop) :- ComputeAll(m, e.args, inTry, fuel);
      if stop.Some? then Some((m1, stop.value))
      else
        var (m2, r) :- InvokeTyped(m1.Enter(), f, vals, inTry, fuel);
        Some((UpdateArgs(m2, f.params, e.args), r))
  }

  // Left to right, stopping at the first argument that throws or exits.
  function ComputeAll(m: Store, args: seq<Expr>, inTry: bool, fuel: nat)
    : (q: Option<(Store, seq<Value>, Option<Result>)>)
    ensures q.Some? && q.value.2.None? ==> |q.value.1| == |args|
    decreases fuel, 1, args, 0
  {
    if args == [] then Some((m, [], None))
    else
      var (m1, r) :- Compute(m, args[0], inTry, fuel);
      if !r.Ok? then Some((m1, [], Some(r)))
      else
        var (m2, vals, stop) :- ComputeAll(m1, args[1..], inTry, fuel);
        Some((m2, [r.v] + vals, stop))
  }

  // Arguments and result are held against the declaration.
  function InvokeTyped(m: Store, f: Func, vals: seq<Value>, inTry: bool, fuel: nat): Option<(Store, Result)>
    decreases fuel, 0, 1
  {
    match Accept(f, vals)
    case None => Some((m, Exited))
    case Some(args) =>
      var (m1, r) :- Invoke(m, f, args, inTry, fuel);
      Some((m1, if r.Ok? then Answer(f.result, r.v) else r))
  }

  function Answer(want: Want, v: Value): Result {
    match Fit(v, want)
    case Some(w) => Ok(w)
    case None => Exited
  }

  function Invoke(m: Store, f: Func, vals: seq<Value>, inTry: bool, fuel: nat): Option<(Store, Result)>
    requires |f.params| <= |vals|
    decreases fuel, 0, 0
  {
    if fuel == 0 then None
    else
      var (m1, o) :- Perform(BindParams(m, f.params, vals), f.body, Context(false, true, inTry), fuel - 1);
      Some((m1, match o
                case Returned(v) => Ok(v)
                case Threw(v) => Thrown(v)
                case Quit => Exited
                case _ => Ok(Void)))
  }

  // ---- statements ----

  function Perform(m: Store, st: Stmt, c: Context, fuel: nat): Option<(Store, Outcome)>
    decreases fuel, 2, st, 3
  {
    match st
    case Nop => Some((m, Normal))
    case Block(body) => PerformAll(m, body, c, fuel)
    case If(_, _) => PerformIf(m, st, c, fuel)
    case IfElse(_, _, _) => PerformIf(m, st, c, fuel)
    case While(_, _) => PerformLoops(m, st, c, fuel)
    case Do(_, _) => PerformLoops(m, st, c, fuel)
    case For(_, _, _, _) => PerformLoops(m, st, c, fuel)
    case Continue => Some((m, if c.inLoop then Continued else Normal))
    case Break => Some((m, if c.inLoop then Broke else Normal))
    case Return(_) => PerformReturn(m, st, c, fuel)
    case ExprStmt(e) =>
      var (m1, r) :- Compute(m, e, c.inTry, fuel);
      Some((m1, Abrupt(r)))
    case FuncDef(name, f) => Some((m.Add(name, Function(f)), Normal))
    case Switch(_, _) => PerformSwitch(m, st, c, fuel)
    case Try(_, _, _) => PerformTry(m, st, c, fuel)
    case Throw(e) =>
      var (m1, r) :- Compute(m, e, c.inTry, fuel);
      Some((m1, if !r.Ok? then Abrupt(r) else if c.inTry then Threw(r.v) else Quit))
  }

  function PerformIf(m: Store, st: Stmt, c: Context, fuel: nat): Option<(Store, Outcome)>
    requires st.If? || st.IfElse?
    decreases fuel, 2, st, 2
  {
    var (m1, r) :- Compute(m, st.test, c.inTry, fuel);
    if !r.Ok? then Some((m1, Abrupt(r)))
    else if ToBool(r.v) then Perform(m1, st.thn, c, fuel)
    else if st.IfElse? then Perform(m1, st.els, c, fuel)
    else Some((m1, Normal))
  }

  function PerformReturn(m: Store, st: Stmt, c: Context, fuel: nat): Option<(Store, Outcome)>
    requires st.Return?
    decreases fuel, 2, st, 2
  {
    if !c.inFunc then Some((m, Normal))
    else if st.result.None? then Some((m, Returned(Void)))
    else
      var (m1, r) :- Compute(m, st.result.value, c.inTry, fuel);
      Some((m1, if r.Ok? then Returned(r.v) else Abrupt(r)))
  }

  function PerformTry(m: Store, st: Stmt, c: Context, fuel: nat): Option<(Store, Outcome)>
    requires st.Try?
    decreases fuel, 2, st, 2
  {
    var (m1, o) :- Perform(m, st.tried, c.(inTry := true), fuel);
    if o.Threw? then Perform(m1.Add(st.name, Var(o.v)), st.handler, c, fuel) else Some((m1, o))
  }

  function PerformAll(m: Store, body: seq<Stmt>, c: Context, fuel: nat): Option<(Store, Outcome)>
    decreases fuel, 2, body, 0
  {
    if body == [] then Some((m, Normal))
    else
      var (m1, o) :- Perform(m, body[0], c, fuel);
      if o.Normal? then PerformAll(m1, body[1..], c, fuel) else Some((m1, o))
  }

  // ---- loops ----

  function PerformLoops(m: Store, st: Stmt, c: Context, fuel: nat): Option<(Store, Outcome)>
    requires st.While? || st.For? || st.Do?
    decreases fuel, 2, st, 2
  {
    match st
    case While(_, _) => Loop(m, st, c, fuel)
    case Do(_, _) => Repeat(m, st, c, fuel)
    case For(init, _, _, _) =>
      var (m1, r) :- Compute(m, init, c.inTry, fuel);
      if r.Ok? then Loop(m1, st, c, fuel) else Some((m1, Abrupt(r)))
  }

  // How a loop body's outcome leaves the loop; None goes round again.
  function LeaveLoop(o: Outcome): Option<Outcome> {
    match o
    case Normal => None
    case Continued => None
    case Broke => Some(Normal)
    case _ => Some(o)
  }

  function Loop(m: Store, st: Stmt, c: Context, fuel: nat): Option<(Store, Outcome)>
    requires st.While? || st.For?
    decreases fuel, 2, st, 1
  {
    var (m1, r) :- Compute(m, st.test, c.inTry, fuel);
    if !r.Ok? || !ToBool(r.v) then Some((m1, Abrupt(r)))
    else if fuel == 0 then None
    else
      var (m2, o) :- Perform(m1, st.loop, c.(inLoop := true), fuel - 1);
      if LeaveLoop(o).Some? then Some((m2, LeaveLoop(o).value)) else NextRound(m2, st, c, fuel - 1)
  }

  function NextRound(m: Store, st: Stmt, c: Context, fuel: nat): Option<(Store, Outcome)>
    requires st.While? || st.For?
    decreases fuel, 2, st, 2
  {
    if st.While? then Loop(m, st, c, fuel)
    else
      var (m1, g) :- Compute(m, st.guard, c.inTry, fuel);
      if g.Ok? then Loop(m1, st, c, fuel) else Some((m1, Abrupt(g)))
  }

  function Repeat(m: Store, st: Stmt, c: Context, fuel: nat): Option<(Store, Outcome)>
    requires st.Do?
    decreases fuel, 2, st, 1
  {
    var (m1, o) :- Perform(m, st.loop, c.(inLoop := true), fuel);
    if LeaveLoop(o).Some? then Some((m1, LeaveLoop(o).value))
    else
      var (m2, r) :- Compute(m1, st.test, c.inTry, fuel);
      if !r.Ok? || !ToBool(r.v) then Some((m2, Abrupt(r)))
      else if fuel == 0 then None
      else Repeat(m2, st, c, fuel - 1)
  }

  // ---- switch ----

  function PerformSwitch(m: Store, st: Stmt, c: Context, fuel: nat): Option<(Store, Outcome)>
    requires st.Switch?
    decreases fuel, 2, st, 2
  {
    var (m1, r) :- Compute(m, st.e, c.inTry, fuel);
    if !r.Ok? then Some((m1, Abrupt(r)))
    else
      var (m2, o, handled) :- PerformCases(m1, r.v, st.cases, false, c, fuel);
      var def := LastDefault(st.cases);
      if o.Normal? && !handled && def.Some? then PerformAll(m2, def.value, c, fuel)
      else Some((m2, o))
  }

  // The label groups: the first match runs, and falls through until a group that ends in break.
  // A default group runs when fallen into; otherwise it waits for the end.
  function PerformCases(m: Store, v: Value, cases: seq<Case>, go: bool, c: Context, fuel: nat)
    : Option<(Store, Outcome, bool)>
    decreases fuel, 2, cases, 1
  {
    if cases == [] then Some((m, Normal, go))
    else if go then PerformGroup(m, v, cases, c, fuel)
    else if cases[0].Default? then PerformCases(m, v, cases[1..], false, c, fuel)
    else
      var (m1, g) :- Compute(m, cases[0].guard, c.inTry, fuel);
      if !g.Ok? then Some((m1, Abrupt(g), false))
      else if SameValue(v, g.v) then PerformGroup(m1, v, cases, c, fuel)
      else PerformCases(m1, v, cases[1..], false, c, fuel)
  }

  function PerformGroup(m: Store, v: Value, cases: seq<Case>, c: Context, fuel: nat)
    : Option<(Store, Outcome, bool)>
    requires cases != []
    decreases fuel, 2, cases, 0
  {
    var (m1, o) :- PerformAll(m, cases[0].body, c, fuel);
    if !o.Normal? || cases[0].Default? || !cases[0].thru then Some((m1, o, true))
    else PerformCases(m1, v, cases[1..], true, c, fuel)
  }
}
