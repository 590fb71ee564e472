/** Where the flags and the structured semantics can part, as a check on the program text.
    Each clause of SafeStmt and SafeExpr excludes one construct for which module Deviations gives
    a statement with a different outcome. */
module Safe {
  import opened Wrappers
  import opened Language
  import opened Structured

  // No call anywhere in the expression, so nothing in it can throw.
  predicate CallFree(e: Expr) {
    match e
    case Const(_) => true
    case Ref(_) => true
    case Assign(_, inner) => CallFree(inner)
    case AssignElem(_, path, inner) => CallFree(inner) && forall i :: 0 <= i < |path| ==> CallFree(path[i])
    case Elem(_, path) => forall i :: 0 <= i < |path| ==> CallFree(path[i])
    case Not(inner) => CallFree(inner)
    case Infix(_, left, right) => CallFree(left) && CallFree(right)
    case BoolAnd(left, right) => CallFree(left) && CallFree(right)
    case BoolOr(left, right) => CallFree(left) && CallFree(right)
    case Cond(test, thn, els) => CallFree(test) && CallFree(thn) && CallFree(els)
    case Call(_, _) => false
    case PassRef(inner) => CallFree(inner)
    case Lambda(_) => true
  }

  // No assignment in the expression, and nothing passed with &: its value may change elements of
  // global arrays, in functions it calls, and nothing else of its own scope.
  predicate Quiet(e: Expr) {
    match e
    case Const(_) => true
    case Ref(_) => true
    case Assign(_, _) => false
    case AssignElem(_, _, _) => false
    case Elem(_, path) => forall i :: 0 <= i < |path| ==> Quiet(path[i])
    case Not(inner) => Quiet(inner)
    case Infix(_, left, right) => Quiet(left) && Quiet(right)
    case BoolAnd(left, right) => Quiet(left) && Quiet(right)
    case BoolOr(left, right) => Quiet(left) && Quiet(right)
    case Cond(test, thn, els) => Quiet(test) && Quiet(thn) && Quiet(els)
    case Call(_, args) => forall i :: 0 <= i < |args| ==> Quiet(args[i])
    case PassRef(_) => false
    case Lambda(_) => true
  }

  // No continue of the statement's own, so a loop around it is never continued.
  predicate NoContinue(st: Stmt)
    decreases st, 1
  {
    match st
    case Continue => false
    case Block(body) => NoContinues(body)
    case If(_, thn) => NoContinue(thn)
    case IfElse(_, thn, els) => NoContinue(thn) && NoContinue(els)
    case Switch(_, cases) => forall i :: 0 <= i < |cases| ==> NoContinues(cases[i].body)
    case Try(body, _, handler) => NoContinue(body) && NoContinue(handler)
    case _ => true
  }

  predicate NoContinues(body: seq<Stmt>)
    decreases body, 0
  {
    forall i :: 0 <= i < |body| ==> NoContinue(body[i])
  }

  // Where a statement stands: any says that the program has a try somewhere, inFunc that a
  // function is around, depth counts the loops of the same function, jumps says that break and
  // continue may occur, tried that a try of the same function is open.
  datatype Place = Place(any: bool, inFunc: bool, depth: nat, jumps: bool, tried: bool) {
    // A try may be open here, this function's own or a caller's.
    predicate Open() { any && (inFunc || tried) }

    function InLoop(): Place { this.(depth := depth + 1, jumps := true) }

    // A group that falls through to another one has no break or continue of its own, unless
    // nothing is around that they could leave.
    function InGroup(cases: seq<Case>): Place
      requires cases != []
    {
      this.(jumps := jumps && (|cases| == 1 || cases[0].Default? || !cases[0].thru || (depth == 0 && !inFunc)))
    }
  }

  function FunctionPlace(any: bool): Place {
    Place(any, true, 0, false, false)
  }

  function ScriptPlace(any: bool): Place {
    Place(any, false, 0, true, false)
  }

  predicate SafeValue(v: Value, any: bool) {
    match v
    case Arr(elems) => forall i :: 0 <= i < |elems| ==> SafeValue(elems[i], any)
    case Fn(f) => SafeFunc(f, any)
    case _ => true
  }

  // A function body starts outside every loop and every try of its own.
  predicate SafeFunc(f: Func, any: bool) {
    SafeStmt(f.body, FunctionPlace(any))
  }

  // Under an open try a division's operands are call-free: after a throw its divisor would read
  // as zero.  An index leaves the array where it is, and one that is evaluated while an element
  // is out of it calls nothing.
  predicate SafeExpr(e: Expr, any: bool, open: bool) {
    match e
    case Const(v) => SafeValue(v, any)
    case Ref(_) => true
    case Assign(_, inner) => SafeExpr(inner, any, open)
    case AssignElem(_, path, inner) =>
      && SafeExpr(inner, any, open)
      && (forall i :: 0 <= i < |path| ==> SafeExpr(path[i], any, open) && Quiet(path[i]))
      && (forall i :: 0 < i < |path| ==> CallFree(path[i]))
    case Elem(_, path) =>
      && (forall i :: 0 <= i < |path| ==> SafeExpr(path[i], any, open))
      && (path != [] ==> Quiet(path[0]))
    case Not(inner) => SafeExpr(inner, any, open)
    case Infix(op, left, right) =>
      && SafeExpr(left, any, open) && SafeExpr(right, any, open)
      && ((op.Div? || op.Mod?) && open ==> CallFree(left) && CallFree(right))
    case BoolAnd(left, right) => SafeExpr(left, any, open) && SafeExpr(right, any, open)
    case BoolOr(left, right) => SafeExpr(left, any, open) && SafeExpr(right, any, open)
    case Cond(test, thn, els) => SafeExpr(test, any, open) && SafeExpr(thn, any, open) && SafeExpr(els, any, open)
    case Call(_, args) => forall i :: 0 <= i < |args| ==> SafeExpr(args[i], any, open)
    case PassRef(inner) => SafeExpr(inner, any, open)
    case Lambda(f) => SafeFunc(f, any)
  }

  // A return outside every function does nothing, and a do loop whose body has no continue may
  // test what it likes.
  predicate SafeStmt(st: Stmt, p: Place)
    decreases st, 1
  {
    match st
    case Nop => true
    case Block(body) => SafeAll(body, p)
    case If(test, thn) => SafeExpr(test, p.any, p.Open()) && SafeStmt(thn, p)
    case IfElse(test, thn, els) => SafeExpr(test, p.any, p.Open()) && SafeStmt(thn, p) && SafeStmt(els, p)
    case While(test, loop) => SafeExpr(test, p.any, p.Open()) && SafeStmt(loop, p.InLoop())
    case Do(loop, test) =>
      SafeExpr(test, p.any, p.Open()) && SafeStmt(loop, p.InLoop()) && (CallFree(test) || NoContinue(loop))
    case For(init, test, guard, loop) =>
      && SafeExpr(init, p.any, p.Open()) && SafeExpr(test, p.any, p.Open()) && SafeExpr(guard, p.any, p.Open())
      && SafeStmt(loop, p.InLoop())
    case Continue => p.jumps
    case Break => p.jumps
    case Return(result) =>
      p.inFunc ==>
        && p.depth <= 1
        && (result.Some? ==> SafeExpr(result.value, p.any, p.Open()) && (p.tried ==> CallFree(result.value)))
    case ExprStmt(e) => SafeExpr(e, p.any, p.Open())
    case FuncDef(_, f) => SafeFunc(f, p.any)
    case Switch(e, cases) => SafeExpr(e, p.any, p.Open()) && SafeCases(cases, p)
    case Try(body, _, handler) => p.any && SafeStmt(body, p.(tried := true)) && SafeStmt(handler, p)
    case Throw(e) => SafeExpr(e, p.any, p.Open()) && (p.Open() ==> CallFree(e))
  }

  predicate SafeAll(body: seq<Stmt>, p: Place)
    decreases body, 0
  {
    forall i :: 0 <= i < |body| ==> SafeStmt(body[i], p)
  }

  predicate SafeCases(cases: seq<Case>, p: Place)
    decreases cases, 0
  {
    cases == []
    || (&& (cases[0].Case? ==> SafeExpr(cases[0].guard, p.any, p.Open()))
        && SafeAll(cases[0].body, p.InGroup(cases))
        && SafeCases(cases[1..], p))
  }

  predicate SafeEntry(entry: Entry, any: bool) {
    match entry
    case Var(v) => SafeValue(v, any)
    case Function(f) => SafeFunc(f, any)
  }

  ghost predicate SafeTable(t: Table, any: bool) {
    forall name :: name in t ==> SafeEntry(t[name], any)
  }

  ghost predicate SafeStore(m: Store, any: bool) {
    && SafeTable(m.globals, any)
    && forall i :: 0 <= i < |m.locals| ==> SafeTable(m.locals[i], any)
  }

  lemma LookupSafe(m: Store, name: string, any: bool)
    requires SafeStore(m, any)
    ensures m.Lookup(name).Some? ==> SafeEntry(m.Lookup(name).value, any)
  {
  }

  lemma AddSafe(m: Store, name: string, entry: Entry, any: bool)
    requires SafeStore(m, any) && SafeEntry(entry, any)
    ensures SafeStore(m.Add(name, entry), any)
  {
  }

  lemma ArraySafe(m: Store, h: Home, name: string, any: bool)
    requires SafeStore(m, any) && m.ArrayIn(h, name).Some?
    ensures SafeValue(Arr(m.ArrayIn(h, name).value), any)
  {
    assert SafeEntry(m.TableOf(h)[name], any);
  }

  lemma {:induction false} SetPathSafe(elems: seq<Value>, path: seq<int>, v: Value, any: bool)
    requires path != [] && SafeValue(Arr(elems), any) && SafeValue(v, any)
    ensures SafeValue(Arr(SetPath(elems, path, v)), any)
    decreases |path|
  {
    if |path| > 1 { SetPathSafe(ElemsOf(ElemAt(elems, path[0])), path[1..], v, any); }
  }

  lemma WriteSafe(m: Store, h: Home, name: string, v: Value, any: bool)
    requires SafeStore(m, any) && SafeValue(v, any) && m.ArrayIn(h, name).Some?
    ensures SafeStore(m.Write(h, name, v), any)
  {
    hide SafeValue;
    assert SafeEntry(Var(v), any);
  }

  lemma AssignedSafe(m: Store, name: string, path: seq<int>, v: Value, any: bool)
    requires SafeStore(m, any) && SafeValue(v, any)
    ensures SafeStore(Assigned(m, name, path, v), any)
  {
    hide SafeStore, SetPath;
    if path != [] {
      var h := m.HomeOf(name);
      if !h.Nowhere? { ArraySafe(m, h, name, any); }
      var elems := if h.Nowhere? then [] else m.ArrayIn(h, name).value;
      var w := Arr(SetPath(elems, path, v));
      SetPathSafe(elems, path, v, any);
      if !h.Nowhere? { WriteSafe(m, h, name, w, any); }
      AddSafe(if h.Nowhere? then m else m.Write(h, name, w), name, Var(w), any);
    }
  }

  lemma {:induction false} BindSafe(m: Store, params: seq<string>, vals: seq<Value>, any: bool)
    requires SafeStore(m, any) && |params| <= |vals|
    requires forall i :: 0 <= i < |vals| ==> SafeValue(vals[i], any)
    ensures SafeStore(BindFrom(m, params, vals), any)
    decreases params
  {
    if params != [] {
      AddSafe(m, params[0], Var(vals[0]), any);
      BindSafe(m.Add(params[0], Var(vals[0])), params[1..], vals[1..], any);
    }
  }

  lemma {:induction false} WriteBackSafe(m: Store, frame: Table, params: seq<string>, args: seq<Expr>, any: bool)
    requires SafeStore(m, any) && SafeTable(frame, any)
    ensures SafeStore(WriteBack(m, frame, params, args), any)
    decreases args
  {
    if args != [] && params != [] {
      var m1 := match RefTarget(args[0])
        case Some(name) => if params[0] in frame then m.Add(name, frame[params[0]]) else m
        case None => m;
      WriteBackSafe(m1, frame, params[1..], args[1..], any);
    }
  }

  // A cast leads to no function that was not there before.
  lemma FitSafe(v: Value, want: Want, any: bool)
    requires SafeValue(v, any)
    ensures Fit(v, want).Some? ==> SafeValue(Fit(v, want).value, any)
  {
  }

  lemma {:induction false} FitAllSafe(vals: seq<Value>, wants: seq<Want>, any: bool)
    requires forall i :: 0 <= i < |vals| ==> SafeValue(vals[i], any)
    ensures FitAll(vals, wants).Some? ==>
              forall i :: 0 <= i < |FitAll(vals, wants).value| ==> SafeValue(FitAll(vals, wants).value[i], any)
    decreases vals
  {
    if vals != [] && wants != [] {
      FitSafe(vals[0], wants[0], any);
      FitAllSafe(vals[1..], wants[1..], any);
    }
  }

  // ---- a loop is continued by a continue in its body only ----

  // The outcome is none that would continue a loop.
  ghost predicate Ends(q: Option<(Store, Outcome)>) {
    q.Some? ==> !q.value.1.Continued?
  }

  lemma {:induction false} NeverContinued(m: Store, st: Stmt, c: Context, fuel: nat)
    requires NoContinue(st)
    ensures Ends(Perform(m, st, c, fuel))
    decreases fuel, st, 2
  {
    hide Compute, PerformAll, PerformSwitch, Loop, Repeat;
    match st
    case Block(body) => ListNeverContinued(m, body, c, fuel);
    case If(test, thn) =>
      var r := Compute(m, test, c.inTry, fuel);
      if r.Some? { NeverContinued(r.value.0, thn, c, fuel); }
    case IfElse(test, thn, els) =>
      var r := Compute(m, test, c.inTry, fuel);
      if r.Some? {
        NeverContinued(r.value.0, thn, c, fuel);
        NeverContinued(r.value.0, els, c, fuel);
      }
    case Try(tried, name, handler) =>
      NeverContinued(m, tried, c.(inTry := true), fuel);
      var q := Perform(m, tried, c.(inTry := true), fuel);
      if q.Some? && q.value.1.Threw? { NeverContinued(q.value.0.Add(name, Var(q.value.1.v)), handler, c, fuel); }
    case Switch(_, _) => SwitchNeverContinued(m, st, c, fuel);
    case While(_, _) => LoopNeverContinued(m, st, c, fuel);
    case For(init, _, _, _) =>
      var r := Compute(m, init, c.inTry, fuel);
      if r.Some? { LoopNeverContinued(r.value.0, st, c, fuel); }
    case Do(_, _) => RepeatNeverContinued(m, st, c, fuel);
    case _ =>
  }

  lemma {:induction false} ListNeverContinued(m: Store, body: seq<Stmt>, c: Context, fuel: nat)
    requires NoContinues(body)
    ensures Ends(PerformAll(m, body, c, fuel))
    decreases fuel, body, 1
  {
    hide Perform;
    if body != [] {
      NeverContinued(m, body[0], c, fuel);
      var q := Perform(m, body[0], c, fuel);
      if q.Some? { ListNeverContinued(q.value.0, body[1..], c, fuel); }
    }
  }

  lemma {:induction false} LoopNeverContinued(m: Store, st: Stmt, c: Context, fuel: nat)
    requires st.While? || st.For?
    ensures Ends(Loop(m, st, c, fuel))
    decreases fuel, st, 1
  {
    hide Compute, Perform;
    var r := Compute(m, st.test, c.inTry, fuel);
    if r.Some? && fuel > 0 {
      var q := Perform(r.value.0, st.loop, c.(inLoop := true), fuel - 1);
      if q.Some? {
        var m1 := q.value.0;
        LoopNeverContinued(m1, st, c, fuel - 1);
        if st.For? {
          var g := Compute(m1, st.guard, c.inTry, fuel - 1);
          if g.Some? { LoopNeverContinued(g.value.0, st, c, fuel - 1); }
        }
      }
    }
  }

  lemma {:induction false} RepeatNeverContinued(m: Store, st: Stmt, c: Context, fuel: nat)
    requires st.Do?
    ensures Ends(Repeat(m, st, c, fuel))
    decreases fuel, st, 1
  {
    hide Compute, Perform;
    var q := Perform(m, st.loop, c.(inLoop := true), fuel);
    if q.Some? {
      var r := Compute(q.value.0, st.test, c.inTry, fuel);
      if r.Some? && fuel > 0 { RepeatNeverContinued(r.value.0, st, c, fuel - 1); }
    }
  }

  lemma {:induction false} SwitchNeverContinued(m: Store, st: Stmt, c: Context, fuel: nat)
    requires st.Switch? && NoContinue(st)
    ensures Ends(PerformSwitch(m, st, c, fuel))
    decreases fuel, st, 1
  {
    hide Compute, PerformCases, PerformAll;
    var r := Compute(m, st.e, c.inTry, fuel);
    if r.Some? && r.value.1.Ok? {
      CasesNeverContinued(r.value.0, r.value.1.v, st.cases, false, c, fuel);
      var q := PerformCases(r.value.0, r.value.1.v, st.cases, false, c, fuel);
      if q.Some? && LastDefault(st.cases).Some? {
        ListNeverContinued(q.value.0, LastDefault(st.cases).value, c, fuel);
      }
    }
  }

  lemma {:induction false} CasesNeverContinued(m: Store, v: Value, cases: seq<Case>, go: bool, c: Context, fuel: nat)
    requires forall i :: 0 <= i < |cases| ==> NoContinues(cases[i].body)
    ensures PerformCases(m, v, cases, go, c, fuel).Some? ==> !PerformCases(m, v, cases, go, c, fuel).value.1.Continued?
    decreases fuel, cases, 1
  {
    hide Compute, PerformGroup, NoContinues;
    if cases != [] {
      if go {
        GroupNeverContinued(m, v, cases, c, fuel);
      } else if cases[0].Default? {
        CasesNeverContinued(m, v, cases[1..], false, c, fuel);
      } else {
        var g := Compute(m, cases[0].guard, c.inTry, fuel);
        if g.Some? {
          GroupNeverContinued(g.value.0, v, cases, c, fuel);
          CasesNeverContinued(g.value.0, v, cases[1..], false, c, fuel);
        }
      }
    }
  }

  lemma {:induction false} GroupNeverContinued(m: Store, v: Value, cases: seq<Case>, c: Context, fuel: nat)
    requires cases != [] && forall i :: 0 <= i < |cases| ==> NoContinues(cases[i].body)
    ensures PerformGroup(m, v, cases, c, fuel).Some? ==> !PerformGroup(m, v, cases, c, fuel).value.1.Continued?
    decreases fuel, cases, 0
  {
    hide PerformAll, PerformCases, NoContinues;
    ListNeverContinued(m, cases[0].body, c, fuel);
    var q := PerformAll(m, cases[0].body, c, fuel);
    if q.Some? { CasesNeverContinued(q.value.0, v, cases[1..], true, c, fuel); }
  }
}
