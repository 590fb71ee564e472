/** Element assignment: where the array stays while its indices are evaluated, and what evaluating
    an index without calls or assignments leaves alone. */
module Elements {
  import opened Wrappers
  import opened Language
  import opened FlagMachine
  import opened Safe
  import opened Balance

  // The same tables, but for elements of arrays in the innermost and the global one.
  ghost predicate HomesKept(m: Store, n: Store) {
    && |m.locals| == |n.locals| && m.Below() == n.Below()
    && Skeleton(m.Top()) == Skeleton(n.Top()) && Skeleton(m.globals) == Skeleton(n.globals)
  }

  // Every array is still found where it was.
  lemma HomesFollow(m: Store, n: Store, name: string)
    requires HomesKept(m, n)
    ensures n.HomeOf(name) == m.HomeOf(name)
  {
    SkeletonSays(m.Top(), n.Top());
    SkeletonSays(m.globals, n.globals);
    assert SameButElements(m.Top(), n.Top(), name);
    assert SameButElements(m.globals, n.globals, name);
  }

  // An expression's run that has not quit keeps every array in its place.
  ghost predicate QuietKept(s: State, r: Option<(State, Value)>) {
    r.Some? && !r.value.0.exit ==> HomesKept(s.store, r.value.0.store)
  }

  // ---- expressions without assignments ----

  lemma {:induction false} QuietKeeps(s: State, e: Expr, fuel: nat)
    requires Counting(s) && Quiet(e)
    ensures QuietKept(s, Eval(s, e, fuel))
    decreases fuel, 1, e, 1
  {
    hide EvalElem, EvalInfix, EvalAnd, EvalOr, EvalCond, EvalCall, Skeleton;
    if !(s.exc || s.exit) {
      match e
      case Const(_) =>
      case Ref(_) =>
      case Elem(_, _) => QuietElem(s, e, fuel);
      case Not(inner) => QuietKeeps(s, inner, fuel);
      case Infix(_, _, _) => QuietPair(s, e, fuel);
      case BoolAnd(_, _) => QuietPair(s, e, fuel);
      case BoolOr(_, _) => QuietPair(s, e, fuel);
      case Cond(_, _, _) => QuietCond(s, e, fuel);
      case Call(_, _) => QuietCall(s, e, fuel);
      case Lambda(f) =>
        assert s.store.Enter().Leave().locals == s.store.locals;
        assert s.store.Enter().Add(LAMBDA, Function(f)).Leave().locals == s.store.locals;
    }
  }

  lemma {:induction false} QuietPair(s: State, e: Expr, fuel: nat)
    requires Counting(s) && Quiet(e) && (e.Infix? || e.BoolAnd? || e.BoolOr?)
    ensures e.Infix? ==> QuietKept(s, EvalInfix(s, e, fuel))
    ensures e.BoolAnd? ==> QuietKept(s, EvalAnd(s, e, fuel))
    ensures e.BoolOr? ==> QuietKept(s, EvalOr(s, e, fuel))
    decreases fuel, 1, e, 0
  {
    hide Eval, Skeleton;
    QuietKeeps(s, e.left, fuel);
    EvalBalance(s, e.left, fuel);
    if Eval(s, e.left, fuel).Some? {
      var s1 := Eval(s, e.left, fuel).value.0;
      QuietKeeps(s1, e.right, fuel);
      EvalBalance(s1, e.right, fuel);
    }
  }

  lemma {:induction false} QuietCond(s: State, e: Expr, fuel: nat)
    requires Counting(s) && Quiet(e) && e.Cond?
    ensures QuietKept(s, EvalCond(s, e, fuel))
    decreases fuel, 1, e, 0
  {
    hide Eval, Skeleton;
    QuietKeeps(s, e.test, fuel);
    EvalBalance(s, e.test, fuel);
    if Eval(s, e.test, fuel).Some? {
      var (s1, v) := Eval(s, e.test, fuel).value;
      var next := if ToBool(v) then e.thn else e.els;
      QuietKeeps(s1, next, fuel);
      EvalBalance(s1, next, fuel);
    }
  }

  lemma {:induction false} QuietElem(s: State, e: Expr, fuel: nat)
    requires Counting(s) && Quiet(e) && e.Elem?
    ensures QuietKept(s, EvalElem(s, e, fuel))
    decreases fuel, 1, e, 0
  {
    hide Eval, ArrayGet, Skeleton;
    var h := s.store.HomeOf(e.name);
    if e.path != [] && !h.Nowhere? {
      QuietKeeps(s, e.path[0], fuel);
      EvalBalance(s, e.path[0], fuel);
      if Eval(s, e.path[0], fuel).Some? {
        var (s1, p) := Eval(s, e.path[0], fuel).value;
        var es := s1.store.ArrayIn(h, e.name);
        if es.Some? {
          QuietGet(s1, ElemAt(es.value, ToInt(p)), e.path[1..], fuel);
          GetBalance(s1, ElemAt(es.value, ToInt(p)), e.path[1..], fuel);
        }
      }
    }
  }

  lemma {:induction false} QuietGet(s: State, v: Value, path: seq<Expr>, fuel: nat)
    requires Counting(s) && forall i :: 0 <= i < |path| ==> Quiet(path[i])
    ensures QuietKept(s, ArrayGet(s, v, path, fuel))
    decreases fuel, 1, path, 0
  {
    hide Eval, Skeleton;
    if path != [] && v.Arr? {
      QuietKeeps(s, path[0], fuel);
      EvalBalance(s, path[0], fuel);
      if Eval(s, path[0], fuel).Some? {
        var (s1, p) := Eval(s, path[0], fuel).value;
        QuietGet(s1, ElemAt(v.elems, ToInt(p)), path[1..], fuel);
        GetBalance(s1, ElemAt(v.elems, ToInt(p)), path[1..], fuel);
      }
    }
  }

  lemma {:induction false} QuietCall(s: State, e: Expr, fuel: nat)
    requires Counting(s) && Quiet(e) && e.Call?
    ensures QuietKept(s, EvalCall(s, e, fuel))
    decreases fuel, 1, e, 0
  {
    hide EvalArgs, CallFunction, Skeleton;
    var callee := Callee(s.store.Lookup(e.name));
    if callee.Some? {
      QuietArgs(s, e.args, fuel);
      ArgsBalance(s, e.args, fuel);
      if EvalArgs(s, e.args, fuel).Some? {
        var (s1, vals) := EvalArgs(s, e.args, fuel).value;
        var s2 := s1.(store := s1.store.Enter());
        FunctionBalance(s2, callee.value, vals, fuel);
        if CallFunction(s2, callee.value, vals, fuel).Some? {
          var s3 := CallFunction(s2, callee.value, vals, fuel).value.0;
          NoTargets(s3.store.Leave(), s3.store.Top(), callee.value.params, e.args);
          if !s3.exit { assert s2.store.Below() == s1.store.locals; }
        }
      }
    }
  }

  lemma {:induction false} QuietArgs(s: State, args: seq<Expr>, fuel: nat)
    requires Counting(s) && forall i :: 0 <= i < |args| ==> Quiet(args[i])
    ensures EvalArgs(s, args, fuel).Some? && !EvalArgs(s, args, fuel).value.0.exit ==>
              HomesKept(s.store, EvalArgs(s, args, fuel).value.0.store)
    decreases fuel, 1, args, 0
  {
    hide Eval, Skeleton;
    if args != [] {
      QuietKeeps(s, args[0], fuel);
      EvalBalance(s, args[0], fuel);
      if Eval(s, args[0], fuel).Some? {
        var s1 := Eval(s, args[0], fuel).value.0;
        QuietArgs(s1, args[1..], fuel);
        ArgsBalance(s1, args[1..], fuel);
      }
    }
  }

  // Quiet arguments take nothing back.
  lemma {:induction false} NoTargets(m: Store, frame: Table, params: seq<string>, args: seq<Expr>)
    requires forall i :: 0 <= i < |args| ==> Quiet(args[i])
    ensures WriteBack(m, frame, params, args) == m
    decreases args
  {
    if args != [] && params != [] { NoTargets(m, frame, params[1..], args[1..]); }
  }

  // ---- expressions without assignments and calls ----

  // Nothing happens but that a value comes out, or the program quits.
  ghost predicate Pure(s: State, r: Option<(State, Value)>) {
    r.Some? && (r.value.0 == s || r.value.0.exit)
  }

  lemma {:induction false} PureKeeps(s: State, e: Expr, fuel: nat)
    requires Quiet(e) && CallFree(e)
    ensures Pure(s, Eval(s, e, fuel))
    decreases e, 1
  {
    hide EvalElem, EvalInfix, EvalAnd, EvalOr, EvalCond;
    if !(s.exc || s.exit) {
      match e
      case Const(_) =>
      case Ref(_) =>
      case Elem(_, _) => PureElem(s, e, fuel);
      case Not(inner) => PureKeeps(s, inner, fuel);
      case Infix(_, _, _) => PurePair(s, e, fuel);
      case BoolAnd(_, _) => PurePair(s, e, fuel);
      case BoolOr(_, _) => PurePair(s, e, fuel);
      case Cond(_, _, _) => PureCond(s, e, fuel);
      case Lambda(f) =>
        assert s.store.Enter().Leave().locals == s.store.locals;
        assert s.store.Enter().Add(LAMBDA, Function(f)).Leave().locals == s.store.locals;
    }
  }

  lemma {:induction false} PurePair(s: State, e: Expr, fuel: nat)
    requires Quiet(e) && CallFree(e) && (e.Infix? || e.BoolAnd? || e.BoolOr?)
    ensures e.Infix? ==> Pure(s, EvalInfix(s, e, fuel))
    ensures e.BoolAnd? ==> Pure(s, EvalAnd(s, e, fuel))
    ensures e.BoolOr? ==> Pure(s, EvalOr(s, e, fuel))
    decreases e, 0
  {
    hide Eval;
    PureKeeps(s, e.left, fuel);
    PureKeeps(Eval(s, e.left, fuel).value.0, e.right, fuel);
  }

  lemma {:induction false} PureCond(s: State, e: Expr, fuel: nat)
    requires Quiet(e) && CallFree(e) && e.Cond?
    ensures Pure(s, EvalCond(s, e, fuel))
    decreases e, 0
  {
    hide Eval;
    PureKeeps(s, e.test, fuel);
    var (s1, v) := Eval(s, e.test, fuel).value;
    PureKeeps(s1, if ToBool(v) then e.thn else e.els, fuel);
  }

  lemma {:induction false} PureElem(s: State, e: Expr, fuel: nat)
    requires Quiet(e) && CallFree(e) && e.Elem?
    ensures Pure(s, EvalElem(s, e, fuel))
    decreases e, 0
  {
    hide Eval, ArrayGet;
    var h := s.store.HomeOf(e.name);
    if e.path != [] && !h.Nowhere? {
      PureKeeps(s, e.path[0], fuel);
      var (s1, p) := Eval(s, e.path[0], fuel).value;
      var es := s1.store.ArrayIn(h, e.name);
      if es.Some? { PureGet(s1, ElemAt(es.value, ToInt(p)), e.path[1..], fuel); }
    }
  }

  lemma {:induction false} PureGet(s: State, v: Value, path: seq<Expr>, fuel: nat)
    requires forall i :: 0 <= i < |path| ==> Quiet(path[i]) && CallFree(path[i])
    ensures Pure(s, ArrayGet(s, v, path, fuel))
    decreases path, 0
  {
    hide Eval;
    if path != [] && v.Arr? {
      PureKeeps(s, path[0], fuel);
      var (s1, p) := Eval(s, path[0], fuel).value;
      PureGet(s1, ElemAt(v.elems, ToInt(p)), path[1..], fuel);
    }
  }
}
