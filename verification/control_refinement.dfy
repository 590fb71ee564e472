/** The flag machine refines the structured semantics on every safe program: they run out of
    fuel together, and otherwise agree on the outcome, and on the store unless the program quit. */
module Refinement {
  import opened Wrappers
  import opened Language
  import opened FlagMachine
  import opened Structured
  import opened Safe
  import opened Balance
  import opened Elements

  ghost predicate Calm(s: State) {
    !s.exit && !s.exc && !s.ret && !s.brk && !s.cont
  }

  // What the flags say when an expression has the given structured result.
  ghost predicate Shows(t: State, v: Value, m: Store, r: Result, any: bool) {
    match r
    case Ok(w) => Calm(t) && t.store == m && v == w && SafeValue(w, any)
    case Thrown(w) =>
      t.exc && t.excVal == w && SafeValue(w, any) && t.store == m && t.tries > 0 && Calm(t.(exc := false))
    case Exited => t.exit
  }

  // What the flags say when a statement has the given structured outcome.  A return keeps its
  // break flag inside a loop, and in the function's own try an exception comes with no other flag.
  ghost predicate Reflects(t: State, m: Store, o: Outcome, p: Place, cookie: int) {
    match o
    case Normal => Calm(t) && t.store == m
    case Broke => t.brk && t.cont && Calm(t.(brk := false, cont := false)) && t.store == m
    case Continued => t.cont && Calm(t.(cont := false)) && t.store == m
    case Returned(v) =>
      && t.ret && !t.exc && !t.exit && t.store == m
      && t.retval == Some(v) && t.retCookie == cookie && SafeValue(v, p.any)
      && p.depth <= 1 && (p.depth == 1 ==> t.brk)
    case Threw(v) =>
      && t.exc && t.excVal == v && SafeValue(v, p.any) && !t.exit && t.tries > 0 && t.store == m
      && (p.tried ==> Calm(t.(exc := false)))
    case Quit => t.exit
  }

  // The structured context that a place in the text may have.
  ghost predicate Fits(c: Context, p: Place) {
    && c.inFunc == p.inFunc && (c.inTry ==> p.Open())
    && (p.depth == 0 && !p.inFunc ==> !c.inLoop)
  }

  // A calm state at the given place and in the given structured context, inside a call with the
  // given cookie.
  ghost predicate Ready(s: State, c: Context, p: Place, cookie: int) {
    && Calm(s) && Counting(s) && SafeStore(s.store, p.any) && Fits(c, p)
    && c.inTry == (s.tries > 0)
    && c.inFunc == (s.funcs > 0)
    && (p.jumps ==> c.inLoop == (s.loops > 0))
    && (c.inFunc ==> s.retCookie != cookie && cookie <= s.cookie)
  }

  // The two semantics agree on an expression.
  ghost predicate ExprAgrees(r: Option<(State, Value)>, q: Option<(Store, Result)>, callFree: bool, any: bool) {
    && r.Some? == q.Some?
    && (r.Some? ==> Shows(r.value.0, r.value.1, q.value.0, q.value.1, any) && SafeStore(q.value.0, any))
    && (r.Some? && callFree ==> !q.value.1.Thrown?)
  }

  ghost predicate Jumped(o: Outcome) {
    o.Broke? || o.Continued?
  }

  // The stored return value is still not this call's own.
  ghost predicate NotOwn(t: State, o: Outcome, tried: bool, c: Context, cookie: int) {
    c.inFunc && !o.Quit? && !o.Returned? && (o.Threw? ==> tried) ==> t.retCookie != cookie
  }

  ghost predicate Agreed(t: State, m: Store, o: Outcome, c: Context, p: Place, cookie: int) {
    && Reflects(t, m, o, p, cookie) && SafeStore(m, p.any)
    && (Jumped(o) ==> p.jumps && c.inLoop) && (o.Returned? ==> c.inFunc)
    && NotOwn(t, o, p.tried, c, cookie)
  }

  // The two semantics agree on a statement.
  ghost predicate StmtAgrees(r: Option<State>, q: Option<(Store, Outcome)>, c: Context, p: Place, cookie: int) {
    && r.Some? == q.Some?
    && (r.Some? ==> Agreed(r.value, q.value.0, q.value.1, c, p, cookie))
  }

  // They agree on a loop, whose break flag is still to be cleared.
  ghost predicate LoopAgrees(r: Option<State>, q: Option<(Store, Outcome)>, c: Context, p: Place, cookie: int) {
    && r.Some? == q.Some?
    && (r.Some? ==>
          && !Jumped(q.value.1)
          && Agreed(r.value.(brk := false), q.value.0, q.value.1, c, p.(jumps := false), cookie))
  }

  // They agree on the labels of a switch, and on whether one matched.
  ghost predicate CasesAgree(r: Option<(State, bool)>, q: Option<(Store, Outcome, bool)>, c: Context, p: Place,
                             cookie: int)
  {
    && r.Some? == q.Some?
    && (r.Some? ==>
          var (t, handled) := r.value;
          var (m, o, handled') := q.value;
          && Agreed(t, m, o, c, p, cookie)
          && (!o.Threw? && !o.Quit? ==> handled == handled')
          && (Jumped(o) || o.Returned? ==> handled))
  }

  // ---- a pending exception, exit or return makes what follows inert ----

  lemma InertList(s: State, body: seq<Stmt>, cookie: int, fuel: nat)
    requires s.exc || s.exit || s.ret
    ensures ExecList(s, body, cookie, fuel) == Some(s)
  {
    hide Exec;
  }

  lemma {:induction false} InertCases(s: State, v: Value, cases: seq<Case>, go: bool, cookie: int, fuel: nat)
    requires s.exc || s.exit || (s.ret && go)
    ensures ExecCases(s, v, cases, go, cookie, fuel).Some?
    ensures ExecCases(s, v, cases, go, cookie, fuel).value.0 == s
    decreases cases
  {
    hide ExecList, Eval;
    if cases != [] {
      InertList(s, cases[0].body, cookie, fuel);
      InertCases(s, v, cases[1..], true, cookie, fuel);
      if !go { InertCases(s, v, cases[1..], false, cookie, fuel); }
    }
  }

  lemma {:induction false} InertArgs(s: State, args: seq<Expr>, fuel: nat)
    requires s.exc || s.exit
    ensures EvalArgs(s, args, fuel).Some? && EvalArgs(s, args, fuel).value.0 == s
    decreases args
  {
    hide Eval;
    if args != [] { InertArgs(s, args[1..], fuel); }
  }

  // ---- a do test runs before the continue flag is cleared ----

  // Evaluation neither looks at the continue flag nor changes it.
  ghost predicate Unseen(r: Option<(State, Value)>, r': Option<(State, Value)>, before: bool, b: bool) {
    && r.Some? && r'.Some?
    && r.value.0.cont == before
    && r'.value == (r.value.0.(cont := b), r.value.1)
  }

  lemma {:induction false} ContinueUnseen(s: State, e: Expr, fuel: nat, b: bool)
    requires CallFree(e)
    ensures Unseen(Eval(s, e, fuel), Eval(s.(cont := b), e, fuel), s.cont, b)
    decreases e, 1
  {
    hide EvalInfix, EvalAnd, EvalOr, EvalCond, EvalCall, EvalAssignElem, EvalElem;
    if !s.exc && !s.exit {
      match e
      case Const(_) =>
      case Ref(_) =>
      case Assign(_, inner) => ContinueUnseen(s, inner, fuel, b);
      case AssignElem(_, _, _) => UnseenAssignElem(s, e, fuel, b);
      case Elem(_, _) => UnseenElem(s, e, fuel, b);
      case Not(inner) => ContinueUnseen(s, inner, fuel, b);
      case PassRef(inner) => ContinueUnseen(s, inner, fuel, b);
      case Lambda(_) =>
      case Infix(_, _, _) => UnseenPair(s, e, fuel, b);
      case BoolAnd(_, _) => UnseenPair(s, e, fuel, b);
      case BoolOr(_, _) => UnseenPair(s, e, fuel, b);
      case Cond(_, _, _) => UnseenCond(s, e, fuel, b);
    }
  }

  lemma {:induction false} UnseenPair(s: State, e: Expr, fuel: nat, b: bool)
    requires CallFree(e) && (e.Infix? || e.BoolAnd? || e.BoolOr?)
    ensures e.Infix? ==> Unseen(EvalInfix(s, e, fuel), EvalInfix(s.(cont := b), e, fuel), s.cont, b)
    ensures e.BoolAnd? ==> Unseen(EvalAnd(s, e, fuel), EvalAnd(s.(cont := b), e, fuel), s.cont, b)
    ensures e.BoolOr? ==> Unseen(EvalOr(s, e, fuel), EvalOr(s.(cont := b), e, fuel), s.cont, b)
    decreases e, 0
  {
    hide Eval;
    ContinueUnseen(s, e.left, fuel, b);
    ContinueUnseen(Eval(s, e.left, fuel).value.0, e.right, fuel, b);
  }

  lemma {:induction false} UnseenAssignElem(s: State, e: Expr, fuel: nat, b: bool)
    requires CallFree(e) && e.AssignElem?
    ensures Unseen(EvalAssignElem(s, e, fuel), EvalAssignElem(s.(cont := b), e, fuel), s.cont, b)
    decreases e, 0
  {
    hide Eval, ArraySet;
    if e.path != [] {
      ContinueUnseen(s, e.inner, fuel, b);
      var (s1, v) := Eval(s, e.inner, fuel).value;
      UnseenSet(s1, s1.store.HomeOf(e.name), e.name, [], e.path, v, fuel, b);
    }
  }

  lemma {:induction false} UnseenSet(s: State, h: Home, name: string, elems: seq<Value>, path: seq<Expr>, v: Value,
                                     fuel: nat, b: bool)
    requires path != [] && forall i :: 0 <= i < |path| ==> CallFree(path[i])
    ensures Unseen(ArraySet(s, h, name, elems, path, v, fuel), ArraySet(s.(cont := b), h, name, elems, path, v, fuel),
                   s.cont, b)
    decreases path, 0
  {
    hide Eval, SetRest;
    ContinueUnseen(s, path[0], fuel, b);
    var (s1, p) := Eval(s, path[0], fuel).value;
    UnseenRest(s1, h, name, elems, ToInt(p), path[1..], v, fuel, b);
  }

  lemma {:induction false} UnseenRest(s: State, h: Home, name: string, elems: seq<Value>, pos: int, path: seq<Expr>,
                                      v: Value, fuel: nat, b: bool)
    requires forall i :: 0 <= i < |path| ==> CallFree(path[i])
    ensures Unseen(SetRest(s, h, name, elems, pos, path, v, fuel),
                   SetRest(s.(cont := b), h, name, elems, pos, path, v, fuel), s.cont, b)
    decreases path, 1
  {
    hide ArraySet, Put, Grab, Unseen;
    UnseenSelf(s, v, b);
    var es := Grab(s.store, h, name, elems);
    if path == [] {
      UnseenPut(Some((s, v)), Some((s.(cont := b), v)), h, name, elems, pos, s.cont, b);
    } else if es.Some? {
      var inner := ElemsOf(ElemAt(es.value, pos));
      UnseenSet(s, Nowhere, name, inner, path, v, fuel, b);
      UnseenPut(ArraySet(s, Nowhere, name, inner, path, v, fuel),
                ArraySet(s.(cont := b), Nowhere, name, inner, path, v, fuel), h, name, elems, pos, s.cont, b);
    }
  }

  lemma UnseenSelf(s: State, v: Value, b: bool)
    ensures Unseen(Some((s, v)), Some((s.(cont := b), v)), s.cont, b)
    ensures Unseen(Some((Fatal(s), Void)), Some((Fatal(s.(cont := b)), Void)), s.cont, b)
  {
  }

  lemma UnseenPut(r: Option<(State, Value)>, r': Option<(State, Value)>, h: Home, name: string, elems: seq<Value>,
                  pos: int, before: bool, b: bool)
    requires Unseen(r, r', before, b)
    ensures r.Some? && r'.Some?
    ensures Unseen(Some(Put(r.value.0, h, name, elems, pos, r.value.1)),
                   Some(Put(r'.value.0, h, name, elems, pos, r'.value.1)), before, b)
  {
  }

  lemma {:induction false} UnseenElem(s: State, e: Expr, fuel: nat, b: bool)
    requires CallFree(e) && e.Elem?
    ensures Unseen(EvalElem(s, e, fuel), EvalElem(s.(cont := b), e, fuel), s.cont, b)
    decreases e, 0
  {
    hide Eval, ArrayGet;
    var h := s.store.HomeOf(e.name);
    if e.path != [] && !h.Nowhere? {
      ContinueUnseen(s, e.path[0], fuel, b);
      var (s1, p) := Eval(s, e.path[0], fuel).value;
      var es := s1.store.ArrayIn(h, e.name);
      if es.Some? { UnseenGet(s1, ElemAt(es.value, ToInt(p)), e.path[1..], fuel, b); }
    }
  }

  lemma {:induction false} UnseenGet(s: State, v: Value, path: seq<Expr>, fuel: nat, b: bool)
    requires forall i :: 0 <= i < |path| ==> CallFree(path[i])
    ensures Unseen(ArrayGet(s, v, path, fuel), ArrayGet(s.(cont := b), v, path, fuel), s.cont, b)
    decreases path, 0
  {
    hide Eval;
    if path != [] && v.Arr? {
      ContinueUnseen(s, path[0], fuel, b);
      var (s1, p) := Eval(s, path[0], fuel).value;
      UnseenGet(s1, ElemAt(v.elems, ToInt(p)), path[1..], fuel, b);
    }
  }

  lemma {:induction false} UnseenCond(s: State, e: Expr, fuel: nat, b: bool)
    requires CallFree(e) && e.Cond?
    ensures Unseen(EvalCond(s, e, fuel), EvalCond(s.(cont := b), e, fuel), s.cont, b)
    decreases e, 0
  {
    hide Eval;
    ContinueUnseen(s, e.test, fuel, b);
    var (s1, v) := Eval(s, e.test, fuel).value;
    ContinueUnseen(s1, if ToBool(v) then e.thn else e.els, fuel, b);
  }

  // ---- expressions ----

  ghost predicate ExprStart(s: State, any: bool, open: bool) {
    Calm(s) && Counting(s) && SafeStore(s.store, any) && (s.tries > 0 ==> any && open)
  }

  lemma {:induction false} RefineExpr(s: State, e: Expr, any: bool, open: bool, fuel: nat)
    requires ExprStart(s, any, open) && SafeExpr(e, any, open)
    ensures ExprAgrees(Eval(s, e, fuel), Compute(s.store, e, s.tries > 0, fuel), CallFree(e), any)
    decreases fuel, 1, e, 2
  {
    hide ExprAgrees, SafeExpr, SafeStore, Counting, CallFree, EvalLambda, EvalNot, EvalInfix, EvalAnd, EvalOr, EvalCond;
    hide EvalCall, EvalAssign, EvalAssignElem, EvalElem, ComputeNot, ComputeInfix, ComputeAnd, ComputeOr, ComputeCond;
    hide ComputeCall, ComputeAssign, ComputeAssignElem, ComputeElem;
    match e
    case Const(_) => RefineLeaf(s, e, any, open, fuel);
    case Ref(_) => RefineLeaf(s, e, any, open, fuel);
    case Lambda(_) => RefineLeaf(s, e, any, open, fuel);
    case Assign(_, _) => RefineAssign(s, e, any, open, fuel);
    case AssignElem(_, _, _) => RefineAssignElem(s, e, any, open, fuel);
    case Elem(_, _) => RefineElem(s, e, any, open, fuel);
    case Not(_) => RefineUnary(s, e, any, open, fuel);
    case PassRef(_) => RefineUnary(s, e, any, open, fuel);
    case Infix(_, _, _) => RefineInfix(s, e, any, open, fuel);
    case BoolAnd(_, _) => RefineBool(s, e, any, open, fuel);
    case BoolOr(_, _) => RefineBool(s, e, any, open, fuel);
    case Cond(_, _, _) => RefineCond(s, e, any, open, fuel);
    case Call(_, _) =>
      RefineCall(s, e, any, open, fuel);
      NotFree(e);
  }

  lemma NotFree(e: Expr)
    requires e.Call?
    ensures !CallFree(e)
  {
  }

  lemma RefineLeaf(s: State, e: Expr, any: bool, open: bool, fuel: nat)
    requires e.Const? || e.Ref? || e.Lambda?
    requires ExprStart(s, any, open) && SafeExpr(e, any, open)
    ensures ExprAgrees(Eval(s, e, fuel), Compute(s.store, e, s.tries > 0, fuel), CallFree(e), any)
  {
    hide SafeStore, SafeStmt, EvalLambda;
    if e.Ref? { LookupSafe(s.store, e.name, any); }
    if e.Lambda? { LambdaIs(s, e.f); }
  }

  lemma LambdaIs(s: State, f: Func)
    requires !s.ret
    ensures EvalLambda(s, f) == (s, Fn(f))
  {
    assert s.store.Enter().Add(LAMBDA, Function(f)).Leave().locals == s.store.locals;
  }

  lemma {:induction false} RefineUnary(s: State, e: Expr, any: bool, open: bool, fuel: nat)
    requires e.Not? || e.PassRef?
    requires ExprStart(s, any, open) && SafeExpr(e, any, open)
    ensures e.Not? ==> ExprAgrees(EvalNot(s, e, fuel), ComputeNot(s.store, e, s.tries > 0, fuel), CallFree(e), any)
    ensures e.PassRef? ==>
              ExprAgrees(Eval(s, e.inner, fuel), Compute(s.store, e.inner, s.tries > 0, fuel), CallFree(e), any)
    decreases fuel, 1, e, 1
  {
    hide SafeStore, SafeStmt, Eval, Compute;
    RefineExpr(s, e.inner, any, open, fuel);
  }

  lemma {:induction false} RefineAssign(s: State, e: Expr, any: bool, open: bool, fuel: nat)
    requires e.Assign?
    requires ExprStart(s, any, open) && SafeExpr(e, any, open)
    ensures ExprAgrees(EvalAssign(s, e, fuel), ComputeAssign(s.store, e, s.tries > 0, fuel), CallFree(e), any)
    decreases fuel, 1, e, 0
  {
    hide SafeStore, SameBelow, Eval, Compute;
    RefineExpr(s, e.inner, any, open, fuel);
    if Eval(s, e.inner, fuel).Some? {
      var (m, r) := Compute(s.store, e.inner, s.tries > 0, fuel).value;
      if r.Ok? { AddSafe(m, e.name, EntryOf(r.v), any); }
    }
  }

  // Evaluating pure indices and changing the copied elements is one write along a path.
  lemma {:induction false} RefineSet(s: State, name: string, elems: seq<Value>, path: seq<Expr>, v: Value,
                                     any: bool, open: bool, fuel: nat)
    requires ExprStart(s, any, open) && path != []
    requires forall i :: 0 <= i < |path| ==> SafeExpr(path[i], any, open) && Quiet(path[i]) && CallFree(path[i])
    ensures ComputeAll(s.store, path, s.tries > 0, fuel).Some? && ArraySet(s, Nowhere, name, elems, path, v, fuel).Some?
    ensures var (t, w) := ArraySet(s, Nowhere, name, elems, path, v, fuel).value;
            var (m, vals, stop) := ComputeAll(s.store, path, s.tries > 0, fuel).value;
            && SafeStore(m, any)
            && match stop
               case None => t == s && m == s.store && w == Arr(SetPath(elems, Positions(vals), v))
               case Some(o) => o.Exited? && t.exit
    decreases fuel, 1, path, 0
  {
    hide SafeStore, Eval, Compute, SafeExpr, SafeValue;
    RefineExpr(s, path[0], any, open, fuel);
    PureKeeps(s, path[0], fuel);
    var (t, p) := Eval(s, path[0], fuel).value;
    if t == s {
      if |path| > 1 {
        RefineSet(s, name, ElemsOf(ElemAt(elems, ToInt(p))), path[1..], v, any, open, fuel);
      } else {
        assert path[1..] == [];
        assert ComputeAll(s.store, [], s.tries > 0, fuel) == Some((s.store, [], None));
      }
    }
  }

  // What the flags say when an element assignment's indices have been evaluated.
  ghost predicate SetAgrees(r: Option<State>, q: Option<(Store, seq<Value>, Option<Result>)>, name: string, v: Value,
                            callFree: bool, any: bool)
  {
    && r.Some? == q.Some?
    && (r.Some? ==>
          var t := r.value;
          var (m, vals, stop) := q.value;
          && SafeStore(m, any)
          && match stop
             case None => Calm(t) && t.store == Assigned(m, name, Positions(vals), v) && SafeStore(t.store, any)
             case Some(o) => !o.Ok? && Shows(t, Void, m, o, any) && (callFree ==> !o.Thrown?))
  }

  lemma {:induction false} RefineDirect(s: State, name: string, path: seq<Expr>, v: Value,
                                        any: bool, open: bool, fuel: nat)
    requires ExprStart(s, any, open) && path != [] && SafeValue(v, any)
    requires forall i :: 0 <= i < |path| ==> SafeExpr(path[i], any, open) && Quiet(path[i])
    requires forall i :: 0 < i < |path| ==> CallFree(path[i])
    ensures SetAgrees(AssignDirect(s, name, path, v, fuel), ComputeAll(s.store, path, s.tries > 0, fuel), name, v,
                      CallFree(path[0]), any)
    decreases fuel, 1, path, 1
  {
    hide SafeStore, SameBelow, HomesKept, Eval, Compute, SetDone, AllAfter, SafeExpr, SafeValue, Assigned;
    hide AssignDirect, ComputeAll;
    RefineExpr(s, path[0], any, open, fuel);
    QuietKeeps(s, path[0], fuel);
    EvalBalance(s, path[0], fuel);
    DirectIs(s, name, path, v, fuel);
    AllIs(s.store, path, s.tries > 0, fuel);
    if Eval(s, path[0], fuel).Some? {
      var (t, p) := Eval(s, path[0], fuel).value;
      if Calm(t) {
        HomesFollow(s.store, t.store, name);
        RefineRest(t, name, p, path[1..], v, any, open, fuel);
      }
    }
  }

  lemma DirectIs(s: State, name: string, path: seq<Expr>, v: Value, fuel: nat)
    requires path != []
    ensures AssignDirect(s, name, path, v, fuel) ==
            var r := Eval(s, path[0], fuel);
            if r.None? then None
            else if r.value.0.exc || r.value.0.exit then Some(r.value.0)
            else SetDone(r.value.0, s.store.HomeOf(name), name, r.value.1, path[1..], v, fuel)
  {
    hide Eval, SetRest;
  }

  lemma AllIs(m: Store, path: seq<Expr>, inTry: bool, fuel: nat)
    requires path != []
    ensures ComputeAll(m, path, inTry, fuel) ==
            var q := Compute(m, path[0], inTry, fuel);
            if q.None? then None
            else if !q.value.1.Ok? then Some((q.value.0, [], Some(q.value.1)))
            else AllAfter(q.value.0, q.value.1.v, path[1..], inTry, fuel)
  {
    hide Compute;
  }

  // What is done and what is promised once the first index has been evaluated.
  ghost function SetDone(s: State, h: Home, name: string, p: Value, path: seq<Expr>, v: Value, fuel: nat): Option<State> {
    var (t, w) :- SetRest(s, h, name, [], ToInt(p), path, v, fuel);
    Some(if t.exc || t.exit then t else t.(store := t.store.Add(name, Var(w))))
  }

  ghost function AllAfter(m: Store, p: Value, path: seq<Expr>, inTry: bool, fuel: nat)
    : Option<(Store, seq<Value>, Option<Result>)>
  {
    var (m1, vals, stop) :- ComputeAll(m, path, inTry, fuel);
    Some((m1, [p] + vals, stop))
  }

  lemma {:induction false} RefineRest(s: State, name: string, p: Value, path: seq<Expr>, v: Value,
                                      any: bool, open: bool, fuel: nat)
    requires ExprStart(s, any, open) && SafeValue(v, any)
    requires forall i :: 0 <= i < |path| ==> SafeExpr(path[i], any, open) && Quiet(path[i]) && CallFree(path[i])
    ensures SetAgrees(SetDone(s, s.store.HomeOf(name), name, p, path, v, fuel),
                      AllAfter(s.store, p, path, s.tries > 0, fuel), name, v, true, any)
    decreases fuel, 1, path, 2
  {
    hide SafeStore, ComputeAll, ArraySet, SafeExpr, SafeValue, Assigned, SetRest, Put, Grab, SetAgrees;
    var h := s.store.HomeOf(name);
    RestIs(s, name, p, path, v, fuel);
    if path == [] {
      NoMore(s.store, s.tries > 0, fuel);
      LastPut(s, name, p, v);
      assert [p] + [] == [p];
      SetIsAssigned(s, Put(s, h, name, [], ToInt(p), v), s.store, name, [p], v, any);
    } else {
      var inner := ElemsOf(ElemAt(if h.Nowhere? then [] else s.store.ArrayIn(h, name).value, ToInt(p)));
      RefineSet(s, name, inner, path, v, any, open, fuel);
      var (m, vals, stop) := ComputeAll(s.store, path, s.tries > 0, fuel).value;
      var (t, w) := ArraySet(s, Nowhere, name, inner, path, v, fuel).value;
      if stop.None? {
        LongPut(s, name, p, vals, v);
        SetIsAssigned(s, Put(s, h, name, [], ToInt(p), w), s.store, name, [p] + vals, v, any);
      } else {
        PutExits(t, h, name, ToInt(p), w);
        SetQuits(Put(t, h, name, [], ToInt(p), w).0, m, [p] + vals, name, v, any);
      }
    }
  }

  lemma SetIsAssigned(s: State, r: (State, Value), m: Store, name: string, vals: seq<Value>, v: Value, any: bool)
    requires Calm(s) && SafeStore(m, any) && SafeValue(v, any) && r.0 == s.(store := r.0.store)
    requires r.0.store.Add(name, Var(r.1)) == Assigned(m, name, Positions(vals), v)
    ensures SetAgrees(Some(r.0.(store := r.0.store.Add(name, Var(r.1)))), Some((m, vals, None)), name, v, true, any)
    ensures !r.0.exc && !r.0.exit
  {
    hide SafeStore, SafeValue, Assigned;
    AssignedSafe(m, name, Positions(vals), v, any);
  }

  lemma SetQuits(t: State, m: Store, vals: seq<Value>, name: string, v: Value, any: bool)
    requires t.exit && SafeStore(m, any)
    ensures SetAgrees(Some(t), Some((m, vals, Some(Exited))), name, v, true, any)
  {
    hide SafeStore;
  }

  lemma RestIs(s: State, name: string, p: Value, path: seq<Expr>, v: Value, fuel: nat)
    ensures var h := s.store.HomeOf(name);
            var es := if h.Nowhere? then [] else s.store.ArrayIn(h, name).value;
            SetRest(s, h, name, [], ToInt(p), path, v, fuel) ==
            if path == [] then Some(Put(s, h, name, [], ToInt(p), v))
            else
              var r := ArraySet(s, Nowhere, name, ElemsOf(ElemAt(es, ToInt(p))), path, v, fuel);
              if r.None? then None else Some(Put(r.value.0, h, name, [], ToInt(p), r.value.1))
  {
    hide ArraySet, Put;
  }

  lemma PutExits(s: State, h: Home, name: string, pos: int, v: Value)
    requires s.exit
    ensures Put(s, h, name, [], pos, v).0.exit
  {
  }

  lemma NoMore(m: Store, inTry: bool, fuel: nat)
    ensures ComputeAll(m, [], inTry, fuel) == Some((m, [], None))
  {
  }

  // The last write of the machine is the assignment along the whole path.
  lemma LastPut(s: State, name: string, p: Value, v: Value)
    ensures Positions([p]) == [ToInt(p)]
    ensures var (t, w) := Put(s, s.store.HomeOf(name), name, [], ToInt(p), v);
            t == s.(store := t.store) && t.store.Add(name, Var(w)) == Assigned(s.store, name, [ToInt(p)], v)
  {
  }

  lemma LongPut(s: State, name: string, p: Value, vals: seq<Value>, v: Value)
    requires vals != []
    ensures Positions([p] + vals) == [ToInt(p)] + Positions(vals)
    ensures var h := s.store.HomeOf(name);
            var es := if h.Nowhere? then [] else s.store.ArrayIn(h, name).value;
            var x := Arr(SetPath(ElemsOf(ElemAt(es, ToInt(p))), Positions(vals), v));
            var (t, w) := Put(s, h, name, [], ToInt(p), x);
            && t == s.(store := t.store)
            && t.store.Add(name, Var(w)) == Assigned(s.store, name, [ToInt(p)] + Positions(vals), v)
  {
    assert ([p] + vals)[1..] == vals;
    assert ([ToInt(p)] + Positions(vals))[1..] == Positions(vals);
  }

  lemma {:induction false} RefineAssignElem(s: State, e: Expr, any: bool, open: bool, fuel: nat)
    requires e.AssignElem?
    requires ExprStart(s, any, open) && SafeExpr(e, any, open)
    ensures ExprAgrees(EvalAssignElem(s, e, fuel), ComputeAssignElem(s.store, e, s.tries > 0, fuel), CallFree(e), any)
    decreases fuel, 1, e, 0
  {
    hide SafeStore, SameBelow, Eval, Compute, AssignDirect, ComputeAll, Assigned;
    if e.path != [] {
      RefineExpr(s, e.inner, any, open, fuel);
      if Eval(s, e.inner, fuel).Some? {
        var (t, v) := Eval(s, e.inner, fuel).value;
        EvalBalance(s, e.inner, fuel);
        if Calm(t) { RefineDirect(t, e.name, e.path, v, any, open, fuel); }
      }
    }
  }

  lemma {:induction false} RefineElem(s: State, e: Expr, any: bool, open: bool, fuel: nat)
    requires e.Elem?
    requires ExprStart(s, any, open) && SafeExpr(e, any, open)
    ensures ExprAgrees(EvalElem(s, e, fuel), ComputeElem(s.store, e, s.tries > 0, fuel), CallFree(e), any)
    decreases fuel, 1, e, 0
  {
    hide SafeStore, SameBelow, Eval, Compute, ArrayGet, ComputeGet, SafeStmt, HomesKept;
    var h := s.store.HomeOf(e.name);
    if e.path != [] && !h.Nowhere? {
      RefineExpr(s, e.path[0], any, open, fuel);
      QuietKeeps(s, e.path[0], fuel);
      EvalBalance(s, e.path[0], fuel);
      if Eval(s, e.path[0], fuel).Some? {
        var (t, p) := Eval(s, e.path[0], fuel).value;
        var es := t.store.ArrayIn(h, e.name);
        if !t.exit { HomesFollow(s.store, t.store, e.name); }
        if Calm(t) {
          ArraySafe(t.store, h, e.name, any);
          RefineGet(t, ElemAt(es.value, ToInt(p)), e.path[1..], any, open, fuel);
        } else if es.Some? {
          InertGet(t, ElemAt(es.value, ToInt(p)), e.path[1..], fuel);
        }
      }
    }
  }

  lemma {:induction false} InertGet(s: State, v: Value, path: seq<Expr>, fuel: nat)
    requires s.exc || s.exit
    ensures ArrayGet(s, v, path, fuel).Some? && ArrayGet(s, v, path, fuel).value.0 == s
    decreases path
  {
    hide Eval;
    if path != [] && v.Arr? { InertGet(s, ElemAt(v.elems, 0), path[1..], fuel); }
  }

  lemma {:induction false} RefineGet(s: State, v: Value, path: seq<Expr>, any: bool, open: bool, fuel: nat)
    requires ExprStart(s, any, open) && SafeValue(v, any)
    requires forall i :: 0 <= i < |path| ==> SafeExpr(path[i], any, open)
    ensures ExprAgrees(ArrayGet(s, v, path, fuel), ComputeGet(s.store, v, path, s.tries > 0, fuel),
                       forall i :: 0 <= i < |path| ==> CallFree(path[i]), any)
    decreases fuel, 1, path, 0
  {
    hide SafeStore, SameBelow, Eval, Compute;
    if path != [] && v.Arr? {
      RefineExpr(s, path[0], any, open, fuel);
      EvalBalance(s, path[0], fuel);
      if Eval(s, path[0], fuel).Some? {
        var (t, p) := Eval(s, path[0], fuel).value;
        if Calm(t) {
          RefineGet(t, ElemAt(v.elems, ToInt(p)), path[1..], any, open, fuel);
        } else {
          InertGet(t, ElemAt(v.elems, ToInt(p)), path[1..], fuel);
        }
      }
    }
  }

  lemma {:induction false} RefineInfix(s: State, e: Expr, any: bool, open: bool, fuel: nat)
    requires e.Infix?
    requires ExprStart(s, any, open) && SafeExpr(e, any, open)
    ensures ExprAgrees(EvalInfix(s, e, fuel), ComputeInfix(s.store, e, s.tries > 0, fuel), CallFree(e), any)
    decreases fuel, 1, e, 0
  {
    hide SafeStore, SameBelow, Eval, Compute, SafeStmt;
    RefineExpr(s, e.left, any, open, fuel);
    if Eval(s, e.left, fuel).Some? {
      var t := Eval(s, e.left, fuel).value.0;
      EvalBalance(s, e.left, fuel);
      if Calm(t) {
        RefineExpr(t, e.right, any, open, fuel);
        EvalBalance(t, e.right, fuel);
      }
    }
  }

  lemma {:induction false} RefineBool(s: State, e: Expr, any: bool, open: bool, fuel: nat)
    requires e.BoolAnd? || e.BoolOr?
    requires ExprStart(s, any, open) && SafeExpr(e, any, open)
    ensures e.BoolAnd? ==>
              ExprAgrees(EvalAnd(s, e, fuel), ComputeAnd(s.store, e, s.tries > 0, fuel), CallFree(e), any)
    ensures e.BoolOr? ==>
              ExprAgrees(EvalOr(s, e, fuel), ComputeOr(s.store, e, s.tries > 0, fuel), CallFree(e), any)
    decreases fuel, 1, e, 0
  {
    hide SafeStore, SameBelow, Eval, Compute, SafeStmt;
    RefineExpr(s, e.left, any, open, fuel);
    if Eval(s, e.left, fuel).Some? {
      var t := Eval(s, e.left, fuel).value.0;
      EvalBalance(s, e.left, fuel);
      if Calm(t) { RefineExpr(t, e.right, any, open, fuel); }
    }
  }

  lemma {:induction false} RefineCond(s: State, e: Expr, any: bool, open: bool, fuel: nat)
    requires e.Cond?
    requires ExprStart(s, any, open) && SafeExpr(e, any, open)
    ensures ExprAgrees(EvalCond(s, e, fuel), ComputeCond(s.store, e, s.tries > 0, fuel), CallFree(e), any)
    decreases fuel, 1, e, 0
  {
    hide SafeStore, SameBelow, Eval, Compute;
    RefineExpr(s, e.test, any, open, fuel);
    if Eval(s, e.test, fuel).Some? {
      var (t, v) := Eval(s, e.test, fuel).value;
      EvalBalance(s, e.test, fuel);
      if Calm(t) { RefineExpr(t, if ToBool(v) then e.thn else e.els, any, open, fuel); }
    }
  }

  ghost predicate SafeValues(vals: seq<Value>, any: bool) {
    forall i :: 0 <= i < |vals| ==> SafeValue(vals[i], any)
  }

  ghost predicate ArgsAgree(r: Option<(State, seq<Value>)>, q: Option<(Store, seq<Value>, Option<Result>)>, any: bool) {
    && r.Some? == q.Some?
    && (r.Some? ==>
          var (t, vals) := r.value;
          var (m, vals', stop) := q.value;
          && SafeStore(m, any)
          && match stop
             case None => Calm(t) && t.store == m && vals == vals' && SafeValues(vals, any)
             case Some(o) => !o.Ok? && Shows(t, Void, m, o, any))
  }

  lemma {:induction false} RefineArgs(s: State, args: seq<Expr>, any: bool, open: bool, fuel: nat)
    requires ExprStart(s, any, open)
    requires forall i :: 0 <= i < |args| ==> SafeExpr(args[i], any, open)
    ensures ArgsAgree(EvalArgs(s, args, fuel), ComputeAll(s.store, args, s.tries > 0, fuel), any)
    decreases fuel, 1, args, 0
  {
    hide SafeStore, SameBelow, Eval, Compute;
    if args != [] {
      RefineExpr(s, args[0], any, open, fuel);
      if Eval(s, args[0], fuel).Some? {
        var t := Eval(s, args[0], fuel).value.0;
        EvalBalance(s, args[0], fuel);
        if Calm(t) { RefineArgs(t, args[1..], any, open, fuel); } else { InertArgs(t, args[1..], fuel); }
      }
    }
  }

  // A callee that never ran has nothing to write back.
  lemma {:induction false} NothingToWrite(m: Store, params: seq<string>, args: seq<Expr>)
    ensures WriteBack(m, map[], params, args) == m
    decreases args
  {
    if args != [] && params != [] { NothingToWrite(m, params[1..], args[1..]); }
  }

  lemma UpdateSafe(m: Store, params: seq<string>, args: seq<Expr>, any: bool)
    requires SafeStore(m, any)
    ensures SafeStore(UpdateArgs(m, params, args), any)
  {
    if m.locals != [] { WriteBackSafe(m.Leave(), m.Top(), params, args, any); }
  }

  lemma EnterSafe(m: Store, any: bool)
    requires SafeStore(m, any)
    ensures SafeStore(m.Enter(), any)
  {
  }

  lemma {:induction false} RefineCall(s: State, e: Expr, any: bool, open: bool, fuel: nat)
    requires e.Call?
    requires ExprStart(s, any, open) && SafeExpr(e, any, open)
    ensures ExprAgrees(EvalCall(s, e, fuel), ComputeCall(s.store, e, s.tries > 0, fuel), false, any)
    decreases fuel, 1, e, 0
  {
    hide SafeStore, SameBelow, EvalArgs, ComputeAll, CallFunction, InvokeTyped;
    LookupSafe(s.store, e.name, any);
    var callee := Callee(s.store.Lookup(e.name));
    if callee.Some? {
      var f := callee.value;
      RefineArgs(s, e.args, any, open, fuel);
      if EvalArgs(s, e.args, fuel).Some? {
        ArgsBalance(s, e.args, fuel);
        var (s1, vals) := EvalArgs(s, e.args, fuel).value;
        var s2 := s1.(store := s1.store.Enter());
        if !Calm(s1) {
          NeverCalled(s, e, f, s1, vals, fuel);
          var (m1, _, stop) := ComputeAll(s.store, e.args, s.tries > 0, fuel).value;
          assert ComputeCall(s.store, e, s.tries > 0, fuel) == Some((m1, stop.value));
        } else {
          EnterSafe(s1.store, any);
          RefineTyped(s2, f, vals, any, fuel);
          var t := CallFunction(s2, f, vals, fuel);
          if t.Some? { UpdateSafe(InvokeTyped(s2.store, f, vals, s.tries > 0, fuel).value.0, f.params, e.args, any); }
        }
      }
    }
  }

  // When an argument threw or exited, the callee's table is entered and left untouched.
  lemma NeverCalled(s: State, e: Expr, f: Func, s1: State, vals: seq<Value>, fuel: nat)
    requires e.Call? && Callee(s.store.Lookup(e.name)) == Some(f)
    requires EvalArgs(s, e.args, fuel) == Some((s1, vals)) && (s1.exc || s1.exit)
    ensures EvalCall(s, e, fuel) == Some((s1, Void))
  {
    hide SafeStore, SameBelow, EvalArgs, RunFunc;
    NothingToWrite(s1.store, f.params, e.args);
    assert s1.store.Enter().Leave().locals == s1.store.locals;
    assert UpdateArgs(s1.store.Enter(), f.params, e.args) == s1.store;
  }

  // The call of a function, held against its declaration.
  lemma {:induction false} RefineTyped(s: State, f: Func, vals: seq<Value>, any: bool, fuel: nat)
    requires ExprStart(s, any, any) && SafeFunc(f, any) && SafeValues(vals, any)
    ensures ExprAgrees(CallFunction(s, f, vals, fuel), InvokeTyped(s.store, f, vals, s.tries > 0, fuel), false, any)
    decreases fuel, 0, 1
  {
    hide SafeStore, SameBelow, RunFunc, Invoke, FitAll;
    if Accept(f, vals).Some? {
      var args := Accept(f, vals).value;
      FitAllSafe(vals, f.wants, any);
      RefineRun(s, f, args, any, fuel);
      var q := Invoke(s.store, f, args, s.tries > 0, fuel);
      if q.Some? && q.value.1.Ok? { FitSafe(q.value.1.v, f.result, any); }
    }
  }

  lemma {:induction false} RefineRun(s: State, f: Func, vals: seq<Value>, any: bool, fuel: nat)
    requires ExprStart(s, any, any) && SafeFunc(f, any)
    requires |vals| >= |f.params| && SafeValues(vals, any)
    ensures ExprAgrees(RunFunc(s, f, vals, fuel), Invoke(s.store, f, vals, s.tries > 0, fuel), false, any)
    decreases fuel, 0, 0
  {
    hide SafeStore, SameBelow, Exec, Perform;
    if fuel > 0 {
      var s0 := StartFunc(s, f, vals);
      BindParamsSafe(s.store, f.params, vals, any);
      RefineStmt(s0, f.body, Context(false, true, s.tries > 0), FunctionPlace(any), s0.cookie, fuel - 1);
      ExecBalance(s0, f.body, s0.cookie, fuel - 1);
    }
  }

  lemma BindParamsSafe(m: Store, params: seq<string>, vals: seq<Value>, any: bool)
    requires SafeStore(m, any) && |params| <= |vals| && SafeValues(vals, any)
    ensures SafeStore(BindParams(m, params, vals), any)
  {
    AddSafe(m, "argc", Var(Int(|vals|)), any);
    AddSafe(m.Add("argc", Var(Int(|vals|))), "argv", Var(Arr(vals)), any);
    BindSafe(m.Add("argc", Var(Int(|vals|))).Add("argv", Var(Arr(vals))), params, vals, any);
  }

  // ---- statements ----

  // A statement that ended normally leaves its successor ready to run.
  lemma StillReady(s: State, t: State, c: Context, p: Place, cookie: int)
    requires Ready(s, c, p, cookie) && Balanced(s, t) && Calm(t) && SafeStore(t.store, p.any)
    requires c.inFunc ==> t.retCookie != cookie
    ensures Ready(t, c, p, cookie)
  {
  }

  // The same for an expression, whose calls carry later cookies.  With no try open it throws
  // nothing.
  lemma {:induction false} ExprStep(s: State, e: Expr, c: Context, p: Place, cookie: int, fuel: nat)
    requires Ready(s, c, p, cookie) && SafeExpr(e, p.any, p.Open())
    ensures ExprAgrees(Eval(s, e, fuel), Compute(s.store, e, c.inTry, fuel), CallFree(e) || !p.Open(), p.any)
    ensures Eval(s, e, fuel).Some? ==>
              var t := Eval(s, e, fuel).value.0;
              && (c.inFunc ==> t.retCookie != cookie) && Balanced(s, t)
              && (Calm(t) ==> Ready(t, c, p, cookie))
    decreases fuel, 1, e, 3
  {
    hide SafeStore, SameBelow, Eval, Compute;
    RefineExpr(s, e, p.any, p.Open(), fuel);
    EvalBalance(s, e, fuel);
  }

  // The program text and the state a statement's agreement starts from.
  ghost predicate Start(s: State, st: Stmt, c: Context, p: Place, cookie: int) {
    Ready(s, c, p, cookie) && cookie <= s.cookie && SafeStmt(st, p)
  }

  // The same for the rounds of a loop.
  ghost predicate LoopStart(s: State, st: Stmt, c: Context, p: Place, cookie: int) {
    Ready(s, c.(inLoop := true), p.InLoop(), cookie) && cookie <= s.cookie && SafeStmt(st, p)
  }

  lemma {:induction false} RefineStmt(s: State, st: Stmt, c: Context, p: Place, cookie: int, fuel: nat)
    requires Start(s, st, c, p, cookie)
    ensures StmtAgrees(Exec(s, st, cookie, fuel), Perform(s.store, st, c, fuel), c, p, cookie)
    decreases fuel, 2, st, 5
  {
    hide StmtAgrees, Start, ExecList, ExecIf, ExecReturn, ExecSwitch, ExecTry, ExecLoops, Eval, Raise;
    hide PerformIf, PerformReturn, PerformSwitch, PerformTry, PerformAll, PerformLoops, Compute;
    StartsCalm(s, st, c, p, cookie);
    match st
    case Nop => RefineSimple(s, st, c, p, cookie, fuel);
    case Continue => RefineSimple(s, st, c, p, cookie, fuel);
    case Break => RefineSimple(s, st, c, p, cookie, fuel);
    case ExprStmt(_) => RefineSimple(s, st, c, p, cookie, fuel);
    case FuncDef(_, _) => RefineSimple(s, st, c, p, cookie, fuel);
    case Throw(_) => RefineSimple(s, st, c, p, cookie, fuel);
    case Block(_) => RefineSimple(s, st, c, p, cookie, fuel);
    case If(_, _) => RefineIf(s, st, c, p, cookie, fuel);
    case IfElse(_, _, _) => RefineIf(s, st, c, p, cookie, fuel);
    case While(_, _) => RefineLoops(s, st, c, p, cookie, fuel);
    case Do(_, _) => RefineLoops(s, st, c, p, cookie, fuel);
    case For(_, _, _, _) => RefineLoops(s, st, c, p, cookie, fuel);
    case Return(_) => RefineReturn(s, st, c, p, cookie, fuel);
    case Switch(_, _) => RefineSwitch(s, st, c, p, cookie, fuel);
    case Try(_, _, _) => RefineTry(s, st, c, p, cookie, fuel);
  }

  lemma StartsCalm(s: State, st: Stmt, c: Context, p: Place, cookie: int)
    requires Start(s, st, c, p, cookie)
    ensures Calm(s)
  {
  }

  lemma {:induction false} RefineSimple(s: State, st: Stmt, c: Context, p: Place, cookie: int, fuel: nat)
    requires st.Nop? || st.Continue? || st.Break? || st.ExprStmt? || st.FuncDef? || st.Throw? || st.Block?
    requires Start(s, st, c, p, cookie)
    ensures StmtAgrees(Exec(s, st, cookie, fuel), Perform(s.store, st, c, fuel), c, p, cookie)
    decreases fuel, 2, st, 4
  {
    hide SafeStore, SameBelow, Eval, ExecSeq, Compute, PerformAll, SafeAll, SafeCases, SafeValue;
    match st
    case Nop =>
    case Block(body) =>
      RefineSeq(s, body, c, p, cookie, fuel);
      assert ExecList(s, body, cookie, fuel) == ExecSeq(s, body, cookie, fuel);
    case Continue =>
    case Break =>
    case ExprStmt(e) => ExprStep(s, e, c, p, cookie, fuel);
    case FuncDef(name, f) => AddSafe(s.store, name, Function(f), p.any);
    case Throw(e) => ExprStep(s, e, c, p, cookie, fuel);
  }

  lemma {:induction false} RefineIf(s: State, st: Stmt, c: Context, p: Place, cookie: int, fuel: nat)
    requires st.If? || st.IfElse?
    requires Start(s, st, c, p, cookie)
    ensures StmtAgrees(ExecIf(s, st, cookie, fuel), PerformIf(s.store, st, c, fuel), c, p, cookie)
    decreases fuel, 2, st, 3
  {
    hide SafeStore, SameBelow, Eval, Compute, Exec, Perform;
    ExprStep(s, st.test, c, p, cookie, fuel);
    if Eval(s, st.test, fuel).Some? {
      var (t, v) := Eval(s, st.test, fuel).value;
      if Calm(t) {
        RefineStmt(t, st.thn, c, p, cookie, fuel);
        if st.IfElse? { RefineStmt(t, st.els, c, p, cookie, fuel); }
      }
    }
  }

  lemma {:induction false} RefineReturn(s: State, st: Stmt, c: Context, p: Place, cookie: int, fuel: nat)
    requires st.Return?
    requires Start(s, st, c, p, cookie)
    ensures StmtAgrees(ExecReturn(s, st, cookie, fuel), PerformReturn(s.store, st, c, fuel), c, p, cookie)
    decreases fuel, 2, st, 3
  {
    hide SafeStore, SameBelow, Eval, Compute;
    if c.inFunc && st.result.Some? { ExprStep(s, st.result.value, c, p, cookie, fuel); }
  }

  lemma {:induction false} RefineTry(s: State, st: Stmt, c: Context, p: Place, cookie: int, fuel: nat)
    requires st.Try?
    requires Start(s, st, c, p, cookie)
    ensures StmtAgrees(ExecTry(s, st, cookie, fuel), PerformTry(s.store, st, c, fuel), c, p, cookie)
    decreases fuel, 2, st, 3
  {
    hide SafeStore, SameBelow, Exec, Perform;
    var s0 := s.(tries := s.tries + 1);
    var c0 := c.(inTry := true);
    RefineStmt(s0, st.tried, c0, p.(tried := true), cookie, fuel);
    ExecBalance(s0, st.tried, cookie, fuel);
    if Exec(s0, st.tried, cookie, fuel).Some? {
      var s1 := Exec(s0, st.tried, cookie, fuel).value;
      var (m, o) := Perform(s.store, st.tried, c0, fuel).value;
      if o.Threw? {
        CatchReady(s, s1, st.name, o.v, c, p, cookie);
        RefineStmt(Catch(s1, st.name), st.handler, c, p, cookie, fuel);
      } else {
        CloseTry(s1, m, o, c, p, cookie);
      }
    }
  }

  // Closing a try section that caught nothing changes nothing else.
  lemma CloseTry(s1: State, m: Store, o: Outcome, c: Context, p: Place, cookie: int)
    requires Agreed(s1, m, o, c.(inTry := true), p.(tried := true), cookie) && !o.Threw?
    ensures s1.exc ==> s1.exit
    ensures Agreed(s1.(tries := s1.tries - 1), m, o, c, p, cookie)
  {
  }

  // A handler starts calm, with the try section closed.
  lemma CatchReady(s: State, s1: State, name: string, v: Value, c: Context, p: Place, cookie: int)
    requires Ready(s, c, p, cookie) && Balanced(s.(tries := s.tries + 1), s1)
    requires s1.exc && Calm(s1.(exc := false)) && SafeStore(s1.store, p.any) && SafeValue(v, p.any) && s1.excVal == v
    requires c.inFunc ==> s1.retCookie != cookie
    ensures Ready(Catch(s1, name), c, p, cookie)
  {
    AddSafe(s1.store, name, Var(v), p.any);
  }

  lemma {:induction false} RefineSeq(s: State, body: seq<Stmt>, c: Context, p: Place, cookie: int, fuel: nat)
    requires Ready(s, c, p, cookie) && cookie <= s.cookie && SafeAll(body, p)
    ensures StmtAgrees(ExecSeq(s, body, cookie, fuel), PerformAll(s.store, body, c, fuel), c, p, cookie)
    decreases fuel, 2, body, 0
  {
    hide SafeStore, SameBelow, Exec, Perform;
    if body != [] {
      RefineStmt(s, body[0], c, p, cookie, fuel);
      ExecBalance(s, body[0], cookie, fuel);
      if Exec(s, body[0], cookie, fuel).Some? {
        var t := Exec(s, body[0], cookie, fuel).value;
        if Calm(t) {
          StillReady(s, t, c, p, cookie);
          RefineSeq(t, body[1..], c, p, cookie, fuel);
        }
      }
    }
  }

  // ---- loops ----

  // All three loop statements; the for loop runs its initialiser first.
  lemma {:induction false} RefineLoops(s: State, st: Stmt, c: Context, p: Place, cookie: int, fuel: nat)
    requires st.While? || st.For? || st.Do?
    requires Start(s, st, c, p, cookie)
    ensures StmtAgrees(ExecLoops(s, st, cookie, fuel), PerformLoops(s.store, st, c, fuel), c, p, cookie)
    decreases fuel, 2, st, 3
  {
    hide SafeStore, SameBelow, ExecLoop, ExecDo, Loop, Repeat, SafeStmt, Agreed, ExecFor, LoopFor;
    var s0 := s.(loops := s.loops + 1);
    if st.While? {
      RefineLoop(s0, st, c, p, cookie, fuel);
      LoopEnds(ExecLoop(s0, st, cookie, fuel), Loop(s.store, st, c, fuel), c, p, cookie);
    } else if st.Do? {
      RefineRepeat(s0, st, c, p, false, cookie, fuel);
      LoopEnds(ExecDo(s0, st, false, cookie, fuel), Repeat(s.store, st, c, fuel), c, p, cookie);
    } else {
      RefineFor(s0, st, c, p, cookie, fuel);
      LoopEnds(ExecFor(s0, st, cookie, fuel), LoopFor(s.store, st, c, fuel), c, p, cookie);
      ForIs(s, s0, st, cookie, fuel);
      LoopForIs(s.store, st, c, fuel);
    }
  }

  // A loop statement closes its loop.
  lemma LoopEnds(r: Option<State>, q: Option<(Store, Outcome)>, c: Context, p: Place, cookie: int)
    requires LoopAgrees(r, q, c, p, cookie)
    ensures r.Some? == q.Some?
    ensures r.Some? ==> Agreed(r.value.(brk := false, loops := r.value.loops - 1), q.value.0, q.value.1, c, p, cookie)
  {
    hide SafeStore, SafeValue;
  }

  function ExecFor(s: State, st: Stmt, cookie: int, fuel: nat): Option<State>
    requires st.For?
  {
    var (s1, _) :- Eval(s, st.init, fuel);
    ExecLoop(s1, st, cookie, fuel)
  }

  function LoopFor(m: Store, st: Stmt, c: Context, fuel: nat): Option<(Store, Outcome)>
    requires st.For?
  {
    var (m1, r) :- Compute(m, st.init, c.inTry, fuel);
    if r.Ok? then Loop(m1, st, c, fuel) else Some((m1, Abrupt(r)))
  }

  lemma ForIs(s: State, s0: State, st: Stmt, cookie: int, fuel: nat)
    requires st.For? && s0 == s.(loops := s.loops + 1) && s.loops >= 0
    ensures ExecLoops(s, st, cookie, fuel) ==
            var r := ExecFor(s0, st, cookie, fuel);
            if r.None? then None else Some(r.value.(brk := false, loops := r.value.loops - 1))
  {
    hide Eval, ExecLoop, ExecDo;
  }

  lemma LoopForIs(m: Store, st: Stmt, c: Context, fuel: nat)
    requires st.For?
    ensures PerformLoops(m, st, c, fuel) == LoopFor(m, st, c, fuel)
  {
    hide Compute, Loop, Repeat;
  }

  lemma {:induction false} RefineFor(s: State, st: Stmt, c: Context, p: Place, cookie: int, fuel: nat)
    requires st.For? && LoopStart(s, st, c, p, cookie)
    ensures LoopAgrees(ExecFor(s, st, cookie, fuel), LoopFor(s.store, st, c, fuel), c, p, cookie)
    decreases fuel, 2, st, 2
  {
    hide SafeStore, SameBelow, Eval, Compute, ExecLoop, Loop, SafeAll, SafeCases, SafeValue;
    ExprStep(s, st.init, c.(inLoop := true), p.InLoop(), cookie, fuel);
    if Eval(s, st.init, fuel).Some? {
      var t := Eval(s, st.init, fuel).value.0;
      if Calm(t) { RefineLoop(t, st, c, p, cookie, fuel); } else { InertLoop(t, st, cookie, fuel); }
    }
  }

  lemma InertLoop(s: State, st: Stmt, cookie: int, fuel: nat)
    requires (s.exc || s.exit) && (st.While? || st.For?)
    ensures ExecLoop(s, st, cookie, fuel) == Some(s)
  {
    hide SafeStore, SameBelow, Eval;
  }

  lemma {:induction false} RefineLoop(s: State, st: Stmt, c: Context, p: Place, cookie: int, fuel: nat)
    requires st.While? || st.For?
    requires LoopStart(s, st, c, p, cookie)
    ensures LoopAgrees(ExecLoop(s, st, cookie, fuel), Loop(s.store, st, c, fuel), c, p, cookie)
    decreases fuel, 2, st, 1
  {
    hide SafeStore, SameBelow, Eval, Compute, ExecTurn, Turn, SafeAll, SafeCases, SafeExpr, SafeValue;
    ExprStep(s, st.test, c.(inLoop := true), p.InLoop(), cookie, fuel);
    var (r, q) := (Eval(s, st.test, fuel), Compute(s.store, st.test, c.inTry, fuel));
    LoopIs(s, s.store, st, c, cookie, fuel);
    if r.Some? {
      RefineTurn(s, r.value.0, r.value.1, q.value.0, q.value.1, st, c, p, cookie, fuel);
    }
  }

  // One turn of a loop after its test.
  function ExecTurn(t: State, v: Value, st: Stmt, cookie: int, fuel: nat): Option<State>
    requires st.While? || st.For?
  {
    if !ToBool(v) then Some(t)
    else
      var left :- FuelAfter(t, fuel);
      ExecBody(t, st, cookie, left)
  }

  function Turn(m: Store, r: Result, st: Stmt, c: Context, fuel: nat): Option<(Store, Outcome)>
    requires st.While? || st.For?
  {
    if !r.Ok? || !ToBool(r.v) then Some((m, Abrupt(r)))
    else if fuel == 0 then None
    else PerformBody(m, st, c, fuel - 1)
  }

  lemma LoopIs(s: State, m: Store, st: Stmt, c: Context, cookie: int, fuel: nat)
    requires st.While? || st.For?
    ensures ExecLoop(s, st, cookie, fuel) ==
            var r := Eval(s, st.test, fuel);
            if r.None? then None else ExecTurn(r.value.0, r.value.1, st, cookie, fuel)
    ensures Loop(m, st, c, fuel) ==
            var q := Compute(m, st.test, c.inTry, fuel);
            if q.None? then None else Turn(q.value.0, q.value.1, st, c, fuel)
  {
    hide Eval, Compute, Exec, Perform;
  }

  lemma {:induction false} RefineTurn(s: State, t: State, v: Value, m: Store, r: Result, st: Stmt, c: Context, p: Place,
                                      cookie: int, fuel: nat)
    requires st.While? || st.For?
    requires LoopStart(s, st, c, p, cookie) && Balanced(s, t)
    requires Shows(t, v, m, r, p.any) && SafeStore(m, p.any) && (c.inFunc ==> t.retCookie != cookie)
    ensures LoopAgrees(ExecTurn(t, v, st, cookie, fuel), Turn(m, r, st, c, fuel), c, p, cookie)
    decreases fuel, 2, st, 0
  {
    hide SafeStore, SameBelow, ExecBody, PerformBody, SafeAll, SafeCases, SafeExpr, SafeValue;
    if t.exc || t.exit {
      InertBody(t, st, cookie, fuel);
    } else if ToBool(v) && fuel > 0 {
      StillReady(s, t, c.(inLoop := true), p.InLoop(), cookie);
      RefineBody(t, st, c, p, cookie, fuel - 1);
    }
  }

  lemma InertBody(s: State, st: Stmt, cookie: int, fuel: nat)
    requires (s.exc || s.exit) && (st.While? || st.For?)
    ensures ExecBody(s, st, cookie, fuel) == Some(s.(cont := false))
  {
    hide SafeStore, SameBelow, ExecRound;
    InertRound(s.(cont := false), st, cookie, fuel);
  }

  // The body of a loop, and what follows it.
  function ExecBody(s: State, st: Stmt, cookie: int, fuel: nat): Option<State>
    requires st.While? || st.For?
  {
    var s2 :- Exec(s, st.loop, cookie, fuel);
    var s3 := s2.(cont := false);
    if s3.brk then Some(s3) else ExecRound(s3, st, cookie, fuel)
  }

  function PerformBody(m: Store, st: Stmt, c: Context, fuel: nat): Option<(Store, Outcome)>
    requires st.While? || st.For?
  {
    var (m2, o) :- Perform(m, st.loop, c.(inLoop := true), fuel);
    if LeaveLoop(o).Some? then Some((m2, LeaveLoop(o).value)) else NextRound(m2, st, c, fuel)
  }

  lemma {:induction false} RefineBody(s: State, st: Stmt, c: Context, p: Place, cookie: int, fuel: nat)
    requires st.While? || st.For?
    requires LoopStart(s, st, c, p, cookie)
    ensures LoopAgrees(ExecBody(s, st, cookie, fuel), PerformBody(s.store, st, c, fuel), c, p, cookie)
    decreases fuel, 2, st, 5
  {
    hide SafeStore, SameBelow, Exec, Perform, NextRound, ExecRound, SafeAll, SafeCases, SafeExpr, SafeValue, Agreed;
    var c1 := c.(inLoop := true);
    RefineStmt(s, st.loop, c1, p.InLoop(), cookie, fuel);
    ExecBalance(s, st.loop, cookie, fuel);
    if Exec(s, st.loop, cookie, fuel).Some? {
      var s2 := Exec(s, st.loop, cookie, fuel).value;
      var (m, o) := Perform(s.store, st.loop, c1, fuel).value;
      var s3 := s2.(cont := false);
      if LeaveLoop(o).Some? {
        BodyLeft(s2, m, o, c, p, cookie);
        if s3.exc || s3.exit { InertRound(s3, st, cookie, fuel); }
      } else {
        BodyDone(s, s2, m, o, c, p, cookie);
        RefineRound(s3, st, c, p, cookie, fuel);
      }
    }
  }

  // A body that leaves its loop has the break flag up, or makes the rest inert.
  lemma BodyLeft(s2: State, m: Store, o: Outcome, c: Context, p: Place, cookie: int)
    requires Agreed(s2, m, o, c.(inLoop := true), p.InLoop(), cookie) && LeaveLoop(o).Some?
    ensures s2.brk || s2.exc || s2.exit
    ensures !Jumped(LeaveLoop(o).value)
    ensures Agreed(s2.(cont := false, brk := false), m, LeaveLoop(o).value, c, p.(jumps := false), cookie)
  {
    hide SafeStore, SafeValue;
  }

  lemma BodyDone(s: State, s2: State, m: Store, o: Outcome, c: Context, p: Place, cookie: int)
    requires Ready(s, c.(inLoop := true), p.InLoop(), cookie) && Balanced(s, s2)
    requires Agreed(s2, m, o, c.(inLoop := true), p.InLoop(), cookie) && LeaveLoop(o).None?
    ensures Ready(s2.(cont := false), c.(inLoop := true), p.InLoop(), cookie) && s2.store == m && !s2.brk
  {
    hide SafeStore, SafeValue, SameBelow;
    StillReady(s, s2.(cont := false), c.(inLoop := true), p.InLoop(), cookie);
  }

  lemma InertRound(s: State, st: Stmt, cookie: int, fuel: nat)
    requires (s.exc || s.exit) && (st.While? || st.For?)
    ensures ExecRound(s, st, cookie, fuel) == Some(s)
  {
    hide SafeStore, SameBelow, Eval, ExecLoop;
    InertLoop(s, st, cookie, fuel);
  }

  // What follows a completed round: the guard of a for loop, then the loop again.
  function ExecRound(s: State, st: Stmt, cookie: int, fuel: nat): Option<State>
    requires st.While? || st.For?
  {
    if st.For? then
      var (s1, _) :- Eval(s, st.guard, fuel);
      ExecLoop(s1, st, cookie, fuel)
    else ExecLoop(s, st, cookie, fuel)
  }

  lemma {:induction false} RefineRound(s: State, st: Stmt, c: Context, p: Place, cookie: int, fuel: nat)
    requires st.While? || st.For?
    requires LoopStart(s, st, c, p, cookie)
    ensures LoopAgrees(ExecRound(s, st, cookie, fuel), NextRound(s.store, st, c, fuel), c, p, cookie)
    decreases fuel, 2, st, 2
  {
    hide SafeStore, SameBelow, Eval, Compute, ExecLoop, Loop;
    if st.While? {
      RefineLoop(s, st, c, p, cookie, fuel);
    } else {
      ExprStep(s, st.guard, c.(inLoop := true), p.InLoop(), cookie, fuel);
      if Eval(s, st.guard, fuel).Some? {
        var t := Eval(s, st.guard, fuel).value.0;
        if Calm(t) { RefineLoop(t, st, c, p, cookie, fuel); } else { InertLoop(t, st, cookie, fuel); }
      }
    }
  }

  lemma {:induction false} RefineRepeat(s: State, st: Stmt, c: Context, p: Place, last: bool, cookie: int, fuel: nat)
    requires st.Do?
    requires LoopStart(s, st, c, p, cookie)
    ensures LoopAgrees(ExecDo(s, st, last, cookie, fuel), Repeat(s.store, st, c, fuel), c, p, cookie)
    decreases fuel, 2, st, 2
  {
    hide SafeStore, SameBelow, Exec, Perform, DoTest, Compute, DoTail, RepeatTail;
    var c1 := c.(inLoop := true);
    RefineStmt(s, st.loop, c1, p.InLoop(), cookie, fuel);
    ExecBalance(s, st.loop, cookie, fuel);
    if Exec(s, st.loop, cookie, fuel).Some? {
      var s1 := Exec(s, st.loop, cookie, fuel).value;
      var (m, o) := Perform(s.store, st.loop, c1, fuel).value;
      if NoContinue(st.loop) { NeverContinued(s.store, st.loop, c1, fuel); }
      RefineTail(s, s1, m, o, st, c, p, last, cookie, fuel);
      DoTailIs(s, s1, st, last, cookie, fuel);
      RepeatTailIs(s.store, m, o, st, c, fuel);
    }
  }

  // The rest of a do loop after its body has run.
  function DoTail(s1: State, st: Stmt, last: bool, cookie: int, fuel: nat): Option<State>
    requires st.Do?
  {
    var (s2, again) :- DoTest(s1, st, last, fuel);
    DoAgain(s2.(cont := false), st, again, cookie, fuel)
  }

  function DoAgain(s3: State, st: Stmt, again: bool, cookie: int, fuel: nat): Option<State>
    requires st.Do?
  {
    if !again || s3.brk then Some(s3)
    else
      var left :- FuelAfter(s3, fuel);
      ExecDo(s3, st, again, cookie, left)
  }

  function RepeatTail(m: Store, o: Outcome, st: Stmt, c: Context, fuel: nat): Option<(Store, Outcome)>
    requires st.Do?
  {
    if LeaveLoop(o).Some? then Some((m, LeaveLoop(o).value))
    else
      var (m2, r) :- Compute(m, st.test, c.inTry, fuel);
      RepeatAgain(m2, r, st, c, fuel)
  }

  function RepeatAgain(m2: Store, r: Result, st: Stmt, c: Context, fuel: nat): Option<(Store, Outcome)>
    requires st.Do?
  {
    if !r.Ok? || !ToBool(r.v) then Some((m2, Abrupt(r)))
    else if fuel == 0 then None
    else Repeat(m2, st, c, fuel - 1)
  }

  lemma DoTailIs(s: State, s1: State, st: Stmt, last: bool, cookie: int, fuel: nat)
    requires st.Do? && Exec(s, st.loop, cookie, fuel) == Some(s1)
    ensures ExecDo(s, st, last, cookie, fuel) == DoTail(s1, st, last, cookie, fuel)
  {
    hide SafeStore, SameBelow, Exec, DoTest;
  }

  lemma RepeatTailIs(m0: Store, m: Store, o: Outcome, st: Stmt, c: Context, fuel: nat)
    requires st.Do? && Perform(m0, st.loop, c.(inLoop := true), fuel) == Some((m, o))
    ensures Repeat(m0, st, c, fuel) == RepeatTail(m, o, st, c, fuel)
  {
    hide SafeStore, SameBelow, Perform, Compute;
  }

  lemma {:induction false} RefineTail(s: State, s1: State, m: Store, o: Outcome, st: Stmt, c: Context, p: Place,
                                      last: bool, cookie: int, fuel: nat)
    requires st.Do?
    requires LoopStart(s, st, c, p, cookie) && Balanced(s, s1)
    requires Agreed(s1, m, o, c.(inLoop := true), p.InLoop(), cookie)
    requires CallFree(st.test) || !o.Continued?
    ensures LoopAgrees(DoTail(s1, st, last, cookie, fuel), RepeatTail(m, o, st, c, fuel), c, p, cookie)
    decreases fuel, 2, st, 1
  {
    hide SafeStore, SameBelow, Compute, DoTest, DoAgain, RepeatAgain, SafeAll, SafeCases, SafeExpr, SafeValue;
    var c1 := c.(inLoop := true);
    if Calm(s1.(cont := false)) {
      StillReady(s, s1.(cont := false), c1, p.InLoop(), cookie);
      RefineTest(s1, st, last, c1, p.InLoop(), cookie, fuel);
      if DoTest(s1, st, last, fuel).Some? {
        var (t, again) := DoTest(s1, st, last, fuel).value;
        var (m2, r) := Compute(m, st.test, c.inTry, fuel).value;
        RefineAgain(t.(cont := false), again, m2, r, st, c, p, cookie, fuel);
      }
    } else {
      SkippedTest(s1, st, last, fuel);
      LoopLeft(s1.(cont := false), st, DoTest(s1, st, last, fuel).value.1, cookie, fuel);
    }
  }

  lemma LoopLeft(s3: State, st: Stmt, again: bool, cookie: int, fuel: nat)
    requires st.Do? && (again ==> s3.brk)
    ensures DoAgain(s3, st, again, cookie, fuel) == Some(s3)
  {
    hide ExecDo;
  }

  // After the test the loop ends or goes round again.
  lemma {:induction false} RefineAgain(s3: State, again: bool, m: Store, r: Result, st: Stmt, c: Context, p: Place,
                                       cookie: int, fuel: nat)
    requires st.Do? && SafeStmt(st, p) && SafeStore(m, p.any) && cookie <= s3.cookie && !s3.cont
    requires c.inFunc ==> s3.retCookie != cookie
    requires match r
             case Ok(v) => Ready(s3, c.(inLoop := true), p.InLoop(), cookie) && s3.store == m && again == ToBool(v)
             case Thrown(_) => Shows(s3, Void, m, r, p.any)
             case Exited => s3.exit
    ensures LoopAgrees(DoAgain(s3, st, again, cookie, fuel), RepeatAgain(m, r, st, c, fuel), c, p, cookie)
    decreases fuel, 2, st, 0
  {
    hide SafeStore, SameBelow, ExecDo, Repeat, SafeStmt;
    if again {
      if s3.exc || s3.exit {
        InertDo(s3, st, again, cookie, fuel);
      } else if fuel > 0 {
        RefineRepeat(s3, st, c, p, true, cookie, fuel - 1);
      }
    }
  }

  // After a normal or continued round the test sees a state calm but for the continue flag.
  lemma {:induction false} RefineTest(s1: State, st: Stmt, last: bool, c: Context, p: Place, cookie: int, fuel: nat)
    requires st.Do? && SafeExpr(st.test, p.any, p.Open()) && (CallFree(st.test) || !s1.cont)
    requires Ready(s1.(cont := false), c, p, cookie)
    ensures DoTest(s1, st, last, fuel).Some? == Compute(s1.store, st.test, c.inTry, fuel).Some?
    ensures DoTest(s1, st, last, fuel).Some? ==>
              var (t, again) := DoTest(s1, st, last, fuel).value;
              var (m, r) := Compute(s1.store, st.test, c.inTry, fuel).value;
              && SafeStore(m, p.any) && t.cookie >= s1.cookie
              && (c.inFunc ==> t.retCookie != cookie)
              && match r
                 case Ok(v) => Ready(t.(cont := false), c, p, cookie) && t.store == m && again == ToBool(v)
                 case Thrown(_) => Shows(t.(cont := false), Void, m, r, p.any)
                 case Exited => t.exit
    decreases fuel, 2, st, 0
  {
    hide SafeStore, SameBelow, Eval, Compute;
    var s2 := s1.(cont := false);
    if CallFree(st.test) { ContinueUnseen(s2, st.test, fuel, s1.cont); }
    assert s2.(cont := s1.cont) == s1;
    ExprStep(s2, st.test, c, p, cookie, fuel);
  }

  // After a break, exception, return or exit the test does not keep the loop going.
  lemma SkippedTest(s1: State, st: Stmt, last: bool, fuel: nat)
    requires st.Do? && (s1.brk || s1.exc || s1.exit)
    ensures DoTest(s1, st, last, fuel).Some?
    ensures var (t, again) := DoTest(s1, st, last, fuel).value;
            t == s1 && (again ==> t.brk)
  {
    hide SafeStore, SameBelow, Eval;
  }

  lemma InertDo(s: State, st: Stmt, last: bool, cookie: int, fuel: nat)
    requires (s.exc || s.exit) && st.Do? && !s.cont
    ensures ExecDo(s, st, last, cookie, fuel) == Some(s)
  {
    hide SafeStore, SameBelow, Exec, DoTest;
  }

  // ---- switch ----

  lemma {:induction false} RefineSwitch(s: State, st: Stmt, c: Context, p: Place, cookie: int, fuel: nat)
    requires st.Switch?
    requires Start(s, st, c, p, cookie)
    ensures StmtAgrees(ExecSwitch(s, st, cookie, fuel), PerformSwitch(s.store, st, c, fuel), c, p, cookie)
    decreases fuel, 2, st, 3
  {
    hide SafeStore, SameBelow, Eval, Compute, ExecCases, PerformCases, ExecList, PerformAll;
    ExprStep(s, st.e, c, p, cookie, fuel);
    if Eval(s, st.e, fuel).Some? {
      var (t, v) := Eval(s, st.e, fuel).value;
      var def := LastDefault(st.cases);
      if !Calm(t) {
        InertCases(t, v, st.cases, false, cookie, fuel);
        if def.Some? { InertList(t, def.value, cookie, fuel); }
      } else {
        RefineCases(t, v, st.cases, false, c, p, cookie, fuel);
        CasesBalance(t, v, st.cases, false, cookie, fuel);
        if ExecCases(t, v, st.cases, false, cookie, fuel).Some? && def.Some? {
          var (t1, handled) := ExecCases(t, v, st.cases, false, cookie, fuel).value;
          if Calm(t1) {
            StillReady(t, t1, c, p, cookie);
            DefaultSafe(st.cases, p);
            RefineList(t1, def.value, c, p, cookie, fuel);
          } else if t1.exc || t1.exit {
            InertList(t1, def.value, cookie, fuel);
          }
        }
      }
    }
  }

  lemma {:induction false} RefineList(s: State, body: seq<Stmt>, c: Context, p: Place, cookie: int, fuel: nat)
    requires Ready(s, c, p, cookie) && cookie <= s.cookie && SafeAll(body, p)
    ensures StmtAgrees(ExecList(s, body, cookie, fuel), PerformAll(s.store, body, c, fuel), c, p, cookie)
    decreases fuel, 2, body, 1
  {
    hide SafeStore, SameBelow, ExecSeq, PerformAll;
    RefineSeq(s, body, c, p, cookie, fuel);
  }

  lemma {:induction false} DefaultSafe(cases: seq<Case>, p: Place)
    requires SafeCases(cases, p)
    ensures forall i :: 0 <= i < |cases| && cases[i].Default? ==> SafeAll(cases[i].body, p)
    decreases cases
  {
    hide SafeStore, SameBelow, SafeAll;
    if cases != [] {
      DefaultSafe(cases[1..], p);
      assert forall i :: 0 < i < |cases| ==> cases[i] == cases[1..][i - 1];
    }
  }

  lemma {:induction false} RefineCases(s: State, v: Value, cases: seq<Case>, go: bool, c: Context, p: Place,
                                       cookie: int, fuel: nat)
    requires Ready(s, c, p, cookie) && cookie <= s.cookie && SafeCases(cases, p) && SafeValue(v, p.any)
    ensures CasesAgree(ExecCases(s, v, cases, go, cookie, fuel), PerformCases(s.store, v, cases, go, c, fuel),
                       c, p, cookie)
    decreases fuel, 2, cases, 4
  {
    hide SafeStore, SameBelow, Eval, Compute, ExecGroup, PerformGroup;
    if cases != [] {
      if go {
        RefineGroup(s, v, cases, c, p, cookie, fuel);
      } else if cases[0].Default? {
        RefineCases(s, v, cases[1..], false, c, p, cookie, fuel);
      } else {
        RefineLabel(s, v, cases, c, p, cookie, fuel);
        assert ExecCases(s, v, cases, false, cookie, fuel) == ExecLabel(s, v, cases, cookie, fuel);
        assert PerformCases(s.store, v, cases, false, c, fuel) == PerformLabel(s.store, v, cases, c, fuel);
      }
    }
  }

  // A label with a guard, reached before any has matched.
  function ExecLabel(s: State, v: Value, cases: seq<Case>, cookie: int, fuel: nat): Option<(State, bool)>
    requires cases != [] && cases[0].Case?
  {
    var (s1, g) :- Eval(s, cases[0].guard, fuel);
    if SameValue(v, g) then ExecGroup(s1, v, cases, cookie, fuel)
    else ExecCases(s1, v, cases[1..], false, cookie, fuel)
  }

  function PerformLabel(m: Store, v: Value, cases: seq<Case>, c: Context, fuel: nat): Option<(Store, Outcome, bool)>
    requires cases != [] && cases[0].Case?
  {
    var (m1, g) :- Compute(m, cases[0].guard, c.inTry, fuel);
    if !g.Ok? then Some((m1, Abrupt(g), false))
    else if SameValue(v, g.v) then PerformGroup(m1, v, cases, c, fuel)
    else PerformCases(m1, v, cases[1..], false, c, fuel)
  }

  lemma {:induction false} RefineLabel(s: State, v: Value, cases: seq<Case>, c: Context, p: Place, cookie: int,
                                       fuel: nat)
    requires cases != [] && cases[0].Case?
    requires Ready(s, c, p, cookie) && cookie <= s.cookie && SafeCases(cases, p) && SafeValue(v, p.any)
    ensures CasesAgree(ExecLabel(s, v, cases, cookie, fuel), PerformLabel(s.store, v, cases, c, fuel), c, p, cookie)
    decreases fuel, 2, cases, 3
  {
    hide SafeStore, SameBelow, Eval, Compute, ExecGroup, PerformGroup, ExecCases, PerformCases, SafeCases, SafeAll;
    hide SafeExpr, SafeValue, CasesAgree, Ready;
    FirstSafe(cases, p);
    ExprStep(s, cases[0].guard, c, p, cookie, fuel);
    if Eval(s, cases[0].guard, fuel).Some? {
      var (t, g) := Eval(s, cases[0].guard, fuel).value;
      if !Calm(t) {
        var (m, r) := Compute(s.store, cases[0].guard, c.inTry, fuel).value;
        LabelQuits(t, g, v, m, r, cases, c, p, cookie, fuel);
      } else if SameValue(v, g) {
        RefineGroup(t, v, cases, c, p, cookie, fuel);
      } else {
        RefineCases(t, v, cases[1..], false, c, p, cookie, fuel);
      }
    } else {
      NoneAgree(c, p, cookie);
    }
  }

  lemma NoneAgree(c: Context, p: Place, cookie: int)
    ensures CasesAgree(None, None, c, p, cookie)
  {
  }

  // A label that throws or quits ends the switch.
  lemma LabelQuits(t: State, g: Value, v: Value, m: Store, r: Result, cases: seq<Case>, c: Context, p: Place,
                   cookie: int, fuel: nat)
    requires cases != [] && cases[0].Case? && !Calm(t) && Shows(t, g, m, r, p.any) && SafeStore(m, p.any)
    requires c.inFunc ==> t.retCookie != cookie
    ensures CasesAgree(if SameValue(v, g) then ExecGroup(t, v, cases, cookie, fuel)
                       else ExecCases(t, v, cases[1..], false, cookie, fuel),
                       Some((m, Abrupt(r), false)), c, p, cookie)
  {
    hide SafeStore, SafeValue, ExecGroup, ExecCases;
    InertCases(t, v, cases[1..], false, cookie, fuel);
    InertGroup(t, v, cases, cookie, fuel);
  }

  lemma FirstSafe(cases: seq<Case>, p: Place)
    requires cases != [] && SafeCases(cases, p)
    ensures cases[0].Case? ==> SafeExpr(cases[0].guard, p.any, p.Open())
    ensures SafeCases(cases[1..], p)
  {
  }

  lemma InertGroup(s: State, v: Value, cases: seq<Case>, cookie: int, fuel: nat)
    requires (s.exc || s.exit) && cases != []
    ensures ExecGroup(s, v, cases, cookie, fuel).Some? && ExecGroup(s, v, cases, cookie, fuel).value.0 == s
  {
    hide SafeStore, SameBelow, ExecList, ExecCases;
    InertList(s, cases[0].body, cookie, fuel);
    InertCases(s, v, cases[1..], true, cookie, fuel);
  }

  // A group that runs, and what falls through after it.
  lemma {:induction false} RefineGroup(s: State, v: Value, cases: seq<Case>, c: Context, p: Place, cookie: int,
                                       fuel: nat)
    requires cases != []
    requires Ready(s, c, p, cookie) && cookie <= s.cookie && SafeCases(cases, p) && SafeValue(v, p.any)
    ensures CasesAgree(ExecGroup(s, v, cases, cookie, fuel), PerformGroup(s.store, v, cases, c, fuel), c, p, cookie)
    decreases fuel, 2, cases, 2
  {
    hide SafeStore, SameBelow, ExecList, PerformAll, ExecCases, PerformCases, SafeAll, SafeExpr, SafeValue, Agreed;
    hide Ready, Balanced, Counting;
    ReadyInGroup(s, c, p, cases, cookie);
    RefineList(s, cases[0].body, c, p.InGroup(cases), cookie, fuel);
    ListBalance(s, cases[0].body, cookie, fuel);
    if ExecList(s, cases[0].body, cookie, fuel).Some? {
      var t := ExecList(s, cases[0].body, cookie, fuel).value;
      var (m, o) := PerformAll(s.store, cases[0].body, c, fuel).value;
      GroupAgreed(t, m, o, c, p, cases, cookie);
      if cases[0].Case? && cases[0].thru {
        if o.Normal? {
          RefineFall(s, t, v, cases, m, c, p, cookie, fuel);
        } else {
          NoneLeft(s, t, v, m, o, c, p, cases, cookie, fuel);
        }
      }
    }
  }

  lemma ReadyInGroup(s: State, c: Context, p: Place, cases: seq<Case>, cookie: int)
    requires cases != [] && Ready(s, c, p, cookie)
    ensures Ready(s, c, p.InGroup(cases), cookie) && Counting(s)
  {
  }

  // Falling through to the next group.
  lemma {:induction false} RefineFall(s: State, t: State, v: Value, cases: seq<Case>, m: Store, c: Context, p: Place,
                                      cookie: int, fuel: nat)
    requires cases != [] && Ready(s, c, p, cookie) && cookie <= s.cookie && SafeCases(cases, p) && SafeValue(v, p.any)
    requires Balanced(s, t) && Agreed(t, m, Normal, c, p, cookie)
    ensures CasesAgree(ExecCases(t, v, cases[1..], true, cookie, fuel), PerformCases(m, v, cases[1..], true, c, fuel),
                       c, p, cookie)
    decreases fuel, 2, cases, 0
  {
    hide SafeStore, SameBelow, ExecCases, PerformCases, SafeCases, SafeAll, SafeExpr, SafeValue, Agreed, Ready;
    hide Balanced, CasesAgree;
    FirstSafe(cases, p);
    NormalReady(s, t, m, c, p, cookie);
    RefineCases(t, v, cases[1..], true, c, p, cookie, fuel);
  }

  // A group that did not end normally is the last that does anything.
  lemma NoneLeft(s: State, t: State, v: Value, m: Store, o: Outcome, c: Context, p: Place, cases: seq<Case>,
                 cookie: int, fuel: nat)
    requires cases != [] && cases[0].Case? && cases[0].thru && Ready(s, c, p, cookie) && !o.Normal?
    requires Agreed(t, m, o, c, p.InGroup(cases), cookie)
    ensures ExecCases(t, v, cases[1..], true, cookie, fuel) == Some((t, true))
  {
    hide SafeStore, ExecCases, Ready, Agreed;
    GoneOn(t, v, cases[1..], cookie, fuel);
    if cases[1..] != [] {
      NoJumpOn(s, t, m, o, c, p, cases, cookie);
      InertCases(t, v, cases[1..], true, cookie, fuel);
    }
  }

  lemma GroupAgreed(t: State, m: Store, o: Outcome, c: Context, p: Place, cases: seq<Case>, cookie: int)
    requires cases != [] && Agreed(t, m, o, c, p.InGroup(cases), cookie)
    ensures Agreed(t, m, o, c, p, cookie)
  {
    hide SafeStore, SafeValue;
  }

  lemma NormalReady(s: State, t: State, m: Store, c: Context, p: Place, cookie: int)
    requires Ready(s, c, p, cookie) && Balanced(s, t) && Agreed(t, m, Normal, c, p, cookie)
    ensures Ready(t, c, p, cookie) && t.store == m && s.cookie <= t.cookie
  {
    hide SafeStore, SameBelow;
    StillReady(s, t, c, p, cookie);
  }

  // A group that falls through to another one was not left by a break or continue of its own.
  lemma NoJumpOn(s: State, t: State, m: Store, o: Outcome, c: Context, p: Place, cases: seq<Case>, cookie: int)
    requires |cases| > 1 && cases[0].Case? && cases[0].thru && Ready(s, c, p, cookie) && !o.Normal?
    requires Agreed(t, m, o, c, p.InGroup(cases), cookie)
    ensures t.exc || t.exit || t.ret
  {
    hide SafeStore, SafeValue;
  }

  // Once a label has matched, the switch is handled.
  lemma {:induction false} GoneOn(s: State, v: Value, cases: seq<Case>, cookie: int, fuel: nat)
    ensures cases == [] ==> ExecCases(s, v, cases, true, cookie, fuel) == Some((s, true))
    ensures ExecCases(s, v, cases, true, cookie, fuel).Some? ==> ExecCases(s, v, cases, true, cookie, fuel).value.1
    decreases cases
  {
    hide SafeStore, SameBelow, ExecList;
    if cases != [] {
      if ExecList(s, cases[0].body, cookie, fuel).Some? {
        GoneOn(ExecList(s, cases[0].body, cookie, fuel).value, v, cases[1..], cookie, fuel);
      }
    }
  }
}
