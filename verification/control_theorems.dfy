/** The main results about whole programs and whole calls. */
module ControlTheorems {
  import opened Wrappers
  import opened Language
  import opened FlagMachine
  import opened Structured
  import opened Safe
  import opened Balance
  import opened Refinement

  // The state a script starts in.
  function Initial(globals: Table): State {
    State(false, false, false, false, false, Void, 0, 0, 0, None, 0, 0, Store([], globals))
  }

  const OUTSIDE := Context(false, false, false)

  // A safe script ends exactly when its structured semantics does.  It ends normally with every
  // flag down and the same variables, or it quits; no break, return or exception is left over.
  // A program without a try anywhere is checked with any set to false, which asks less of it.
  lemma ProgramRefines(script: seq<Stmt>, globals: Table, any: bool, fuel: nat)
    requires SafeAll(script, ScriptPlace(any)) && SafeTable(globals, any)
    ensures var r := ExecList(Initial(globals), script, 0, fuel);
            var p := PerformAll(Store([], globals), script, OUTSIDE, fuel);
            && (r.Some? <==> p.Some?)
            && (r.Some? ==>
                  match p.value.1
                  case Normal => Calm(r.value) && r.value.store == p.value.0
                  case Quit => r.value.exit
                  case _ => false)
  {
    hide ExecSeq, PerformAll;
    var s := Initial(globals);
    RefineSeq(s, script, OUTSIDE, ScriptPlace(any), 0, fuel);
    SeqBalance(s, script, 0, fuel);
  }

  // With every try section closed no exception is pending, whatever the program.
  lemma NothingPendingOutsideTry(script: seq<Stmt>, globals: Table, fuel: nat)
    ensures var r := ExecList(Initial(globals), script, 0, fuel);
            r.Some? ==> r.value.tries == 0 && !r.value.exc && r.value.loops == 0 && r.value.funcs == 0
                        && (!r.value.exit ==> r.value.store.locals == [])
  {
    hide ExecList;
    ListBalance(Initial(globals), script, 0, fuel);
  }

  // ---- what a call does to its caller ----

  // The names the caller passes by reference.
  predicate Passed(args: seq<Expr>, name: string) {
    exists i :: 0 <= i < |args| && RefTarget(args[i]) == Some(name)
  }

  ghost predicate SameAt(t: Table, u: Table, name: string) {
    (name in t <==> name in u) && (name in t ==> t[name] == u[name])
  }

  lemma {:induction false} WriteBackOnly(m: Store, frame: Table, params: seq<string>, args: seq<Expr>, name: string)
    requires !Passed(args, name)
    ensures SameAt(m.Top(), WriteBack(m, frame, params, args).Top(), name)
    decreases args
  {
    if args != [] && params != [] {
      assert RefTarget(args[0]) != Some(name);
      assert forall i :: 0 <= i < |args| - 1 ==> args[1..][i] == args[i + 1];
      var m1 := match RefTarget(args[0])
        case Some(n) => if params[0] in frame then m.Add(n, frame[params[0]]) else m
        case None => m;
      WriteBackOnly(m1, frame, params[1..], args[1..], name);
    }
  }

  lemma {:induction false} WriteBackAt(m: Store, frame: Table, params: seq<string>, args: seq<Expr>, i: nat, name: string)
    requires i < |args| && i < |params| && RefTarget(args[i]) == Some(name)
    requires forall j :: i < j < |args| ==> RefTarget(args[j]) != Some(name)
    requires params[i] in frame
    ensures var t := WriteBack(m, frame, params, args).Top();
            name in t && t[name] == frame[params[i]]
    decreases args
  {
    var m1 := match RefTarget(args[0])
      case Some(n) => if params[0] in frame then m.Add(n, frame[params[0]]) else m
      case None => m;
    if i == 0 {
      assert !Passed(args[1..], name) by {
        assert forall j :: 0 <= j < |args| - 1 ==> args[1..][j] == args[j + 1];
      }
      WriteBackOnly(m1, frame, params[1..], args[1..], name);
    } else {
      assert args[1..][i - 1] == args[i] && params[1..][i - 1] == params[i];
      assert forall j :: i - 1 < j < |args| - 1 ==> args[1..][j] == args[j + 1];
      WriteBackAt(m1, frame, params[1..], args[1..], i - 1, name);
    }
  }

  // The stages of a call that did not quit: its arguments, its body, its write-back.
  ghost predicate Called(s: State, e: Expr, f: Func, s1: State, vals: seq<Value>, s2: State, t: State, v: Value, fuel: nat) {
    && e.Call? && Counting(s) && !s.exc && !s.exit
    && Callee(s.store.Lookup(e.name)) == Some(f)
    && EvalArgs(s, e.args, fuel) == Some((s1, vals))
    && CallFunction(s1.(store := s1.store.Enter()), f, vals, fuel) == Some((s2, v))
    && Eval(s, e, fuel) == Some((t, v)) && !t.exit
  }

  // Frame isolation.  A local caller's table changes only at names passed with &, the tables
  // below it not at all, and in the global table only the elements of arrays do.  A caller
  // outside every function keeps what it did not pass, but for the elements of its arrays.
  lemma CallIsolation(s: State, e: Expr, f: Func, s1: State, vals: seq<Value>, s2: State, t: State, v: Value, fuel: nat)
    requires Called(s, e, f, s1, vals, s2, t, v, fuel)
    ensures |t.store.locals| == |s1.store.locals| && t.store.Below() == s1.store.Below()
    ensures forall name :: !Passed(e.args, name) ==>
              if s1.store.locals != [] then SameAt(s1.store.Top(), t.store.Top(), name)
              else SameButElements(s1.store.globals, t.store.globals, name)
    ensures s1.store.locals != [] ==> forall name :: SameButElements(s1.store.globals, t.store.globals, name)
  {
    hide EvalArgs, CallFunction, Skeleton;
    CallStages(s, e, f, s1, vals, s2, t, v, fuel);
    var m := s2.store.Leave();
    WriteBackBelow(m, s2.store.Top(), f.params, e.args);
    SkeletonSays(s1.store.globals, m.globals);
    SkeletonSays(m.globals, t.store.globals);
    forall name | !Passed(e.args, name)
      ensures SameAt(m.Top(), t.store.Top(), name)
    {
      WriteBackOnly(m, s2.store.Top(), f.params, e.args, name);
    }
    if s1.store.locals != [] {
      SkeletonSays(s1.store.globals, t.store.globals);
    } else {
      forall name | !Passed(e.args, name) ensures SameButElements(s1.store.globals, t.store.globals, name) {
        assert SameAt(m.Top(), t.store.Top(), name) && SameButElements(s1.store.globals, m.globals, name);
      }
    }
  }

  // Copy-out.  A plain & argument receives its parameter's final entry, the last one winning
  // when a name is passed twice.  Only an exception in the arguments keeps it from doing so.
  lemma CallCopiesOut(s: State, e: Expr, f: Func, s1: State, vals: seq<Value>, s2: State, t: State, v: Value,
                      fuel: nat, i: nat, name: string)
    requires Called(s, e, f, s1, vals, s2, t, v, fuel)
    requires i < |e.args| && i < |f.params| && RefTarget(e.args[i]) == Some(name)
    requires forall j :: i < j < |e.args| ==> RefTarget(e.args[j]) != Some(name)
    ensures s1.exc ==> t.store == s1.store
    ensures !s1.exc ==>
              && f.params[i] in s2.store.Top()
              && name in t.store.Top() && t.store.Top()[name] == s2.store.Top()[f.params[i]]
  {
    hide EvalArgs, CallFunction;
    CallStages(s, e, f, s1, vals, s2, t, v, fuel);
    if s1.exc {
      assert EvalCall(s, e, fuel) == Eval(s, e, fuel);
      NeverCalled(s, e, f, s1, vals, fuel);
    } else {
      ParamsStay(s1.(store := s1.store.Enter()), f, vals, s2, v, fuel);
      WriteBackAt(s2.store.Leave(), s2.store.Top(), f.params, e.args, i, name);
    }
  }

  lemma {:induction false} ParamsBound(m: Store, params: seq<string>, vals: seq<Value>)
    requires |params| <= |vals|
    ensures forall i :: 0 <= i < |params| ==> params[i] in BindFrom(m, params, vals).Top()
    decreases params
  {
    if params != [] {
      var m1 := m.Add(params[0], Var(vals[0]));
      ParamsBound(m1, params[1..], vals[1..]);
      BindBelow(m1, params[1..], vals[1..]);
      assert forall i :: 1 <= i < |params| ==> params[i] == params[1..][i - 1];
    }
  }

  // No body made of the modelled statements unbinds a parameter.
  lemma ParamsStay(s: State, f: Func, vals: seq<Value>, s2: State, v: Value, fuel: nat)
    requires Counting(s) && !s.exc && !s2.exit
    requires CallFunction(s, f, vals, fuel) == Some((s2, v))
    ensures forall i :: 0 <= i < |f.params| ==> f.params[i] in s2.store.Top()
  {
    hide Exec;
    FunctionBalance(s, f, vals, fuel);
    var args := Accept(f, vals).value;
    var s0 := StartFunc(s, f, args);
    ParamsBound(s.store.Add("argc", Var(Int(|args|))).Add("argv", Var(Arr(args))), f.params, args);
    ExecBalance(s0, f.body, s0.cookie, fuel - 1);
  }

  // After the body only the callee's table, and elements of global arrays, differ from the tables
  // the arguments left.
  lemma CallStages(s: State, e: Expr, f: Func, s1: State, vals: seq<Value>, s2: State, t: State, v: Value, fuel: nat)
    requires Called(s, e, f, s1, vals, s2, t, v, fuel)
    ensures SameBelow(s.store, s1.store)
    ensures Counting(s1) && !s1.exit && !s2.exit
    ensures s2.store.locals != [] && s2.store.Leave().locals == s1.store.locals
    ensures Skeleton(s2.store.globals) == Skeleton(s1.store.globals)
    ensures t == s2.(store := WriteBack(s2.store.Leave(), s2.store.Top(), f.params, e.args))
  {
    hide EvalArgs, CallFunction, Skeleton;
    assert EvalCall(s, e, fuel) == Eval(s, e, fuel);
    ArgsBalance(s, e.args, fuel);
    FunctionBalance(s1.(store := s1.store.Enter()), f, vals, fuel);
    assert s1.store.Enter().Below() == s1.store.locals;
  }
}
