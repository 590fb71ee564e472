/** Programs that mean the same, and what some programs compute.  Each law relates different
    constructs of the language, for all their parts, in every context and under any fuel. */
module ProgramLaws {
  import opened Wrappers
  import opened Language
  import opened LanguageLaws
  import opened Structured
  import opened Safe

  // ---- one step of the semantics ----

  lemma NotSteps(m: Store, e: Expr, inTry: bool, fuel: nat)
    ensures Compute(m, Not(e), inTry, fuel) ==
            var q := Compute(m, e, inTry, fuel);
            if q.None? || !q.value.1.Ok? then q else Some((q.value.0, Ok(Bool(!ToBool(q.value.1.v)))))
  {
    assert Compute(m, Not(e), inTry, fuel) == ComputeNot(m, Not(e), inTry, fuel);
  }

  lemma CondSteps(m: Store, t: Expr, a: Expr, b: Expr, inTry: bool, fuel: nat)
    ensures Compute(m, Cond(t, a, b), inTry, fuel) ==
            var q := Compute(m, t, inTry, fuel);
            if q.None? || !q.value.1.Ok? then q else Compute(q.value.0, if ToBool(q.value.1.v) then a else b, inTry, fuel)
  {
    assert Compute(m, Cond(t, a, b), inTry, fuel) == ComputeCond(m, Cond(t, a, b), inTry, fuel);
  }

  lemma IfSteps(m: Store, t: Expr, x: Stmt, y: Stmt, c: Context, fuel: nat)
    ensures Perform(m, IfElse(t, x, y), c, fuel) ==
            var q := Compute(m, t, c.inTry, fuel);
            if q.None? then None
            else if !q.value.1.Ok? then Some((q.value.0, Abrupt(q.value.1)))
            else Perform(q.value.0, if ToBool(q.value.1.v) then x else y, c, fuel)
    ensures Perform(m, If(t, x), c, fuel) == Perform(m, IfElse(t, x, Nop), c, fuel)
  {
    assert Perform(m, IfElse(t, x, y), c, fuel) == PerformIf(m, IfElse(t, x, y), c, fuel);
    assert Perform(m, IfElse(t, x, Nop), c, fuel) == PerformIf(m, IfElse(t, x, Nop), c, fuel);
    assert Perform(m, If(t, x), c, fuel) == PerformIf(m, If(t, x), c, fuel);
    forall m1: Store ensures Perform(m1, Nop, c, fuel) == Some((m1, Normal)) {}
  }

  lemma ExprSteps(m: Store, e: Expr, c: Context, fuel: nat)
    ensures Perform(m, ExprStmt(e), c, fuel) ==
            var q := Compute(m, e, c.inTry, fuel);
            if q.None? then None else Some((q.value.0, Abrupt(q.value.1)))
  {
    hide Compute;
  }

  // Functions are values where they are written and entries where they are declared, and marking
  // an expression with & does not change its value.
  lemma FunctionLaws(m: Store, f: Func, name: string, e: Expr, c: Context, fuel: nat)
    ensures Compute(m, Lambda(f), c.inTry, fuel) == Some((m, Ok(Fn(f))))
    ensures Perform(m, FuncDef(name, f), c, fuel) == Some((m.Add(name, Function(f)), Normal))
    ensures Perform(m, FuncDef(name, f), c, fuel) == Perform(m, Block([ExprStmt(Assign(name, Lambda(f)))]), c, fuel)
    ensures Compute(m, PassRef(e), c.inTry, fuel) == Compute(m, e, c.inTry, fuel)
  {
    AssignSteps(m, name, Lambda(f), c.inTry, fuel);
    One(m, ExprStmt(Assign(name, Lambda(f))), c, fuel);
    ExprSteps(m, Assign(name, Lambda(f)), c, fuel);
  }

  lemma ConstSteps(m: Store, v: Value, name: string, inTry: bool, fuel: nat)
    ensures Compute(m, Const(v), inTry, fuel) == Some((m, Ok(v)))
    ensures Compute(m, Ref(name), inTry, fuel) == Some((m, Ok(RefValue(m.Lookup(name)))))
  {
  }

  lemma AssignSteps(m: Store, name: string, e: Expr, inTry: bool, fuel: nat)
    ensures Compute(m, Assign(name, e), inTry, fuel) ==
            var q := Compute(m, e, inTry, fuel);
            if q.None? || !q.value.1.Ok? then q else Some((q.value.0.Add(name, EntryOf(q.value.1.v)), Ok(q.value.1.v)))
  {
    assert Compute(m, Assign(name, e), inTry, fuel) == ComputeAssign(m, Assign(name, e), inTry, fuel);
  }

  lemma InfixSteps(m: Store, op: Op, a: Expr, b: Expr, m1: Store, v: Value, m2: Store, w: Value, inTry: bool, fuel: nat)
    requires Compute(m, a, inTry, fuel) == Some((m1, Ok(v))) && Compute(m1, b, inTry, fuel) == Some((m2, Ok(w)))
    ensures Compute(m, Infix(op, a, b), inTry, fuel) ==
            Some((m2, if Apply(op, v, w).Some? then Ok(Apply(op, v, w).value) else Exited))
  {
    assert Compute(m, Infix(op, a, b), inTry, fuel) == ComputeInfix(m, Infix(op, a, b), inTry, fuel);
    hide Apply;
  }

  lemma LoopSteps(m: Store, init: Expr, t: Expr, g: Expr, b: Stmt, c: Context, fuel: nat)
    ensures Perform(m, While(t, b), c, fuel) == Loop(m, While(t, b), c, fuel)
    ensures Perform(m, Do(b, t), c, fuel) == Repeat(m, Do(b, t), c, fuel)
    ensures Perform(m, For(init, t, g, b), c, fuel) ==
            var q := Compute(m, init, c.inTry, fuel);
            if q.None? then None
            else if !q.value.1.Ok? then Some((q.value.0, Abrupt(q.value.1)))
            else Loop(q.value.0, For(init, t, g, b), c, fuel)
  {
    assert Perform(m, For(init, t, g, b), c, fuel) == PerformLoops(m, For(init, t, g, b), c, fuel);
    assert Perform(m, While(t, b), c, fuel) == PerformLoops(m, While(t, b), c, fuel);
    assert Perform(m, Do(b, t), c, fuel) == PerformLoops(m, Do(b, t), c, fuel);
  }

  // ---- choice ----

  // A negation swaps the branches, an if is one with an empty else, and a conditional expression
  // is an if between expressions.
  lemma ChoiceLaws(m: Store, t: Expr, a: Expr, b: Expr, x: Stmt, y: Stmt, c: Context, fuel: nat)
    ensures Compute(m, Cond(Not(t), a, b), c.inTry, fuel) == Compute(m, Cond(t, b, a), c.inTry, fuel)
    ensures Perform(m, IfElse(Not(t), x, y), c, fuel) == Perform(m, IfElse(t, y, x), c, fuel)
    ensures Perform(m, If(t, x), c, fuel) == Perform(m, IfElse(t, x, Nop), c, fuel)
    ensures Perform(m, ExprStmt(Cond(t, a, b)), c, fuel) == Perform(m, IfElse(t, ExprStmt(a), ExprStmt(b)), c, fuel)
  {
    hide Compute, Perform;
    NotSteps(m, t, c.inTry, fuel);
    CondSteps(m, Not(t), a, b, c.inTry, fuel);
    CondSteps(m, t, b, a, c.inTry, fuel);
    CondSteps(m, t, a, b, c.inTry, fuel);
    IfSteps(m, Not(t), x, y, c, fuel);
    IfSteps(m, t, y, x, c, fuel);
    IfSteps(m, t, x, Nop, c, fuel);
    IfSteps(m, t, ExprStmt(a), ExprStmt(b), c, fuel);
    ExprSteps(m, Cond(t, a, b), c, fuel);
    var q := Compute(m, t, c.inTry, fuel);
    if q.Some? {
      ExprSteps(q.value.0, a, c, fuel);
      ExprSteps(q.value.0, b, c, fuel);
    }
  }

  // The Boolean operators are conditionals that give truth values.
  lemma BooleanLaws(m: Store, a: Expr, b: Expr, inTry: bool, fuel: nat)
    ensures Compute(m, BoolAnd(a, b), inTry, fuel) == Compute(m, Cond(a, Not(Not(b)), Const(Bool(false))), inTry, fuel)
    ensures Compute(m, BoolOr(a, b), inTry, fuel) == Compute(m, Cond(a, Const(Bool(true)), Not(Not(b))), inTry, fuel)
  {
    BooleanSteps(m, a, b, inTry, fuel);
    hide Compute;
    CondSteps(m, a, Not(Not(b)), Const(Bool(false)), inTry, fuel);
    CondSteps(m, a, Const(Bool(true)), Not(Not(b)), inTry, fuel);
    var q := Compute(m, a, inTry, fuel);
    if q.Some? {
      var m1 := q.value.0;
      NotSteps(m1, b, inTry, fuel);
      NotSteps(m1, Not(b), inTry, fuel);
      ConstSteps(m1, Bool(false), "", inTry, fuel);
      ConstSteps(m1, Bool(true), "", inTry, fuel);
    }
  }

  lemma BooleanSteps(m: Store, a: Expr, b: Expr, inTry: bool, fuel: nat)
    ensures Compute(m, BoolAnd(a, b), inTry, fuel) == ComputeAnd(m, BoolAnd(a, b), inTry, fuel)
    ensures Compute(m, BoolOr(a, b), inTry, fuel) == ComputeOr(m, BoolOr(a, b), inTry, fuel)
  {
  }

  // A condition holds when its value is not zero as a number.
  lemma ConstantChoice(m: Store, v: Value, a: Expr, b: Expr, x: Stmt, y: Stmt, c: Context, fuel: nat)
    ensures Compute(m, Const(v), c.inTry, fuel) == Some((m, Ok(v)))
    ensures Compute(m, Not(Const(v)), c.inTry, fuel) == Some((m, Ok(Bool(ToInt(v) == 0))))
    ensures Compute(m, Cond(Const(v), a, b), c.inTry, fuel) == Compute(m, if ToInt(v) != 0 then a else b, c.inTry, fuel)
    ensures Perform(m, IfElse(Const(v), x, y), c, fuel) == Perform(m, if ToInt(v) != 0 then x else y, c, fuel)
  {
    hide Perform;
    TrueIsNotZero(v);
    ConstSteps(m, v, "", c.inTry, fuel);
    NotSteps(m, Const(v), c.inTry, fuel);
    CondSteps(m, Const(v), a, b, c.inTry, fuel);
    IfSteps(m, Const(v), x, y, c, fuel);
  }

  // ---- variables ----

  // What is assigned is the value of the assignment, and is read from then on; no other name is
  // touched.
  lemma AssignmentReads(m: Store, name: string, e: Expr, other: string, inTry: bool, fuel: nat)
    ensures var (r, q) := (Compute(m, e, inTry, fuel), Compute(m, Assign(name, e), inTry, fuel));
            if r.None? || !r.value.1.Ok? then q == r
            else
              && q.Some? && q.value.1 == r.value.1
              && Compute(q.value.0, Ref(name), inTry, fuel) == q
              && (other != name ==>
                    Compute(q.value.0, Ref(other), inTry, fuel)
                    == Some((q.value.0, Ok(RefValue(r.value.0.Lookup(other))))))
  {
    hide Compute;
    AssignSteps(m, name, e, inTry, fuel);
    var r := Compute(m, e, inTry, fuel);
    if r.Some? && r.value.1.Ok? {
      var (m1, v) := (r.value.0, r.value.1.v);
      ScopeLaws(m1, name, EntryOf(v), other);
      EntryLaws(v);
      ConstSteps(m1.Add(name, EntryOf(v)), v, name, inTry, fuel);
      ConstSteps(m1.Add(name, EntryOf(v)), v, other, inTry, fuel);
    }
  }

  // Operands are evaluated from left to right, each once.
  lemma OperandOrder(m: Store, op: Op, x: string, a: Value, b: Value, inTry: bool, fuel: nat)
    ensures Compute(m, Infix(op, Assign(x, Const(a)), Infix(Minus, Ref(x), Assign(x, Const(b)))), inTry, fuel) ==
            var m2 := m.Add(x, EntryOf(a)).Add(x, EntryOf(b));
            var difference := Int(ToInt(a) - ToInt(b));
            Some((m2, if Apply(op, a, difference).Some? then Ok(Apply(op, a, difference).value) else Exited))
  {
    hide Compute;
    var m1 := m.Add(x, EntryOf(a));
    var m2 := m1.Add(x, EntryOf(b));
    ScopeLaws(m, x, EntryOf(a), x);
    EntryLaws(a);
    ConstSteps(m, a, x, inTry, fuel);
    AssignSteps(m, x, Const(a), inTry, fuel);
    ConstSteps(m1, b, x, inTry, fuel);
    AssignSteps(m1, x, Const(b), inTry, fuel);
    InfixSteps(m1, Minus, Ref(x), Assign(x, Const(b)), m1, a, m2, b, inTry, fuel);
    InfixSteps(m, op, Assign(x, Const(a)), Infix(Minus, Ref(x), Assign(x, Const(b))), m1, a, m2,
               Int(ToInt(a) - ToInt(b)), inTry, fuel);
  }

  // ---- sequence ----

  lemma {:induction false} Joined(m: Store, a: seq<Stmt>, b: seq<Stmt>, c: Context, fuel: nat)
    ensures PerformAll(m, a + b, c, fuel) ==
            var q := PerformAll(m, a, c, fuel);
            if q.None? || !q.value.1.Normal? then q else PerformAll(q.value.0, b, c, fuel)
    decreases a
  {
    hide Perform;
    if a == [] {
      assert a + b == b;
    } else {
      assert (a + b)[0] == a[0] && (a + b)[1..] == a[1..] + b;
      var q := Perform(m, a[0], c, fuel);
      if q.Some? { Joined(q.value.0, a[1..], b, c, fuel); }
    }
  }

  // Blocks only group.
  lemma BlockLaws(m: Store, a: seq<Stmt>, b: seq<Stmt>, st: Stmt, c: Context, fuel: nat)
    ensures Perform(m, Block([]), c, fuel) == Perform(m, Nop, c, fuel) == Some((m, Normal))
    ensures Perform(m, Block([st]), c, fuel) == Perform(m, st, c, fuel)
    ensures Perform(m, Block([Block(a), Block(b)]), c, fuel) == Perform(m, Block(a + b), c, fuel)
  {
    One(m, st, c, fuel);
    Joined(m, a, b, c, fuel);
    Two(m, Block(a), Block(b), c, fuel);
    BlockIs(m, a, c, fuel);
    BlockIs(m, a + b, c, fuel);
    var q := PerformAll(m, a, c, fuel);
    if q.Some? { BlockIs(q.value.0, b, c, fuel); }
    assert Perform(m, Block([]), c, fuel) == PerformAll(m, [], c, fuel);
    hide PerformAll;
  }

  lemma BlockIs(m: Store, a: seq<Stmt>, c: Context, fuel: nat)
    ensures Perform(m, Block(a), c, fuel) == PerformAll(m, a, c, fuel)
  {
  }

  lemma One(m: Store, st: Stmt, c: Context, fuel: nat)
    ensures PerformAll(m, [st], c, fuel) == Perform(m, st, c, fuel)
    ensures Perform(m, Block([st]), c, fuel) == Perform(m, st, c, fuel)
  {
    assert [st][1..] == [];
    BlockIs(m, [st], c, fuel);
    var q := Perform(m, st, c, fuel);
    if q.Some? { assert PerformAll(q.value.0, [], c, fuel) == Some((q.value.0, Normal)); }
    assert PerformAll(m, [st], c, fuel) ==
           if q.None? then None else if q.value.1.Normal? then PerformAll(q.value.0, [], c, fuel) else q;
  }

  lemma Two(m: Store, st: Stmt, next: Stmt, c: Context, fuel: nat)
    ensures Perform(m, Block([st, next]), c, fuel) ==
            var q := Perform(m, st, c, fuel);
            if q.None? || !q.value.1.Normal? then q else Perform(q.value.0, next, c, fuel)
  {
    assert [st, next][1..] == [next];
    BlockIs(m, [st, next], c, fuel);
    var q := Perform(m, st, c, fuel);
    if q.Some? { One(q.value.0, next, c, fuel); }
    assert PerformAll(m, [st, next], c, fuel) ==
           if q.None? then None else if q.value.1.Normal? then PerformAll(q.value.0, [next], c, fuel) else q;
  }

  // What follows a jump is not run.
  lemma JumpSkips(m: Store, st: Stmt, rest: seq<Stmt>, c: Context, fuel: nat)
    requires st.Return? || st.Throw? || st.Break? || st.Continue?
    requires st.Return? ==> c.inFunc
    requires st.Break? || st.Continue? ==> c.inLoop
    ensures Perform(m, Block([st] + rest), c, fuel) == Perform(m, st, c, fuel)
  {
    assert ([st] + rest)[0] == st;
    assert Perform(m, Block([st] + rest), c, fuel) == PerformAll(m, [st] + rest, c, fuel);
    hide Compute;
  }

  // Outside what they belong to, jumps do nothing.
  lemma IdleJumps(m: Store, result: Option<Expr>, c: Context, fuel: nat)
    ensures !c.inLoop ==> Perform(m, Break, c, fuel) == Some((m, Normal)) && Perform(m, Continue, c, fuel) == Some((m, Normal))
    ensures c.inLoop ==> Perform(m, Break, c, fuel) == Some((m, Broke)) && Perform(m, Continue, c, fuel) == Some((m, Continued))
    ensures !c.inFunc ==> Perform(m, Return(result), c, fuel) == Some((m, Normal))
    ensures c.inFunc ==> Perform(m, Return(None), c, fuel) == Some((m, Returned(Void)))
  {
  }

  // ---- loops ----

  // A for loop whose body has no continue of its own is a while loop that ends with the guard.
  lemma {:induction false} ForLoopIsWhile(m: Store, init: Expr, t: Expr, g: Expr, b: Stmt, c: Context, fuel: nat)
    requires NoContinue(b)
    ensures Loop(m, For(init, t, g, b), c, fuel) == Loop(m, While(t, Block([b, ExprStmt(g)])), c, fuel)
    decreases fuel
  {
    hide Compute, Perform;
    var r := Compute(m, t, c.inTry, fuel);
    if r.Some? && fuel > 0 {
      var c1 := c.(inLoop := true);
      GuardedBody(r.value.0, b, g, c1, fuel - 1);
      NeverContinued(r.value.0, b, c1, fuel - 1);
      var q := Perform(r.value.0, b, c1, fuel - 1);
      if q.Some? {
        var d := Compute(q.value.0, g, c.inTry, fuel - 1);
        if d.Some? { ForLoopIsWhile(d.value.0, init, t, g, b, c, fuel - 1); }
      }
    }
  }

  lemma GuardedBody(m: Store, b: Stmt, g: Expr, c: Context, fuel: nat)
    ensures Perform(m, Block([b, ExprStmt(g)]), c, fuel) ==
            var q := Perform(m, b, c, fuel);
            if q.None? || !q.value.1.Normal? then q
            else
              var d := Compute(q.value.0, g, c.inTry, fuel);
              if d.None? then None else Some((d.value.0, Abrupt(d.value.1)))
  {
    hide Perform, Compute;
    Two(m, b, ExprStmt(g), c, fuel);
    var q := Perform(m, b, c, fuel);
    if q.Some? { ExprSteps(q.value.0, g, c, fuel); }
  }

  lemma ForIsWhile(m: Store, init: Expr, t: Expr, g: Expr, b: Stmt, c: Context, fuel: nat)
    requires NoContinue(b)
    ensures Perform(m, For(init, t, g, b), c, fuel)
         == Perform(m, Block([ExprStmt(init), While(t, Block([b, ExprStmt(g)]))]), c, fuel)
  {
    hide Perform, Compute, Loop, Repeat;
    var w := Block([b, ExprStmt(g)]);
    Two(m, ExprStmt(init), While(t, w), c, fuel);
    ExprSteps(m, init, c, fuel);
    LoopSteps(m, init, t, g, b, c, fuel);
    var r := Compute(m, init, c.inTry, fuel);
    if r.Some? && r.value.1.Ok? {
      ForLoopIsWhile(r.value.0, init, t, g, b, c, fuel);
      LoopSteps(r.value.0, init, t, g, w, c, fuel);
    }
  }

  // A do loop is its body once and then the while loop.
  lemma {:induction false} DoIsWhile(m: Store, b: Stmt, t: Expr, c: Context, fuel: nat)
    ensures Perform(m, Do(b, t), c, fuel) ==
            var q := Perform(m, b, c.(inLoop := true), fuel);
            if q.None? then None
            else if q.value.1.Normal? || q.value.1.Continued? then Perform(q.value.0, While(t, b), c, fuel)
            else if q.value.1.Broke? then Some((q.value.0, Normal))
            else q
    decreases fuel
  {
    hide Perform, Compute;
    LoopSteps(m, t, t, t, b, c, fuel);
    var q := Perform(m, b, c.(inLoop := true), fuel);
    if q.Some? && LeaveLoop(q.value.1).None? {
      var m1 := q.value.0;
      LoopSteps(m1, t, t, t, b, c, fuel);
      var r := Compute(m1, t, c.inTry, fuel);
      if r.Some? && r.value.1.Ok? && ToBool(r.value.1.v) && fuel > 0 {
        var m2 := r.value.0;
        DoIsWhile(m2, b, t, c, fuel - 1);
        LoopSteps(m2, t, t, t, b, c, fuel - 1);
        var q1 := Perform(m2, b, c.(inLoop := true), fuel - 1);
        if q1.Some? { LoopSteps(q1.value.0, t, t, t, b, c, fuel - 1); }
      }
    }
  }

  // A continue ends its round.
  lemma {:induction false} ContinueEndsRound(m: Store, init: Expr, t: Expr, g: Expr, rest: seq<Stmt>, c: Context, fuel: nat)
    ensures Loop(m, While(t, Block([Continue] + rest)), c, fuel) == Loop(m, While(t, Nop), c, fuel)
    ensures Loop(m, For(init, t, g, Block([Continue] + rest)), c, fuel) == Loop(m, For(init, t, g, Nop), c, fuel)
    decreases fuel
  {
    hide Compute, Perform;
    var r := Compute(m, t, c.inTry, fuel);
    if r.Some? && fuel > 0 {
      var (m1, c1) := (r.value.0, c.(inLoop := true));
      JumpSkips(m1, Continue, rest, c1, fuel - 1);
      IdleJumps(m1, None, c1, fuel - 1);
      NopSteps(m1, c1, fuel - 1);
      ContinueEndsRound(m1, init, t, g, rest, c, fuel - 1);
      var d := Compute(m1, g, c.inTry, fuel - 1);
      if d.Some? { ContinueEndsRound(d.value.0, init, t, g, rest, c, fuel - 1); }
    }
  }

  // A break ends its loop, and a return every loop of its function.
  lemma JumpsOutOfLoops(m: Store, t: Expr, rest: seq<Stmt>, v: Value, c: Context, fuel: nat)
    requires fuel > 1
    ensures Perform(m, While(t, Block([Break] + rest)), c, fuel) == Perform(m, ExprStmt(t), c, fuel)
    ensures c.inFunc ==>
              Perform(m, While(t, While(Const(Bool(true)), Return(Some(Const(v))))), c, fuel)
              == Perform(m, If(t, Return(Some(Const(v)))), c, fuel)
  {
    hide Compute, Perform;
    var b := Block([Break] + rest);
    var inner := While(Const(Bool(true)), Return(Some(Const(v))));
    LoopSteps(m, t, t, t, b, c, fuel);
    LoopSteps(m, t, t, t, inner, c, fuel);
    ExprSteps(m, t, c, fuel);
    IfSteps(m, t, Return(Some(Const(v))), Nop, c, fuel);
    var r := Compute(m, t, c.inTry, fuel);
    if r.Some? {
      var (m1, c1) := (r.value.0, c.(inLoop := true));
      JumpSkips(m1, Break, rest, c1, fuel - 1);
      IdleJumps(m1, None, c1, fuel - 1);
      NopSteps(m1, c, fuel);
      if c.inFunc {
        LoopSteps(m1, t, Const(Bool(true)), t, Return(Some(Const(v))), c1, fuel - 1);
        ConstSteps(m1, Bool(true), "", c.inTry, fuel - 1);
        ReturnSteps(m1, v, c1, fuel - 2);
        ReturnSteps(m1, v, c, fuel);
      }
    }
  }

  lemma NopSteps(m: Store, c: Context, fuel: nat)
    ensures Perform(m, Nop, c, fuel) == Some((m, Normal))
  {
  }

  lemma ReturnSteps(m: Store, v: Value, c: Context, fuel: nat)
    requires c.inFunc
    ensures Perform(m, Return(Some(Const(v))), c, fuel) == Some((m, Returned(v)))
  {
    ConstSteps(m, v, "", c.inTry, fuel);
    assert PerformReturn(m, Return(Some(Const(v))), c, fuel) == Some((m, Returned(v)));
  }

  // x = x + d;
  function Step(x: string, op: Op, d: int): Stmt {
    ExprStmt(Assign(x, Infix(op, Ref(x), Const(Int(d)))))
  }

  lemma StepSteps(m: Store, x: string, op: Op, a: int, d: int, c: Context, fuel: nat)
    requires (op == Plus || op == Minus) && m.Lookup(x) == Some(Var(Int(a)))
    ensures Perform(m, Step(x, op, d), c, fuel)
         == Some((m.Add(x, Var(Int(if op == Plus then a + d else a - d))), Normal))
  {
    hide Perform, Compute;
    ConstSteps(m, Int(d), x, c.inTry, fuel);
    InfixSteps(m, op, Ref(x), Const(Int(d)), m, Int(a), m, Int(d), c.inTry, fuel);
    AssignSteps(m, x, Infix(op, Ref(x), Const(Int(d))), c.inTry, fuel);
    ExprSteps(m, Assign(x, Infix(op, Ref(x), Const(Int(d)))), c, fuel);
  }

  // A round that ends normally goes on to the next, with one unit of fuel less.
  lemma WhileUnrolls(m: Store, t: Expr, b: Stmt, m1: Store, v: Value, m2: Store, c: Context, fuel: nat)
    requires fuel > 0 && Compute(m, t, c.inTry, fuel) == Some((m1, Ok(v)))
    requires ToBool(v) ==> Perform(m1, b, c.(inLoop := true), fuel - 1) == Some((m2, Normal))
    ensures Perform(m, While(t, b), c, fuel)
         == if ToBool(v) then Perform(m2, While(t, b), c, fuel - 1) else Some((m1, Normal))
  {
    hide Perform, Compute;
    LoopSteps(m, t, t, t, b, c, fuel);
    LoopSteps(m2, t, t, t, b, c, fuel - 1);
  }

  function Counter(d: int): Stmt {
    Block([Step("i", Minus, 1), Step("s", Plus, d)])
  }

  lemma CounterSteps(m: Store, n: int, k: int, d: int, c: Context, fuel: nat)
    requires m.Lookup("i") == Some(Var(Int(n))) && m.Lookup("s") == Some(Var(Int(k)))
    ensures var m2 := m.Add("i", Var(Int(n - 1))).Add("s", Var(Int(k + d)));
            && Perform(m, Counter(d), c, fuel) == Some((m2, Normal))
            && m2.Lookup("i") == Some(Var(Int(n - 1))) && m2.Lookup("s") == Some(Var(Int(k + d)))
  {
    hide Perform, Compute;
    var m1 := m.Add("i", Var(Int(n - 1)));
    ScopeLaws(m, "i", Var(Int(n - 1)), "s");
    ScopeLaws(m1, "s", Var(Int(k + d)), "i");
    StepSteps(m, "i", Minus, n, 1, c, fuel);
    StepSteps(m1, "s", Plus, k, d, c, fuel);
    Two(m, Step("i", Minus, 1), Step("s", Plus, d), c, fuel);
  }

  // while (i) { i = i - 1; s = s + d; } goes round as often as i says, and adds d each time.
  lemma {:induction false} CountingLoop(m: Store, n: nat, k: int, d: int, c: Context, fuel: nat)
    requires fuel > n && m.Lookup("i") == Some(Var(Int(n))) && m.Lookup("s") == Some(Var(Int(k)))
    ensures var q := Perform(m, While(Ref("i"), Counter(d)), c, fuel);
            && q.Some? && q.value.1 == Normal
            && q.value.0.Lookup("i") == Some(Var(Int(0))) && q.value.0.Lookup("s") == Some(Var(Int(k + n * d)))
    decreases n
  {
    hide Perform, Compute, Counter;
    var m2 := m.Add("i", Var(Int(n - 1))).Add("s", Var(Int(k + d)));
    ConstSteps(m, Void, "i", c.inTry, fuel);
    CounterSteps(m, n, k, d, c.(inLoop := true), fuel - 1);
    WhileUnrolls(m, Ref("i"), Counter(d), m, Int(n), m2, c, fuel);
    if n > 0 {
      CountingLoop(m2, n - 1, k + d, d, c, fuel - 1);
      assert k + d + (n - 1) * d == k + n * d;
    }
  }

  // ---- exceptions ----

  lemma ThrowSteps(m: Store, v: Value, c: Context, fuel: nat)
    ensures Perform(m, Throw(Const(v)), c, fuel) == Some((m, if c.inTry then Threw(v) else Quit))
  {
    ConstSteps(m, v, "", c.inTry, fuel);
  }

  lemma TrySteps(m: Store, st: Stmt, name: string, handler: Stmt, c: Context, fuel: nat)
    ensures Perform(m, Try(st, name, handler), c, fuel) ==
            var q := Perform(m, st, c.(inTry := true), fuel);
            if q.None? || !q.value.1.Threw? then q
            else Perform(q.value.0.Add(name, Var(q.value.1.v)), handler, c, fuel)
  {
    assert Perform(m, Try(st, name, handler), c, fuel) == PerformTry(m, Try(st, name, handler), c, fuel);
    hide Perform;
  }

  // A throw goes to the innermost try, whose handler finds the value under its name, and may throw
  // it on to the next; outside every try it ends the program.
  lemma ThrowLaws(m: Store, v: Value, x: string, y: string, h: Stmt, c: Context, fuel: nat)
    ensures Perform(m, Try(Throw(Const(v)), x, h), c, fuel) == Perform(m.Add(x, Var(v)), h, c, fuel)
    ensures Perform(m, Try(Try(Throw(Const(v)), x, Throw(Ref(x))), y, h), c, fuel)
         == Perform(m.Add(x, Var(v)).Add(y, Var(v)), h, c, fuel)
    ensures Perform(m, Try(Nop, x, h), c, fuel) == Some((m, Normal))
    ensures !c.inTry ==> Perform(m, Throw(Const(v)), c, fuel) == Some((m, Quit))
  {
    var c1 := c.(inTry := true);
    var m1 := m.Add(x, Var(v));
    assert Perform(m1, Throw(Ref(x)), c1, fuel) == Some((m1, Threw(v))) by {
      ScopeLaws(m, x, Var(v), x);
      ConstSteps(m1, v, x, true, fuel);
    }
    NopSteps(m, c1, fuel);
    hide Perform;
    ThrowSteps(m, v, c, fuel);
    ThrowSteps(m, v, c1, fuel);
    TrySteps(m, Throw(Const(v)), x, h, c, fuel);
    TrySteps(m, Throw(Const(v)), x, Throw(Ref(x)), c1, fuel);
    TrySteps(m, Try(Throw(Const(v)), x, Throw(Ref(x))), y, h, c, fuel);
    TrySteps(m, Nop, x, h, c, fuel);
  }

  // ---- switch ----

  predicate ConstantLabels(cases: seq<Case>) {
    forall i :: 0 <= i < |cases| && cases[i].Case? ==> cases[i].guard.Const?
  }

  // The bodies of a group and of those it falls through to.
  function Bodies(cases: seq<Case>): seq<Stmt> {
    if cases == [] then []
    else cases[0].body + if cases[0].Case? && cases[0].thru then Bodies(cases[1..]) else []
  }

  // What a switch on a value selects: from the first label that has it, or else the last default.
  function Selected(v: Value, cases: seq<Case>): Option<seq<Stmt>> {
    if cases == [] then None
    else if cases[0].Case? && cases[0].guard.Const? && SameValue(v, cases[0].guard.v) then Some(Bodies(cases))
    else Selected(v, cases[1..])
  }

  // A switch with constant labels is the block of statements that it selects.
  lemma SwitchSelects(m: Store, v: Value, cases: seq<Case>, c: Context, fuel: nat)
    requires ConstantLabels(cases)
    ensures var body := if Selected(v, cases).Some? then Selected(v, cases).value
                        else if LastDefault(cases).Some? then LastDefault(cases).value else [];
            Perform(m, Switch(Const(v), cases), c, fuel) == Perform(m, Block(body), c, fuel)
  {
    var st := Switch(Const(v), cases);
    assert Perform(m, st, c, fuel) == PerformSwitch(m, st, c, fuel);
    ConstSteps(m, v, "", c.inTry, fuel);
    LabelsSelect(m, v, cases, c, fuel);
    BlockIs(m, if Selected(v, cases).Some? then Selected(v, cases).value
               else if LastDefault(cases).Some? then LastDefault(cases).value else [], c, fuel);
    assert PerformAll(m, [], c, fuel) == Some((m, Normal));
  }

  lemma {:induction false} LabelsSelect(m: Store, v: Value, cases: seq<Case>, c: Context, fuel: nat)
    requires ConstantLabels(cases)
    ensures PerformCases(m, v, cases, false, c, fuel) ==
            if Selected(v, cases).None? then Some((m, Normal, false))
            else
              var q := PerformAll(m, Selected(v, cases).value, c, fuel);
              if q.None? then None else Some((q.value.0, q.value.1, true))
    decreases |cases|
  {
    hide PerformAll, PerformGroup;
    if cases != [] {
      if cases[0].Case? { ConstSteps(m, cases[0].guard.v, "", c.inTry, fuel); }
      GroupSelects(m, v, cases, c, fuel);
      LabelsSelect(m, v, cases[1..], c, fuel);
    }
  }

  lemma {:induction false} GroupSelects(m: Store, v: Value, cases: seq<Case>, c: Context, fuel: nat)
    requires cases != []
    ensures PerformGroup(m, v, cases, c, fuel) ==
            var q := PerformAll(m, Bodies(cases), c, fuel);
            if q.None? then None else Some((q.value.0, q.value.1, true))
    decreases |cases|
  {
    hide Perform;
    var rest := if cases[0].Case? && cases[0].thru then Bodies(cases[1..]) else [];
    Joined(m, cases[0].body, rest, c, fuel);
    var q := PerformAll(m, cases[0].body, c, fuel);
    if q.Some? {
      assert PerformAll(q.value.0, [], c, fuel) == Some((q.value.0, Normal));
      if cases[0].Case? && cases[0].thru && cases[1..] != [] {
        GroupSelects(q.value.0, v, cases[1..], c, fuel);
      }
    }
    hide PerformAll;
  }

  // ---- calls ----

  function Constants(vals: seq<Value>): seq<Expr> {
    if vals == [] then [] else [Const(vals[0])] + Constants(vals[1..])
  }

  lemma {:induction false} ConstantArguments(m: Store, vals: seq<Value>, frame: Table, params: seq<string>, inTry: bool, fuel: nat)
    ensures ComputeAll(m, Constants(vals), inTry, fuel) == Some((m, vals, None))
    ensures WriteBack(m, frame, params, Constants(vals)) == m
    decreases vals
  {
    if vals != [] {
      ConstSteps(m, vals[0], "", inTry, fuel);
      assert Constants(vals)[1..] == Constants(vals[1..]) && [vals[0]] + vals[1..] == vals;
      ConstantArguments(m, vals[1..], frame, if params == [] then [] else params[1..], inTry, fuel);
    }
  }

  // A call runs the body on the arguments, cast as they are declared, in a scope of its own.
  lemma CallSteps(m: Store, name: string, f: Func, vals: seq<Value>, m1: Store, o: Outcome, inTry: bool, fuel: nat)
    requires Callee(m.Lookup(name)) == Some(f) && Accept(f, vals).Some? && fuel > 0
    requires Perform(BindParams(m.Enter(), f.params, Accept(f, vals).value), f.body, Context(false, true, inTry), fuel - 1)
          == Some((m1, o))
    requires m1.locals != [] && m1.Leave() == m
    ensures Compute(m, Call(name, Constants(vals)), inTry, fuel) ==
            Some((m, match o
                     case Returned(v) => Answer(f.result, v)
                     case Threw(v) => Thrown(v)
                     case Quit => Exited
                     case _ => Answer(f.result, Void)))
  {
    hide Perform, BindParams, Fit, FitAll;
    var args := Accept(f, vals).value;
    ConstantArguments(m, vals, m1.Top(), f.params, inTry, fuel);
    assert Invoke(m.Enter(), f, args, inTry, fuel).Some?;
    assert InvokeTyped(m.Enter(), f, vals, inTry, fuel).Some?;
    assert UpdateArgs(m1, f.params, Constants(vals)) == m;
    assert Compute(m, Call(name, Constants(vals)), inTry, fuel) == ComputeCall(m, Call(name, Constants(vals)), inTry, fuel);
  }

  lemma ReturnRead(m: Store, name: string, v: Value, c: Context, fuel: nat)
    requires c.inFunc && m.Lookup(name) == Some(Var(v))
    ensures Perform(m, Return(Some(Ref(name))), c, fuel) == Some((m, Returned(v)))
  {
    ConstSteps(m, v, name, c.inTry, fuel);
    assert PerformReturn(m, Return(Some(Ref(name))), c, fuel) == Some((m, Returned(v)));
  }

  // A function that returns what a name is bound to in its scope.
  lemma BindingReturns(m: Store, name: string, params: seq<string>, vals: seq<Value>, x: string, v: Value,
                       inTry: bool, fuel: nat)
    requires |params| <= |vals| && fuel > 0
    requires m.Lookup(name) == Some(Function(Func(params, [], Mixed, Return(Some(Ref(x))))))
    requires var m1 := BindParams(m.Enter(), params, vals);
             m1.locals != [] && m1.Leave() == m && m1.Lookup(x) == Some(Var(v))
    ensures Compute(m, Call(name, Constants(vals)), inTry, fuel) == Some((m, Ok(v)))
  {
    hide Perform, Compute, BindParams, Fit;
    var m1 := BindParams(m.Enter(), params, vals);
    var f := Func(params, [], Mixed, Return(Some(Ref(x))));
    assert Accept(f, vals) == Some(vals);
    FitLaws(v, VoidKind);
    ReturnRead(m1, x, v, Context(false, true, inTry), fuel - 1);
    CallSteps(m, name, f, vals, m1, Returned(v), inTry, fuel);
  }

  // A function that returns its parameter returns the argument that was passed for it.
  lemma ProjectionReturns(m: Store, name: string, params: seq<string>, i: nat, vals: seq<Value>, inTry: bool, fuel: nat)
    requires i < |params| <= |vals| && params[i] !in params[i + 1..] && fuel > 0
    requires m.Lookup(name) == Some(Function(Func(params, [], Mixed, Return(Some(Ref(params[i]))))))
    ensures Compute(m, Call(name, Constants(vals)), inTry, fuel) == Some((m, Ok(vals[i])))
  {
    hide Compute, BindParams;
    BindingsOfCall(m.Enter(), params, vals);
    ScopeLaws(m, name, Var(Void), name);
    BindingReturns(m, name, params, vals, params[i], vals[i], inTry, fuel);
  }

  // The number of arguments and the arguments themselves are there under their own names.
  lemma ArgumentsReturn(m: Store, name: string, params: seq<string>, vals: seq<Value>, inTry: bool, fuel: nat)
    requires |params| <= |vals| && fuel > 0
    ensures "argc" !in params && m.Lookup(name) == Some(Function(Func(params, [], Mixed, Return(Some(Ref("argc")))))) ==>
              Compute(m, Call(name, Constants(vals)), inTry, fuel) == Some((m, Ok(Int(|vals|))))
    ensures "argv" !in params && m.Lookup(name) == Some(Function(Func(params, [], Mixed, Return(Some(Ref("argv")))))) ==>
              Compute(m, Call(name, Constants(vals)), inTry, fuel) == Some((m, Ok(Arr(vals))))
  {
    hide Compute, BindParams;
    BindingsOfCall(m.Enter(), params, vals);
    ScopeLaws(m, name, Var(Void), name);
    if "argc" !in params && m.Lookup(name) == Some(Function(Func(params, [], Mixed, Return(Some(Ref("argc")))))) {
      BindingReturns(m, name, params, vals, "argc", Int(|vals|), inTry, fuel);
    }
    if "argv" !in params && m.Lookup(name) == Some(Function(Func(params, [], Mixed, Return(Some(Ref("argv")))))) {
      BindingReturns(m, name, params, vals, "argv", Arr(vals), inTry, fuel);
    }
  }

  // What a function throws is thrown by its call.
  lemma ThrowCrossesCalls(m: Store, name: string, v: Value, x: string, h: Stmt, c: Context, fuel: nat)
    requires fuel > 0 && m.Lookup(name) == Some(Function(Func([], [], Mixed, Throw(Const(v)))))
    ensures Perform(m, Try(ExprStmt(Call(name, [])), x, h), c, fuel) == Perform(m.Add(x, Var(v)), h, c, fuel)
  {
    hide Perform, Compute;
    var f := Func([], [], Mixed, Throw(Const(v)));
    var m1 := BindParams(m.Enter(), [], []);
    BindingsOfCall(m.Enter(), [], []);
    ScopeLaws(m, name, Function(f), name);
    ThrowSteps(m1, v, Context(false, true, true), fuel - 1);
    CallSteps(m, name, f, [], m1, Threw(v), true, fuel);
    ExprSteps(m, Call(name, []), c.(inTry := true), fuel);
    TrySteps(m, ExprStmt(Call(name, [])), x, h, c, fuel);
  }

  // A typed function casts its argument and its result by force, and refuses what it cannot cast.
  lemma TypedIdentity(m: Store, name: string, want: Want, result: Want, v: Value, inTry: bool, fuel: nat)
    requires fuel > 0 && m.Lookup(name) == Some(Function(Func(["x"], [want], result, Return(Some(Ref("x"))))))
    ensures Fit(v, want).Some? && Fit(Fit(v, want).value, result).Some? ==>
              Compute(m, Call(name, Constants([v])), inTry, fuel)
              == Some((m, Ok(Fit(Fit(v, want).value, result).value)))
    ensures Fit(v, want).Some? && Fit(Fit(v, want).value, result).None? ==>
              Compute(m, Call(name, Constants([v])), inTry, fuel) == Some((m, Exited))
    ensures Fit(v, want).None? ==>
              Compute(m, Call(name, Constants([v])), inTry, fuel).Some?
              && Compute(m, Call(name, Constants([v])), inTry, fuel).value.1 == Exited
  {
    hide Fit;
    var f := Func(["x"], [want], result, Return(Some(Ref("x"))));
    assert [v][1..] == [] && [want][1..] == [];
    assert FitAll([], []) == Some([]);
    assert forall w: Value :: [w] + [] == [w];
    assert Accept(f, [v]) == if Fit(v, want).None? then None else Some([Fit(v, want).value]);
    if Fit(v, want).Some? {
      var args := [Fit(v, want).value];
      var m1 := BindParams(m.Enter(), ["x"], args);
      BindingsOfCall(m.Enter(), ["x"], args);
      assert "x" !in ["x"][1..];
      assert m1.Lookup(["x"][0]) == Some(Var(args[0]));
      ScopeLaws(m, name, Function(f), name);
      ReturnRead(m1, "x", args[0], Context(false, true, inTry), fuel - 1);
      CallSteps(m, name, f, [v], m1, Returned(args[0]), inTry, fuel);
    } else {
      ConstantArguments(m, [v], map[], ["x"], inTry, fuel);
      assert InvokeTyped(m.Enter(), f, [v], inTry, fuel) == Some((m.Enter(), Exited));
      assert Compute(m, Call(name, Constants([v])), inTry, fuel) == ComputeCall(m, Call(name, Constants([v])), inTry, fuel);
    }
  }
}
