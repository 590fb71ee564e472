/** Laws of the language that do not mention how it is evaluated: what arithmetic, casts, scopes and
    bindings come to, when two programs mean the same, and what particular programs compute.  They
    are about the structured semantics, and so about the interpreter on every safe program. */
module LanguageLaws {
  import opened Wrappers
  import opened Language
  import opened Structured

  // ---- values ----

  // A value is true when it is not zero as a number.
  lemma TrueIsNotZero(v: Value)
    ensures ToBool(v) <==> ToInt(v) != 0
    ensures ToInt(Bool(ToBool(v))) == if ToBool(v) then 1 else 0
    ensures v.Arr? ==> ToInt(v) == |v.elems|
    ensures v.Int? ==> v == Int(ToInt(v))
  {
  }

  lemma ArithmeticLaws(a: int, b: int)
    ensures Apply(Plus, Int(a), Int(0)) == Some(Int(a)) && Apply(Minus, Int(a), Int(a)) == Some(Int(0))
    ensures Apply(Plus, Int(a), Int(b)) == Apply(Plus, Int(b), Int(a))
    ensures Apply(Plus, Int(a - 1), Int(b + 1)) == Apply(Plus, Int(a), Int(b))
    ensures Apply(Minus, Int(a), Int(b)).Some? && Apply(Plus, Apply(Minus, Int(a), Int(b)).value, Int(b)) == Some(Int(a))
    ensures Apply(Mul, Int(a), Int(0)) == Some(Int(0)) && Apply(Mul, Int(a), Int(b)) == Apply(Mul, Int(b), Int(a))
    ensures Apply(Mul, Int(a), Int(b)).Some? && Apply(Mul, Int(a), Int(b + 1)) == Apply(Plus, Apply(Mul, Int(a), Int(b)).value, Int(a))
  {
    assert a * (b + 1) == a * b + a;
  }

  // Division rounds toward zero, and the remainder is what it leaves, with the dividend's sign.
  lemma DivisionLaws(a: int, b: int)
    ensures Apply(Div, Int(a), Int(b)).None? <==> b == 0
    ensures Apply(Mod, Int(a), Int(b)).None? <==> b == 0
    ensures b != 0 ==>
              var (q, r) := (Apply(Div, Int(a), Int(b)).value, Apply(Mod, Int(a), Int(b)).value);
              && q.Int? && r.Int? && a == b * q.i + r.i
              && Abs(r.i) < Abs(b) && (r.i > 0 ==> a > 0) && (r.i < 0 ==> a < 0)
  {
    hide TruncDiv, Abs;
    if b != 0 { TruncLaws(a, b); }
  }

  lemma TruncLaws(a: int, b: int)
    requires b != 0
    ensures var r := a - b * TruncDiv(a, b);
            Abs(r) < Abs(b) && (r > 0 ==> a > 0) && (r < 0 ==> a < 0)
  {
    var x: int := Abs(a);
    var y: int := Abs(b);
    var k: int := x / y;
    WholePart(x, y);
    assert TruncDiv(a, b) == if (a < 0) == (b < 0) then k else 0 - k;
    Times(b, y, TruncDiv(a, b), k, a < 0);
    Remains(a, x, y, y * k, a - b * TruncDiv(a, b));
  }

  lemma Remains(a: int, x: int, y: int, p: int, r: int)
    requires x == Abs(a) && 0 <= p && 0 <= x - p < y && r == a - (if a < 0 then -p else p)
    ensures Abs(r) < y && (r > 0 ==> a > 0) && (r < 0 ==> a < 0)
  {
  }

  lemma Times(b: int, y: int, q: int, k: int, flip: bool)
    requires (b == y && q == if flip then 0 - k else k) || (b == 0 - y && q == if flip then k else 0 - k)
    ensures b * q == if flip then 0 - y * k else y * k
  {
    SignsOut(y, k);
  }

  lemma WholePart(x: int, y: int)
    requires 0 <= x && 0 < y
    ensures 0 <= y * (x / y) && 0 <= x - y * (x / y) < y
  {
    assert x == y * (x / y) + x % y;
  }

  lemma SignsOut(y: int, k: int)
    ensures (-y) * k == -(y * k) && y * (-k) == -(y * k) && (-y) * (-k) == y * k
  {
  }

  // Operands count as numbers, whatever they are; equality needs the same kind, and no array has
  // it.
  lemma OperandLaws(op: Op, a: Value, b: Value)
    ensures op != Equal && op != NotEqual ==> Apply(op, a, b) == Apply(op, Int(ToInt(a)), Int(ToInt(b)))
    ensures Apply(Equal, a, b) == Some(Bool(a == b && !a.Arr?))
    ensures Apply(NotEqual, a, b) == Some(Bool(a != b || a.Arr?))
  {
  }

  // A cast gives the kind asked for and keeps what has it; only functions are functions.
  lemma CastLaws(v: Value, kind: Kind)
    ensures CastTo(v, kind).None? <==> kind == FnKind && !v.Fn?
    ensures CastTo(v, kind).Some? ==> KindOf(CastTo(v, kind).value) == kind
    ensures KindOf(v) == kind ==> CastTo(v, kind) == Some(v)
    ensures CastTo(v, IntKind) == Some(Int(ToInt(v))) && CastTo(v, BoolKind) == Some(Bool(ToInt(v) != 0))
    ensures !v.Arr? ==> CastTo(v, ArrKind) == Some(Arr([v]))
  {
  }

  // A declared type takes what has it, casts by force, and turns all else down.
  lemma FitLaws(v: Value, kind: Kind)
    ensures Fit(v, Mixed) == Some(v)
    ensures KindOf(v) == kind ==> Fit(v, Only(kind)) == Some(v)
    ensures KindOf(v) != kind ==> Fit(v, Only(kind)) == None
    ensures Fit(v, Force(kind)) == CastTo(v, kind)
  {
    CastLaws(v, kind);
  }

  function WantAt(wants: seq<Want>, i: nat): Want {
    if i < |wants| then wants[i] else Mixed
  }

  // Arguments are accepted when there are enough and each fits its own declaration.
  lemma {:induction false} FitAllAt(vals: seq<Value>, wants: seq<Want>)
    ensures FitAll(vals, wants).Some? <==> forall i :: 0 <= i < |vals| ==> Fit(vals[i], WantAt(wants, i)).Some?
    ensures FitAll(vals, wants).Some? ==>
              forall i :: 0 <= i < |vals| ==> Fit(vals[i], WantAt(wants, i)) == Some(FitAll(vals, wants).value[i])
    decreases vals
  {
    hide Fit;
    if vals != [] && wants != [] {
      FitAllAt(vals[1..], wants[1..]);
      assert forall i :: 1 <= i < |vals| ==> vals[i] == vals[1..][i - 1] && WantAt(wants, i) == WantAt(wants[1..], i - 1);
      forall i | 0 <= i < |vals| - 1
        ensures Fit(vals[1..][i], WantAt(wants[1..], i)) == Fit(vals[i + 1], WantAt(wants, i + 1))
      {
      }
    } else {
      forall i | 0 <= i < |vals| ensures Fit(vals[i], WantAt(wants, i)) == Some(vals[i]) { FitLaws(vals[i], VoidKind); }
    }
  }

  lemma AcceptLaws(f: Func, vals: seq<Value>)
    ensures Accept(f, vals).Some? <==>
            |f.params| <= |vals| && forall i :: 0 <= i < |vals| ==> Fit(vals[i], WantAt(f.wants, i)).Some?
  {
    FitAllAt(vals, f.wants);
  }

  // ---- scopes ----

  // A new entry is found, shadows what it hides, and leaves all other names alone; a function's
  // scope hides its caller's, but not the global one.
  lemma ScopeLaws(m: Store, name: string, entry: Entry, other: string)
    ensures m.Add(name, entry).Lookup(name) == Some(entry)
    ensures other != name ==> m.Add(name, entry).Lookup(other) == m.Lookup(other)
    ensures m.Enter().Leave() == m
    ensures m.Enter().Add(name, entry).Leave() == m
    ensures m.Enter().Lookup(other) == if other in m.globals then Some(m.globals[other]) else None
  {
    assert m.Enter().Leave().locals == m.locals;
    assert m.Enter().Add(name, entry).Leave().locals == m.locals;
  }

  // What is stored under a name is what is read, and functions can be called under it.
  lemma EntryLaws(v: Value)
    ensures RefValue(Some(EntryOf(v))) == v && RefValue(None) == Void
    ensures Callee(Some(EntryOf(v))) == if v.Fn? then Some(v.f) else None
    ensures Callee(Some(Var(v))) == if v.Fn? then Some(v.f) else None
    ensures Callee(None) == None
  {
  }

  // ---- the bindings of a call ----

  lemma {:induction false} BindOne(m: Store, params: seq<string>, vals: seq<Value>, name: string)
    requires |params| <= |vals| && m.locals != []
    ensures var t := BindFrom(m, params, vals);
            && t.locals != [] && t.Leave() == m.Leave()
            && (name !in params ==> SameEntry(t.Top(), m.Top(), name))
    decreases params
  {
    if params != [] {
      var m1 := m.Add(params[0], Var(vals[0]));
      BindOne(m1, params[1..], vals[1..], name);
      assert m1.Leave().locals == m.Leave().locals;
      assert name !in params ==> name !in params[1..];
    }
  }

  ghost predicate SameEntry(t: Table, u: Table, name: string) {
    (name in t <==> name in u) && (name in t ==> t[name] == u[name])
  }

  // Each argument reaches its parameter, unless a later one has the same name.
  lemma {:induction false} ArgumentArrives(m: Store, params: seq<string>, vals: seq<Value>, i: nat)
    requires |params| <= |vals| && m.locals != [] && i < |params|
    requires params[i] !in params[i + 1..]
    ensures var t := BindFrom(m, params, vals).Top();
            params[i] in t && t[params[i]] == Var(vals[i])
    decreases params
  {
    var m1 := m.Add(params[0], Var(vals[0]));
    if i == 0 {
      BindOne(m1, params[1..], vals[1..], params[0]);
    } else {
      assert params[1..][i - 1] == params[i] && params[1..][i..] == params[i + 1..];
      ArgumentArrives(m1, params[1..], vals[1..], i - 1);
    }
  }

  // A call binds its parameters, the number of arguments and the arguments themselves, and nothing
  // outside its own scope.
  lemma BindingsOfCall(m: Store, params: seq<string>, vals: seq<Value>)
    requires |params| <= |vals| && m.locals != []
    ensures var t := BindParams(m, params, vals);
            && t.locals != [] && t.Leave() == m.Leave()
            && (forall i :: 0 <= i < |params| && params[i] !in params[i + 1..] ==> t.Lookup(params[i]) == Some(Var(vals[i])))
            && ("argc" !in params ==> t.Lookup("argc") == Some(Var(Int(|vals|))))
            && ("argv" !in params ==> t.Lookup("argv") == Some(Var(Arr(vals))))
            && (forall name :: name !in params && name != "argc" && name != "argv" ==> SameEntry(t.Top(), m.Top(), name))
  {
    var m1 := m.Add("argc", Var(Int(|vals|))).Add("argv", Var(Arr(vals)));
    BindOne(m1, params, vals, "argc");
    BindOne(m1, params, vals, "argv");
    assert m1.Leave().locals == m.Leave().locals;
    forall i | 0 <= i < |params| && params[i] !in params[i + 1..]
      ensures BindParams(m, params, vals).Lookup(params[i]) == Some(Var(vals[i]))
    {
      ArgumentArrives(m1, params, vals, i);
    }
    forall name | name !in params && name != "argc" && name != "argv"
      ensures SameEntry(BindParams(m, params, vals).Top(), m.Top(), name)
    {
      BindOne(m1, params, vals, name);
    }
  }

  // ---- elements ----

  // The element is read back at its position, exactly when that is in reach; the array grows by
  // voids to hold it, and all other elements are as before.
  lemma ElementLaws(elems: seq<Value>, pos: int, v: Value, i: nat)
    ensures ElemAt(SetElem(elems, pos, v), pos) == v <==> pos >= -|elems| || (elems == [] && pos == -1) || v == Void
    ensures |SetElem(elems, pos, v)| == if pos >= |elems| then pos + 1 else if elems == [] then 1 else |elems|
    ensures i < |SetElem(elems, pos, v)| && (if pos >= 0 then i != pos else i != 0 && i != |elems| + pos) ==>
              SetElem(elems, pos, v)[i] == if i < |elems| then elems[i] else Void
    ensures i < |elems| ==> ElemAt(elems, i) == elems[i] == ElemAt(elems, i - |elems|)
    ensures i >= |elems| ==> ElemAt(elems, i) == Void == ElemAt(elems, -1 - i)
  {
  }

  function PathAt(v: Value, path: seq<int>): Value
    decreases |path|
  {
    if path == [] then v else if !v.Arr? then Void else PathAt(ElemAt(v.elems, path[0]), path[1..])
  }

  // The same along a path of positions from the front.
  lemma {:induction false} PathLaws(elems: seq<Value>, path: seq<int>, v: Value)
    requires path != [] && forall i :: 0 <= i < |path| ==> path[i] >= 0
    ensures PathAt(Arr(SetPath(elems, path, v)), path) == v
    decreases |path|
  {
    hide SetElem, ElemAt;
    var x := if |path| == 1 then v else Arr(SetPath(ElemsOf(ElemAt(elems, path[0])), path[1..], v));
    ElementLaws(elems, path[0], x, 0);
    if |path| > 1 { PathLaws(ElemsOf(ElemAt(elems, path[0])), path[1..], v); } else { assert path[1..] == []; }
  }

  // An element assignment leaves one array under its name, in the innermost table and in the one
  // it was found in, and touches no other name.
  lemma AssignedLaws(m: Store, name: string, path: seq<int>, v: Value, other: string)
    requires path != [] && other != name
    ensures var t := Assigned(m, name, path, v);
            var start := match m.Lookup(name) case Some(Var(Arr(elems))) => elems case _ => [];
            && t.Lookup(name) == Some(Var(Arr(SetPath(start, path, v))))
            && t.Lookup(other) == m.Lookup(other) && |t.locals| == |m.locals|
            && (name in m.globals && IsArray(m.globals[name]) && (m.locals == [] || name !in m.Top()) ==>
                  name in t.globals && t.globals[name] == Var(Arr(SetPath(start, path, v))))
            && (m.locals != [] && name in m.Top() ==> t.globals == m.globals)
  {
    hide SetPath;
  }

  // ---- the default of a switch ----

  // The default group that counts is the last one.
  lemma {:induction false} DefaultIsLast(cases: seq<Case>, i: nat)
    requires i < |cases| && cases[i].Default? && forall j :: i < j < |cases| ==> !cases[j].Default?
    ensures LastDefault(cases) == Some(cases[i].body)
    decreases |cases|
  {
    if i < |cases| - 1 { DefaultIsLast(cases[..|cases| - 1], i); }
  }

  lemma {:induction false} NoDefault(cases: seq<Case>)
    requires forall i :: 0 <= i < |cases| ==> !cases[i].Default?
    ensures LastDefault(cases).None?
    decreases |cases|
  {
    if cases != [] { NoDefault(cases[..|cases| - 1]); }
  }
}
