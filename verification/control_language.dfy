/** The part of the Intend language that moves control: expressions that read, write and call,
    and every statement form except class declarations.  Values and tables are mathematical
    values here; the tables' own hash representation is the subject of the modules Symtab. */
module Language {
  import opened Wrappers

  datatype Value =
    | Void
    | Bool(b: bool)
    | Int(i: int)
    | Arr(elems: seq<Value>)
    | Fn(f: Func)

  // A function's declaration: a type for each parameter, and one for the result.
  datatype Func = Func(params: seq<string>, wants: seq<Want>, result: Want, body: Stmt)

  datatype Kind = VoidKind | BoolKind | IntKind | ArrKind | FnKind

  // A declared type: any value, a value of one kind, or one that is cast to it by force.
  datatype Want = Mixed | Only(kind: Kind) | Force(kind: Kind)

  datatype Op = Plus | Minus | Mul | Div | Mod | Equal | NotEqual

  datatype Expr =
    | Const(v: Value)
    | Ref(name: string)
    | Assign(name: string, inner: Expr)
    | AssignElem(name: string, path: seq<Expr>, inner: Expr)
    | Elem(name: string, path: seq<Expr>)
    | Not(inner: Expr)
    | Infix(op: Op, left: Expr, right: Expr)
    | BoolAnd(left: Expr, right: Expr)
    | BoolOr(left: Expr, right: Expr)
    | Cond(test: Expr, thn: Expr, els: Expr)
    | Call(name: string, args: seq<Expr>)
    | PassRef(inner: Expr)
    | Lambda(f: Func)

  datatype Case =
    | Case(guard: Expr, body: seq<Stmt>, thru: bool)
    | Default(body: seq<Stmt>)

  datatype Stmt =
    | Nop
    | Block(body: seq<Stmt>)
    | If(test: Expr, thn: Stmt)
    | IfElse(test: Expr, thn: Stmt, els: Stmt)
    | While(test: Expr, loop: Stmt)
    | Do(loop: Stmt, test: Expr)
    | For(init: Expr, test: Expr, guard: Expr, loop: Stmt)
    | Continue
    | Break
    | Return(result: Option<Expr>)
    | ExprStmt(e: Expr)
    | FuncDef(name: string, f: Func)
    | Switch(e: Expr, cases: seq<Case>)
    | Try(tried: Stmt, name: string, handler: Stmt)
    | Throw(e: Expr)

  datatype Entry = Var(v: Value) | Function(f: Func)

  type Table = map<string, Entry>

  predicate IsArray(entry: Entry) {
    entry.Var? && entry.v.Arr?
  }

  // Where the array stands that an element assignment changes: in the innermost table, in the
  // global one below it, or nowhere, so that it works on a value of its own.
  datatype Home = Innermost | Global | Nowhere

  // The casts a test and an arithmetic operator apply to their operands.
  function ToBool(v: Value): bool {
    match v
    case Void => false
    case Bool(b) => b
    case Int(i) => i != 0
    case Arr(elems) => elems != []
    case Fn(_) => true
  }

  function ToInt(v: Value): int {
    match v
    case Void => 0
    case Bool(b) => if b then 1 else 0
    case Int(i) => i
    case Arr(elems) => |elems|
    case Fn(_) => 1
  }

  function KindOf(v: Value): Kind {
    match v
    case Void => VoidKind
    case Bool(_) => BoolKind
    case Int(_) => IntKind
    case Arr(_) => ArrKind
    case Fn(_) => FnKind
  }

  // Nothing but a function can be cast to a function.
  function CastTo(v: Value, kind: Kind): Option<Value> {
    match kind
    case VoidKind => Some(Void)
    case BoolKind => Some(Bool(ToBool(v)))
    case IntKind => Some(Int(ToInt(v)))
    case ArrKind => Some(if v.Arr? then v else Arr([v]))
    case FnKind => if v.Fn? then Some(v) else None
  }

  // A value where a type is declared; None is the fatal mismatch.
  function Fit(v: Value, want: Want): (r: Option<Value>)
    ensures r.Some? && !want.Mixed? ==> KindOf(r.value) == want.kind
  {
    if want.Mixed? || KindOf(v) == want.kind then Some(v)
    else if want.Only? then None
    else CastTo(v, want.kind)
  }

  // Arguments against the declared types; what comes after these is not looked at.
  function FitAll(vals: seq<Value>, wants: seq<Want>): (r: Option<seq<Value>>)
    ensures r.Some? ==> |r.value| == |vals|
  {
    if vals == [] || wants == [] then Some(vals)
    else
      var v :- Fit(vals[0], wants[0]);
      var rest :- FitAll(vals[1..], wants[1..]);
      Some([v] + rest)
  }

  // The arguments a function is run on, if it accepts those it is called with.
  function Accept(f: Func, vals: seq<Value>): (r: Option<seq<Value>>)
    ensures r.Some? ==> |r.value| == |vals| && |f.params| <= |vals|
  {
    if |vals| < |f.params| then None else FitAll(vals, f.wants)
  }

  // C's division and remainder truncate toward zero.
  function TruncDiv(a: int, b: int): int
    requires b != 0
  {
    if (a < 0) == (b < 0) then Abs(a) / Abs(b) else -(Abs(a) / Abs(b))
  }

  function Abs(a: int): nat {
    if a < 0 then -a else a
  }

  // Arrays never compare equal, not even to themselves.
  predicate SameValue(a: Value, b: Value) {
    match (a, b)
    case (Arr(_), _) => false
    case (_, _) => a == b
  }

  // An infix operator on two evaluated operands; None is the fatal division by zero.
  function Apply(op: Op, a: Value, b: Value): Option<Value> {
    match op
    case Plus => Some(Int(ToInt(a) + ToInt(b)))
    case Minus => Some(Int(ToInt(a) - ToInt(b)))
    case Mul => Some(Int(ToInt(a) * ToInt(b)))
    case Div => if ToInt(b) == 0 then None else Some(Int(TruncDiv(ToInt(a), ToInt(b))))
    case Mod =>
      if ToInt(b) == 0 then None
      else Some(Int(ToInt(a) - ToInt(b) * TruncDiv(ToInt(a), ToInt(b))))
    case Equal => Some(Bool(SameValue(a, b)))
    case NotEqual => Some(Bool(!SameValue(a, b)))
  }

  // ---- elements of arrays ----

  // A negative position counts from the end; one before the start writes the first element, and
  // one beyond the end is reached with voids.
  function SetElem(elems: seq<Value>, pos: int, v: Value): seq<Value> {
    var i := if pos >= 0 then pos else if |elems| + pos < 0 then 0 else |elems| + pos;
    if i < |elems| then elems[i := v] else elems + seq(i - |elems|, _ => Void) + [v]
  }

  function ElemAt(elems: seq<Value>, pos: int): Value {
    var i := if pos < 0 then |elems| + pos else pos;
    if 0 <= i < |elems| then elems[i] else Void
  }

  // An element that is no array gives way to an empty one.
  function ElemsOf(v: Value): seq<Value> {
    if v.Arr? then v.elems else []
  }

  function SetPath(elems: seq<Value>, path: seq<int>, v: Value): seq<Value>
    requires path != []
    decreases |path|
  {
    if |path| == 1 then SetElem(elems, path[0], v)
    else SetElem(elems, path[0], Arr(SetPath(ElemsOf(ElemAt(elems, path[0])), path[1..], v)))
  }

  function Positions(vals: seq<Value>): (r: seq<int>)
    ensures |r| == |vals|
  {
    if vals == [] then [] else [ToInt(vals[0])] + Positions(vals[1..])
  }

  // What a name denotes when read, when assigned a value, and when called.
  function RefValue(entry: Option<Entry>): Value {
    match entry
    case None => Void
    case Some(Var(v)) => v
    case Some(Function(f)) => Fn(f)
  }

  function EntryOf(v: Value): Entry {
    if v.Fn? then Function(v.f) else Var(v)
  }

  function Callee(entry: Option<Entry>): Option<Func> {
    match entry
    case Some(Function(f)) => Some(f)
    case Some(Var(Fn(f))) => Some(f)
    case _ => None
  }

  // The variable and function scopes: a stack of local tables over one global table.
  datatype Store = Store(locals: seq<Table>, globals: Table) {
    function Lookup(name: string): Option<Entry> {
      if locals != [] && name in locals[|locals| - 1] then Some(locals[|locals| - 1][name])
      else if name in globals then Some(globals[name])
      else None
    }

    function Add(name: string, entry: Entry): Store {
      if locals != [] then
        this.(locals := locals[|locals| - 1 := locals[|locals| - 1][name := entry]])
      else
        this.(globals := globals[name := entry])
    }

    // A variable that holds an array is changed where it is found.
    function HomeOf(name: string): (h: Home)
      ensures !h.Nowhere? <==> ArrayIn(h, name).Some?
    {
      if locals != [] && name in locals[|locals| - 1] then
        if IsArray(locals[|locals| - 1][name]) then Innermost else Nowhere
      else if name in globals && IsArray(globals[name]) then Global
      else Nowhere
    }

    function TableOf(h: Home): Table {
      match h
      case Innermost => if locals == [] then map[] else locals[|locals| - 1]
      case Global => globals
      case Nowhere => map[]
    }

    function ArrayIn(h: Home, name: string): Option<seq<Value>> {
      if name in TableOf(h) && IsArray(TableOf(h)[name]) then Some(TableOf(h)[name].v.elems) else None
    }

    function Write(h: Home, name: string, v: Value): Store
      requires ArrayIn(h, name).Some?
    {
      match h
      case Innermost => this.(locals := locals[|locals| - 1 := locals[|locals| - 1][name := Var(v)]])
      case Global => this.(globals := globals[name := Var(v)])
    }

    function Enter(): Store {
      this.(locals := locals + [map[]])
    }

    function Leave(): Store {
      if locals == [] then this else this.(locals := locals[..|locals| - 1])
    }

    function Top(): Table {
      if locals == [] then globals else locals[|locals| - 1]
    }

    // The tables below the topmost one.
    function Below(): seq<Table> {
      if locals == [] then [] else locals[..|locals| - 1]
    }
  }

  // The bindings a call starts with: argc, argv, then the parameters, later ones winning.
  function BindParams(m: Store, params: seq<string>, vals: seq<Value>): Store
    requires |params| <= |vals|
  {
    BindFrom(m.Add("argc", Var(Int(|vals|))).Add("argv", Var(Arr(vals))), params, vals)
  }

  function BindFrom(m: Store, params: seq<string>, vals: seq<Value>): Store
    requires |params| <= |vals|
    decreases params
  {
    if params == [] then m
    else BindFrom(m.Add(params[0], Var(vals[0])), params[1..], vals[1..])
  }

  // The name a plain reference argument writes back to.
  function RefTarget(arg: Expr): Option<string> {
    if arg.PassRef? && arg.inner.Ref? then Some(arg.inner.name) else None
  }

  // Copy the parameters' final entries back to the & arguments, in argument order.
  function WriteBack(m: Store, frame: Table, params: seq<string>, args: seq<Expr>): Store
    decreases args
  {
    if args == [] || params == [] then m
    else
      var m1 := match RefTarget(args[0])
        case Some(name) => if params[0] in frame then m.Add(name, frame[params[0]]) else m
        case None => m;
      WriteBack(m1, frame, params[1..], args[1..])
  }

  // Leave the callee's table and write the reference arguments back.
  function UpdateArgs(m: Store, params: seq<string>, args: seq<Expr>): Store {
    if m.locals == [] then m
    else WriteBack(m.Leave(), m.Top(), params, args)
  }

  // The group a switch runs when no label matched.
  function LastDefault(cases: seq<Case>): (r: Option<seq<Stmt>>)
    ensures r.Some? ==> exists i :: 0 <= i < |cases| && cases[i].Default? && cases[i].body == r.value
  {
    if cases == [] then None
    else
      var last := cases[|cases| - 1];
      if last.Default? then Some(last.body) else LastDefault(cases[..|cases| - 1])
  }
}
