/** The stack of local tables over the global one (libintend/libruntime/symtab_stack.c). */
module SymtabStack {
  import opened Wrappers
  import opened Data
  import opened SymtabTable

  const LOCAL_ORDER: nat := 7

  datatype Stack = Stack(locals: seq<Table>, global: Table)

  ghost predicate StackValid(s: Stack) {
    Valid(s.global) && forall i :: 0 <= i < |s.locals| ==> Valid(s.locals[i])
  }

  datatype Step =
    | Enter
    | Leave
    | Top(op: Operation)       // in the topmost table, which is the global one when there is no other
    | Global(op: Operation)

  function TakeStep(s: Stack, step: Step): (r: Stack)
    requires StackValid(s)
    ensures StackValid(r)
  {
    match step
    case Enter =>
      EmptyRefines(LOCAL_ORDER);
      s.(locals := s.locals + [Empty(LOCAL_ORDER)])
    case Leave => if s.locals == [] then s else s.(locals := s.locals[..|s.locals| - 1])
    case Top(op) =>
      if s.locals == [] then
        ApplyValid(s.global, op);
        s.(global := Apply(s.global, op))
      else
        ApplyValid(s.locals[|s.locals| - 1], op);
        s.(locals := s.locals[|s.locals| - 1 := Apply(s.locals[|s.locals| - 1], op)])
    case Global(op) =>
      ApplyValid(s.global, op);
      s.(global := Apply(s.global, op))
  }

  // The topmost local table first, then the global one; no table in between is seen.
  function StackLookup(s: Stack, symbol: string): Option<Entry>
    requires StackValid(s)
  {
    if s.locals != [] && Lookup(s.locals[|s.locals| - 1], symbol).Some? then Lookup(s.locals[|s.locals| - 1], symbol)
    else Lookup(s.global, symbol)
  }

  function VariableIn(t: Table, symbol: string): Option<Data>
    requires Valid(t)
  {
    match Lookup(t, symbol)
    case Some(Variable(v)) => Some(v)
    case _ => None
  }

  // Only what is a variable hides a global variable from this search.
  function StackVariable(s: Stack, symbol: string): Option<Data>
    requires StackValid(s)
  {
    if s.locals != [] && VariableIn(s.locals[|s.locals| - 1], symbol).Some? then
      VariableIn(s.locals[|s.locals| - 1], symbol)
    else VariableIn(s.global, symbol)
  }

  predicate IsLocal(s: Stack, symbol: string)
    requires StackValid(s)
  {
    s.locals == [] || Lookup(s.locals[|s.locals| - 1], symbol).Some?
  }

  // ---- what the stack stands for ----

  datatype Scopes = Scopes(locals: seq<map<string, Entry>>, global: map<string, Entry>)

  function ScopeStep(m: Scopes, step: Step): Scopes {
    match step
    case Enter => m.(locals := m.locals + [map[]])
    case Leave => if m.locals == [] then m else m.(locals := m.locals[..|m.locals| - 1])
    case Top(op) =>
      if m.locals == [] then m.(global := MapApply(m.global, op))
      else m.(locals := m.locals[|m.locals| - 1 := MapApply(m.locals[|m.locals| - 1], op)])
    case Global(op) => m.(global := MapApply(m.global, op))
  }

  function ScopeLookup(m: Scopes, symbol: string): Option<Entry> {
    if m.locals != [] && symbol in m.locals[|m.locals| - 1] then Some(m.locals[|m.locals| - 1][symbol])
    else Get(m.global, symbol)
  }

  ghost predicate StackRefines(s: Stack, m: Scopes) {
    Refines(s.global, m.global) && |s.locals| == |m.locals|
    && forall i :: 0 <= i < |s.locals| ==> Refines(s.locals[i], m.locals[i])
  }

  function StackRun(s: Stack, steps: seq<Step>): (r: Stack)
    requires StackValid(s)
    ensures StackValid(r)
    decreases |steps|
  {
    if steps == [] then s else StackRun(TakeStep(s, steps[0]), steps[1..])
  }

  function ScopeRun(m: Scopes, steps: seq<Step>): Scopes
    decreases |steps|
  {
    if steps == [] then m else ScopeRun(ScopeStep(m, steps[0]), steps[1..])
  }

  // What is local and what a variable's name finds, in terms of the maps.
  lemma SearchesMean(s: Stack, m: Scopes, symbol: string)
    requires StackValid(s) && StackRefines(s, m)
    ensures IsLocal(s, symbol) <==> m.locals == [] || symbol in m.locals[|m.locals| - 1]
    ensures StackLookup(s, symbol) == ScopeLookup(m, symbol)
    ensures var top := if m.locals == [] then map[] else m.locals[|m.locals| - 1];
            StackVariable(s, symbol) ==
            if symbol in top && top[symbol].Variable? then Some(top[symbol].value)
            else if symbol in m.global && m.global[symbol].Variable? then Some(m.global[symbol].value)
            else None
  {
    if s.locals != [] { assert Refines(s.locals[|s.locals| - 1], m.locals[|m.locals| - 1]); }
  }

  lemma StepRefines(s: Stack, m: Scopes, step: Step)
    requires StackValid(s) && StackRefines(s, m)
    ensures StackRefines(TakeStep(s, step), ScopeStep(m, step))
  {
    hide Refines, Apply, MapApply, Empty;
    EmptyRefines(LOCAL_ORDER);
    match step
    case Enter =>
    case Leave =>
    case Top(op) =>
      if s.locals == [] {
        ApplyRefines(s.global, m.global, op);
      } else {
        ApplyRefines(s.locals[|s.locals| - 1], m.locals[|s.locals| - 1], op);
      }
    case Global(op) => ApplyRefines(s.global, m.global, op);
  }

  // Whatever frames are entered and left and whatever is added and deleted in them, a lookup
  // gives what a stack of finite maps would give.
  lemma {:induction false} StackRunRefines(s: Stack, m: Scopes, steps: seq<Step>, symbol: string)
    requires StackValid(s) && StackRefines(s, m)
    ensures StackRefines(StackRun(s, steps), ScopeRun(m, steps))
    ensures StackLookup(StackRun(s, steps), symbol) == ScopeLookup(ScopeRun(m, steps), symbol)
    decreases |steps|
  {
    hide TakeStep, ScopeStep, Lookup;
    if steps != [] {
      StepRefines(s, m, steps[0]);
      StackRunRefines(TakeStep(s, steps[0]), ScopeStep(m, steps[0]), steps[1..], symbol);
    }
  }

  // How deep a run goes below where it starts: it never leaves more frames than it has entered.
  predicate Framed(steps: seq<Step>, depth: nat)
    decreases |steps|
  {
    steps == []
    || (match steps[0]
        case Enter => Framed(steps[1..], depth + 1)
        case Leave => depth > 0 && Framed(steps[1..], depth - 1)
        case Top(_) => depth > 0 && Framed(steps[1..], depth)
        case Global(_) => Framed(steps[1..], depth))
  }

  // Frames that were there before are not touched by what is done in frames above them.
  lemma {:induction false} FramesKept(s: Stack, steps: seq<Step>, n: nat)
    requires StackValid(s) && n <= |s.locals| && Framed(steps, |s.locals| - n)
    ensures n <= |StackRun(s, steps).locals| && StackRun(s, steps).locals[..n] == s.locals[..n]
    decreases |steps|
  {
    hide Apply, Valid;
    if steps != [] {
      var s1 := TakeStep(s, steps[0]);
      assert n <= |s1.locals| && s1.locals[..n] == s.locals[..n];
      FramesKept(s1, steps[1..], n);
    }
  }

  // The search for a variable misses what a lookup finds, and finds another, exactly when a
  // local function or class has the name of a global variable.
  lemma VariableBehindFunction(s: Stack, symbol: string)
    requires StackValid(s)
    ensures StackVariable(s, symbol) ==
              match StackLookup(s, symbol)
              case Some(Variable(v)) => Some(v)
              case None => None
              case Some(_) => if s.locals != [] && IsLocal(s, symbol) then VariableIn(s.global, symbol) else None
  {
    hide Lookup;
  }

  // ---- the stack in place ----

  class TableStack {
    var localTables: seq<Table>
    var globalTable: Table

    ghost function State(): Stack
      reads this
    {
      Stack(localTables, globalTable)
    }

    constructor ()
      ensures State() == Stack([], Empty(0)) && StackValid(State())
    {
      EmptyRefines(0);
      localTables, globalTable := [], Empty(0);
    }

    method StackEnter()
      requires StackValid(State())
      modifies this
      ensures StackValid(State()) && State() == TakeStep(old(State()), Enter)
    {
      EmptyRefines(LOCAL_ORDER);
      localTables := localTables + [Empty(LOCAL_ORDER)];
    }

    method StackLeave()
      requires StackValid(State())
      modifies this
      ensures StackValid(State()) && State() == TakeStep(old(State()), Leave)
    {
      if |localTables| == 0 { return; }
      localTables := localTables[..|localTables| - 1];
    }

    // The topmost table is handed over instead of being freed.
    method StackPop() returns (table: Table)
      requires StackValid(State()) && |localTables| > 0
      modifies this
      ensures StackValid(State()) && State() == TakeStep(old(State()), Leave)
      ensures old(localTables) == localTables + [table]
    {
      table := localTables[|localTables| - 1];
      localTables := localTables[..|localTables| - 1];
    }

    method StackApply(op: Operation)
      requires StackValid(State())
      modifies this
      ensures StackValid(State()) && State() == TakeStep(old(State()), Top(op))
    {
      hide Apply, Valid;
      var depth := |localTables|;
      if depth > 0 {
        ApplyValid(localTables[depth - 1], op);
        localTables := localTables[depth - 1 := Apply(localTables[depth - 1], op)];
      } else {
        ApplyValid(globalTable, op);
        globalTable := Apply(globalTable, op);
      }
    }

    method GlobalApply(op: Operation)
      requires StackValid(State())
      modifies this
      ensures StackValid(State()) && State() == TakeStep(old(State()), Global(op))
    {
      hide Apply, Valid;
      ApplyValid(globalTable, op);
      globalTable := Apply(globalTable, op);
    }

    method LookupEntry(symbol: string) returns (entry: Option<Entry>)
      requires StackValid(State())
      ensures entry == StackLookup(State(), symbol)
    {
      entry := None;
      if |localTables| > 0 { entry := Lookup(localTables[|localTables| - 1], symbol); }
      if entry.None? { entry := Lookup(globalTable, symbol); }
    }

    method GetVariable(symbol: string) returns (v: Option<Data>)
      requires StackValid(State())
      ensures v == StackVariable(State(), symbol)
    {
      v := None;
      if |localTables| > 0 { v := VariableIn(localTables[|localTables| - 1], symbol); }
      if v.None? { v := VariableIn(globalTable, symbol); }
    }

    method StackLocal(symbol: string) returns (local: bool)
      requires StackValid(State())
      ensures local == IsLocal(State(), symbol)
    {
      if |localTables| > 0 {
        return Lookup(localTables[|localTables| - 1], symbol).Some?;
      }
      local := true;
    }
  }
}
