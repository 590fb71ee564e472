/** The bucketed symbol table of libintend/libruntime/symtab_entry.c and symtab_memory.c, with
    the slots that deletion leaves free. */
module SymtabTable {
  import opened Wrappers
  import opened Data
  import opened SymtabHash

  // A class is known by its defining statement, here a number.
  datatype Entry =
    | Variable(value: Data)
    | Function(sig: string)
    | Class(parent: Option<string>, definition: nat)

  datatype Slot = Free | Used(symbol: string, entry: Entry)

  // A bucket that has not been allocated holds no slots.
  type Bucket = seq<Slot>

  datatype Table = Table(order: nat, nodes: seq<Bucket>)

  predicate Holds(slot: Slot, symbol: string) {
    slot.Used? && slot.symbol == symbol
  }

  // The first slot that holds the symbol, or the number of slots.
  function Find(b: Bucket, symbol: string): (i: nat)
    ensures i <= |b|
    ensures i < |b| ==> Holds(b[i], symbol)
    ensures forall j :: 0 <= j < i ==> !Holds(b[j], symbol)
  {
    if b == [] then 0
    else if Holds(b[0], symbol) then 0
    else
      var i := Find(b[1..], symbol);
      assert forall j :: 1 <= j < i + 1 ==> b[j] == b[1..][j - 1];
      i + 1
  }

  function BucketLookup(b: Bucket, symbol: string): Option<Entry> {
    if Find(b, symbol) < |b| then Some(b[Find(b, symbol)].entry) else None
  }

  predicate Unique(b: Bucket) {
    forall i, j :: 0 <= i < j < |b| && b[i].Used? && b[j].Used? ==> b[i].symbol != b[j].symbol
  }

  // Every live symbol is unique and sits in the bucket of its hash.
  predicate BucketValid(b: Bucket, order: nat, pos: nat)
    requires 1 <= order <= 31
  {
    Unique(b) && forall i :: 0 <= i < |b| && b[i].Used? ==> Hash(b[i].symbol, order) == pos
  }

  ghost predicate Valid(t: Table) {
    1 <= t.order <= 31 && |t.nodes| == Buckets(t.order)
    && forall pos :: 0 <= pos < |t.nodes| ==> BucketValid(t.nodes[pos], t.order, pos)
  }

  function Empty(order: nat): Table {
    var order1 := if order > 31 then 31 else if order == 0 then 11 else order;
    Table(order1, seq(Buckets(order1), _ => []))
  }

  function Position(t: Table, symbol: string): (pos: nat)
    requires Valid(t)
    ensures pos < |t.nodes|
  {
    HashBelow(symbol, t.order);
    Hash(symbol, t.order)
  }

  function Lookup(t: Table, symbol: string): Option<Entry>
    requires Valid(t)
  {
    BucketLookup(t.nodes[Position(t, symbol)], symbol)
  }

  // ---- the operations, on one bucket ----

  datatype Operation =
    | AddVariable(symbol: string, value: Data)
    | AddFunction(symbol: string, sig: string)
    | AddClass(symbol: string, parent: Option<string>, definition: nat)
    | Delete(symbol: string)

  // A variable takes over the slot of its name whatever was there.
  function AddVariableTo(b: Bucket, symbol: string, value: Data): Bucket {
    var i := Find(b, symbol);
    if i < |b| then b[i := Used(symbol, Variable(value))] else b + [Used(symbol, Variable(value))]
  }

  // A function reuses the slot of a function; what was something else is freed and the function
  // goes to the end.
  function AddFunctionTo(b: Bucket, symbol: string, sig: string): Bucket {
    var i := Find(b, symbol);
    if i < |b| && b[i].entry.Function? then b[i := Used(symbol, Function(sig))]
    else if i < |b| then b[i := Free] + [Used(symbol, Function(sig))]
    else b + [Used(symbol, Function(sig))]
  }

  // A class whose definition is already there is left alone, with the parent it has.
  function AddClassTo(b: Bucket, symbol: string, parent: Option<string>, definition: nat): Bucket {
    var i := Find(b, symbol);
    if i < |b| && b[i].entry.Class? && b[i].entry.definition == definition then b
    else if i < |b| then b[i := Used(symbol, Class(parent, definition))]
    else b + [Used(symbol, Class(parent, definition))]
  }

  function DeleteFrom(b: Bucket, symbol: string): Bucket {
    var i := Find(b, symbol);
    if i < |b| then b[i := Free] else b
  }

  function BucketApply(b: Bucket, op: Operation): Bucket {
    match op
    case AddVariable(symbol, value) => AddVariableTo(b, symbol, value)
    case AddFunction(symbol, sig) => AddFunctionTo(b, symbol, sig)
    case AddClass(symbol, parent, definition) => AddClassTo(b, symbol, parent, definition)
    case Delete(symbol) => DeleteFrom(b, symbol)
  }

  function Apply(t: Table, op: Operation): Table
    requires Valid(t)
  {
    var pos := Position(t, op.symbol);
    t.(nodes := t.nodes[pos := BucketApply(t.nodes[pos], op)])
  }

  // ---- the map that a table stands for ----

  function MapApply(m: map<string, Entry>, op: Operation): map<string, Entry> {
    match op
    case AddVariable(symbol, value) => m[symbol := Variable(value)]
    case AddFunction(symbol, sig) => m[symbol := Function(sig)]
    case AddClass(symbol, parent, definition) =>
      if symbol in m && m[symbol].Class? && m[symbol].definition == definition then m
      else m[symbol := Class(parent, definition)]
    case Delete(symbol) => m - {symbol}
  }

  function Get(m: map<string, Entry>, symbol: string): Option<Entry> {
    if symbol in m then Some(m[symbol]) else None
  }

  ghost predicate Refines(t: Table, m: map<string, Entry>) {
    Valid(t) && forall symbol :: Lookup(t, symbol) == Get(m, symbol)
  }

  // ---- one bucket ----

  lemma HeldIsFound(b: Bucket, i: nat, symbol: string)
    requires Unique(b) && i < |b| && Holds(b[i], symbol)
    ensures Find(b, symbol) == i
  {
    var j := Find(b, symbol);
    assert j <= i && Holds(b[j], symbol);
  }

  lemma NoneIsFound(b: Bucket, symbol: string)
    requires forall i :: 0 <= i < |b| ==> !Holds(b[i], symbol)
    ensures Find(b, symbol) == |b|
  {
  }

  // Writing a slot of the symbol, or freeing it, changes what the bucket holds for it alone.
  lemma SlotWritten(b: Bucket, i: nat, symbol: string, slot: Slot, other: string)
    requires Unique(b) && i < |b| && Holds(b[i], symbol)
    requires slot.Free? || Holds(slot, symbol)
    ensures Unique(b[i := slot])
    ensures BucketLookup(b[i := slot], other)
         == if other == symbol then (if slot.Free? then None else Some(slot.entry)) else BucketLookup(b, other)
  {
    var b1 := b[i := slot];
    HeldIsFound(b, i, symbol);
    if other == symbol {
      if slot.Free? {
        forall j | 0 <= j < |b1| ensures !Holds(b1[j], symbol) {
          if j != i && Holds(b[j], symbol) { HeldIsFound(b, j, symbol); }
        }
        NoneIsFound(b1, symbol);
      } else {
        HeldIsFound(b1, i, symbol);
      }
    } else if Find(b, other) < |b| {
      HeldIsFound(b1, Find(b, other), other);
    } else {
      forall j | 0 <= j < |b1| ensures !Holds(b1[j], other) {
        if j != i { assert !Holds(b[j], other); }
      }
      NoneIsFound(b1, other);
    }
  }

  lemma SlotAppended(b: Bucket, symbol: string, e: Entry, other: string)
    requires Unique(b) && Find(b, symbol) == |b|
    ensures Unique(b + [Used(symbol, e)])
    ensures BucketLookup(b + [Used(symbol, e)], other) == if other == symbol then Some(e) else BucketLookup(b, other)
  {
    var b1 := b + [Used(symbol, e)];
    assert forall j :: 0 <= j < |b| ==> b1[j] == b[j] && !Holds(b[j], symbol);
    if other == symbol {
      HeldIsFound(b1, |b|, symbol);
    } else if Find(b, other) < |b| {
      HeldIsFound(b1, Find(b, other), other);
    } else {
      NoneIsFound(b1, other);
    }
  }

  // What the map of one bucket becomes.
  function EntryAfter(old_: Option<Entry>, op: Operation): Option<Entry> {
    match op
    case AddVariable(_, value) => Some(Variable(value))
    case AddFunction(_, sig) => Some(Function(sig))
    case AddClass(_, parent, definition) =>
      if old_.Some? && old_.value.Class? && old_.value.definition == definition then old_
      else Some(Class(parent, definition))
    case Delete(_) => None
  }

  lemma BucketApplied(b: Bucket, op: Operation, other: string)
    requires Unique(b)
    ensures Unique(BucketApply(b, op))
    ensures BucketLookup(BucketApply(b, op), other)
         == if other == op.symbol then EntryAfter(BucketLookup(b, op.symbol), op) else BucketLookup(b, other)
  {
    hide Unique;
    var symbol := op.symbol;
    var i := Find(b, symbol);
    match op
    case AddVariable(_, value) =>
      var e := Variable(value);
      if i < |b| { SlotWritten(b, i, symbol, Used(symbol, e), other); } else { SlotAppended(b, symbol, e, other); }
    case AddFunction(_, sig) => FunctionApplied(b, symbol, sig, other);
    case AddClass(_, parent, definition) =>
      var e := Class(parent, definition);
      if i < |b| { SlotWritten(b, i, symbol, Used(symbol, e), other); } else { SlotAppended(b, symbol, e, other); }
    case Delete(_) =>
      if i < |b| { SlotWritten(b, i, symbol, Free, other); }
  }

  lemma FunctionApplied(b: Bucket, symbol: string, sig: string, other: string)
    requires Unique(b)
    ensures Unique(AddFunctionTo(b, symbol, sig))
    ensures BucketLookup(AddFunctionTo(b, symbol, sig), other)
         == if other == symbol then Some(Function(sig)) else BucketLookup(b, other)
  {
    hide Unique;
    var i := Find(b, symbol);
    var e := Function(sig);
    if i < |b| && b[i].entry.Function? {
      SlotWritten(b, i, symbol, Used(symbol, e), other);
    } else if i < |b| {
      SlotWritten(b, i, symbol, Free, symbol);
      SlotWritten(b, i, symbol, Free, other);
      SlotAppended(b[i := Free], symbol, e, other);
    } else {
      SlotAppended(b, symbol, e, other);
    }
  }

  // Only slots of the symbol, or new ones, come to hold anything else than before.
  lemma BucketSlots(b: Bucket, op: Operation, i: nat)
    requires i < |BucketApply(b, op)|
    ensures |b| <= |BucketApply(b, op)|
    ensures i < |b| && b[i].Free? ==> BucketApply(b, op)[i].Free?
    ensures BucketApply(b, op)[i].Used? ==>
              (i < |b| && BucketApply(b, op)[i] == b[i]) || BucketApply(b, op)[i].symbol == op.symbol
  {
  }

  // ---- the whole table ----

  lemma EmptyRefines(order: nat)
    ensures Refines(Empty(order), map[])
  {
  }

  lemma ApplyValid(t: Table, op: Operation)
    requires Valid(t)
    ensures Valid(Apply(t, op))
  {
    hide Unique, Hash, BucketApply, Find;
    var pos := Position(t, op.symbol);
    var b := t.nodes[pos];
    BucketApplied(b, op, op.symbol);
    forall i | 0 <= i < |BucketApply(b, op)| && BucketApply(b, op)[i].Used?
      ensures Hash(BucketApply(b, op)[i].symbol, t.order) == pos
    {
      BucketSlots(b, op, i);
    }
    assert BucketValid(BucketApply(b, op), t.order, pos);
  }

  lemma ApplyLookup(t: Table, op: Operation, other: string)
    requires Valid(t)
    ensures Valid(Apply(t, op))
    ensures Lookup(Apply(t, op), other)
         == if other == op.symbol then EntryAfter(Lookup(t, op.symbol), op) else Lookup(t, other)
  {
    hide BucketApply, BucketLookup, Hash;
    ApplyValid(t, op);
    BucketApplied(t.nodes[Position(t, op.symbol)], op, other);
  }

  // Each operation on a table is the operation on the map it stands for.
  lemma ApplyRefines(t: Table, m: map<string, Entry>, op: Operation)
    requires Refines(t, m)
    ensures Refines(Apply(t, op), MapApply(m, op))
  {
    hide Valid, Apply, Lookup;
    ApplyLookup(t, op, op.symbol);
    forall other
      ensures Lookup(Apply(t, op), other) == Get(MapApply(m, op), other)
    {
      ApplyLookup(t, op, other);
    }
  }

  function MapRun(m: map<string, Entry>, ops: seq<Operation>): map<string, Entry>
    decreases |ops|
  {
    if ops == [] then m else MapRun(MapApply(m, ops[0]), ops[1..])
  }

  function Run(t: Table, ops: seq<Operation>): Table
    requires Valid(t)
    decreases |ops|
  {
    if ops == [] then t
    else
      ApplyValid(t, ops[0]);
      Run(Apply(t, ops[0]), ops[1..])
  }

  // Whatever is done to a new table, looking a name up gives what a finite map would give.
  lemma {:induction false} RunRefines(t: Table, m: map<string, Entry>, ops: seq<Operation>)
    requires Refines(t, m)
    ensures Refines(Run(t, ops), MapRun(m, ops))
    decreases |ops|
  {
    if ops != [] {
      ApplyRefines(t, m, ops[0]);
      RunRefines(Apply(t, ops[0]), MapApply(m, ops[0]), ops[1..]);
    }
  }

  // A slot that was freed stays free: later symbols of the bucket go to its end.
  lemma {:induction false} FreeForever(t: Table, ops: seq<Operation>, pos: nat, i: nat)
    requires Valid(t) && pos < |t.nodes| && i < |t.nodes[pos]| && t.nodes[pos][i].Free?
    ensures pos < |Run(t, ops).nodes| && i < |Run(t, ops).nodes[pos]| && Run(t, ops).nodes[pos][i].Free?
    decreases |ops|
  {
    if ops != [] {
      var t1 := Apply(t, ops[0]);
      ApplyValid(t, ops[0]);
      if pos == Position(t, ops[0].symbol) {
        var b := t.nodes[pos];
        if BucketApply(b, ops[0]) != [] { BucketSlots(b, ops[0], 0); }
        BucketKeeps(b, ops[0], i);
      }
      FreeForever(t1, ops[1..], pos, i);
    }
  }

  lemma BucketKeeps(b: Bucket, op: Operation, i: nat)
    requires i < |b|
    ensures i < |BucketApply(b, op)|
    ensures b[i].Free? ==> BucketApply(b, op)[i].Free?
  {
  }

  // ---- enumeration ----

  // The live slots of a bucket, and of all buckets, in order.
  function LiveIn(b: Bucket): seq<Slot> {
    if b == [] then []
    else LiveIn(b[..|b| - 1]) + if b[|b| - 1].Used? then [b[|b| - 1]] else []
  }

  function Live(nodes: seq<Bucket>): seq<Slot> {
    if nodes == [] then [] else Live(nodes[..|nodes| - 1]) + LiveIn(nodes[|nodes| - 1])
  }

  // What symtab_get gives for an index.
  function GetAt(t: Table, index: int): Option<Slot> {
    if 0 <= index < |Live(t.nodes)| then Some(Live(t.nodes)[index]) else None
  }

  lemma {:induction false} LiveInExactly(b: Bucket, slot: Slot)
    ensures slot in LiveIn(b) <==> slot.Used? && slot in b
    decreases |b|
  {
    if b != [] {
      LiveInExactly(b[..|b| - 1], slot);
      assert b == b[..|b| - 1] + [b[|b| - 1]];
    }
  }

  lemma {:induction false} LiveExactly(nodes: seq<Bucket>, slot: Slot)
    ensures slot in Live(nodes) <==> slot.Used? && exists pos :: 0 <= pos < |nodes| && slot in nodes[pos]
    decreases |nodes|
  {
    if nodes != [] {
      var n := |nodes| - 1;
      LiveExactly(nodes[..n], slot);
      LiveInExactly(nodes[n], slot);
      if slot.Used? && exists pos :: 0 <= pos < |nodes| && slot in nodes[pos] {
        var pos :| 0 <= pos < |nodes| && slot in nodes[pos];
        if pos < n { assert slot in nodes[..n][pos]; }
      }
      if exists pos :: 0 <= pos < n && slot in nodes[..n][pos] {
        var pos :| 0 <= pos < n && slot in nodes[..n][pos];
        assert slot in nodes[pos];
      }
    }
  }

  predicate Distinct(slots: seq<Slot>) {
    forall i, j :: 0 <= i < j < |slots| ==> slots[i].Used? && slots[j].Used? ==> slots[i].symbol != slots[j].symbol
  }

  lemma {:induction false} LiveInDistinct(b: Bucket)
    requires Unique(b)
    ensures Distinct(LiveIn(b))
    decreases |b|
  {
    if b != [] {
      var front := b[..|b| - 1];
      LiveInDistinct(front);
      forall i | 0 <= i < |LiveIn(front)|
        ensures LiveIn(front)[i] in front
      {
        LiveInExactly(front, LiveIn(front)[i]);
      }
    }
  }

  lemma {:induction false} LiveDistinct(order: nat, nodes: seq<Bucket>)
    requires 1 <= order <= 31
    requires forall pos :: 0 <= pos < |nodes| ==> BucketValid(nodes[pos], order, pos)
    ensures Distinct(Live(nodes))
    decreases |nodes|
  {
    hide Hash;
    if nodes != [] {
      var n := |nodes| - 1;
      var (a, b) := (Live(nodes[..n]), LiveIn(nodes[n]));
      LiveDistinct(order, nodes[..n]);
      LiveInDistinct(nodes[n]);
      forall i, j | 0 <= i < |a| && 0 <= j < |b| && a[i].Used? && b[j].Used?
        ensures a[i].symbol != b[j].symbol
      {
        LiveExactly(nodes[..n], a[i]);
        LiveInExactly(nodes[n], b[j]);
        var pos :| 0 <= pos < n && a[i] in nodes[..n][pos];
        assert a[i] in nodes[pos] && b[j] in nodes[n];
        assert Hash(a[i].symbol, order) == pos;
        assert Hash(b[j].symbol, order) == n;
      }
    }
  }

  lemma LookupIsLive(t: Table, symbol: string, e: Entry)
    requires Valid(t)
    ensures Lookup(t, symbol) == Some(e) <==> Used(symbol, e) in Live(t.nodes)
  {
    hide Hash;
    var slot := Used(symbol, e);
    LiveExactly(t.nodes, slot);
    var pos := Position(t, symbol);
    var b := t.nodes[pos];
    if Lookup(t, symbol) == Some(e) {
      assert b[Find(b, symbol)] == slot;
      assert slot in b;
    }
    if slot in Live(t.nodes) {
      var p :| 0 <= p < |t.nodes| && slot in t.nodes[p];
      var i :| 0 <= i < |t.nodes[p]| && t.nodes[p][i] == slot;
      assert p == pos;
      HeldIsFound(b, i, symbol);
    }
  }

  // Every live symbol is met at exactly one index below the count, with its entry.
  lemma EnumeratesOnce(t: Table, symbol: string, e: Entry)
    requires Valid(t)
    ensures Lookup(t, symbol) == Some(e) <==> exists i :: GetAt(t, i) == Some(Used(symbol, e))
    ensures forall i, j :: GetAt(t, i).Some? && GetAt(t, j).Some? && i != j ==>
              SymbolAt(t, i) != SymbolAt(t, j)
  {
    hide Lookup, Valid, Live;
    LookupIsLive(t, symbol, e);
    if Used(symbol, e) in Live(t.nodes) {
      var i :| 0 <= i < |Live(t.nodes)| && Live(t.nodes)[i] == Used(symbol, e);
      assert GetAt(t, i) == Some(Used(symbol, e));
    }
    AllUsed(t);
    TableDistinct(t);
  }

  lemma TableDistinct(t: Table)
    requires Valid(t)
    ensures Distinct(Live(t.nodes))
  {
    LiveDistinct(t.order, t.nodes);
  }

  lemma AllUsed(t: Table)
    ensures forall i :: 0 <= i < |Live(t.nodes)| ==> Live(t.nodes)[i].Used?
  {
    forall i | 0 <= i < |Live(t.nodes)| ensures Live(t.nodes)[i].Used? {
      LiveExactly(t.nodes, Live(t.nodes)[i]);
    }
  }

  function SymbolAt(t: Table, i: int): string {
    if GetAt(t, i).Some? && GetAt(t, i).value.Used? then GetAt(t, i).value.symbol else []
  }

  // ---- copies ----

  // A class leaves a free slot where it was.
  function CopySlot(slot: Slot): Slot {
    if slot.Used? && slot.entry.Class? then Free else slot
  }

  function CopyBucket(b: Bucket): Bucket {
    seq(|b|, i requires 0 <= i < |b| => CopySlot(b[i]))
  }

  function Copy(t: Table): Table {
    t.(nodes := seq(|t.nodes|, pos requires 0 <= pos < |t.nodes| => CopyBucket(t.nodes[pos])))
  }

  function WithoutClasses(m: map<string, Entry>): map<string, Entry> {
    map symbol | symbol in m && !m[symbol].Class? :: m[symbol]
  }

  lemma CopyBucketLookup(b: Bucket, symbol: string)
    requires Unique(b)
    ensures Unique(CopyBucket(b))
    ensures BucketLookup(CopyBucket(b), symbol)
         == if BucketLookup(b, symbol).Some? && BucketLookup(b, symbol).value.Class? then None else BucketLookup(b, symbol)
  {
    var c := CopyBucket(b);
    var i := Find(b, symbol);
    forall j | 0 <= j < |c| && c[j].Used? ensures c[j] == b[j] {}
    if i < |b| && !b[i].entry.Class? {
      HeldIsFound(c, i, symbol);
    } else {
      forall j | 0 <= j < |c| ensures !Holds(c[j], symbol) {
        if Holds(c[j], symbol) { HeldIsFound(b, j, symbol); }
      }
      NoneIsFound(c, symbol);
    }
  }

  lemma CopyValid(t: Table)
    requires Valid(t)
    ensures Valid(Copy(t))
  {
    hide Hash, Buckets;
    forall pos | 0 <= pos < |t.nodes| ensures BucketValid(Copy(t).nodes[pos], t.order, pos) {
      var (b, c) := (t.nodes[pos], Copy(t).nodes[pos]);
      assert BucketValid(b, t.order, pos);
      CopyBucketLookup(b, []);
      forall i | 0 <= i < |c| && c[i].Used? ensures Hash(c[i].symbol, t.order) == pos {
        assert c[i] == b[i];
      }
    }
  }

  // A copy is the map without its classes, in a table of the same order and slots.
  lemma CopyRefines(t: Table, m: map<string, Entry>)
    requires Refines(t, m)
    ensures Refines(Copy(t), WithoutClasses(m))
    ensures forall pos :: 0 <= pos < |t.nodes| ==> |Copy(t).nodes[pos]| == |t.nodes[pos]|
  {
    hide BucketLookup, Hash, Buckets;
    CopyValid(t);
    forall symbol ensures Lookup(Copy(t), symbol) == Get(WithoutClasses(m), symbol) {
      assert Lookup(t, symbol) == Get(m, symbol);
      CopyBucketLookup(t.nodes[Position(t, symbol)], symbol);
    }
  }
}
