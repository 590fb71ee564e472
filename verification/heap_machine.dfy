/** The cells of a running script and the reference counts of its resources
    (libintend/libruntime/value_copy.c and value_memory.c). */
module HeapMachine {
  import opened Wrappers
  import opened HeapValues

  // The counts of resources that are in use, and those whose release function has been called.
  datatype Counts = Counts(live: map<nat, nat>, released: seq<nat>)

  function CountOf(k: Counts, r: nat): nat {
    if r in k.live then k.live[r] else 0
  }

  function Hold(k: Counts, r: nat): Counts {
    k.(live := k.live[r := CountOf(k, r) + 1])
  }

  // The last holder gone, the resource is released and forgotten.
  function LetGo(k: Counts, r: nat): Counts {
    if CountOf(k, r) <= 1 then Counts(k.live - {r}, k.released + [r]) else k.(live := k.live[r := k.live[r] - 1])
  }

  // Cleaning a value lets go of every resource in it, in order.
  function Drop(k: Counts, v: Value): Counts
    decreases Size(v), 0
  {
    match v
    case Arr(es) => DropIn(k, es)
    case Struct(es) => DropIn(k, es)
    case Res(r) => LetGo(k, r)
    case _ => k
  }

  function DropIn(k: Counts, es: seq<Entry>): Counts
    decreases SizeIn(es), 1
  {
    if es == [] then k else DropIn(if es[0].Cell? then Drop(k, es[0].value) else k, es[1..])
  }

  // Copying a value counts every resource in it once more.
  function Raise(k: Counts, v: Value): Counts
    decreases Size(v), 0
  {
    match v
    case Arr(es) => RaiseIn(k, es)
    case Struct(es) => RaiseIn(k, es)
    case Res(r) => Hold(k, r)
    case _ => k
  }

  function RaiseIn(k: Counts, es: seq<Entry>): Counts
    decreases SizeIn(es), 1
  {
    if es == [] then k else RaiseIn(if es[0].Cell? then Raise(k, es[0].value) else k, es[1..])
  }

  lemma {:induction false} RaiseCounts(k: Counts, v: Value, r: nat)
    ensures CountOf(Raise(k, v), r) == CountOf(k, r) + Holds(v, r)
    ensures Raise(k, v).released == k.released
    ensures (forall s :: s in k.live ==> k.live[s] > 0) ==> forall s :: s in Raise(k, v).live ==> Raise(k, v).live[s] > 0
    decreases Size(v), 0
  {
    if v.Arr? || v.Struct? { RaiseCountsIn(k, v.entries, r); }
  }

  lemma {:induction false} RaiseCountsIn(k: Counts, es: seq<Entry>, r: nat)
    ensures CountOf(RaiseIn(k, es), r) == CountOf(k, r) + HoldsIn(es, r)
    ensures RaiseIn(k, es).released == k.released
    ensures (forall s :: s in k.live ==> k.live[s] > 0) ==> forall s :: s in RaiseIn(k, es).live ==> RaiseIn(k, es).live[s] > 0
    decreases SizeIn(es), 1
  {
    if es != [] {
      if es[0].Cell? {
        RaiseCounts(k, es[0].value, r);
        RaiseCountsIn(Raise(k, es[0].value), es[1..], r);
      } else {
        RaiseCountsIn(k, es[1..], r);
      }
    }
  }

  // How often a resource has been released.
  function Releases(k: Counts, r: nat): nat {
    multiset(k.released)[r]
  }

  // Counts never drop below zero, and a release happens when a count gets there, and only then.
  predicate Dropped(k: Counts, k1: Counts, r: nat, n: nat)
    requires n <= CountOf(k, r)
  {
    CountOf(k1, r) == CountOf(k, r) - n
    && (r in k1.live ==> k1.live[r] > 0)
    && Releases(k1, r) == Releases(k, r) + if n > 0 && CountOf(k1, r) == 0 then 1 else 0
  }

  lemma {:induction false} DropCounts(k: Counts, v: Value, r: nat)
    requires forall s :: Holds(v, s) <= CountOf(k, s)
    requires forall s :: s in k.live ==> k.live[s] > 0
    ensures Dropped(k, Drop(k, v), r, Holds(v, r))
    decreases Size(v), 0
  {
    if v.Arr? || v.Struct? {
      assert forall s :: HoldsIn(v.entries, s) == Holds(v, s);
      DropCountsIn(k, v.entries, r);
    }
  }

  lemma {:induction false} DropCountsIn(k: Counts, es: seq<Entry>, r: nat)
    requires forall s :: HoldsIn(es, s) <= CountOf(k, s)
    requires forall s :: s in k.live ==> k.live[s] > 0
    ensures Dropped(k, DropIn(k, es), r, HoldsIn(es, r))
    decreases SizeIn(es), 1
  {
    if es != [] {
      var k1 := if es[0].Cell? then Drop(k, es[0].value) else k;
      if es[0].Cell? {
        forall s ensures Holds(es[0].value, s) <= CountOf(k, s) {
          assert HoldsIn(es, s) <= CountOf(k, s);
        }
        DropCounts(k, es[0].value, r);
        forall s
          ensures HoldsIn(es[1..], s) <= CountOf(k1, s) && (s in k1.live ==> k1.live[s] > 0)
        {
          DropCounts(k, es[0].value, s);
          assert HoldsIn(es, s) <= CountOf(k, s);
        }
      } else {
        forall s ensures HoldsIn(es[1..], s) <= CountOf(k1, s) {
          assert HoldsIn(es, s) <= CountOf(k, s);
        }
      }
      DropCountsIn(k1, es[1..], r);
    }
  }

  // ---- the machine ----

  // All cells that are in use, the next new cell, and the next new resource.
  datatype Heap = Heap(top: seq<Entry>, counts: Counts, next: nat, made: nat)

  datatype Operation =
    | Make(v: Value)
    | MakeResource
    | CopyTo(dst: nat, src: nat)
    | Append(dst: nat, key: Option<string>, src: nat)
    | Cleanup(cell: nat)
    | Remove(dst: nat, index: nat)
    | AddMethod(dst: nat, name: string, sig: string)
    | FreeCell(index: nat)

  function Content(h: Heap, c: nat): Value {
    if Find(h.top, c).Some? then Find(h.top, c).value else Void
  }

  predicate IsCell(h: Heap, c: nat) {
    Find(h.top, c).Some?
  }

  // Neither of two cells stands in the other.
  predicate Apart(h: Heap, c: nat, d: nat) {
    c != d && Cells(Content(h, c), d) == 0 && Cells(Content(h, d), c) == 0
  }

  predicate HasKey(es: seq<Entry>, key: Option<string>) {
    key.Some? && exists i :: 0 <= i < |es| && es[i].Cell? && es[i].key == key
  }

  // The source of a copy is not the target or in it.  A struct is not copied into a part of
  // itself either, since its target has no table while it is filled.
  predicate Copyable(h: Heap, dst: nat, src: nat) {
    dst != src && Cells(Content(h, dst), src) == 0 && (Cells(Content(h, src), dst) > 0 ==> Content(h, src).Arr?)
  }

  // New values are made empty, cells that are written to or read exist, and a key that is there
  // already is overwritten instead.  Fields of structs are removed, and a field that is replaced
  // by a function is removed first.
  predicate Allowed(h: Heap, op: Operation) {
    match op
    case Make(v) => Children(v) == [] && !v.Res?
    case MakeResource => true
    case CopyTo(dst, src) => IsCell(h, dst) && IsCell(h, src) && Copyable(h, dst, src)
    case Append(dst, key, src) =>
      IsCell(h, dst) && IsCell(h, src) && (Content(h, dst).Arr? || Content(h, dst).Struct?)
      && !HasKey(Children(Content(h, dst)), key)
    case Cleanup(c) => IsCell(h, c)
    case Remove(dst, index) =>
      IsCell(h, dst) && Content(h, dst).Struct? && index < |Content(h, dst).entries| && !Content(h, dst).entries[index].Free?
    case AddMethod(dst, _, _) => IsCell(h, dst) && Content(h, dst).Struct?
    case FreeCell(index) => index < |h.top| && h.top[index].Cell?
  }

  function WithEntry(v: Value, e: Entry): Value {
    match v
    case Arr(es) => Arr(es + [e])
    case Struct(es) => Struct(es + [e])
    case _ => v
  }

  function CleanupStep(h: Heap, c: nat): Heap {
    h.(top := Write(h.top, c, Void), counts := Drop(h.counts, Content(h, c)))
  }

  // The target is cleaned first, then filled.
  function CopyStep(h: Heap, dst: nat, src: nat): Heap {
    var h1 := CleanupStep(h, dst);
    var (copy, n) := CopyTarget(Content(h1, src), dst, h1.next);
    Heap(Write(h1.top, dst, copy), Raise(h1.counts, copy), n, h1.made)
  }

  // The new entry is linked in when its value has been copied.
  function AppendStep(h: Heap, dst: nat, key: Option<string>, src: nat): Heap {
    var (copy, n) := Copy(Content(h, src), h.next + 1);
    var v := WithEntry(Content(h, dst), Cell(h.next, key, copy));
    Heap(Write(h.top, dst, v), Raise(h.counts, copy), n, h.made)
  }

  // The slot of a removed field stays, free.
  function RemoveStep(h: Heap, dst: nat, index: nat): Heap
    requires Content(h, dst).Struct? && index < |Content(h, dst).entries|
  {
    var es := Content(h, dst).entries;
    h.(top := Write(h.top, dst, Struct(es[index := Free])),
       counts := if es[index].Cell? then Drop(h.counts, es[index].value) else h.counts)
  }

  function MethodStep(h: Heap, dst: nat, name: string, sig: string): Heap {
    h.(top := Write(h.top, dst, WithEntry(Content(h, dst), Method(name, sig))))
  }

  function FreeStep(h: Heap, index: nat): Heap
    requires index < |h.top| && h.top[index].Cell?
  {
    h.(top := h.top[..index] + h.top[index + 1..], counts := Drop(h.counts, h.top[index].value))
  }

  function Step(h: Heap, op: Operation): Heap
    requires Allowed(h, op)
  {
    match op
    case Make(v) => h.(top := h.top + [Cell(h.next, None, v)], next := h.next + 1)
    case MakeResource =>
      Heap(h.top + [Cell(h.next, None, Res(h.made))], Hold(h.counts, h.made), h.next + 1, h.made + 1)
    case CopyTo(dst, src) => CopyStep(h, dst, src)
    case Append(dst, key, src) => AppendStep(h, dst, key, src)
    case Cleanup(c) => CleanupStep(h, c)
    case Remove(dst, index) => RemoveStep(h, dst, index)
    case AddMethod(dst, name, sig) => MethodStep(h, dst, name, sig)
    case FreeCell(index) => FreeStep(h, index)
  }

  // Every cell stands in one place.
  ghost predicate Owned(h: Heap) {
    forall c: nat :: CellsIn(h.top, c) <= if c < h.next then 1 else 0
  }

  // A count is the number of cells that hold the resource; a resource has been released once if
  // it was made and no cell holds it, and otherwise never.
  ghost predicate Conserved(h: Heap, r: nat) {
    CountOf(h.counts, r) == HoldsIn(h.top, r)
    && (r in h.counts.live ==> h.counts.live[r] > 0)
    && (r >= h.made ==> HoldsIn(h.top, r) == 0)
    && Releases(h.counts, r) == if r < h.made && HoldsIn(h.top, r) == 0 then 1 else 0
  }

  ghost predicate Good(h: Heap) {
    Owned(h) && forall r :: Conserved(h, r)
  }

  lemma CleanupGood(h: Heap, c: nat)
    requires Good(h) && IsCell(h, c)
    ensures Good(CleanupStep(h, c))
    ensures CellsIn(CleanupStep(h, c).top, c) == 1 && Content(CleanupStep(h, c), c) == Void
  {
    var v := Content(h, c);
    FindExactly(h.top, c);
    FoundIsPart(h.top, c);
    forall s ensures Holds(v, s) <= CountOf(h.counts, s) { assert Conserved(h, s); }
    forall s | s in h.counts.live ensures h.counts.live[s] > 0 { assert Conserved(h, s); }
    forall r ensures Conserved(CleanupStep(h, c), r) {
      assert Conserved(h, r);
      WriteHolds(h.top, c, Void, r);
      DropCounts(h.counts, v, r);
    }
    forall d: nat ensures CellsIn(CleanupStep(h, c).top, d) <= if d < h.next then 1 else 0 {
      WriteCells(h.top, c, Void, d);
    }
    WriteCells(h.top, c, Void, c);
    WriteThere(h.top, c, Void);
    assert Cells(v, c) == 0 by { OwnCell(h.top, c); }
  }

  // A cell that stands in one place does not stand in itself.
  lemma {:induction false} OwnCell(es: seq<Entry>, c: nat)
    requires CellsIn(es, c) == 1 && Find(es, c).Some?
    ensures Cells(Find(es, c).value, c) == 0
    decreases SizeIn(es)
  {
    var below := if es[0].Cell? then Children(es[0].value) else [];
    FindExactly(below, c);
    if es[0].Cell? && es[0].cell == c {
    } else if CellsIn(below, c) == 1 {
      OwnCell(below, c);
    } else {
      OwnCell(es[1..], c);
    }
  }

  // Filling a cell that holds nothing with a value whose cells are new.
  lemma FillGood(h: Heap, c: nat, v: Value, n: nat)
    requires Good(h) && CellsIn(h.top, c) == 1 && Content(h, c) == Void && h.next <= n
    requires forall d: nat :: Cells(v, d) == if h.next <= d < n then 1 else 0
    requires forall r :: Holds(v, r) > 0 ==> HoldsIn(h.top, r) > 0
    ensures Good(Heap(Write(h.top, c, v), Raise(h.counts, v), n, h.made))
  {
    var h1 := Heap(Write(h.top, c, v), Raise(h.counts, v), n, h.made);
    FindExactly(h.top, c);
    forall s | s in h.counts.live ensures h.counts.live[s] > 0 { assert Conserved(h, s); }
    forall r ensures Conserved(h1, r) {
      assert Conserved(h, r);
      WriteHolds(h.top, c, v, r);
      RaiseCounts(h.counts, v, r);
    }
    forall d: nat ensures CellsIn(h1.top, d) <= if d < n then 1 else 0 {
      WriteCells(h.top, c, v, d);
    }
  }

  // The source after the target has been cleaned.
  lemma SourceStays(h: Heap, dst: nat, src: nat)
    requires Good(h) && Allowed(h, CopyTo(dst, src))
    ensures Find(CleanupStep(h, dst).top, src) == Some(WriteBelow(Content(h, src), dst, Void))
    ensures Cells(Content(h, src), dst) == 0 ==> Find(CleanupStep(h, dst).top, src) == Find(h.top, src)
  {
    FindExactly(h.top, src);
    FindExactly(h.top, dst);
    WriteFound(h.top, dst, Void, src);
    if Cells(Content(h, src), dst) == 0 { WriteNowhere(Children(Content(h, src)), dst, Void); }
  }

  lemma CopyGood(h: Heap, dst: nat, src: nat)
    requires Good(h) && Allowed(h, CopyTo(dst, src))
    ensures Good(CopyStep(h, dst, src))
  {
    var h1 := CleanupStep(h, dst);
    CleanupGood(h, dst);
    SourceStays(h, dst, src);
    var v := Content(h1, src);
    FoundIsPart(h1.top, src);
    var (copy, n) := CopyTarget(v, dst, h1.next);
    forall d: nat ensures Cells(copy, d) == if h1.next <= d < n then 1 else 0 { CopyTargetCells(v, dst, h1.next, d); }
    forall r | Holds(copy, r) > 0 ensures HoldsIn(h1.top, r) > 0 { CopyTargetHolds(v, dst, h1.next, r); }
    CopyTargetCells(v, dst, h1.next, 0);
    FillGood(h1, dst, copy, n);
  }

  lemma AppendGood(h: Heap, dst: nat, key: Option<string>, src: nat)
    requires Good(h) && Allowed(h, Append(dst, key, src))
    ensures Good(AppendStep(h, dst, key, src))
  {
    hide Conserved, AppendStep;
    forall r ensures Conserved(AppendStep(h, dst, key, src), r) {
      AppendConserves(h, dst, key, src, r);
    }
    forall d: nat
      ensures CellsIn(AppendStep(h, dst, key, src).top, d) <= if d < AppendStep(h, dst, key, src).next then 1 else 0
    {
      AppendOwns(h, dst, key, src, d);
    }
  }

  lemma AppendConserves(h: Heap, dst: nat, key: Option<string>, src: nat, r: nat)
    requires Good(h) && Allowed(h, Append(dst, key, src))
    ensures Conserved(AppendStep(h, dst, key, src), r)
  {
    var (v, w) := (Content(h, src), Content(h, dst));
    var copy := Copy(v, h.next + 1).0;
    var e := Cell(h.next, key, copy);
    FindExactly(h.top, dst);
    FoundIsPart(h.top, src);
    assert [e][1..] == [];
    forall s | s in h.counts.live ensures h.counts.live[s] > 0 { assert Conserved(h, s); }
    assert Conserved(h, r);
    CopyHolds(v, h.next + 1, r);
    HoldsAppend(Children(w), [e], r);
    WriteHolds(h.top, dst, WithEntry(w, e), r);
    RaiseCounts(h.counts, copy, r);
  }

  lemma AppendOwns(h: Heap, dst: nat, key: Option<string>, src: nat, d: nat)
    requires Good(h) && Allowed(h, Append(dst, key, src))
    ensures var h1 := AppendStep(h, dst, key, src);
            CellsIn(h1.top, d) <= if d < h1.next then 1 else 0
  {
    var (v, w) := (Content(h, src), Content(h, dst));
    var e := Cell(h.next, key, Copy(v, h.next + 1).0);
    FindExactly(h.top, dst);
    assert [e][1..] == [];
    CopyCells(v, h.next + 1, d);
    CellsAppend(Children(w), [e], d);
    WriteCells(h.top, dst, WithEntry(w, e), d);
  }

  // What stands in an entry, and what is left without it.
  lemma RemovedEntry(es: seq<Entry>, i: nat, c: nat, r: nat)
    requires i < |es|
    ensures CellsIn(es, c) == CellsIn(es[i := Free], c) + CellsIn([es[i]], c)
    ensures HoldsIn(es, r) == HoldsIn(es[i := Free], r) + HoldsIn([es[i]], r)
  {
    var (front, back) := (es[..i], es[i + 1..]);
    assert es == front + ([es[i]] + back) && es[i := Free] == front + ([Free] + back);
    CellsAppend(front, [es[i]] + back, c);
    CellsAppend([es[i]], back, c);
    CellsAppend(front, [Free] + back, c);
    CellsAppend([Free], back, c);
    HoldsAppend(front, [es[i]] + back, r);
    HoldsAppend([es[i]], back, r);
    HoldsAppend(front, [Free] + back, r);
    HoldsAppend([Free], back, r);
  }

  lemma OneEntry(e: Entry, c: nat, r: nat)
    ensures CellsIn([e], c) == if e.Cell? then (if e.cell == c then 1 else 0) + Cells(e.value, c) else 0
    ensures HoldsIn([e], r) == if e.Cell? then Holds(e.value, r) else 0
  {
    assert [e][1..] == [];
  }

  lemma RemoveGood(h: Heap, dst: nat, index: nat)
    requires Good(h) && Allowed(h, Remove(dst, index))
    ensures Good(RemoveStep(h, dst, index))
  {
    var es := Content(h, dst).entries;
    var (e, x) := (es[index], Struct(es[index := Free]));
    FindExactly(h.top, dst);
    FoundIsPart(h.top, dst);
    forall s | s in h.counts.live ensures h.counts.live[s] > 0 { assert Conserved(h, s); }
    forall s ensures HoldsIn([e], s) <= CountOf(h.counts, s) {
      assert Conserved(h, s);
      RemovedEntry(es, index, 0, s);
    }
    forall r ensures Conserved(RemoveStep(h, dst, index), r) {
      assert Conserved(h, r);
      WriteHolds(h.top, dst, x, r);
      RemovedEntry(es, index, 0, r);
      OneEntry(e, 0, r);
      if e.Cell? {
        forall s ensures Holds(e.value, s) <= CountOf(h.counts, s) {
          OneEntry(e, 0, s);
          assert HoldsIn([e], s) <= CountOf(h.counts, s);
        }
        DropCounts(h.counts, e.value, r);
      }
    }
    forall d: nat ensures CellsIn(RemoveStep(h, dst, index).top, d) <= if d < h.next then 1 else 0 {
      WriteCells(h.top, dst, x, d);
      RemovedEntry(es, index, d, 0);
    }
  }

  lemma MethodGood(h: Heap, dst: nat, name: string, sig: string)
    requires Good(h) && Allowed(h, AddMethod(dst, name, sig))
    ensures Good(MethodStep(h, dst, name, sig))
  {
    var es := Content(h, dst).entries;
    var e := Method(name, sig);
    FindExactly(h.top, dst);
    forall r ensures Conserved(MethodStep(h, dst, name, sig), r) {
      assert Conserved(h, r);
      WriteHolds(h.top, dst, Struct(es + [e]), r);
      HoldsAppend(es, [e], r);
      OneEntry(e, 0, r);
    }
    forall d: nat ensures CellsIn(MethodStep(h, dst, name, sig).top, d) <= if d < h.next then 1 else 0 {
      WriteCells(h.top, dst, Struct(es + [e]), d);
      CellsAppend(es, [e], d);
      OneEntry(e, d, 0);
    }
  }

  lemma FreeGood(h: Heap, index: nat)
    requires Good(h) && Allowed(h, FreeCell(index))
    ensures Good(FreeStep(h, index))
  {
    var (e, front, back) := (h.top[index], h.top[..index], h.top[index + 1..]);
    assert h.top == front + ([e] + back);
    assert ([e] + back)[1..] == back;
    forall r ensures HoldsIn(h.top, r) == HoldsIn(front + back, r) + Holds(e.value, r) {
      HoldsAppend(front, [e] + back, r);
      HoldsAppend(front, back, r);
    }
    forall s ensures Holds(e.value, s) <= CountOf(h.counts, s) { assert Conserved(h, s); }
    forall s | s in h.counts.live ensures h.counts.live[s] > 0 { assert Conserved(h, s); }
    forall r ensures Conserved(FreeStep(h, index), r) {
      assert Conserved(h, r);
      DropCounts(h.counts, e.value, r);
    }
    forall c: nat ensures CellsIn(FreeStep(h, index).top, c) <= if c < h.next then 1 else 0 {
      CellsAppend(front, [e] + back, c);
      CellsAppend(front, back, c);
    }
  }

  lemma MakeGood(h: Heap, op: Operation)
    requires Good(h) && (op.Make? || op.MakeResource?) && Allowed(h, op)
    ensures Good(Step(h, op))
  {
    var v := if op.Make? then op.v else Res(h.made);
    var e := Cell(h.next, None, v);
    assert [e][1..] == [];
    forall r ensures Conserved(Step(h, op), r) {
      assert Conserved(h, r);
      HoldsAppend(h.top, [e], r);
    }
    forall c: nat ensures CellsIn(Step(h, op).top, c) <= if c < h.next + 1 then 1 else 0 {
      CellsAppend(h.top, [e], c);
    }
  }

  lemma StepGood(h: Heap, op: Operation)
    requires Good(h) && Allowed(h, op)
    ensures Good(Step(h, op))
  {
    hide Good;
    match op
    case Make(_) => MakeGood(h, op);
    case MakeResource => MakeGood(h, op);
    case CopyTo(dst, src) => CopyGood(h, dst, src);
    case Append(dst, key, src) => AppendGood(h, dst, key, src);
    case Cleanup(c) => CleanupGood(h, c);
    case Remove(dst, index) => RemoveGood(h, dst, index);
    case AddMethod(dst, name, sig) => MethodGood(h, dst, name, sig);
    case FreeCell(index) => FreeGood(h, index);
  }

  // ---- whole runs ----

  // A run takes only steps that are allowed where it stands.
  ghost predicate IsRun(h: Heap, ops: seq<Operation>, h1: Heap)
    decreases |ops|
  {
    if ops == [] then h1 == h else Allowed(h, ops[0]) && IsRun(Step(h, ops[0]), ops[1..], h1)
  }

  const EMPTY: Heap := Heap([], Counts(map[], []), 0, 0)

  lemma EmptyGood()
    ensures Good(EMPTY)
  {
  }

  lemma {:induction false} RunGood(h: Heap, ops: seq<Operation>, h1: Heap)
    requires Good(h) && IsRun(h, ops, h1)
    ensures Good(h1)
    decreases |ops|
  {
    if ops != [] {
      StepGood(h, ops[0]);
      RunGood(Step(h, ops[0]), ops[1..], h1);
    }
  }

  // Whatever is made, copied, overwritten and cleaned, each count is the number of cells that
  // hold the resource, and release runs once, when the last of them is gone.
  lemma Conservation(ops: seq<Operation>, h: Heap, r: nat)
    requires IsRun(EMPTY, ops, h)
    ensures CountOf(h.counts, r) == HoldsIn(h.top, r)
    ensures Releases(h.counts, r) == if r < h.made && HoldsIn(h.top, r) == 0 then 1 else 0
  {
    EmptyGood();
    RunGood(EMPTY, ops, h);
    assert Conserved(h, r);
  }

  // ---- copies are deep ----

  // The target comes to hold the source's shape, and the source what it held.
  lemma CopyIsSame(h: Heap, dst: nat, src: nat)
    requires Good(h) && Allowed(h, CopyTo(dst, src)) && Apart(h, dst, src)
    ensures IsCell(CopyStep(h, dst, src), dst)
    ensures SameShape(Content(h, src), Content(CopyStep(h, dst, src), dst))
    ensures Find(CopyStep(h, dst, src).top, src) == Find(h.top, src)
    ensures Apart(CopyStep(h, dst, src), dst, src)
  {
    var h1 := CleanupStep(h, dst);
    var v := Content(h, src);
    var (copy, n) := Copy(v, h1.next);
    CopyGood(h, dst, src);
    CleanupGood(h, dst);
    SourceStays(h, dst, src);
    CopyTargetApart(v, dst, h1.next);
    FindExactly(h.top, src);
    CopyCells(v, h1.next, src);
    CopyCells(v, h1.next, dst);
    CopyShape(v, h1.next);
    FindExactly(h1.top, src);
    FindExactly(h1.top, dst);
    WriteElsewhere(h1.top, dst, copy, src);
    WriteThere(h1.top, dst, copy);
  }

  // A cell that is another one or stands in it.
  predicate Within(h: Heap, c: nat, d: nat) {
    d == c || Cells(Content(h, c), d) > 0
  }

  // A step that writes within c or to a cell that has nothing to do with s, makes a new cell, frees
  // one that neither is s nor holds it, or adds to or takes from a cell that may hold s but does
  // not stand in it, and takes nothing with s in it.
  predicate Beside(h: Heap, op: Operation, c: nat, s: nat)
    requires Allowed(h, op)
  {
    match op
    case Make(_) => true
    case MakeResource => true
    case CopyTo(d, _) => Within(h, c, d) || Apart(h, d, s)
    case Append(d, _, _) => Within(h, c, d) || !Within(h, s, d)
    case AddMethod(d, _, _) => Within(h, c, d) || !Within(h, s, d)
    case Remove(d, i) =>
      Within(h, c, d) || (!Within(h, s, d) && CellsIn([Content(h, d).entries[i]], s) == 0)
    case Cleanup(d) => Within(h, c, d) || Apart(h, d, s)
    case FreeCell(i) => h.top[i].cell != s && Cells(h.top[i].value, s) == 0
  }

  // The cell s holds what it held, and has nothing to do with c, if c still exists.
  ghost predicate Parted(h: Heap, c: nat, s: nat, h1: Heap) {
    IsCell(h1, s) && Apart(h1, c, s) && Find(h1.top, s) == Find(h.top, s)
  }

  // Two cells that are apart have nothing in common.
  lemma {:induction false} PartsDisjoint(es: seq<Entry>, c: nat, s: nat, d: nat)
    requires CellsIn(es, c) == 1 && CellsIn(es, s) == 1 && c != s
    requires Find(es, c).Some? && Find(es, s).Some?
    requires Cells(Find(es, c).value, s) == 0 && Cells(Find(es, s).value, c) == 0
    ensures Cells(Find(es, c).value, d) + Cells(Find(es, s).value, d) <= CellsIn(es, d)
    decreases SizeIn(es)
  {
    hide Find, FindBelow, Cells, SizeIn, Size, SizeOf;
    var (rest, below) := (es[1..], Below(es));
    HeadFind(es, c);
    HeadFind(es, s);
    HeadCells(es, c);
    HeadCells(es, s);
    HeadCells(es, d);
    SizeBelow(es);
    FindExactly(below, c);
    FindExactly(below, s);
    FindExactly(rest, c);
    FindExactly(rest, s);
    if es[0].Cell? { CellsBelow(es[0].value, s); CellsBelow(es[0].value, c); CellsBelow(es[0].value, d); }
    if CellsIn(below, c) == 1 && CellsIn(below, s) == 1 {
      PartsDisjoint(below, c, s, d);
    } else if CellsIn(rest, c) == 1 && CellsIn(rest, s) == 1 {
      PartsDisjoint(rest, c, s, d);
    } else {
      if CellsIn(below, c) == 1 { FoundIsPart(below, c); }
      if CellsIn(below, s) == 1 { FoundIsPart(below, s); }
      if CellsIn(rest, c) == 1 { FoundIsPart(rest, c); }
      if CellsIn(rest, s) == 1 { FoundIsPart(rest, s); }
    }
  }

  // What stands within one of two cells that are apart is apart from the other, and does not hold
  // the one it stands in.
  lemma WithinApart(h: Heap, c: nat, s: nat, d: nat)
    requires Good(h) && IsCell(h, s) && Apart(h, c, s) && IsCell(h, d) && Within(h, c, d)
    ensures IsCell(h, c) && Apart(h, d, s)
    ensures d != c ==> Cells(Content(h, d), c) == 0 && Cells(Content(h, c), d) == 1
  {
    var v := Content(h, c);
    FindExactly(h.top, c);
    FindExactly(h.top, s);
    FindExactly(h.top, d);
    PartsDisjoint(h.top, c, s, d);
    FoundIsPart(h.top, c);
    OwnCell(h.top, c);
    if d != c {
      FindNested(h.top, c, d);
      FindExactly(Children(v), d);
      FoundIsPart(Children(v), d);
    }
  }

  lemma WriteApart(h: Heap, c: nat, s: nat, d: nat, x: Value, h1: Heap)
    requires Good(h) && IsCell(h, s) && Apart(h, c, s) && IsCell(h, d)
    requires Within(h, c, d) || Apart(h, d, s)
    requires Cells(x, s) == 0
    requires h1.top == Write(h.top, d, x) && Good(h1)
    ensures Parted(h, c, s, h1)
  {
    FindExactly(h.top, c);
    FindExactly(h.top, s);
    FindExactly(h.top, d);
    FindExactly(h1.top, c);
    if Within(h, c, d) { WithinApart(h, c, s, d); }
    WriteElsewhere(h.top, d, x, s);
    WriteThere(h.top, d, x);
    if d != c && IsCell(h1, c) {
      WriteCells(h.top, d, x, c);
      if Cells(x, c) > 0 {
        FindNested(h1.top, d, c);
        FoundIsPart(Children(x), c);
      } else {
        WriteFound(h.top, d, x, c);
        ChangedBelow(Content(h, c), d, x, s);
      }
    }
  }

  // A write brings no cell that is not in what is written.
  lemma ChangedBelow(v: Value, d: nat, x: Value, s: nat)
    requires Cells(v, d) <= 1 && Cells(v, s) == 0 && Cells(x, s) == 0
    ensures Cells(WriteBelow(v, d, x), s) == 0
  {
    if Cells(v, d) == 1 { WriteCells(Children(v), d, x, s); } else { WriteNowhere(Children(v), d, x); }
  }

  // No step beside another cell touches it.
  lemma StepApart(h: Heap, op: Operation, c: nat, s: nat)
    requires Good(h) && IsCell(h, s) && Apart(h, c, s)
    requires Allowed(h, op) && Beside(h, op, c, s)
    ensures Parted(h, c, s, Step(h, op))
  {
    hide Good;
    StepGood(h, op);
    match op
    case Make(_) => NewApart(h, c, s, Step(h, op).top[|h.top|], Step(h, op));
    case MakeResource => NewApart(h, c, s, Step(h, op).top[|h.top|], Step(h, op));
    case CopyTo(d, src) => CopyToApart(h, c, s, d, src);
    case Append(d, key, src) => AppendApart(h, c, s, d, key, src);
    case AddMethod(d, name, sig) => MethodApart(h, c, s, d, name, sig);
    case Remove(d, i) => RemoveApart(h, c, s, d, i);
    case Cleanup(d) => WriteApart(h, c, s, d, Void, CleanupStep(h, d));
    case FreeCell(i) => FreeApart(h, c, s, i);
  }

  lemma CopyToApart(h: Heap, c: nat, s: nat, d: nat, src: nat)
    requires Good(h) && IsCell(h, s) && Apart(h, c, s)
    requires Allowed(h, CopyTo(d, src)) && Beside(h, CopyTo(d, src), c, s) && Good(CopyStep(h, d, src))
    ensures Parted(h, c, s, CopyStep(h, d, src))
  {
    var v := Content(CleanupStep(h, d), src);
    FindExactly(h.top, s);
    CopyTargetCells(v, d, h.next, s);
    WriteTwice(h.top, d, Void, CopyTarget(v, d, h.next).0);
    WriteApart(h, c, s, d, CopyTarget(v, d, h.next).0, CopyStep(h, d, src));
  }

  // A change to a cell that holds s, but not to s, leaves s as it was.
  lemma HolderApart(h: Heap, c: nat, s: nat, d: nat, x: Value, h1: Heap)
    requires Good(h) && Good(h1) && IsCell(h, s) && IsCell(h, d) && Apart(h, c, s)
    requires !Within(h, s, d) && Cells(Content(h, d), s) > 0
    requires h1.top == Write(h.top, d, x)
    requires FindBelow(x, s) == FindBelow(Content(h, d), s)
    requires FindBelow(x, c).Some? ==>
               FindBelow(x, c) == FindBelow(Content(h, d), c) || Cells(FindBelow(x, c).value, s) == 0
    ensures Parted(h, c, s, h1)
  {
    var w := Content(h, d);
    FindExactly(h.top, d);
    FindExactly(h.top, s);
    FindExactly(h.top, c);
    FindExactly(h1.top, s);
    FindExactly(h1.top, c);
    WriteThere(h.top, d, x);
    FindNested(h.top, d, s);
    FindExactly(Children(w), s);
    FindExactly(Children(x), s);
    FindNested(h1.top, d, s);
    WriteCells(h.top, d, x, s);
    FindExactly(Children(w), c);
    FindExactly(Children(x), c);
    if IsCell(h1, c) {
      if Cells(x, c) > 0 {
        FindNested(h1.top, d, c);
        if FindBelow(x, c) == FindBelow(w, c) { FindNested(h.top, d, c); }
      } else {
        WriteCells(h.top, d, x, c);
        if Cells(Content(h, c), d) > 0 {
          FindNested(h.top, c, d);
          FoundIsPart(Children(Content(h, c)), d);
        }
        WriteElsewhere(h.top, d, x, c);
      }
    }
  }

  lemma AppendApart(h: Heap, c: nat, s: nat, d: nat, key: Option<string>, src: nat)
    requires Good(h) && IsCell(h, s) && Apart(h, c, s)
    requires Allowed(h, Append(d, key, src)) && Beside(h, Append(d, key, src), c, s) && Good(AppendStep(h, d, key, src))
    ensures Parted(h, c, s, AppendStep(h, d, key, src))
  {
    var e := Cell(h.next, key, Copy(Content(h, src), h.next + 1).0);
    FindExactly(h.top, s);
    CopyCells(Content(h, src), h.next + 1, s);
    OneEntry(e, s, 0);
    AddApart(h, c, s, d, e, AppendStep(h, d, key, src));
  }

  lemma MethodApart(h: Heap, c: nat, s: nat, d: nat, name: string, sig: string)
    requires Good(h) && IsCell(h, s) && Apart(h, c, s)
    requires Allowed(h, AddMethod(d, name, sig)) && Beside(h, AddMethod(d, name, sig), c, s)
    requires Good(MethodStep(h, d, name, sig))
    ensures Parted(h, c, s, MethodStep(h, d, name, sig))
  {
    OneEntry(Method(name, sig), s, 0);
    AddApart(h, c, s, d, Method(name, sig), MethodStep(h, d, name, sig));
  }

  // Adding an entry without s in it.
  lemma AddApart(h: Heap, c: nat, s: nat, d: nat, e: Entry, h1: Heap)
    requires Good(h) && IsCell(h, s) && Apart(h, c, s) && IsCell(h, d) && Good(h1)
    requires Within(h, c, d) || !Within(h, s, d)
    requires (Content(h, d).Arr? || Content(h, d).Struct?) && CellsIn([e], s) == 0
    requires h1.top == Write(h.top, d, WithEntry(Content(h, d), e))
    ensures Parted(h, c, s, h1)
  {
    var w := Content(h, d);
    CellsAppend(Children(w), [e], s);
    if Within(h, c, d) { WithinApart(h, c, s, d); }
    if Cells(w, s) > 0 {
      FindAppend(Children(w), [e], s);
      FindAppend(Children(w), [e], c);
      FindExactly(Children(w), s);
      if Find([e], c).Some? { FoundIsPart([e], c); }
      HolderApart(h, c, s, d, WithEntry(w, e), h1);
    } else {
      WriteApart(h, c, s, d, WithEntry(w, e), h1);
    }
  }

  lemma RemoveApart(h: Heap, c: nat, s: nat, d: nat, i: nat)
    requires Good(h) && IsCell(h, s) && Apart(h, c, s)
    requires Allowed(h, Remove(d, i)) && Beside(h, Remove(d, i), c, s) && Good(RemoveStep(h, d, i))
    ensures Parted(h, c, s, RemoveStep(h, d, i))
  {
    var es := Content(h, d).entries;
    RemovedEntry(es, i, s, 0);
    if Within(h, c, d) { WithinApart(h, c, s, d); }
    if Cells(Struct(es), s) > 0 {
      FindExactly(h.top, s);
      FoundIsPart(h.top, d);
      assert CellsIn(es, c) == Cells(Content(h, d), c) <= CellsIn(h.top, c) <= 1;
      FindRemoved(es, i, s);
      FindRemoved(es, i, c);
      HolderApart(h, c, s, d, Struct(es[i := Free]), RemoveStep(h, d, i));
    } else {
      WriteApart(h, c, s, d, Struct(es[i := Free]), RemoveStep(h, d, i));
    }
  }

  // Without an entry, what stood in it is gone and all else is found as before.
  lemma FindRemoved(es: seq<Entry>, i: nat, c: nat)
    requires i < |es|
    ensures CellsIn([es[i]], c) == 0 ==> Find(es[i := Free], c) == Find(es, c)
    ensures CellsIn([es[i]], c) > 0 && CellsIn(es, c) <= 1 ==> Find(es[i := Free], c) == None
  {
    var (front, back) := (es[..i], es[i + 1..]);
    assert es == front + ([es[i]] + back) && es[i := Free] == front + ([Free] + back);
    FindAppend(front, [es[i]] + back, c);
    FindAppend([es[i]], back, c);
    FindAppend(front, [Free] + back, c);
    FindAppend([Free], back, c);
    FindExactly([es[i]], c);
    FindExactly(es[i := Free], c);
    RemovedEntry(es, i, c, 0);
    assert Find([Free], c) == None by { assert [Free][1..] == []; }
  }

  lemma {:induction false} FindAppend(es: seq<Entry>, fs: seq<Entry>, c: nat)
    ensures Find(es + fs, c) == if Find(es, c).Some? then Find(es, c) else Find(fs, c)
    decreases es
  {
    if es == [] { assert es + fs == fs; } else {
      FindAppend(es[1..], fs, c);
      assert (es + fs)[0] == es[0] && (es + fs)[1..] == es[1..] + fs;
    }
  }

  lemma NewApart(h: Heap, c: nat, s: nat, e: Entry, h1: Heap)
    requires IsCell(h, s) && Apart(h, c, s) && e.Cell? && Children(e.value) == [] && h1.top == h.top + [e]
    ensures Parted(h, c, s, h1)
  {
    FindAppend(h.top, [e], c);
    FindAppend(h.top, [e], s);
    assert [e][1..] == [];
    assert Cells(e.value, s) == 0 && FindBelow(e.value, c) == None;
  }

  lemma FreeApart(h: Heap, c: nat, s: nat, i: nat)
    requires Good(h) && IsCell(h, s) && Apart(h, c, s)
    requires Allowed(h, FreeCell(i)) && Beside(h, FreeCell(i), c, s)
    ensures Parted(h, c, s, FreeStep(h, i))
  {
    var (e, front, back) := (h.top[i], h.top[..i], h.top[i + 1..]);
    assert h.top == front + ([e] + back);
    assert ([e] + back)[1..] == back;
    forall d | d == c || d == s
      ensures Find(FreeStep(h, i).top, d) == Find(h.top, d) || (d == c && !IsCell(FreeStep(h, i), d))
    {
      FindAppend(front, [e] + back, d);
      FindAppend(front, back, d);
      FindExactly(Children(e.value), d);
      CellsAppend(front, [e] + back, d);
      CellsAppend(front, back, d);
      FindExactly(front + back, d);
    }
  }

  ghost predicate IsRunBeside(h: Heap, ops: seq<Operation>, c: nat, s: nat, h1: Heap)
    decreases |ops|
  {
    if ops == [] then h1 == h
    else Allowed(h, ops[0]) && Beside(h, ops[0], c, s) && IsRunBeside(Step(h, ops[0]), ops[1..], c, s, h1)
  }

  lemma {:induction false} RunApart(h: Heap, ops: seq<Operation>, c: nat, s: nat, h1: Heap)
    requires Good(h) && IsCell(h, s) && Apart(h, c, s)
    requires IsRunBeside(h, ops, c, s, h1)
    ensures Parted(h, c, s, h1)
    decreases |ops|
  {
    if ops != [] {
      StepApart(h, ops[0], c, s);
      StepGood(h, ops[0]);
      RunApart(Step(h, ops[0]), ops[1..], c, s, h1);
    }
  }

  // Once copied, the two are apart for good.  However the copy is used, copied from, added to,
  // overwritten, cleaned and freed, at any depth and among whatever happens elsewhere, the source
  // holds what it held; and the same holds for the copy whatever is done to the source.
  lemma CopyIsApart(h: Heap, dst: nat, src: nat, ops: seq<Operation>, h1: Heap)
    requires Good(h) && Allowed(h, CopyTo(dst, src)) && Apart(h, dst, src)
    ensures IsRunBeside(CopyStep(h, dst, src), ops, dst, src, h1) ==>
              Apart(h1, dst, src) && IsCell(h1, src) && Find(h1.top, src) == Find(h.top, src)
    ensures IsRunBeside(CopyStep(h, dst, src), ops, src, dst, h1) ==>
              Apart(h1, src, dst) && IsCell(h1, dst) && SameShape(Content(h, src), Content(h1, dst))
  {
    var h0 := CopyStep(h, dst, src);
    CopyIsSame(h, dst, src);
    CopyGood(h, dst, src);
    if IsRunBeside(h0, ops, dst, src, h1) { RunApart(h0, ops, dst, src, h1); }
    if IsRunBeside(h0, ops, src, dst, h1) { RunApart(h0, ops, src, dst, h1); }
  }
}
