/** Values as nests of cells.  Every cell has a number that no other cell has, so that what is
    shared, and what an update reaches, can be seen (libintend/libruntime/value_copy.c). */
module HeapValues {
  import opened Wrappers

  // The entries of an array are cells, with or without a key; the slots of the table behind a
  // struct may also hold methods, classes or nothing.
  datatype Value =
    | Void
    | Bool(b: bool)
    | Int(i: int)
    | Str(s: string)
    | Arr(entries: seq<Entry>)
    | Struct(entries: seq<Entry>)
    | Fn(sig: string)
    | Res(resource: nat)

  datatype Entry =
    | Cell(cell: nat, key: Option<string>, value: Value)
    | Method(name: string, sig: string)
    | Class(name: string)
    | Free

  function Children(v: Value): seq<Entry> {
    if v.Arr? || v.Struct? then v.entries else []
  }

  // How much there is of a value, for recursion.
  function Size(v: Value): nat
    decreases v, 0
  {
    if v.Arr? || v.Struct? then 1 + SizeIn(v.entries) else 0
  }

  function SizeIn(es: seq<Entry>): nat
    decreases es, 0
  {
    if es == [] then 0 else 1 + SizeOf(es[0]) + SizeIn(es[1..])
  }

  function SizeOf(e: Entry): (n: nat)
    ensures e.Cell? ==> Size(e.value) <= n
    decreases e, 0
  {
    if e.Cell? then Size(e.value) else 0
  }

  // How often a cell stands below.
  function Cells(v: Value, c: nat): nat
    decreases Size(v), 0
  {
    if v.Arr? || v.Struct? then CellsIn(v.entries, c) else 0
  }

  function CellsIn(es: seq<Entry>, c: nat): nat
    decreases SizeIn(es), 1
  {
    if es == [] then 0
    else (if es[0].Cell? then (if es[0].cell == c then 1 else 0) + Cells(es[0].value, c) else 0) + CellsIn(es[1..], c)
  }

  // How many cells hold a resource.
  function Holds(v: Value, r: nat): nat
    decreases Size(v), 0
  {
    if v.Arr? || v.Struct? then HoldsIn(v.entries, r) else if v == Res(r) then 1 else 0
  }

  function HoldsIn(es: seq<Entry>, r: nat): nat
    decreases SizeIn(es), 1
  {
    if es == [] then 0 else (if es[0].Cell? then Holds(es[0].value, r) else 0) + HoldsIn(es[1..], r)
  }

  // What a cell holds.
  function Find(es: seq<Entry>, c: nat): Option<Value>
    decreases SizeIn(es), 1
  {
    if es == [] then None
    else if es[0].Cell? && es[0].cell == c then Some(es[0].value)
    else if es[0].Cell? && FindBelow(es[0].value, c).Some? then FindBelow(es[0].value, c)
    else Find(es[1..], c)
  }

  function FindBelow(v: Value, c: nat): Option<Value>
    decreases Size(v), 0
  {
    if v.Arr? || v.Struct? then Find(v.entries, c) else None
  }

  // The same cells after something is written to one of them.
  function Write(es: seq<Entry>, c: nat, x: Value): seq<Entry>
    decreases SizeIn(es), 1
  {
    if es == [] then []
    else if !es[0].Cell? then [es[0]] + Write(es[1..], c, x)
    else [es[0].(value := if es[0].cell == c then x else WriteBelow(es[0].value, c, x))] + Write(es[1..], c, x)
  }

  function WriteBelow(v: Value, c: nat, x: Value): Value
    decreases Size(v), 0
  {
    match v
    case Arr(es) => Arr(Write(es, c, x))
    case Struct(es) => Struct(Write(es, c, x))
    case _ => v
  }

  // ---- copying ----

  // A copy's cells are numbered from n on; the number after the last one is returned too.
  // Class entries of a struct are left out, which leaves their slot free.
  function Copy(v: Value, n: nat): (Value, nat)
    decreases Size(v), 0
  {
    match v
    case Arr(es) => (Arr(CopyIn(es, n).0), CopyIn(es, n).1)
    case Struct(es) => (Struct(CopyIn(es, n).0), CopyIn(es, n).1)
    case _ => (v, n)
  }

  function CopyIn(es: seq<Entry>, n: nat): (seq<Entry>, nat)
    decreases SizeIn(es), 1
  {
    if es == [] then ([], n)
    else if es[0].Cell? then
      var (x, n1) := Copy(es[0].value, n + 1);
      var (rest, n2) := CopyIn(es[1..], n1);
      ([Cell(n, es[0].key, x)] + rest, n2)
    else
      var (rest, n2) := CopyIn(es[1..], n);
      ([if es[0].Class? then Free else es[0]] + rest, n2)
  }

  // An array is copied into a cell entry by entry.  If the cell stands in the array itself, an
  // entry is copied with what the cell has got so far.
  function CopyInto(es: seq<Entry>, dst: nat, done: seq<Entry>, n: nat): (seq<Entry>, nat)
    decreases |es|
  {
    if es == [] then (done, n)
    else if es[0].Cell? then
      var (x, n1) := Copy(Written(es[0], dst, Arr(done)).value, n + 1);
      CopyInto(es[1..], dst, done + [Cell(n, es[0].key, x)], n1)
    else CopyInto(es[1..], dst, done + [if es[0].Class? then Free else es[0]], n)
  }

  function CopyTarget(v: Value, dst: nat, n: nat): (Value, nat) {
    match v
    case Arr(es) => (Arr(CopyInto(es, dst, [], n).0), CopyInto(es, dst, [], n).1)
    case _ => Copy(v, n)
  }

  // The same contents in the same order under the same keys, but for classes.
  predicate SameShape(v: Value, w: Value)
    decreases Size(v), 0
  {
    match v
    case Arr(es) => w.Arr? && SameShapes(es, w.entries)
    case Struct(es) => w.Struct? && SameShapes(es, w.entries)
    case _ => v == w
  }

  predicate SameShapes(es: seq<Entry>, fs: seq<Entry>)
    decreases SizeIn(es), 1
  {
    |es| == |fs| && (es != [] ==>
      (match es[0]
       case Cell(_, key, x) => fs[0].Cell? && fs[0].key == key && SameShape(x, fs[0].value)
       case Class(_) => fs[0] == Free
       case _ => fs[0] == es[0])
      && SameShapes(es[1..], fs[1..]))
  }

  lemma {:induction false} CopyShape(v: Value, n: nat)
    ensures SameShape(v, Copy(v, n).0)
    decreases Size(v), 0
  {
    if v.Arr? || v.Struct? { CopyShapes(v.entries, n); }
  }

  lemma {:induction false} CopyShapes(es: seq<Entry>, n: nat)
    ensures SameShapes(es, CopyIn(es, n).0)
    decreases SizeIn(es), 1
  {
    if es != [] {
      if es[0].Cell? {
        CopyShape(es[0].value, n + 1);
        CopyShapes(es[1..], Copy(es[0].value, n + 1).1);
      } else {
        CopyShapes(es[1..], n);
      }
    }
  }

  // The cells of a copy are new, each stands in it once, and it holds the same resources.
  lemma {:induction false} CopyCells(v: Value, n: nat, c: nat)
    ensures n <= Copy(v, n).1
    ensures Cells(Copy(v, n).0, c) == if n <= c < Copy(v, n).1 then 1 else 0
    decreases Size(v), 0
  {
    if v.Arr? || v.Struct? { CopyCellsIn(v.entries, n, c); }
  }

  lemma {:induction false} CopyCellsIn(es: seq<Entry>, n: nat, c: nat)
    ensures n <= CopyIn(es, n).1
    ensures CellsIn(CopyIn(es, n).0, c) == if n <= c < CopyIn(es, n).1 then 1 else 0
    decreases SizeIn(es), 1
  {
    if es != [] {
      if es[0].Cell? {
        CopyCells(es[0].value, n + 1, c);
        CopyCellsIn(es[1..], Copy(es[0].value, n + 1).1, c);
      } else {
        CopyCellsIn(es[1..], n, c);
      }
    }
  }

  lemma {:induction false} CopyHolds(v: Value, n: nat, r: nat)
    ensures Holds(Copy(v, n).0, r) == Holds(v, r)
    decreases Size(v), 0
  {
    if v.Arr? || v.Struct? { CopyHoldsIn(v.entries, n, r); }
  }

  lemma {:induction false} CopyHoldsIn(es: seq<Entry>, n: nat, r: nat)
    ensures HoldsIn(CopyIn(es, n).0, r) == HoldsIn(es, r)
    decreases SizeIn(es), 1
  {
    if es != [] {
      if es[0].Cell? {
        CopyHolds(es[0].value, n + 1, r);
        CopyHoldsIn(es[1..], Copy(es[0].value, n + 1).1, r);
      } else {
        CopyHoldsIn(es[1..], n, r);
      }
    }
  }

  // ---- writing to a cell ----

  // The head and the rest.
  lemma HeadCells(es: seq<Entry>, c: nat)
    requires es != []
    ensures CellsIn(es, c) == (if es[0].Cell? && es[0].cell == c then 1 else 0) + CellsIn(Below(es), c) + CellsIn(es[1..], c)
  {
  }

  lemma HeadFind(es: seq<Entry>, c: nat)
    requires es != []
    ensures Find(es, c) ==
              if es[0].Cell? && es[0].cell == c then Some(es[0].value)
              else if Find(Below(es), c).Some? then Find(Below(es), c)
              else Find(es[1..], c)
  {
  }

  lemma HeadWrite(es: seq<Entry>, c: nat, x: Value)
    requires es != []
    ensures Write(es, c, x) != [] && Write(es, c, x)[1..] == Write(es[1..], c, x)
    ensures Write(es, c, x)[0].Cell? == es[0].Cell?
    ensures es[0].Cell? ==> Write(es, c, x)[0].cell == es[0].cell && Write(es, c, x)[0].key == es[0].key
    ensures es[0].Cell? && es[0].cell == c ==> Write(es, c, x)[0].value == x
    ensures !(es[0].Cell? && es[0].cell == c) ==> Below(Write(es, c, x)) == Write(Below(es), c, x)
    ensures es[0].Cell? && es[0].cell != c ==> Write(es, c, x)[0].value == WriteBelow(es[0].value, c, x)
  {
    assert Write(es, c, x)[1..] == Write(es[1..], c, x);
  }

  function Below(es: seq<Entry>): seq<Entry> {
    if es != [] && es[0].Cell? then Children(es[0].value) else []
  }

  lemma CellsBelow(v: Value, c: nat)
    ensures Cells(v, c) == CellsIn(Children(v), c)
  {
  }

  lemma SizeBelow(es: seq<Entry>)
    requires es != []
    ensures SizeIn(Below(es)) < SizeIn(es) && SizeIn(es[1..]) < SizeIn(es)
  {
  }

  lemma {:induction false} FindExactly(es: seq<Entry>, c: nat)
    ensures Find(es, c).Some? <==> CellsIn(es, c) > 0
    decreases SizeIn(es)
  {
    if es != [] {
      if es[0].Cell? && (es[0].value.Arr? || es[0].value.Struct?) { FindExactly(es[0].value.entries, c); }
      FindExactly(es[1..], c);
    }
  }

  lemma {:induction false} WriteNowhere(es: seq<Entry>, c: nat, x: Value)
    requires CellsIn(es, c) == 0
    ensures Write(es, c, x) == es
    decreases SizeIn(es)
  {
    if es != [] {
      if es[0].Cell? && (es[0].value.Arr? || es[0].value.Struct?) { WriteNowhere(es[0].value.entries, c, x); }
      WriteNowhere(es[1..], c, x);
    }
  }

  // A write takes away what the cell held and brings what is written.
  lemma {:induction false} WriteHolds(es: seq<Entry>, c: nat, x: Value, r: nat)
    requires CellsIn(es, c) == 1
    ensures Find(es, c).Some?
    ensures HoldsIn(Write(es, c, x), r) + Holds(Find(es, c).value, r) == HoldsIn(es, r) + Holds(x, r)
    decreases SizeIn(es)
  {
    FindExactly(es, c);
    var rest := es[1..];
    if !es[0].Cell? {
      WriteHolds(rest, c, x, r);
    } else if es[0].cell == c {
      WriteNowhere(rest, c, x);
    } else if CellsIn(rest, c) == 1 {
      FindExactly(Children(es[0].value), c);
      WriteNowhere(Children(es[0].value), c, x);
      WriteHolds(rest, c, x, r);
    } else {
      WriteHolds(es[0].value.entries, c, x, r);
      WriteNowhere(rest, c, x);
    }
  }

  lemma {:induction false} WriteCells(es: seq<Entry>, c: nat, x: Value, d: nat)
    requires CellsIn(es, c) == 1
    ensures Find(es, c).Some?
    ensures CellsIn(Write(es, c, x), d) + Cells(Find(es, c).value, d) == CellsIn(es, d) + Cells(x, d)
    decreases SizeIn(es)
  {
    hide Find, FindBelow, Write, WriteBelow, Cells, SizeIn, Size, SizeOf;
    FindExactly(es, c);
    var (rest, below) := (es[1..], Below(es));
    FindExactly(below, c);
    HeadFind(es, c);
    HeadWrite(es, c, x);
    HeadCells(es, c);
    HeadCells(es, d);
    HeadCells(Write(es, c, x), d);
    CellsBelow(Find(es, c).value, d);
    CellsBelow(x, d);
    SizeBelow(es);
    if es[0].Cell? && es[0].cell == c {
      WriteNowhere(rest, c, x);
    } else if CellsIn(rest, c) == 1 {
      WriteNowhere(below, c, x);
      WriteCells(rest, c, x, d);
      CellsBelow(Find(rest, c).value, d);
    } else {
      WriteCells(below, c, x, d);
      CellsBelow(Find(below, c).value, d);
      WriteNowhere(rest, c, x);
    }
  }

  // What a cell holds is part of the whole.
  lemma {:induction false} FoundIsPart(es: seq<Entry>, c: nat)
    requires Find(es, c).Some?
    ensures forall r :: Holds(Find(es, c).value, r) <= HoldsIn(es, r)
    ensures forall d :: Cells(Find(es, c).value, d) <= CellsIn(es, d)
    decreases SizeIn(es)
  {
    if es[0].Cell? && es[0].cell == c {
    } else if es[0].Cell? && FindBelow(es[0].value, c).Some? {
      FoundIsPart(es[0].value.entries, c);
    } else {
      FoundIsPart(es[1..], c);
    }
  }

  // What a cell holds after a write to another one that it does not stand in.
  lemma {:induction false} WriteFound(es: seq<Entry>, d: nat, x: Value, s: nat)
    requires CellsIn(es, s) == 1 && CellsIn(es, d) == 1 && s != d
    requires Find(es, s).Some? && Find(es, d).Some? && Cells(Find(es, d).value, s) == 0
    requires Cells(x, s) == 0
    ensures Find(Write(es, d, x), s) == Some(WriteBelow(Find(es, s).value, d, x))
    decreases SizeIn(es)
  {
    hide Find, FindBelow, Write, WriteBelow, Cells, SizeIn, Size, SizeOf;
    var (rest, below, es1) := (es[1..], Below(es), Write(es, d, x));
    HeadFind(es, s);
    HeadFind(es, d);
    HeadWrite(es, d, x);
    HeadFind(es1, s);
    HeadCells(es, s);
    HeadCells(es, d);
    FindExactly(below, s);
    FindExactly(below, d);
    FindExactly(Below(es1), s);
    SizeBelow(es);
    CellsBelow(Find(es, d).value, s);
    CellsBelow(x, s);
    if es[0].Cell? && es[0].cell == s {
    } else if CellsIn(below, s) == 1 {
      if CellsIn(below, d) == 1 {
        WriteFound(below, d, x, s);
      } else {
        WriteNowhere(below, d, x);
        NowhereBelow(es, below, s, d, x);
      }
    } else if es[0].Cell? && es[0].cell == d {
      WriteNowhere(rest, d, x);
      NowhereBelow(es, rest, s, d, x);
    } else if CellsIn(below, d) == 1 {
      WriteCells(below, d, x, s);
      WriteNowhere(rest, d, x);
      NowhereBelow(es, rest, s, d, x);
    } else {
      WriteNowhere(below, d, x);
      WriteFound(rest, d, x, s);
    }
  }

  // Where a cell does not stand, nothing that is found holds it.
  lemma NowhereBelow(es: seq<Entry>, part: seq<Entry>, s: nat, d: nat, x: Value)
    requires CellsIn(part, d) == 0 && Find(part, s).Some? && Find(es, s) == Find(part, s)
    ensures WriteBelow(Find(es, s).value, d, x) == Find(es, s).value
  {
    FoundIsPart(part, s);
    var v := Find(part, s).value;
    assert Cells(v, d) == 0;
    WriteNowhere(Children(v), d, x);
  }

  // A write reaches only what holds the cell or stands in it.
  lemma WriteElsewhere(es: seq<Entry>, d: nat, x: Value, s: nat)
    requires CellsIn(es, s) == 1 && CellsIn(es, d) == 1 && s != d
    requires Find(es, s).Some? && Cells(Find(es, s).value, d) == 0
    requires Find(es, d).Some? && Cells(Find(es, d).value, s) == 0
    requires Cells(x, s) == 0
    ensures Find(Write(es, d, x), s) == Find(es, s)
  {
    WriteFound(es, d, x, s);
    WriteNowhere(Children(Find(es, s).value), d, x);
  }

  // Of two writes to a cell the second counts.
  lemma {:induction false} WriteTwice(es: seq<Entry>, d: nat, x: Value, y: Value)
    requires Cells(x, d) == 0
    ensures Write(Write(es, d, x), d, y) == Write(es, d, y)
    decreases SizeIn(es)
  {
    if es != [] {
      WriteTwice(es[1..], d, x, y);
      if es[0].Cell? && es[0].cell != d { WriteTwice(Below(es), d, x, y); }
      assert Write(es, d, x)[1..] == Write(es[1..], d, x);
    }
  }

  lemma {:induction false} WriteAt(es: seq<Entry>, d: nat, x: Value, i: nat)
    requires i < |es|
    ensures |Write(es, d, x)| == |es|
    ensures Write(es, d, x)[i] == Written(es[i], d, x)
    decreases |es|
  {
    if i > 0 { WriteAt(es[1..], d, x, i - 1); } else if |es| > 1 { WriteAt(es[1..], d, x, 0); }
  }

  function Written(e: Entry, d: nat, x: Value): Entry {
    if !e.Cell? then e else e.(value := if e.cell == d then x else WriteBelow(e.value, d, x))
  }

  // A cell inside another is found in what the other holds.
  lemma {:induction false} FindNested(es: seq<Entry>, c: nat, d: nat)
    requires Find(es, c).Some? && CellsIn(es, d) <= 1 && Cells(Find(es, c).value, d) > 0
    ensures Find(es, d) == FindBelow(Find(es, c).value, d)
    decreases SizeIn(es)
  {
    var below := if es[0].Cell? then Children(es[0].value) else [];
    FindExactly(below, d);
    if es[0].Cell? && es[0].cell == c {
    } else if es[0].Cell? && FindBelow(es[0].value, c).Some? {
      FoundIsPart(below, c);
      FindNested(below, c, d);
    } else {
      FoundIsPart(es[1..], c);
      FindNested(es[1..], c, d);
    }
  }

  lemma {:induction false} CellsAppend(es: seq<Entry>, fs: seq<Entry>, c: nat)
    ensures CellsIn(es + fs, c) == CellsIn(es, c) + CellsIn(fs, c)
    decreases es
  {
    if es == [] { assert es + fs == fs; } else {
      CellsAppend(es[1..], fs, c);
      assert (es + fs)[0] == es[0] && (es + fs)[1..] == es[1..] + fs;
    }
  }

  lemma {:induction false} HoldsAppend(es: seq<Entry>, fs: seq<Entry>, r: nat)
    ensures HoldsIn(es + fs, r) == HoldsIn(es, r) + HoldsIn(fs, r)
    decreases es
  {
    if es == [] { assert es + fs == fs; } else {
      HoldsAppend(es[1..], fs, r);
      assert (es + fs)[0] == es[0] && (es + fs)[1..] == es[1..] + fs;
    }
  }

  lemma {:induction false} WriteThere(es: seq<Entry>, c: nat, x: Value)
    requires CellsIn(es, c) == 1
    ensures Find(Write(es, c, x), c) == Some(x)
    decreases SizeIn(es)
  {
    hide Find, FindBelow, Write, WriteBelow, Cells, SizeIn, Size, SizeOf;
    var below := Below(es);
    HeadCells(es, c);
    HeadWrite(es, c, x);
    HeadFind(Write(es, c, x), c);
    SizeBelow(es);
    if es[0].Cell? && es[0].cell == c {
    } else if CellsIn(below, c) == 1 {
      WriteThere(below, c, x);
    } else {
      WriteNowhere(below, c, x);
      FindExactly(below, c);
      WriteThere(es[1..], c, x);
    }
  }

  // ---- copying into a cell ----

  lemma {:induction false} CopyIntoCells(es: seq<Entry>, dst: nat, done: seq<Entry>, n: nat, c: nat)
    ensures n <= CopyInto(es, dst, done, n).1
    ensures CellsIn(CopyInto(es, dst, done, n).0, c)
         == CellsIn(done, c) + if n <= c < CopyInto(es, dst, done, n).1 then 1 else 0
    decreases |es|
  {
    if es != [] {
      if es[0].Cell? {
        var (x, n1) := Copy(Written(es[0], dst, Arr(done)).value, n + 1);
        var e := Cell(n, es[0].key, x);
        CopyCells(Written(es[0], dst, Arr(done)).value, n + 1, c);
        CellsAppend(done, [e], c);
        assert [e][1..] == [];
        CopyIntoCells(es[1..], dst, done + [e], n1, c);
      } else {
        var e := if es[0].Class? then Free else es[0];
        CellsAppend(done, [e], c);
        assert [e][1..] == [];
        CopyIntoCells(es[1..], dst, done + [e], n, c);
      }
    }
  }

  // Nothing is held in the copy that is not held in the array.
  lemma {:induction false} CopyIntoHolds(es: seq<Entry>, dst: nat, done: seq<Entry>, n: nat, r: nat)
    requires HoldsIn(CopyInto(es, dst, done, n).0, r) > 0 && CellsIn(es, dst) <= 1
    ensures HoldsIn(es, r) > 0 || HoldsIn(done, r) > 0
    decreases |es|
  {
    if es != [] {
      if es[0].Cell? {
        var x0 := Written(es[0], dst, Arr(done)).value;
        var (x, n1) := Copy(x0, n + 1);
        var e := Cell(n, es[0].key, x);
        CopyHolds(x0, n + 1, r);
        HoldsAppend(done, [e], r);
        assert [e][1..] == [];
        CopyIntoHolds(es[1..], dst, done + [e], n1, r);
        WrittenHolds(es[0], dst, Arr(done), r);
      } else {
        var e := if es[0].Class? then Free else es[0];
        HoldsAppend(done, [e], r);
        assert [e][1..] == [];
        CopyIntoHolds(es[1..], dst, done + [e], n, r);
      }
    }
  }

  lemma WrittenHolds(e: Entry, d: nat, x: Value, r: nat)
    requires e.Cell? && (e.cell == d || Cells(e.value, d) <= 1)
    ensures Holds(Written(e, d, x).value, r) <= Holds(e.value, r) + Holds(x, r)
  {
    if e.cell != d {
      if CellsIn(Children(e.value), d) == 0 {
        WriteNowhere(Children(e.value), d, x);
      } else {
        WriteHolds(Children(e.value), d, x, r);
      }
    }
  }

  // Copied into a cell that does not stand in it, an array is copied as it is.
  lemma {:induction false} CopyIntoApart(es: seq<Entry>, dst: nat, done: seq<Entry>, n: nat)
    requires CellsIn(es, dst) == 0
    ensures CopyInto(es, dst, done, n) == (done + CopyIn(es, n).0, CopyIn(es, n).1)
    decreases |es|
  {
    if es == [] {
      assert done + [] == done;
    } else if es[0].Cell? {
      WriteNowhere(Children(es[0].value), dst, Arr(done));
      var (x, n1) := Copy(es[0].value, n + 1);
      var e := Cell(n, es[0].key, x);
      CopyIntoApart(es[1..], dst, done + [e], n1);
      assert done + [e] + CopyIn(es[1..], n1).0 == done + ([e] + CopyIn(es[1..], n1).0);
    } else {
      var e := if es[0].Class? then Free else es[0];
      CopyIntoApart(es[1..], dst, done + [e], n);
      assert done + [e] + CopyIn(es[1..], n).0 == done + ([e] + CopyIn(es[1..], n).0);
    }
  }

  lemma CopyTargetCells(v: Value, dst: nat, n: nat, c: nat)
    ensures n <= CopyTarget(v, dst, n).1
    ensures Cells(CopyTarget(v, dst, n).0, c) == if n <= c < CopyTarget(v, dst, n).1 then 1 else 0
  {
    if v.Arr? { CopyIntoCells(v.entries, dst, [], n, c); } else { CopyCells(v, n, c); }
  }

  lemma CopyTargetHolds(v: Value, dst: nat, n: nat, r: nat)
    requires Holds(CopyTarget(v, dst, n).0, r) > 0 && Cells(v, dst) <= 1
    ensures Holds(v, r) > 0
  {
    if v.Arr? { CopyIntoHolds(v.entries, dst, [], n, r); } else { CopyHolds(v, n, r); }
  }

  lemma CopyTargetApart(v: Value, dst: nat, n: nat)
    requires Cells(v, dst) == 0
    ensures CopyTarget(v, dst, n) == Copy(v, n)
  {
    if v.Arr? {
      CopyIntoApart(v.entries, dst, [], n);
      assert [] + CopyIn(v.entries, n).0 == CopyIn(v.entries, n).0;
    }
  }
}
