/** The runtime that copies and cleans values in place. */
module HeapClass {
  import opened Wrappers
  import opened HeapValues
  import opened HeapMachine

  class Runtime {
    var top: seq<Entry>
    var counts: Counts
    var next: nat
    var made: nat

    ghost function State(): Heap
      reads this
    {
      Heap(top, counts, next, made)
    }

    constructor ()
      ensures State() == EMPTY
    {
      top, counts, next, made := [], Counts(map[], []), 0, 0;
    }

    // A copy in new cells, one entry after another; resources are counted as they are met.
    method ValueCopy(v: Value) returns (copy: Value)
      modifies this`counts, this`next
      ensures (copy, next) == Copy(v, old(next))
      ensures counts == Raise(old(counts), v)
      decreases Size(v)
    {
      match v
      case Arr(es) =>
        var entries := CopyEntries(es);
        copy := Arr(entries);
      case Struct(es) =>
        var entries := CopyEntries(es);
        copy := Struct(entries);
      case Res(r) =>
        counts := Hold(counts, r);
        copy := v;
      case _ => copy := v;
    }

    method CopyEntries(es: seq<Entry>) returns (copy: seq<Entry>)
      modifies this`counts, this`next
      ensures (copy, next) == CopyIn(es, old(next))
      ensures counts == RaiseIn(old(counts), es)
      decreases SizeIn(es)
    {
      hide CopyIn, RaiseIn, SizeIn, Size, Raise;
      copy := [];
      var i := 0;
      ghost var whole := CopyIn(es, next);
      assert es[0..] == es;
      while i < |es|
        invariant 0 <= i <= |es| && SizeIn(es[i..]) <= SizeIn(es)
        invariant copy + CopyIn(es[i..], next).0 == whole.0 && CopyIn(es[i..], next).1 == whole.1
        invariant RaiseIn(counts, es[i..]) == RaiseIn(old(counts), es)
      {
        EntryCopied(es, i, next, counts);
        if es[i].Cell? {
          var cell := next;
          next := next + 1;
          var x := ValueCopy(es[i].value);
          copy := copy + [Cell(cell, es[i].key, x)];
        } else if es[i].Class? {
          copy := copy + [Free];
        } else {
          copy := copy + [es[i]];
        }
        i := i + 1;
      }
      NothingCopied(next, counts);
      assert es[i..] == [] && copy + [] == copy;
    }

    method ValueCleanup(v: Value)
      modifies this`counts
      ensures counts == Drop(old(counts), v)
      decreases Size(v)
    {
      match v
      case Arr(es) => CleanEntries(es);
      case Struct(es) => CleanEntries(es);
      case Res(r) => counts := LetGo(counts, r);
      case _ =>
    }

    method CleanEntries(es: seq<Entry>)
      modifies this`counts
      ensures counts == DropIn(old(counts), es)
      decreases SizeIn(es)
    {
      var i := 0;
      assert es[0..] == es;
      while i < |es|
        invariant 0 <= i <= |es| && SizeIn(es[i..]) <= SizeIn(es)
        invariant DropIn(counts, es[i..]) == DropIn(old(counts), es)
      {
        ghost var rest := es[i..];
        assert rest[1..] == es[i + 1..] && rest[0] == es[i];
        if es[i].Cell? {
          ValueCleanup(es[i].value);
        }
        i := i + 1;
      }
    }

    // The target is cleaned; an array is then copied into it entry by entry, and anything else
    // is copied and put there.
    method ValueCopyTo(dst: nat, src: nat)
      requires Good(State()) && Allowed(State(), CopyTo(dst, src))
      modifies this
      ensures State() == Step(old(State()), CopyTo(dst, src))
    {
      hide Good, CopyInto, Drop;
      ghost var h := State();
      CleanupGood(h, dst);
      SourceStays(h, dst, src);
      CellCleanup(dst);
      var v := Find(top, src).value;
      if v.Arr? {
        ReadyToFill(State(), dst, src);
        FillFrom(dst, src);
      } else {
        RaiseCopy(counts, v, next);
        var copy := ValueCopy(v);
        top := Write(top, dst, copy);
      }
    }

    // Each entry is read as it is by then, which matters when the target stands in the source.
    method FillFrom(dst: nat, src: nat)
      requires Fillable(top, dst, src, next)
      modifies this`top, this`counts, this`next
      ensures var (copy, n) := CopyTarget(old(Find(top, src).value), dst, old(next));
              top == Write(old(top), dst, copy) && next == n && counts == Raise(old(counts), copy)
    {
      hide CopyInto, RaiseIn, Write, Find, CellsIn, Cells, Raise;
      ghost var (top0, n0, k0) := (top, next, counts);
      ghost var es := Find(top, src).value.entries;
      var max := |Find(top, src).value.entries|;
      var done := [];
      top := Write(top, dst, Arr([]));
      var i := 0;
      assert es[0..] == es;
      NothingInto(top0, dst, src, n0, k0);
      while i < max
        invariant 0 <= i <= max == |es| && next >= n0
        invariant top == Write(top0, dst, Arr(done))
        invariant Cells(Arr(done), dst) == 0 && Cells(Arr(done), src) == 0
        invariant CopyInto(es[i..], dst, done, next) == CopyInto(es, dst, [], n0)
        invariant counts == RaiseIn(k0, done)
      {
        SourceNow(top0, dst, src, n0, done, i);
        var e := Find(top, src).value.entries[i];
        IntoNext(es, i, dst, done, next, k0);
        if e.Cell? {
          var cell := next;
          next := next + 1;
          RaiseCopy(counts, e.value, next);
          var x := ValueCopy(e.value);
          done := done + [Cell(cell, e.key, x)];
        } else if e.Class? {
          done := done + [Free];
        } else {
          done := done + [e];
        }
        top := Write(top, dst, Arr(done));
        i := i + 1;
      }
      IntoEnd(es, i, dst, done, next, k0);
    }

    method ValueAdd(dst: nat, key: Option<string>, src: nat)
      requires Allowed(State(), Append(dst, key, src))
      modifies this
      ensures State() == Step(old(State()), Append(dst, key, src))
    {
      var cell := next;
      next := next + 1;
      var v := Find(top, src).value;
      RaiseCopy(counts, v, next);
      var copy := ValueCopy(v);
      top := Write(top, dst, WithEntry(Find(top, dst).value, Cell(cell, key, copy)));
    }

    method CellCleanup(c: nat)
      requires Allowed(State(), Cleanup(c))
      modifies this
      ensures State() == Step(old(State()), Cleanup(c))
    {
      ValueCleanup(Find(top, c).value);
      top := Write(top, c, Void);
    }

    // The field's value is released and its slot is free from then on.
    method ValueDeleteStruct(dst: nat, index: nat)
      requires Allowed(State(), Remove(dst, index))
      modifies this
      ensures State() == Step(old(State()), Remove(dst, index))
    {
      var es := Find(top, dst).value.entries;
      if es[index].Cell? { ValueCleanup(es[index].value); }
      top := Write(top, dst, Struct(es[index := Free]));
    }

    method ValueSetMethod(dst: nat, name: string, sig: string)
      requires Allowed(State(), AddMethod(dst, name, sig))
      modifies this
      ensures State() == Step(old(State()), AddMethod(dst, name, sig))
    {
      top := Write(top, dst, WithEntry(Find(top, dst).value, Method(name, sig)));
    }

    method ValueFree(index: nat)
      requires Allowed(State(), FreeCell(index))
      modifies this
      ensures State() == Step(old(State()), FreeCell(index))
    {
      ValueCleanup(top[index].value);
      top := top[..index] + top[index + 1..];
    }

    method ValueMakeResource()
      modifies this
      ensures State() == Step(old(State()), MakeResource)
    {
      top := top + [Cell(next, None, Res(made))];
      counts := Hold(counts, made);
      next := next + 1;
      made := made + 1;
    }

    method ValueMake(v: Value)
      requires Allowed(State(), Make(v))
      modifies this
      ensures State() == Step(old(State()), Make(v))
    {
      top := top + [Cell(next, None, v)];
      next := next + 1;
    }
  }

  lemma EntryCopied(es: seq<Entry>, i: nat, n: nat, k: Counts)
    requires i < |es|
    ensures es[i].Cell? ==>
              var (x, n1) := Copy(es[i].value, n + 1);
              CopyIn(es[i..], n).0 == [Cell(n, es[i].key, x)] + CopyIn(es[i + 1..], n1).0
              && CopyIn(es[i..], n).1 == CopyIn(es[i + 1..], n1).1
    ensures !es[i].Cell? ==>
              CopyIn(es[i..], n).0 == [if es[i].Class? then Free else es[i]] + CopyIn(es[i + 1..], n).0
              && CopyIn(es[i..], n).1 == CopyIn(es[i + 1..], n).1
    ensures RaiseIn(k, es[i..]) == RaiseIn(if es[i].Cell? then Raise(k, es[i].value) else k, es[i + 1..])
    ensures SizeIn(es[i + 1..]) < SizeIn(es[i..])
    ensures es[i].Cell? ==> Size(es[i].value) < SizeIn(es[i..])
  {
    assert es[i..][1..] == es[i + 1..] && es[i..][0] == es[i];
  }

  lemma NothingCopied(n: nat, k: Counts)
    ensures CopyIn([], n) == ([], n) && RaiseIn(k, []) == k
  {
  }

  // A copy raises the counts that its original raises.
  lemma {:induction false} RaiseCopy(k: Counts, v: Value, n: nat)
    ensures Raise(k, Copy(v, n).0) == Raise(k, v)
    decreases Size(v), 0
  {
    if v.Arr? || v.Struct? { RaiseCopyIn(k, v.entries, n); }
  }

  lemma {:induction false} RaiseCopyIn(k: Counts, es: seq<Entry>, n: nat)
    ensures RaiseIn(k, CopyIn(es, n).0) == RaiseIn(k, es)
    decreases SizeIn(es), 1
  {
    if es != [] {
      var copy := CopyIn(es, n).0;
      if es[0].Cell? {
        RaiseCopy(k, es[0].value, n + 1);
        RaiseCopyIn(Raise(k, es[0].value), es[1..], Copy(es[0].value, n + 1).1);
        assert copy[1..] == CopyIn(es[1..], Copy(es[0].value, n + 1).1).0;
      } else {
        RaiseCopyIn(k, es[1..], n);
        assert copy[1..] == CopyIn(es[1..], n).0;
      }
    }
  }

  // A source and a target that has been cleaned.
  predicate Fillable(top: seq<Entry>, dst: nat, src: nat, next: nat) {
    src != dst && src < next && dst < next && CellsIn(top, src) == 1 && CellsIn(top, dst) == 1
    && Find(top, src).Some? && Find(top, src).value.Arr? && Find(top, dst) == Some(Void)
  }

  lemma ReadyToFill(h: Heap, dst: nat, src: nat)
    requires Good(h) && src != dst && CellsIn(h.top, dst) == 1 && Content(h, dst) == Void
    requires Find(h.top, src).Some? && Find(h.top, src).value.Arr?
    ensures Fillable(h.top, dst, src, h.next)
  {
    FindExactly(h.top, src);
    FindExactly(h.top, dst);
    assert CellsIn(h.top, src) <= if src < h.next then 1 else 0;
    assert CellsIn(h.top, dst) <= if dst < h.next then 1 else 0;
  }

  lemma NothingInto(top: seq<Entry>, dst: nat, src: nat, n: nat, k: Counts)
    ensures Cells(Arr([]), dst) == 0 && Cells(Arr([]), src) == 0 && RaiseIn(k, []) == k
  {
  }

  // What the source holds while the target has got part of it.
  lemma SourceNow(top: seq<Entry>, dst: nat, src: nat, n: nat, done: seq<Entry>, i: nat)
    requires Fillable(top, dst, src, n) && i < |Find(top, src).value.entries|
    requires Cells(Arr(done), src) == 0 && Cells(Arr(done), dst) == 0
    ensures var now := Find(Write(top, dst, Arr(done)), src);
            now.Some? && now.value.Arr? && i < |now.value.entries|
            && now.value.entries[i] == Written(Find(top, src).value.entries[i], dst, Arr(done))
    ensures forall y :: Write(Write(top, dst, Arr(done)), dst, y) == Write(top, dst, y)
  {
    hide Write, Find, CellsIn;
    WriteFound(top, dst, Arr(done), src);
    WriteAt(Find(top, src).value.entries, dst, Arr(done), i);
    forall y ensures Write(Write(top, dst, Arr(done)), dst, y) == Write(top, dst, y) {
      WriteTwice(top, dst, Arr(done), y);
    }
  }

  // One entry more.
  lemma IntoNext(es: seq<Entry>, i: nat, dst: nat, done: seq<Entry>, n: nat, k: Counts)
    requires i < |es|
    ensures var e := Written(es[i], dst, Arr(done));
            var (x, n1) := if e.Cell? then Copy(e.value, n + 1) else (Void, n);
            var e1 := if e.Cell? then Cell(n, e.key, x) else if e.Class? then Free else e;
            CopyInto(es[i..], dst, done, n) == CopyInto(es[i + 1..], dst, done + [e1], n1)
            && RaiseIn(k, done + [e1]) == (if e.Cell? then Raise(RaiseIn(k, done), x) else RaiseIn(k, done))
            && n <= n1
            && (forall c: nat :: c < n ==> Cells(Arr(done + [e1]), c) == Cells(Arr(done), c))
  {
    var e := Written(es[i], dst, Arr(done));
    var (x, n1) := if e.Cell? then Copy(e.value, n + 1) else (Void, n);
    var e1 := if e.Cell? then Cell(n, e.key, x) else if e.Class? then Free else e;
    assert es[i..][1..] == es[i + 1..] && es[i..][0] == es[i];
    RaiseAppend(k, done, e1);
    forall c: nat | c < n ensures Cells(Arr(done + [e1]), c) == Cells(Arr(done), c) {
      CellsAppend(done, [e1], c);
      assert [e1][1..] == [];
      if e.Cell? { CopyCells(e.value, n + 1, c); }
    }
    if e.Cell? { CopyCells(e.value, n + 1, 0); }
  }

  lemma {:induction false} RaiseAppend(k: Counts, es: seq<Entry>, e: Entry)
    ensures RaiseIn(k, es + [e]) == if e.Cell? then Raise(RaiseIn(k, es), e.value) else RaiseIn(k, es)
    decreases |es|
  {
    if es == [] {
      assert [] + [e] == [e] && [e][1..] == [];
    } else {
      assert (es + [e])[0] == es[0] && (es + [e])[1..] == es[1..] + [e];
      RaiseAppend(if es[0].Cell? then Raise(k, es[0].value) else k, es[1..], e);
    }
  }

  lemma IntoEnd(es: seq<Entry>, i: nat, dst: nat, done: seq<Entry>, n: nat, k: Counts)
    requires i == |es|
    ensures CopyInto(es[i..], dst, done, n) == (done, n) && RaiseIn(k, done) == Raise(k, Arr(done))
  {
    assert es[i..] == [];
  }
}
