/** What each operation does to the cells and the counts: what is there afterwards, what is gone, and
    what the counts have become (libintend/libruntime/value_cons.c, value_copy.c, value_memory.c and
    value_struct.c). */
module HeapSteps {
  import opened Wrappers
  import opened HeapValues
  import opened HeapMachine

  // Counts are lower by the holders in a value, and what has come to nothing is released once.
  ghost predicate Lowered(h: Heap, h1: Heap, v: Value) {
    forall r :: CountOf(h1.counts, r) == CountOf(h.counts, r) - Holds(v, r)
                && Releases(h1.counts, r)
                   == Releases(h.counts, r) + if Holds(v, r) > 0 && CountOf(h1.counts, r) == 0 then 1 else 0
  }

  // Counts are higher by them.
  ghost predicate Raised(h: Heap, h1: Heap, v: Value) {
    h1.counts.released == h.counts.released
    && forall r :: CountOf(h1.counts, r) == CountOf(h.counts, r) + Holds(v, r)
  }

  lemma DropLowers(h: Heap, h1: Heap, v: Value)
    requires Good(h) && forall r :: Holds(v, r) <= HoldsIn(h.top, r)
    requires h1.counts == Drop(h.counts, v)
    ensures Lowered(h, h1, v)
  {
    forall r ensures Holds(v, r) <= CountOf(h.counts, r) && (r in h.counts.live ==> h.counts.live[r] > 0) {
      assert Conserved(h, r);
    }
    forall r
      ensures CountOf(h1.counts, r) == CountOf(h.counts, r) - Holds(v, r)
      ensures Releases(h1.counts, r)
           == Releases(h.counts, r) + if Holds(v, r) > 0 && CountOf(h1.counts, r) == 0 then 1 else 0
    {
      DropCounts(h.counts, v, r);
    }
  }

  lemma RaiseRaises(h: Heap, h1: Heap, v: Value)
    requires h1.counts == Raise(h.counts, v)
    ensures Raised(h, h1, v)
  {
    RaiseCounts(h.counts, v, 0);
    forall r ensures CountOf(h1.counts, r) == CountOf(h.counts, r) + Holds(v, r) { RaiseCounts(h.counts, v, r); }
  }

  // A freed value is gone with all that was in it, its resources are let go, and every other cell
  // holds what it held.
  lemma FreeDoes(h: Heap, index: nat, d: nat)
    requires Good(h) && Allowed(h, FreeCell(index))
    ensures var (e, h1) := (h.top[index], Step(h, FreeCell(index)));
            && Lowered(h, h1, e.value)
            && |h1.top| == |h.top| - 1 && h1.next == h.next
            && (d == e.cell || Cells(e.value, d) > 0 ==> IsCell(h, d) && !IsCell(h1, d))
            && (d != e.cell && Cells(e.value, d) == 0 ==> Find(h1.top, d) == Find(h.top, d))
  {
    var (e, front, back) := (h.top[index], h.top[..index], h.top[index + 1..]);
    assert h.top == front + ([e] + back);
    forall r ensures Holds(e.value, r) <= HoldsIn(h.top, r) {
      HoldsAppend(front, [e] + back, r);
      HoldsAppend([e], back, r);
      OneEntry(e, 0, r);
    }
    DropLowers(h, FreeStep(h, index), e.value);
    FindAppend(front, [e] + back, d);
    FindAppend([e], back, d);
    FindAppend(front, back, d);
    CellsAppend(front, [e] + back, d);
    CellsAppend([e], back, d);
    CellsAppend(front, back, d);
    OneEntry(e, d, 0);
    FindExactly([e], d);
    FindExactly(h.top, d);
    FindExactly(front + back, d);
  }

  // A value that is overwritten by void is gone in the same way, but for the cell itself.
  lemma CleanupDoes(h: Heap, c: nat, d: nat)
    requires Good(h) && Allowed(h, Cleanup(c))
    ensures var h1 := Step(h, Cleanup(c));
            && Lowered(h, h1, Content(h, c)) && IsCell(h1, c) && Content(h1, c) == Void
            && (Cells(Content(h, c), d) > 0 ==> !IsCell(h1, d))
            && (IsCell(h, d) && Apart(h, c, d) ==> Find(h1.top, d) == Find(h.top, d))
  {
    var v := Content(h, c);
    CleanupGood(h, c);
    FoundIsPart(h.top, c);
    DropLowers(h, CleanupStep(h, c), v);
    FindExactly(h.top, c);
    FindExactly(h.top, d);
    FindExactly(CleanupStep(h, c).top, c);
    FindExactly(CleanupStep(h, c).top, d);
    WriteCells(h.top, c, Void, d);
    if IsCell(h, d) && Apart(h, c, d) { WriteElsewhere(h.top, c, Void, d); }
  }

  // A new value stands in a cell of its own, and a new resource is held once, by its cell.
  lemma MakeDoes(h: Heap, v: Value, d: nat)
    requires Good(h) && Children(v) == []
    ensures Allowed(h, Make(v)) ==>
              var h1 := Step(h, Make(v));
              && !IsCell(h, h.next) && Find(h1.top, h.next) == Some(v) && h1.counts == h.counts && h1.next == h.next + 1
              && (d != h.next ==> Find(h1.top, d) == Find(h.top, d))
    ensures var h1 := Step(h, MakeResource);
            && Find(h1.top, h.next) == Some(Res(h.made)) && h1.next == h.next + 1 && h1.made == h.made + 1
            && CountOf(h1.counts, h.made) == 1 && h1.counts.released == h.counts.released
            && (d != h.made ==> CountOf(h1.counts, d) == CountOf(h.counts, d))
            && (d != h.next ==> Find(h1.top, d) == Find(h.top, d))
  {
    assert Conserved(h, h.made);
    FindExactly(h.top, h.next);
    assert CellsIn(h.top, h.next) <= 0;
    NewFound(h, v, d);
    NewFound(h, v, h.next);
    NewFound(h, Res(h.made), d);
    NewFound(h, Res(h.made), h.next);
  }

  lemma NewFound(h: Heap, v: Value, d: nat)
    requires Children(v) == []
    ensures Find(h.top + [Cell(h.next, None, v)], d)
         == if Find(h.top, d).Some? then Find(h.top, d) else if d == h.next then Some(v) else None
  {
    var e := Cell(h.next, None, v);
    FindAppend(h.top, [e], d);
    assert [e][1..] == [];
    assert FindBelow(v, d) == None;
  }

  // The target of a copy lets go of what it held and takes what the source holds.
  lemma CopyDoes(h: Heap, dst: nat, src: nat, r: nat)
    requires Good(h) && Allowed(h, CopyTo(dst, src)) && Apart(h, dst, src)
    ensures var h1 := Step(h, CopyTo(dst, src));
            && SameShape(Content(h, src), Content(h1, dst)) && Find(h1.top, src) == Find(h.top, src)
            && CountOf(h1.counts, r) == CountOf(h.counts, r) - Holds(Content(h, dst), r) + Holds(Content(h, src), r)
  {
    var h1 := CleanupStep(h, dst);
    CopyIsSame(h, dst, src);
    CleanupDoes(h, dst, src);
    SourceStays(h, dst, src);
    CopyTargetApart(Content(h, src), dst, h1.next);
    CopyHolds(Content(h, src), h1.next, r);
    RaiseCounts(h1.counts, Copy(Content(h, src), h1.next).0, r);
  }

  // An append adds one cell at the end, with a copy of the source under the key.
  lemma AppendDoes(h: Heap, dst: nat, key: Option<string>, src: nat)
    requires Good(h) && Allowed(h, Append(dst, key, src))
    ensures var (h1, es) := (Step(h, Append(dst, key, src)), Children(Content(h, dst)));
            var v := Content(h1, dst);
            && IsCell(h1, dst) && (v.Arr? <==> Content(h, dst).Arr?) && (v.Struct? <==> Content(h, dst).Struct?)
            && |Children(v)| == |es| + 1 && Children(v)[..|es|] == es
            && (var e := Children(v)[|es|];
                && e.Cell? && e.cell == h.next && e.key == key && SameShape(Content(h, src), e.value))
            && Raised(h, h1, Content(h, src))
  {
    var w := Content(h, dst);
    var copy := Copy(Content(h, src), h.next + 1).0;
    FindExactly(h.top, dst);
    WriteThere(h.top, dst, WithEntry(w, Cell(h.next, key, copy)));
    CopyShape(Content(h, src), h.next + 1);
    RaiseRaises(h, AppendStep(h, dst, key, src), copy);
    forall r ensures Holds(copy, r) == Holds(Content(h, src), r) { CopyHolds(Content(h, src), h.next + 1, r); }
  }

  // A removed field leaves a free slot and lets go of its value; all other slots are as they were.
  lemma RemoveDoes(h: Heap, dst: nat, index: nat)
    requires Good(h) && Allowed(h, Remove(dst, index))
    ensures var (h1, es) := (Step(h, Remove(dst, index)), Content(h, dst).entries);
            && IsCell(h1, dst) && Content(h1, dst) == Struct(es[index := Free])
            && (es[index].Cell? ==> Lowered(h, h1, es[index].value)) && (!es[index].Cell? ==> h1.counts == h.counts)
  {
    var es := Content(h, dst).entries;
    var e := es[index];
    FindExactly(h.top, dst);
    WriteThere(h.top, dst, Struct(es[index := Free]));
    if e.Cell? {
      FoundIsPart(h.top, dst);
      forall r ensures Holds(e.value, r) <= HoldsIn(h.top, r) {
        RemovedEntry(es, index, 0, r);
        OneEntry(e, 0, r);
        assert Holds(Content(h, dst), r) == HoldsIn(es, r);
      }
      DropLowers(h, RemoveStep(h, dst, index), e.value);
    }
  }

  lemma MethodDoes(h: Heap, dst: nat, name: string, sig: string)
    requires Good(h) && Allowed(h, AddMethod(dst, name, sig))
    ensures var h1 := Step(h, AddMethod(dst, name, sig));
            && IsCell(h1, dst) && Content(h1, dst) == Struct(Content(h, dst).entries + [Method(name, sig)])
            && h1.counts == h.counts
  {
    FindExactly(h.top, dst);
    WriteThere(h.top, dst, WithEntry(Content(h, dst), Method(name, sig)));
  }

  // ---- an array copied into a part of itself ----

  // When the target is an entry of the array, the copy has the same entries, but for that one: there
  // it holds the entries before it.
  lemma {:induction false} CopyIntoItself(es: seq<Entry>, dst: nat, i: nat, n: nat)
    requires i < |es| && es[i].Cell? && es[i].cell == dst && CellsIn(es, dst) == 1
    ensures var copy := CopyInto(es, dst, [], n).0;
            && |copy| == |es| && SameShapes(es[..i], copy[..i]) && SameShapes(es[i + 1..], copy[i + 1..])
            && copy[i].Cell? && copy[i].key == es[i].key && copy[i].value.Arr?
            && SameShapes(copy[..i], copy[i].value.entries)
  {
    var (front, back) := (es[..i], es[i + 1..]);
    assert es == front + ([es[i]] + back);
    CellsAppend(front, [es[i]] + back, dst);
    assert ([es[i]] + back)[1..] == back;
    IntoFront(front, [es[i]] + back, dst, [], n);
    var (done, n1) := CopyIn(front, n);
    assert [] + done == done;
    CopyShapes(front, n);
    SameLength(front, done);
    var (x, n2) := Copy(Arr(done), n1 + 1);
    CopyShape(Arr(done), n1 + 1);
    var c := Cell(n1, es[i].key, x);
    assert CopyInto([es[i]] + back, dst, done, n1) == CopyInto(back, dst, done + [c], n2);
    CopyIntoApart(back, dst, done + [c], n2);
    CopyShapes(back, n2);
    SameLength(back, CopyIn(back, n2).0);
    var copy := CopyInto(es, dst, [], n).0;
    assert copy == done + [c] + CopyIn(back, n2).0;
    assert copy[..i] == done && copy[i + 1..] == CopyIn(back, n2).0;
  }

  lemma {:induction false} IntoFront(front: seq<Entry>, rest: seq<Entry>, dst: nat, done: seq<Entry>, n: nat)
    requires CellsIn(front, dst) == 0
    ensures CopyInto(front + rest, dst, done, n)
         == CopyInto(rest, dst, done + CopyIn(front, n).0, CopyIn(front, n).1)
    decreases |front|
  {
    if front == [] {
      assert front + rest == rest && done + [] == done;
    } else {
      assert (front + rest)[0] == front[0] && (front + rest)[1..] == front[1..] + rest;
      if front[0].Cell? {
        WriteNowhere(Children(front[0].value), dst, Arr(done));
        var (x, n1) := Copy(front[0].value, n + 1);
        var e := Cell(n, front[0].key, x);
        IntoFront(front[1..], rest, dst, done + [e], n1);
        assert done + [e] + CopyIn(front[1..], n1).0 == done + ([e] + CopyIn(front[1..], n1).0);
      } else {
        var e := if front[0].Class? then Free else front[0];
        IntoFront(front[1..], rest, dst, done + [e], n);
        assert done + [e] + CopyIn(front[1..], n).0 == done + ([e] + CopyIn(front[1..], n).0);
      }
    }
  }

  lemma SameLength(es: seq<Entry>, fs: seq<Entry>)
    requires SameShapes(es, fs)
    ensures |es| == |fs|
  {
  }
}
