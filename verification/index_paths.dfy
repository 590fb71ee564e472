/** Reading and writing through index paths: array_set of libintend/libeval/eval_assign.c and
    array_get of libintend/libeval/eval_ref.c, on indices that have been evaluated. */
module IndexPaths {
  import opened Wrappers
  import opened Data
  import opened ArrayItems

  // An index expression that gives a string is a key, any other is cast to a position; a field
  // is written with a dot.
  datatype Index = At(pos: int) | Key(key: string) | Field(name: string)

  predicate Fits(container: Data, i: Index) {
    if i.Field? then container.Struct? else container.Arr?
  }

  function EmptyFor(i: Index): Data {
    if i.Field? then Struct(map[]) else Arr([])
  }

  // What stands at one index.
  function GetOne(container: Data, i: Index): Data
    requires Fits(container, i)
  {
    match i
    case At(pos) => GetAt(container.items, pos)
    case Key(key) => GetKey(container.items, key)
    case Field(name) => if name in container.fields then container.fields[name] else Void
  }

  function SetOne(container: Data, i: Index, v: Data): (r: Data)
    requires Fits(container, i)
    ensures Fits(r, i)
  {
    match i
    case At(pos) => Arr(SetAt(container.items, pos, v))
    case Key(key) => Arr(SetKey(container.items, key, v))
    case Field(name) => Struct(container.fields[name := v])
  }

  // An element of the wrong kind gives way to an empty container.
  function Prepared(elem: Data, i: Index): (r: Data)
    ensures Fits(r, i)
  {
    if Fits(elem, i) then elem else EmptyFor(i)
  }

  function GetPath(container: Data, path: seq<Index>): Data
    requires path != []
    decreases |path|
  {
    if !Fits(container, path[0]) then Void
    else if |path| == 1 then GetOne(container, path[0])
    else GetPath(GetOne(container, path[0]), path[1..])
  }

  function SetPath(container: Data, path: seq<Index>, v: Data): (r: Data)
    requires path != [] && Fits(container, path[0])
    ensures Fits(r, path[0])
    decreases |path|
  {
    if |path| == 1 then SetOne(container, path[0], v)
    else
      var elem := Prepared(GetOne(container, path[0]), path[1]);
      SetOne(container, path[0], SetPath(elem, path[1..], v))
  }

  // ---- get after set ----

  // A position no earlier than the start of its array; in an empty one, the last.
  predicate InReach(container: Data, i: Index)
    requires Fits(container, i)
  {
    i.At? ==> i.pos >= -|container.items| || (container.items == [] && i.pos == -1)
  }

  // Every position of the path is in reach where the write finds it.
  predicate PathInReach(container: Data, path: seq<Index>)
    requires path != [] && Fits(container, path[0])
    decreases |path|
  {
    InReach(container, path[0])
    && (|path| > 1 ==> PathInReach(Prepared(GetOne(container, path[0]), path[1]), path[1..]))
  }

  lemma GetAfterSetOne(container: Data, i: Index, v: Data)
    requires Fits(container, i)
    ensures GetOne(SetOne(container, i, v), i) == if InReach(container, i) then v else Void
  {
    match i
    case At(pos) =>
      GetAfterSetAt(container.items, pos, v);
      assert !InReach(container, i) ==> GetAt(SetAt(container.items, pos, v), pos) == Void;
    case Key(key) =>
      var items := container.items;
      var j := FindKey(items, key);
      FirstKeyIsFound(SetKey(items, key, v), j, key);
    case Field(_) =>
  }

  // Whatever the intermediate levels held, a read along the path gives what was written along
  // it, exactly when every position is in reach (or what was written is void).
  lemma {:induction false} GetAfterSetPath(container: Data, path: seq<Index>, v: Data)
    requires path != [] && Fits(container, path[0])
    ensures GetPath(SetPath(container, path, v), path) == v <==> PathInReach(container, path) || v == Void
    ensures !PathInReach(container, path) ==> GetPath(SetPath(container, path, v), path) == Void
    decreases |path|
  {
    hide SetOne, GetOne, Prepared;
    var i := path[0];
    if |path| == 1 {
      GetAfterSetOne(container, i, v);
    } else {
      var elem := Prepared(GetOne(container, i), path[1]);
      var x := SetPath(elem, path[1..], v);
      GetAfterSetOne(container, i, x);
      GetAfterSetPath(elem, path[1..], v);
      if !InReach(container, i) {
        assert GetPath(Void, path[1..]) == Void;
      }
    }
  }

  // ---- what a write leaves alone ----

  // The position that an index writes, and the one that it reads; -1 when it reads none.
  function Written(items: seq<Item>, i: Index): nat
    requires !i.Field?
  {
    if i.At? then WritePosition(items, i.pos) else FindKey(items, i.key)
  }

  function ReadsAt(items: seq<Item>, i: Index): int
    requires !i.Field?
  {
    if i.At? then (if i.pos < 0 then |items| + i.pos else i.pos)
    else if FindKey(items, i.key) < |items| then FindKey(items, i.key)
    else -1
  }

  // The write goes elsewhere than the read, and does not move what is counted from the end.
  predicate Separate(container: Data, i: Index, j: Index)
    requires Fits(container, i)
  {
    if i.Field? then j.Field? && i.name != j.name
    else
      !j.Field? && (i.Key? && j.Key? ==> i.key != j.key)
      && ReadsAt(container.items, j) != Written(container.items, i)
      && (j.At? && j.pos < 0 ==> Written(container.items, i) < |container.items|)
  }

  lemma WrittenAlone(items: seq<Item>, i: Index, v: Data, k: nat)
    requires !i.Field?
    ensures var items1 := SetOne(Arr(items), i, v).items;
            |items1| == (if Written(items, i) < |items| then |items| else Written(items, i) + 1)
            && (k < |items1| && k != Written(items, i) ==> items1[k] == if k < |items| then items[k] else Item(None, Void))
            && (i.At? && k < |items1| ==> items1[k].key == if k < |items| then items[k].key else None)
            && (i.Key? && k < |items1| ==> items1[k].key == if k < |items| then items[k].key else Some(i.key))
  {
    if i.At? {
      var items1 := SetAt(items, i.pos, v);
      if k < |items1| { SetAtElsewhere(items, i.pos, v, k); } else if items1 != [] { SetAtElsewhere(items, i.pos, v, 0); }
    }
  }

  lemma GetOneElsewhere(container: Data, i: Index, v: Data, j: Index)
    requires Fits(container, i) && Separate(container, i, j)
    ensures GetOne(SetOne(container, i, v), j) == GetOne(container, j)
  {
    if !i.Field? {
      var items := container.items;
      var items1 := SetOne(container, i, v).items;
      forall k: nat | k < |items1|
        ensures items1[k].key == if k < |items| then items[k].key else if i.Key? then Some(i.key) else None
        ensures k != Written(items, i) ==> items1[k] == if k < |items| then items[k] else Item(None, Void)
      {
        WrittenAlone(items, i, v, k);
      }
      WrittenAlone(items, i, v, 0);
      if j.Key? {
        var f := FindKey(items, j.key);
        if f < |items| { FirstKeyIsFound(items1, f, j.key); } else { NoKeyIsFound(items1, j.key); }
      }
    }
  }

  // The paths part at some level, in indices that are separate there.
  predicate Part(container: Data, p: seq<Index>, q: seq<Index>)
    requires p != [] && Fits(container, p[0])
    decreases |p|
  {
    q != [] &&
    if p[0] == q[0] then
      |p| > 1 && |q| > 1 && InReach(container, p[0])
      && Part(Prepared(GetOne(container, p[0]), p[1]), p[1..], q[1..])
    else Separate(container, p[0], q[0])
  }

  lemma PartFits(container: Data, p: seq<Index>, q: seq<Index>)
    requires p != [] && Fits(container, p[0]) && Part(container, p, q)
    ensures p[0].Field? <==> q[0].Field?
  {
  }

  lemma GetEmpty(q: seq<Index>)
    requires q != []
    ensures GetPath(EmptyFor(q[0]), q) == Void
  {
    if |q| > 1 { assert GetPath(Void, q[1..]) == Void; }
  }

  // A write along one path leaves what is read along another that parts from it.
  lemma {:induction false} SetPathElsewhere(container: Data, p: seq<Index>, v: Data, q: seq<Index>)
    requires p != [] && Fits(container, p[0]) && Part(container, p, q)
    ensures GetPath(SetPath(container, p, v), q) == GetPath(container, q)
    decreases |p|
  {
    hide SetOne, GetOne, Separate, InReach;
    PartFits(container, p, q);
    if p[0] != q[0] {
      var x := if |p| == 1 then v else SetPath(Prepared(GetOne(container, p[0]), p[1]), p[1..], v);
      GetOneElsewhere(container, p[0], x, q[0]);
    } else {
      var old_ := GetOne(container, p[0]);
      var elem := Prepared(old_, p[1]);
      var x := SetPath(elem, p[1..], v);
      GetAfterSetOne(container, p[0], x);
      SetPathElsewhere(elem, p[1..], v, q[1..]);
      PartFits(elem, p[1..], q[1..]);
      if !Fits(old_, p[1]) { GetEmpty(q[1..]); }
    }
  }

  // ---- variables ----

  // The scope of a running function over the global one, or the global one alone.
  class Scopes {
    var hasLocal: bool
    var local: map<string, Data>
    var global: map<string, Data>

    function Lookup(name: string): Option<Data>
      reads this
    {
      if hasLocal && name in local then Some(local[name])
      else if name in global then Some(global[name])
      else None
    }

    constructor (hasLocal: bool)
      ensures this.hasLocal == hasLocal && local == map[] && global == map[]
    {
      this.hasLocal := hasLocal;
      local, global := map[], map[];
    }

    // Elements are copied out, changed and put back; at the end the value is written under the
    // name in the innermost scope.
    method ArraySet(arr: Data, path: seq<Index>, v: Data) returns (r: Data)
      requires path != [] && Fits(arr, path[0])
      ensures r == SetPath(arr, path, v)
      decreases |path|
    {
      if |path| > 1 {
        var elem := GetOne(arr, path[0]);
        if path[1].Field? {
          if !elem.Struct? { elem := Struct(map[]); }
        } else {
          if !elem.Arr? { elem := Arr([]); }
        }
        elem := ArraySet(elem, path[1..], v);
        r := SetOne(arr, path[0], elem);
      } else {
        r := SetOne(arr, path[0], v);
      }
    }

    // A variable of the right kind is changed where it is, in whichever scope it was found.
    method AssignArrayDirect(name: string, path: seq<Index>, v: Data)
      requires path != []
      modifies this
      ensures hasLocal == old(hasLocal)
      ensures var old_ := old(Lookup(name));
              Lookup(name) == Some(SetPath(Prepared(if old_.Some? then old_.value else Void, path[0]), path, v))
      ensures hasLocal ==> local == old(local)[name := Lookup(name).value]
      ensures hasLocal && name !in old(local) && name in old(global) && Fits(old(global)[name], path[0]) ==>
                global == old(global)[name := Lookup(name).value]
      ensures hasLocal && !(name !in old(local) && name in old(global) && Fits(old(global)[name], path[0])) ==>
                global == old(global)
      ensures !hasLocal ==> global == old(global)[name := Lookup(name).value] && local == old(local)
    {
      var entry := Lookup(name);
      var inPlace := entry.Some? && Fits(entry.value, path[0]);
      var arr := if inPlace then entry.value else EmptyFor(path[0]);
      arr := ArraySet(arr, path, v);
      if inPlace {
        if hasLocal && name in local { local := local[name := arr]; } else { global := global[name := arr]; }
      }
      if hasLocal { local := local[name := arr]; } else { global := global[name := arr]; }
    }
  }
}
