/** What the array operations of libintend/libruntime/value_array.c do to the elements of an
    array, and what follows for a script that uses them. */
module ArrayItems {
  import opened Wrappers
  import opened Data

  // The element with a key, or the number of elements.
  function FindKey(items: seq<Item>, key: string): (i: nat)
    ensures i <= |items|
    ensures i < |items| ==> items[i].key == Some(key)
    ensures forall j :: 0 <= j < i ==> items[j].key != Some(key)
  {
    if items == [] then 0
    else if items[0].key == Some(key) then 0
    else
      var i := FindKey(items[1..], key);
      assert forall j :: 1 <= j < i + 1 ==> items[j] == items[1..][j - 1];
      i + 1
  }

  function Add(items: seq<Item>, v: Data): seq<Item> {
    items + [Item(None, v)]
  }

  function SetKey(items: seq<Item>, key: string, v: Data): seq<Item> {
    var i := FindKey(items, key);
    if i < |items| then items[i := Item(Some(key), v)] else items + [Item(Some(key), v)]
  }

  function GetKey(items: seq<Item>, key: string): Data {
    var i := FindKey(items, key);
    if i < |items| then items[i].value else Void
  }

  // A negative position counts from the end; one before the start means the first element.
  function WritePosition(items: seq<Item>, pos: int): nat {
    if pos >= 0 then pos else if |items| + pos < 0 then 0 else |items| + pos
  }

  // Voids up to a length.
  function Padded(items: seq<Item>, n: nat): (r: seq<Item>)
    ensures |r| == if n <= |items| then |items| else n
    ensures r[..|items|] == items
    ensures forall i :: |items| <= i < |r| ==> r[i] == Item(None, Void)
    decreases n - |items|
  {
    if n <= |items| then items else Padded(Add(items, Void), n)
  }

  function SetAt(items: seq<Item>, pos: int, v: Data): seq<Item> {
    var i := WritePosition(items, pos);
    var padded := Padded(items, i);
    if i == |padded| then Add(padded, v) else padded[i := Item(padded[i].key, v)]
  }

  function GetAt(items: seq<Item>, pos: int): Data {
    var i := if pos < 0 then |items| + pos else pos;
    if 0 <= i < |items| then items[i].value else Void
  }

  function DeleteKey(items: seq<Item>, key: string): seq<Item> {
    var i := FindKey(items, key);
    if i < |items| then items[i := Item(Some(key), Void)] else items
  }

  function DeleteAt(items: seq<Item>, pos: int): seq<Item> {
    var i := if pos < 0 then |items| + pos else pos;
    if 0 <= i < |items| then items[i := Item(items[i].key, Void)] else items
  }

  // ---- positions ----

  // Reading back what was written at a position gives it, except before the start of an array
  // that has elements.
  lemma GetAfterSetAt(items: seq<Item>, pos: int, v: Data)
    ensures GetAt(SetAt(items, pos, v), pos) == v <==> pos >= -|items| || (items == [] && pos == -1) || v == Void
  {
  }

  // Elements between the old end and a position beyond it are void and have no key; all other
  // elements, and the key of the one written, are as before.
  lemma SetAtElsewhere(items: seq<Item>, pos: int, v: Data, i: nat)
    requires i < |SetAt(items, pos, v)|
    ensures |SetAt(items, pos, v)|
         == if WritePosition(items, pos) < |items| then |items| else WritePosition(items, pos) + 1
    ensures SetAt(items, pos, v)[i]
         == Item(if i < |items| then items[i].key else None,
                 if i == WritePosition(items, pos) then v else if i < |items| then items[i].value else Void)
  {
    var padded := Padded(items, WritePosition(items, pos));
    assert forall j :: 0 <= j < |items| ==> padded[j] == padded[..|items|][j];
  }

  // ---- keys ----

  predicate UniqueKeys(items: seq<Item>) {
    forall i, j :: 0 <= i < j < |items| && items[i].key.Some? ==> items[i].key != items[j].key
  }

  lemma FirstKeyIsFound(items: seq<Item>, i: nat, key: string)
    requires i < |items| && items[i].key == Some(key)
    requires forall j :: 0 <= j < i ==> items[j].key != Some(key)
    ensures FindKey(items, key) == i
  {
  }

  lemma KeyIsFound(items: seq<Item>, i: nat, key: string)
    requires UniqueKeys(items) && i < |items| && items[i].key == Some(key)
    ensures FindKey(items, key) == i
  {
    var j := FindKey(items, key);
    assert j <= i && items[j].key == Some(key);
  }

  lemma NoKeyIsFound(items: seq<Item>, key: string)
    requires forall i :: 0 <= i < |items| ==> items[i].key != Some(key)
    ensures FindKey(items, key) == |items|
  {
  }

  lemma GetAfterSetKey(items: seq<Item>, key: string, v: Data, other: string)
    requires UniqueKeys(items)
    ensures UniqueKeys(SetKey(items, key, v))
    ensures GetKey(SetKey(items, key, v), other) == if other == key then v else GetKey(items, other)
  {
    var items1 := SetKey(items, key, v);
    var i := FindKey(items, key);
    assert UniqueKeys(items1);
    KeyIsFound(items1, i, key);
    if other != key {
      var j := FindKey(items, other);
      if j < |items| { KeyIsFound(items1, j, other); } else { NoKeyIsFound(items1, other); }
    }
  }

  // A key is read at the position where its element stands.
  lemma KeyAgreesWithPosition(items: seq<Item>, i: nat)
    requires UniqueKeys(items) && i < |items| && items[i].key.Some?
    ensures GetKey(items, items[i].key.value) == GetAt(items, i)
  {
    KeyIsFound(items, i, items[i].key.value);
  }

  // ---- whole runs ----

  datatype Operation =
    | AddOp(v: Data)
    | SetKeyOp(key: string, v: Data)
    | SetAtOp(pos: int, v: Data)
    | DeleteKeyOp(key: string)
    | DeleteAtOp(pos: int)

  function Apply(items: seq<Item>, op: Operation): seq<Item> {
    match op
    case AddOp(v) => Add(items, v)
    case SetKeyOp(key, v) => SetKey(items, key, v)
    case SetAtOp(pos, v) => SetAt(items, pos, v)
    case DeleteKeyOp(key) => DeleteKey(items, key)
    case DeleteAtOp(pos) => DeleteAt(items, pos)
  }

  function Run(items: seq<Item>, ops: seq<Operation>): seq<Item>
    decreases |ops|
  {
    if ops == [] then items else Run(Apply(items, ops[0]), ops[1..])
  }

  lemma ApplyKeeps(items: seq<Item>, op: Operation)
    requires UniqueKeys(items)
    ensures UniqueKeys(Apply(items, op)) && |items| <= |Apply(items, op)|
    ensures forall i :: 0 <= i < |items| ==> Apply(items, op)[i].key == items[i].key
  {
    if op.SetAtOp? {
      var items1 := SetAt(items, op.pos, op.v);
      forall i | 0 <= i < |items1|
        ensures items1[i].key == if i < |items| then items[i].key else None
      {
        SetAtElsewhere(items, op.pos, op.v, i);
      }
    } else if op.SetKeyOp? {
      GetAfterSetKey(items, op.key, op.v, op.key);
    }
  }

  // Whatever is done to an array, an element never moves and never loses its key, and no key
  // comes to stand at two positions.
  lemma {:induction false} RunKeeps(items: seq<Item>, ops: seq<Operation>)
    requires UniqueKeys(items)
    ensures UniqueKeys(Run(items, ops)) && |items| <= |Run(items, ops)|
    ensures forall i :: 0 <= i < |items| ==> Run(items, ops)[i].key == items[i].key
    decreases |ops|
  {
    if ops != [] {
      ApplyKeeps(items, ops[0]);
      RunKeeps(Apply(items, ops[0]), ops[1..]);
    }
  }

  // ---- deleting and appending ----

  // A deleted element is void from then on, stays in its place under its key, and every other one
  // is as before; what is not there is not deleted.
  lemma DeleteKeyDoes(items: seq<Item>, key: string, i: nat)
    requires i < |items|
    ensures |DeleteKey(items, key)| == |items| && DeleteKey(items, key)[i].key == items[i].key
    ensures GetKey(DeleteKey(items, key), key) == Void
    ensures DeleteKey(items, key)[i].value == if i == FindKey(items, key) then Void else items[i].value
  {
    var f := FindKey(items, key);
    if f < |items| { FirstKeyIsFound(DeleteKey(items, key), f, key); }
  }

  lemma DeleteAtDoes(items: seq<Item>, pos: int, i: nat)
    requires i < |items|
    ensures |DeleteAt(items, pos)| == |items| && DeleteAt(items, pos)[i].key == items[i].key
    ensures GetAt(DeleteAt(items, pos), pos) == Void
    ensures DeleteAt(items, pos)[i].value == if i == pos || i == |items| + pos then Void else items[i].value
  {
  }

  // An appended element is the last one, and all before it are as they were.
  lemma AddDoes(items: seq<Item>, v: Data, pos: int)
    ensures |Add(items, v)| == |items| + 1 && GetAt(Add(items, v), -1) == v == GetAt(Add(items, v), |items|)
    ensures 0 <= pos < |items| ==> GetAt(Add(items, v), pos) == GetAt(items, pos)
  {
  }
}
