/** The symbol table as an object whose buckets are changed in place. */
module SymtabClass {
  import opened Wrappers
  import opened Data
  import opened SymtabHash
  import opened SymtabTable

  class Symtab {
    const order: nat
    var nodes: seq<Bucket>

    ghost function State(): Table
      reads this
    {
      Table(order, nodes)
    }

    constructor (order: nat)
      ensures State() == SymtabTable.Empty(order)
    {
      var order1 := if order > 31 then 31 else if order == 0 then 11 else order;
      this.order := order1;
      nodes := seq(Buckets(order1), _ => []);
    }

    // Where the symbol's entry is: its bucket and slot, the slot past the end if there is none.
    method SymtabLookup(symbol: string) returns (pos: nat, i: nat)
      requires Valid(State())
      ensures pos == Position(State(), symbol) && i == Find(nodes[pos], symbol)
      ensures Lookup(State(), symbol) == if i < |nodes[pos]| then Some(nodes[pos][i].entry) else None
    {
      HashBelow(symbol, order);
      pos := Hash(symbol, order);
      i := 0;
      while i < |nodes[pos]|
        invariant i <= |nodes[pos]|
        invariant forall j :: 0 <= j < i ==> !Holds(nodes[pos][j], symbol)
      {
        if Holds(nodes[pos][i], symbol) { return; }
        i := i + 1;
      }
    }

    method WriteSlot(pos: nat, i: nat, slot: Slot)
      requires pos < |nodes| && i < |nodes[pos]|
      modifies this
      ensures nodes == old(nodes)[pos := old(nodes)[pos][i := slot]]
    {
      nodes := nodes[pos := nodes[pos][i := slot]];
    }

    // An entry after the last one of its bucket; whether the name is already there is not checked.
    method SymtabAdd(symbol: string, entry: Entry)
      requires Valid(State())
      modifies this
      ensures var pos := Position(old(State()), symbol);
              nodes == old(nodes)[pos := old(nodes)[pos] + [Used(symbol, entry)]]
    {
      HashBelow(symbol, order);
      var pos := Hash(symbol, order);
      nodes := nodes[pos := nodes[pos] + [Used(symbol, entry)]];
    }

    method SymtabAddVariable(symbol: string, value: Data)
      requires Valid(State())
      modifies this
      ensures State() == Apply(old(State()), AddVariable(symbol, value)) && Valid(State())
    {
      ApplyValid(State(), AddVariable(symbol, value));
      var pos, i := SymtabLookup(symbol);
      if i < |nodes[pos]| {
        WriteSlot(pos, i, Used(symbol, Variable(value)));
      } else {
        SymtabAdd(symbol, Variable(value));
      }
    }

    method SymtabAddFunction(symbol: string, sig: string)
      requires Valid(State())
      modifies this
      ensures State() == Apply(old(State()), AddFunction(symbol, sig)) && Valid(State())
    {
      hide Valid;
      ghost var before := State();
      ApplyValid(State(), AddFunction(symbol, sig));
      var pos, i := SymtabLookup(symbol);
      var found := i < |nodes[pos]|;
      if found && !nodes[pos][i].entry.Function? {
        WriteSlot(pos, i, Free);
        found := false;
        ApplyValid(before, Delete(symbol));
      }
      if found {
        WriteSlot(pos, i, Used(symbol, Function(sig)));
      } else {
        SymtabAdd(symbol, Function(sig));
      }
      assert nodes == before.nodes[pos := AddFunctionTo(before.nodes[pos], symbol, sig)];
    }

    method SymtabAddClass(symbol: string, parent: Option<string>, definition: nat)
      requires Valid(State())
      modifies this
      ensures State() == Apply(old(State()), AddClass(symbol, parent, definition)) && Valid(State())
    {
      ApplyValid(State(), AddClass(symbol, parent, definition));
      var pos, i := SymtabLookup(symbol);
      if i < |nodes[pos]| && nodes[pos][i].entry.Class? && nodes[pos][i].entry.definition == definition {
        assert nodes[pos := nodes[pos]] == nodes;
        return;
      }
      if i < |nodes[pos]| {
        WriteSlot(pos, i, Used(symbol, Class(parent, definition)));
      } else {
        SymtabAdd(symbol, Class(parent, definition));
      }
    }

    method SymtabDelete(symbol: string)
      requires Valid(State())
      modifies this
      ensures State() == Apply(old(State()), Delete(symbol)) && Valid(State())
    {
      ApplyValid(State(), Delete(symbol));
      var pos, i := SymtabLookup(symbol);
      if i < |nodes[pos]| {
        WriteSlot(pos, i, Free);
      } else {
        assert nodes[pos := nodes[pos]] == nodes;
      }
    }

    method SymtabNumEntries() returns (count: nat)
      ensures count == |Live(nodes)|
    {
      count := 0;
      var i := 0;
      while i < |nodes|
        invariant 0 <= i <= |nodes|
        invariant count == |Live(nodes[..i])|
      {
        var node := nodes[i];
        var j := 0;
        while j < |node|
          invariant 0 <= j <= |node|
          invariant count == |Live(nodes[..i])| + |LiveIn(node[..j])|
        {
          assert node[..j + 1][..j] == node[..j];
          if node[j].Used? { count := count + 1; }
          j := j + 1;
        }
        assert node[..j] == node && nodes[..i + 1][..i] == nodes[..i];
        i := i + 1;
      }
      assert nodes[..i] == nodes;
    }

    // The live entry at an index counted over all buckets in order.
    method SymtabGet(index: int) returns (slot: Option<Slot>)
      ensures slot == GetAt(State(), index)
    {
      var total := SymtabNumEntries();
      if index < 0 || index > total { return None; }
      var count := 0;
      var pos := 0;
      while pos < |nodes|
        invariant 0 <= pos <= |nodes|
        invariant count == |Live(nodes[..pos])| && count <= index
      {
        var node := nodes[pos];
        var i := 0;
        assert nodes[..pos + 1][..pos] == nodes[..pos];
        while i < |node|
          invariant 0 <= i <= |node|
          invariant count == |Live(nodes[..pos])| + |LiveIn(node[..i])| && count <= index
        {
          assert node[..i + 1][..i] == node[..i];
          if node[i].Used? {
            if index == count {
              FoundAt(nodes, pos, i);
              return Some(node[i]);
            }
            count := count + 1;
          }
          i := i + 1;
        }
        assert node[..i] == node;
        pos := pos + 1;
      }
      assert nodes[..pos] == nodes;
      slot := None;
    }

    method SymtabCopy() returns (copy: Symtab)
      requires Valid(State())
      ensures fresh(copy) && copy.State() == Copy(State())
    {
      hide Hash, Find, BucketValid, Unique;
      copy := new Symtab(order);
      var i := 0;
      while i < |nodes|
        invariant 0 <= i <= |nodes|
        invariant copy.order == order && |copy.nodes| == |nodes|
        invariant forall k :: 0 <= k < i ==> copy.nodes[k] == CopyBucket(nodes[k])
      {
        var bucket := [];
        var j := 0;
        while j < |nodes[i]|
          invariant 0 <= j <= |nodes[i]|
          invariant bucket == CopyBucket(nodes[i])[..j]
        {
          if nodes[i][j].Used? && nodes[i][j].entry.Class? {
            bucket := bucket + [Free];
          } else {
            bucket := bucket + [nodes[i][j]];
          }
          j := j + 1;
        }
        copy.nodes := copy.nodes[i := bucket];
        i := i + 1;
      }
      assert copy.nodes == Copy(State()).nodes;
    }
  }

  // What has been counted so far is a prefix of what is counted in the end.
  lemma {:induction false} LiveInPrefix(b: Bucket, n: nat)
    requires n <= |b|
    ensures |LiveIn(b[..n])| <= |LiveIn(b)| && LiveIn(b)[..|LiveIn(b[..n])|] == LiveIn(b[..n])
    decreases |b|
  {
    if n == |b| {
      assert b[..n] == b;
    } else {
      var front := b[..|b| - 1];
      LiveInPrefix(front, n);
      assert front[..n] == b[..n];
    }
  }

  lemma {:induction false} LivePrefix(nodes: seq<Bucket>, n: nat)
    requires n <= |nodes|
    ensures |Live(nodes[..n])| <= |Live(nodes)| && Live(nodes)[..|Live(nodes[..n])|] == Live(nodes[..n])
    decreases |nodes|
  {
    if n == |nodes| {
      assert nodes[..n] == nodes;
    } else {
      var front := nodes[..|nodes| - 1];
      LivePrefix(front, n);
      assert front[..n] == nodes[..n];
    }
  }

  lemma FoundAt(nodes: seq<Bucket>, pos: nat, i: nat)
    requires pos < |nodes| && i < |nodes[pos]| && nodes[pos][i].Used?
    ensures var index := |Live(nodes[..pos])| + |LiveIn(nodes[pos][..i])|;
            index < |Live(nodes)| && Live(nodes)[index] == nodes[pos][i]
  {
    var (node, a) := (nodes[pos], nodes[..pos + 1]);
    LiveInPrefix(node, i + 1);
    LivePrefix(nodes, pos + 1);
    assert node[..i + 1][..i] == node[..i] && a[..pos] == nodes[..pos];
    assert LiveIn(node[..i + 1]) == LiveIn(node[..i]) + [node[i]];
    assert Live(a) == Live(nodes[..pos]) + LiveIn(node);
    assert Live(nodes)[..|Live(a)|] == Live(a);
    assert LiveIn(node)[..|LiveIn(node[..i + 1])|] == LiveIn(node[..i + 1]);
    var index := |Live(nodes[..pos])| + |LiveIn(node[..i])|;
    assert Live(a)[index] == LiveIn(node)[|LiveIn(node[..i])|] == node[i];
  }
}
