/** The array of libintend/libruntime/value_array.c: a vector of cells in order and a table from
    keys to cells, where a keyed cell is shared by both. */
module ArrayClass {
  import opened Wrappers
  import opened Data
  import opened ArrayItems

  const ARRAY_GROWTH: nat := 32

  class Cell {
    const symbol: Option<string>
    var v: Data

    constructor (symbol: Option<string>, v: Data)
      ensures this.symbol == symbol && this.v == v
    {
      this.symbol := symbol;
      this.v := v;
    }
  }

  class ValueArray {
    var len: nat
    var size: nat
    var values: array?<Cell?>
    var keys: map<string, Cell>
    ghost var cells: seq<Cell>

    // The vector holds the cells and a null after the last; every key leads to the one cell
    // that carries it, and that cell is in the vector.
    ghost predicate Valid()
      reads this, values
    {
      && len == |cells| <= size
      && (if values == null then size == 0 else
            values.Length == size + 1 && values[len] == null && forall i :: 0 <= i < len ==> values[i] == cells[i])
      && (forall i, j :: 0 <= i < j < len ==> cells[i] != cells[j])
      && (forall k :: k in keys ==> keys[k] in cells && keys[k].symbol == Some(k))
      && (forall i :: 0 <= i < len && cells[i].symbol.Some? ==>
            cells[i].symbol.value in keys && keys[cells[i].symbol.value] == cells[i])
    }

    ghost function Items(): (r: seq<Item>)
      reads this, cells
      ensures |r| == |cells|
    {
      seq(|cells|, i requires 0 <= i < |cells| reads this, cells => Item(cells[i].symbol, cells[i].v))
    }

    constructor ()
      ensures Valid() && Items() == []
    {
      len, size, values, keys, cells := 0, 0, null, map[], [];
    }

    // Room for one more cell and the null after it.
    method Grow()
      requires Valid()
      modifies this
      ensures Valid() && len < size && values != null
      ensures values == old(values) || fresh(values)
      ensures cells == old(cells) && keys == old(keys) && len == old(len) && Items() == old(Items())
      ensures size == old(size) || (old(size) == old(len) && size == old(size) + ARRAY_GROWTH)
    {
      if size <= len {
        size := size + ARRAY_GROWTH;
        var grown := new Cell?[size + 1](_ => null);
        if values != null {
          forall i | 0 <= i < len { grown[i] := values[i]; }
        }
        values := grown;
      }
    }

    // The table and the vector agree with the elements about where a key is.
    method SymtabLookup(key: string) returns (c: Cell?)
      requires Valid()
      ensures c == null ==> key !in keys && FindKey(Items(), key) == len
      ensures c != null ==> key in keys && c == keys[key] && c.symbol == Some(key)
      ensures c != null ==> FindKey(Items(), key) < len && cells[FindKey(Items(), key)] == c
    {
      c := if key in keys then keys[key] else null;
      ghost var i := FindKey(Items(), key);
      if i < len { assert Items()[i].key == cells[i].symbol; }
      if c != null {
        ghost var j :| 0 <= j < len && cells[j] == c;
        assert Items()[j].key == Some(key);
      }
    }

    // A cell goes after the last one, into the table too if it has a key.
    method Append(c: Cell)
      requires Valid() && len < size && values != null && c !in cells
      requires c.symbol.Some? ==> c.symbol.value !in keys
      modifies this, values
      ensures Valid() && values == old(values) && cells == old(cells) + [c]
      ensures c.symbol.None? ==> keys == old(keys)
      ensures Items() == old(Items()) + [Item(c.symbol, c.v)]
    {
      if c.symbol.Some? {
        keys := keys[c.symbol.value := c];
      }
      values[len] := c;
      len := len + 1;
      values[len] := null;
      cells := cells + [c];
    }

    method Overwrite(c: Cell, ghost i: nat, v: Data)
      requires Valid() && i < len && cells[i] == c
      modifies c
      ensures Valid() && Items() == old(Items())[i := Item(old(Items())[i].key, v)]
    {
      c.v := v;
    }

    method AddToKeyArray(key: string, v: Data)
      requires Valid()
      modifies this, values, cells
      ensures Valid() && old(cells) <= cells && fresh(cells[|old(cells)|..])
      ensures values == old(values) || fresh(values)
      ensures Items() == SetKey(old(Items()), key, v)
    {
      hide FindKey;
      Grow();
      var c := SymtabLookup(key);
      if c != null {
        Overwrite(c, FindKey(Items(), key), v);
      } else {
        AppendNew(Some(key), v);
      }
    }

    method AppendNew(symbol: Option<string>, v: Data)
      requires Valid() && len < size && values != null
      requires symbol.Some? ==> symbol.value !in keys
      modifies this, values
      ensures Valid() && values == old(values) && old(cells) <= cells && fresh(cells[|old(cells)|..])
      ensures symbol.None? ==> keys == old(keys)
      ensures Items() == old(Items()) + [Item(symbol, v)]
    {
      var c := new Cell(symbol, v);
      assert c !in cells;
      Append(c);
    }

    method AddToArray(v: Data)
      requires Valid()
      modifies this, values
      ensures Valid() && old(cells) <= cells && fresh(cells[|old(cells)|..]) && keys == old(keys)
      ensures values == old(values) || fresh(values)
      ensures Items() == Add(old(Items()), v)
    {
      Grow();
      AppendNew(None, v);
    }

    method SetKeyArray(key: string, v: Data)
      requires Valid()
      modifies this, values, cells
      ensures Valid() && old(cells) <= cells && fresh(cells[|old(cells)|..])
      ensures Items() == SetKey(old(Items()), key, v)
    {
      var c := SymtabLookup(key);
      if c != null {
        Overwrite(c, FindKey(Items(), key), v);
      } else {
        AddToKeyArray(key, v);
      }
    }

    // The missing positions before one are filled with voids.
    method Fill(p: nat)
      requires Valid()
      modifies this, values
      ensures Valid() && old(cells) <= cells && fresh(cells[|old(cells)|..]) && keys == old(keys)
      ensures values == old(values) || fresh(values)
      ensures Items() == Padded(old(Items()), p)
    {
      while p > len
        invariant Valid() && old(cells) <= cells && fresh(cells[|old(cells)|..]) && keys == old(keys)
        invariant values == old(values) || fresh(values)
        invariant Padded(Items(), p) == Padded(old(Items()), p)
        decreases p - len
      {
        ghost var before := cells;
        AddToArray(Void);
        assert cells[|old(cells)|..] == before[|old(cells)|..] + cells[|before|..];
      }
    }

    method SetArray(pos: int, v: Data)
      requires Valid()
      modifies this, values, cells
      ensures Valid() && old(cells) <= cells && fresh(cells[|old(cells)|..]) && keys == old(keys)
      ensures Items() == SetAt(old(Items()), pos, v)
    {
      hide Padded;
      var p := pos;
      if p < 0 { p := len + p; }
      if p < 0 { p := 0; }
      Fill(p);
      if p == len {
        ghost var before := cells;
        AddToArray(v);
        assert cells[|old(cells)|..] == before[|old(cells)|..] + cells[|before|..];
      } else {
        var c := values[p];
        Overwrite(c, p, v);
      }
    }

    method GetKeyArray(key: string) returns (v: Data)
      requires Valid()
      ensures v == GetKey(Items(), key)
    {
      var c := SymtabLookup(key);
      if c != null { v := c.v; } else { v := Void; }
    }

    method GetArray(pos: int) returns (v: Data)
      requires Valid()
      ensures v == GetAt(Items(), pos)
    {
      var p := if pos < 0 then len + pos else pos;
      if p < 0 || p > len - 1 { return Void; }
      v := values[p].v;
    }

    method DeleteKeyArray(key: string)
      requires Valid()
      modifies cells
      ensures Valid() && Items() == DeleteKey(old(Items()), key)
    {
      var c := SymtabLookup(key);
      if c != null { Overwrite(c, FindKey(Items(), key), Void); }
    }

    method DeleteArray(pos: int)
      requires Valid()
      modifies cells
      ensures Valid() && Items() == DeleteAt(old(Items()), pos)
    {
      var p := if pos < 0 then len + pos else pos;
      if p < 0 || p >= len { return; }
      var c := values[p];
      Overwrite(c, p, Void);
    }
  }
}
