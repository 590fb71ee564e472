/** The bucket of a symbol: FNV-1a folded to the order of the table
    (libintend/libruntime/symtab_entry.c). */
module SymtabHash {

  // The number that a word's low n bits spell.
  function Number(x: bv32, n: nat): (r: nat)
    requires n <= 32
    ensures r < Buckets(n)
  {
    if n == 0 then 0
    else Number(x, n - 1) + if x & (1 << (n - 1)) != 0 then Buckets(n - 1) else 0
  }

  // How many buckets a table of this order has: 2 to the order.
  function Buckets(order: nat): (r: nat)
    ensures r > 0
  {
    if order == 0 then 1 else 2 * Buckets(order - 1)
  }

  // A plain char is signed, so that bytes from 128 on reach the hash with their high bits set.
  function SignExtend(c: char): bv32 {
    var byte := (c as int % 256) as bv32;
    if byte & 0x80 != 0 then byte | 0xFFFF_FF00 else byte
  }

  function Mix(hval: bv32, c: char): bv32 {
    (hval ^ SignExtend(c)) * 0x0100_0193
  }

  function Fnv1a(s: string, hval: bv32): bv32 {
    if s == [] then hval else Fnv1a(s[1..], Mix(hval, s[0]))
  }

  function Fold(hash: bv32, order: nat): bv32
    requires 1 <= order <= 31
  {
    (hash ^ (hash >> (32 - order))) & ((1 << order) - 1)
  }

  function Hash(symbol: string, order: nat): nat
    requires 1 <= order <= 31
  {
    Number(Fold(Fnv1a(symbol, 0), order), 32)
  }

  // Bits that the mask clears add nothing.
  lemma {:induction false} MaskedNumber(x: bv32, order: nat, n: nat)
    requires order <= n <= 32 && order <= 31
    ensures Number(x & ((1 << order) - 1), n) == Number(x & ((1 << order) - 1), order)
    decreases n
  {
    if n > order {
      MaskedNumber(x, order, n - 1);
      ClearBit(x, order, n - 1);
    }
  }

  lemma ClearBit(x: bv32, order: nat, n: nat)
    requires order <= n < 32
    ensures (x & ((1 << order) - 1)) & (1 << n) == 0
  {
  }

  lemma FoldBelow(hash: bv32, order: nat)
    requires 1 <= order <= 31
    ensures Number(Fold(hash, order), 32) < Buckets(order)
  {
    hide Number, Buckets;
    MaskedNumber(hash ^ (hash >> (32 - order)), order, 32);
  }

  lemma HashBelow(symbol: string, order: nat)
    requires 1 <= order <= 31
    ensures Hash(symbol, order) < Buckets(order)
  {
    hide Fnv1a, Number, Buckets, Fold;
    FoldBelow(Fnv1a(symbol, 0), order);
  }

  method ComputeFnv1a(str: string) returns (hval: bv32)
    ensures hval == Fnv1a(str, 0)
  {
    hide Mix;
    hval := 0;
    var i := 0;
    while i < |str|
      invariant 0 <= i <= |str|
      invariant Fnv1a(str[i..], hval) == Fnv1a(str, 0)
    {
      hval := Mix(hval, str[i]);
      i := i + 1;
      assert str[i - 1..][1..] == str[i..];
    }
  }

  // One more byte is mixed in last.
  lemma {:induction false} HashOneMore(s: string, c: char, hval: bv32)
    ensures Fnv1a(s + [c], hval) == Mix(Fnv1a(s, hval), c)
    decreases |s|
  {
    hide Mix;
    if s == [] {
      assert [c][1..] == [] && s + [c] == [c];
    } else {
      assert (s + [c])[0] == s[0] && (s + [c])[1..] == s[1..] + [c];
      HashOneMore(s[1..], c, Mix(hval, s[0]));
    }
  }

  // Known values: of letters, of a byte from 128 on, and of the fold at small and large orders.
  lemma KnownHashes()
    ensures Fnv1a("a", 0) == 0x6100_98B3
    ensures Fnv1a([200 as char], 0) == 0xC7FF_A7D8
  {
    assert "a"[1..] == "" && [200 as char][1..] == [];
  }

  lemma KnownHashOfTwo()
    ensures Fnv1a("ab", 0) == 0x84F0_9103
  {
    hide Fnv1a;
    KnownHashes();
    HashOneMore("a", 'b', 0);
    assert "a" + ['b'] == "ab";
  }

  lemma KnownFolds()
    ensures Fold(0xFF00_0001, 8) == 0xFE && Fold(0x8000_0000, 1) == 1
    ensures Fold(0x1234_5678, 31) == 0x1B2E_7D44
  {
  }
}
