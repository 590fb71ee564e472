/** The order on values (libintend/libeval/eval_order.c) and the test for a sorted array
    (libintend/libstdlib/array.c). */
module Ordering {
  import opened Wrappers
  import opened Data
  import opened Casts

  datatype Order = Smaller | Equal | Larger | Unknown

  function CompareBools(a: bool, b: bool): Order {
    if !a && b then Smaller else if a && !b then Larger else Equal
  }

  function CompareInts(a: int, b: int): Order {
    if a < b then Smaller else if a > b then Larger else Equal
  }

  function CompareFloats(a: real, b: real): Order {
    if a < b then Smaller else if a > b then Larger else Equal
  }

  // The sign of the first difference among the first n bytes.
  function Memcmp(a: string, b: string, n: nat): int
    requires n <= |a| && n <= |b|
    decreases n
  {
    if n == 0 then 0
    else if a[0] < b[0] then -1
    else if a[0] > b[0] then 1
    else Memcmp(a[1..], b[1..], n - 1)
  }

  // By length first, which a difference in the common part then overrules.
  function CompareStrings(a: string, b: string): Order {
    if a == [] && b == [] then Equal
    else if a == [] then Smaller
    else if b == [] then Larger
    else
      var min := if |a| > |b| then |b| else |a|;
      var byLength := if |a| > |b| then Larger else if |a| < |b| then Smaller else Equal;
      var tmp := Memcmp(a, b, min);
      if tmp < 0 then Smaller else if tmp > 0 then Larger else byLength
  }

  // Values of one type; functions are equal or not, and nothing else has an order.
  function GetOrder(a: Data, b: Data): Order
    requires TypeOf(a) == TypeOf(b)
  {
    match a
    case Void => Equal
    case Bool(x) => CompareBools(x, b.b)
    case Int(x) => CompareInts(x, b.i)
    case Float(x) => CompareFloats(x, b.f)
    case Str(x) => CompareStrings(x, b.s)
    case Fn(x) => if x == b.sig then Equal else Unknown
    case _ => Unknown
  }

  predicate OrderEqual(a: Data, b: Data) {
    TypeOf(a) == TypeOf(b) && GetOrder(a, b) == Equal
  }

  predicate OrderNotEqual(a: Data, b: Data) {
    TypeOf(a) != TypeOf(b) || GetOrder(a, b) != Equal
  }

  predicate OrderSeq(a: Data, b: Data)
    requires TypeOf(a) == TypeOf(b)
  {
    GetOrder(a, b) == Smaller || GetOrder(a, b) == Equal
  }

  predicate OrderLeq(a: Data, b: Data)
    requires TypeOf(a) == TypeOf(b)
  {
    GetOrder(a, b) == Larger || GetOrder(a, b) == Equal
  }

  predicate OrderSmaller(a: Data, b: Data)
    requires TypeOf(a) == TypeOf(b)
  {
    GetOrder(a, b) == Smaller
  }

  predicate OrderLarger(a: Data, b: Data)
    requires TypeOf(a) == TypeOf(b)
  {
    GetOrder(a, b) == Larger
  }

  // ---- the order is total ----

  // Strings as in a dictionary: at the first difference, and a prefix before what it begins.
  predicate Before(a: string, b: string) {
    if a == [] then true
    else if b == [] then false
    else if a[0] != b[0] then a[0] < b[0]
    else Before(a[1..], b[1..])
  }

  lemma {:induction false} StringOrder(a: string, b: string)
    ensures CompareStrings(a, b) == if a == b then Equal else if Before(a, b) then Smaller else Larger
    decreases |a|
  {
    if a != [] && b != [] {
      if a[0] == b[0] {
        StringOrder(a[1..], b[1..]);
        assert a == b <==> a[1..] == b[1..] by {
          assert a == [a[0]] + a[1..] && b == [b[0]] + b[1..];
        }
      }
    }
  }

  lemma {:induction false} BeforeTotal(a: string, b: string)
    ensures Before(a, b) || Before(b, a)
    ensures Before(a, b) && Before(b, a) ==> a == b
    ensures Before(a, a)
    decreases |a| + |b|
  {
    if a != [] && b != [] {
      BeforeTotal(a[1..], b[1..]);
      assert a == [a[0]] + a[1..] && b == [b[0]] + b[1..];
    } else if a != [] {
      BeforeTotal(a[1..], b);
    }
  }

  lemma {:induction false} BeforeTransitive(a: string, b: string, c: string)
    requires Before(a, b) && Before(b, c)
    ensures Before(a, c)
    decreases |a|
  {
    if a != [] && a[0] == b[0] && b[0] == c[0] { BeforeTransitive(a[1..], b[1..], c[1..]); }
  }

  // The types that have an order.
  predicate Orderable(t: Type) {
    t == VoidType || t == BoolType || t == IntType || t == FloatType || t == StrType
  }

  // Any two values are the same, or in one order or the other, and the six operators say which.
  lemma OrderIsTotal(a: Data, b: Data)
    requires TypeOf(a) == TypeOf(b) && Orderable(TypeOf(a))
    ensures GetOrder(a, b) != Unknown
    ensures GetOrder(a, b) == Equal <==> a == b
    ensures GetOrder(a, b) == Smaller <==> GetOrder(b, a) == Larger
    ensures OrderEqual(a, b) <==> a == b
    ensures OrderNotEqual(a, b) <==> a != b
    ensures OrderSeq(a, b) <==> !OrderLarger(a, b)
    ensures OrderLeq(a, b) <==> !OrderSmaller(a, b)
    ensures OrderSeq(a, b) <==> OrderLeq(b, a)
    ensures OrderSmaller(a, b) <==> OrderSeq(a, b) && a != b
  {
    if a.Str? {
      StringOrder(a.s, b.s);
      StringOrder(b.s, a.s);
      BeforeTotal(a.s, b.s);
    }
  }

  lemma OrderTransitive(a: Data, b: Data, c: Data)
    requires TypeOf(a) == TypeOf(b) == TypeOf(c)
    requires OrderSeq(a, b) && OrderSeq(b, c)
    ensures OrderSeq(a, c)
  {
    if a.Str? {
      StringOrder(a.s, b.s);
      StringOrder(b.s, c.s);
      StringOrder(a.s, c.s);
      BeforeTotal(a.s, a.s);
      BeforeTotal(c.s, c.s);
      BeforeTransitive(a.s, b.s, c.s);
    }
  }

  // ---- sorted arrays ----

  // The comparison that sorting uses: the second value is cast to the type of the first.  None
  // is the end of the process, by a cast that is fatal where no state can be marked.
  function Compar(a: Data, b: Data, fmt: Formats): Option<int> {
    var (b1, died) := if TypeOf(a) != TypeOf(b) then Cast(b, TypeOf(a), fmt) else (b, false);
    if died then None else Some(if OrderSeq(a, b1) then -1 else 1)
  }

  // The neighbours from an index on, up to the first that are out of order.
  function SortedFrom(items: seq<Item>, i: nat, fmt: Formats): Option<bool>
    decreases |items| - i
  {
    if i + 1 >= |items| then Some(true)
    else
      var res :- Compar(items[i].value, items[i + 1].value, fmt);
      if res > 0 then Some(false) else SortedFrom(items, i + 1, fmt)
  }

  method ArrayIsSorted(items: seq<Item>, fmt: Formats) returns (sorted: Option<bool>)
    ensures sorted == SortedFrom(items, 0, fmt)
  {
    var max := |items|;
    var i := 0;
    while i < max - 1
      invariant 0 <= i && (i == 0 || i <= max - 1)
      invariant SortedFrom(items, i, fmt) == SortedFrom(items, 0, fmt)
    {
      var res := Compar(items[i].value, items[i + 1].value, fmt);
      if res.None? { return None; }
      if res.value > 0 { return Some(false); }
      i := i + 1;
    }
    sorted := Some(true);
  }

  predicate OfType(items: seq<Item>, t: Type) {
    forall i :: 0 <= i < |items| ==> TypeOf(items[i].value) == t
  }

  predicate AllInOrder(items: seq<Item>, t: Type)
    requires OfType(items, t)
  {
    forall i, j :: 0 <= i < j < |items| ==> OrderSeq(items[i].value, items[j].value)
  }

  lemma {:induction false} SortedFromNeighbours(items: seq<Item>, t: Type, fmt: Formats, i: nat)
    requires OfType(items, t)
    ensures SortedFrom(items, i, fmt)
         == Some(forall j :: i <= j < |items| - 1 ==> OrderSeq(items[j].value, items[j + 1].value))
    decreases |items| - i
  {
    hide GetOrder;
    if i + 1 < |items| {
      SortedFromNeighbours(items, t, fmt, i + 1);
      if OrderSeq(items[i].value, items[i + 1].value)
         && forall j :: i + 1 <= j < |items| - 1 ==> OrderSeq(items[j].value, items[j + 1].value) {
        forall j | i <= j < |items| - 1 ensures OrderSeq(items[j].value, items[j + 1].value) {}
      }
    }
  }

  lemma {:induction false} NeighboursReach(items: seq<Item>, t: Type, i: nat, j: nat)
    requires OfType(items, t) && i < j < |items|
    requires forall k :: 0 <= k < |items| - 1 ==> OrderSeq(items[k].value, items[k + 1].value)
    ensures OrderSeq(items[i].value, items[j].value)
    decreases j - i
  {
    hide GetOrder;
    assert OrderSeq(items[j - 1].value, items[j - 1 + 1].value);
    if i < j - 1 {
      NeighboursReach(items, t, i, j - 1);
      OrderTransitive(items[i].value, items[j - 1].value, items[j].value);
    }
  }

  // On an array of one type, whichever it is, testing neighbours decides all pairs.
  lemma SortedMeansAllPairs(items: seq<Item>, t: Type, fmt: Formats)
    requires OfType(items, t)
    ensures SortedFrom(items, 0, fmt) == Some(AllInOrder(items, t))
  {
    hide GetOrder;
    SortedFromNeighbours(items, t, fmt, 0);
    if forall k :: 0 <= k < |items| - 1 ==> OrderSeq(items[k].value, items[k + 1].value) {
      forall i, j | 0 <= i < j < |items| ensures OrderSeq(items[i].value, items[j].value) {
        NeighboursReach(items, t, i, j);
      }
    }
    if AllInOrder(items, t) {
      forall k | 0 <= k < |items| - 1 ensures OrderSeq(items[k].value, items[k + 1].value) {}
    }
  }

  // What that comes to for the types without an order: functions are sorted when they are all the
  // same one, and the others when there is at most one element.
  lemma UnorderedNeverSorted(items: seq<Item>, t: Type, fmt: Formats)
    requires OfType(items, t) && !Orderable(t)
    ensures t != FnType ==> SortedFrom(items, 0, fmt) == Some(|items| <= 1)
    ensures t == FnType ==>
              SortedFrom(items, 0, fmt) == Some(forall i, j :: 0 <= i < j < |items| ==> items[i].value == items[j].value)
  {
    SortedMeansAllPairs(items, t, fmt);
    if |items| > 1 { assert OrderSeq(items[0].value, items[1].value) ==> t == FnType; }
  }

  // On mixed types it does not: void is between any two numbers.
  lemma MixedTypesMislead(fmt: Formats)
    ensures var items := [Item(None, Int(0)), Item(None, Void), Item(None, Int(-1))];
            SortedFrom(items, 0, fmt) == Some(true) && !OrderSeq(items[0].value, items[2].value)
  {
    var items := [Item(None, Int(0)), Item(None, Void), Item(None, Int(-1))];
    assert Compar(items[0].value, items[1].value, fmt) == Some(-1);
    assert Compar(items[1].value, items[2].value, fmt) == Some(-1);
    assert SortedFrom(items, 2, fmt) == Some(true);
    assert SortedFrom(items, 1, fmt) == Some(true);
  }

  // ---- which way the order goes ----

  // False is below true, numbers are ordered as numbers are.
  lemma OrderOfScalars(a: bool, b: bool, x: int, y: int, p: real, q: real)
    ensures GetOrder(Bool(a), Bool(b)) == Smaller <==> !a && b
    ensures GetOrder(Int(x), Int(y)) == Smaller <==> x < y
    ensures GetOrder(Float(p), Float(q)) == Smaller <==> p < q
    ensures GetOrder(Bool(a), Bool(b)) == Larger <==> a && !b
    ensures GetOrder(Int(x), Int(y)) == Larger <==> x > y
    ensures GetOrder(Float(p), Float(q)) == Larger <==> p > q
  {
  }

  lemma {:induction false} BeforePrefix(p: string, a: string, b: string)
    ensures Before(p + a, p + b) <==> Before(a, b)
    decreases |p|
  {
    if p == [] {
      assert p + a == a && p + b == b;
    } else {
      assert (p + a)[1..] == p[1..] + a && (p + b)[1..] == p[1..] + b && (p + a)[0] == (p + b)[0] == p[0];
      BeforePrefix(p[1..], a, b);
    }
  }

  // At the first difference the smaller character comes first, and what only goes on comes later.
  lemma OrderOfStrings(p: string, x: char, y: char, a: string, b: string)
    requires x < y
    ensures GetOrder(Str(p + [x] + a), Str(p + [y] + b)) == Smaller
    ensures GetOrder(Str(p + [y] + b), Str(p + [x] + a)) == Larger
    ensures GetOrder(Str(p), Str(p + [x] + a)) == Smaller
  {
    var (s, t) := ([x] + a, [y] + b);
    assert p + [x] + a == p + s && p + [y] + b == p + t && p + [] == p;
    assert s[0] != t[0];
    assert p + s != p + t by { assert (p + s)[|p|] == x && (p + t)[|p|] == y; }
    assert p + s != p by { assert |p + s| > |p|; }
    BeforePrefix(p, s, t);
    BeforePrefix(p, t, s);
    BeforePrefix(p, [], s);
    StringOrder(p + s, p + t);
    StringOrder(p + t, p + s);
    StringOrder(p, p + s);
  }

  // Values of two types are compared in the type of the first, if the other can be cast to it.
  lemma ComparCasts(a: Data, b: Data, fmt: Formats)
    ensures TypeOf(a) == TypeOf(b) ==> Compar(a, b, fmt) == Some(if OrderSeq(a, b) then -1 else 1)
    ensures TypeOf(a) != TypeOf(b) && TypeOf(a) != FnType && TypeOf(a) != ResType ==>
              Compar(a, b, fmt) == Compar(a, Cast(b, TypeOf(a), fmt).0, fmt)
    ensures TypeOf(a) != TypeOf(b) && (TypeOf(a) == FnType || TypeOf(a) == ResType) ==> Compar(a, b, fmt) == None
  {
  }
}
