/** Casts between value types (libintend/libruntime/value_cast.c).  How numbers are read from
    text and written to it is a parameter. */
module Casts {
  import opened Wrappers
  import opened Data

  datatype Formats = Formats(intOf: string -> int, floatOf: string -> real, intText: int -> string, floatText: real -> string)

  // C's conversion of a float to an int drops the fraction.
  function Trunc(f: real): int {
    if f < 0.0 then -((-f).Floor) else f.Floor
  }

  function CastToBool(v: Data): bool {
    match v
    case Void => false
    case Bool(b) => b
    case Int(i) => i != 0
    case Float(f) => Trunc(f) != 0
    case Str(s) => s != []
    case Arr(items) => items != []
    case Struct(fields) => |fields| > 0
    case Fn(_) => true
    case Res(_) => true
  }

  function CastToInt(v: Data, fmt: Formats): int {
    match v
    case Void => 0
    case Bool(b) => if b then 1 else 0
    case Int(i) => i
    case Float(f) => Trunc(f)
    case Str(s) => if s == [] then 0 else fmt.intOf(s)
    case Arr(items) => |items|
    case Struct(fields) => |fields|
    case Fn(_) => 1
    case Res(_) => 1
  }

  function CastToFloat(v: Data, fmt: Formats): real {
    match v
    case Float(f) => f
    case Str(s) => if s == [] then 0.0 else fmt.floatOf(s)
    case _ => CastToInt(v, fmt) as real
  }

  function CastToStr(v: Data, fmt: Formats): string
    decreases v
  {
    match v
    case Void => ""
    case Bool(b) => if b then "1" else ""
    case Int(i) => fmt.intText(i)
    case Float(f) => fmt.floatText(f)
    case Str(s) => s
    case Arr(items) => ItemsToStr(items, fmt)
    case Struct(_) => "struct"
    case Fn(_) => "function"
    case Res(_) => "resource"
  }

  // An array is the text of its elements, one after the other.
  function ItemsToStr(items: seq<Item>, fmt: Formats): string
    decreases items
  {
    if items == [] then "" else ItemToStr(items[0], fmt) + ItemsToStr(items[1..], fmt)
  }

  function ItemToStr(item: Item, fmt: Formats): string
    decreases item
  {
    CastToStr(item.value, fmt)
  }

  function Characters(s: string): seq<Item> {
    if s == [] then [] else [Item(None, Str([s[0]]))] + Characters(s[1..])
  }

  function CastToArr(v: Data): seq<Item> {
    match v
    case Arr(items) => items
    case Str(s) => Characters(s)
    case _ => [Item(None, v)]
  }

  function CastToStruct(v: Data): map<string, Data> {
    if v.Struct? then v.fields else map["value" := v]
  }

  // The cast value, and whether the cast was fatal: only a function is a function, and only a
  // resource a resource.
  function Cast(v: Data, t: Type, fmt: Formats): (r: (Data, bool))
    ensures TypeOf(r.0) == t || r.1
    ensures r.1 <==> (t == FnType || t == ResType) && TypeOf(v) != t
    ensures TypeOf(v) == t && t != VoidType ==> r.0 == v
  {
    match t
    case VoidType => (Void, false)
    case BoolType => (Bool(CastToBool(v)), false)
    case IntType => (Int(CastToInt(v, fmt)), false)
    case FloatType => (Float(CastToFloat(v, fmt)), false)
    case StrType => (Str(CastToStr(v, fmt)), false)
    case ArrType => (Arr(CastToArr(v)), false)
    case StructType => (Struct(CastToStruct(v)), false)
    case FnType => (v, !v.Fn?)
    case ResType => (v, !v.Res?)
  }

  // ---- what casts give ----

  // What is true is what is not zero as a number, but for strings, which are true unless empty.
  lemma TruthOfValues(v: Data, fmt: Formats)
    ensures !v.Str? ==> (CastToBool(v) <==> CastToInt(v, fmt) != 0)
    ensures v.Str? ==> (CastToBool(v) <==> |v.s| > 0)
    ensures v == Void || v == Bool(false) || v == Int(0) || v == Str("") || v == Arr([]) || v == Struct(map[]) ==>
              !CastToBool(v) && CastToInt(v, fmt) == 0
    ensures v.Fn? || v.Res? || v == Bool(true) || v == Int(1) ==> CastToBool(v) && CastToInt(v, fmt) == 1
  {
    if v.Struct? && |v.fields| == 0 { assert v.fields == map[]; }
  }

  // Containers count as their number of elements.
  lemma SizeOfValues(items: seq<Item>, fields: map<string, Data>, fmt: Formats)
    ensures Cast(Arr(items), IntType, fmt) == (Int(|items|), false)
    ensures Cast(Struct(fields), IntType, fmt) == (Int(|fields|), false)
  {
  }

  // A float loses its fraction, toward zero.
  lemma TruncLaws(f: real)
    ensures f >= 0.0 ==> Trunc(f) as real <= f < Trunc(f) as real + 1.0 && Trunc(f) >= 0
    ensures f <= 0.0 ==> Trunc(f) as real - 1.0 < f <= Trunc(f) as real && Trunc(f) <= 0
  {
  }

  // There and back: truth values through numbers, strings and arrays of them, integers through
  // floats.
  lemma CastsBack(b: bool, i: int, fmt: Formats)
    ensures Cast(Cast(Bool(b), IntType, fmt).0, BoolType, fmt) == (Bool(b), false)
    ensures Cast(Cast(Bool(b), StrType, fmt).0, BoolType, fmt) == (Bool(b), false)
    ensures Cast(Cast(Int(i), FloatType, fmt).0, IntType, fmt) == (Int(i), false)
    ensures Cast(Bool(true), StrType, fmt).0 == Str("1") && Cast(Void, StrType, fmt).0 == Str("")
    ensures Cast(Int(i), StrType, fmt).0 == Str(fmt.intText(i))
  {
  }

  // A string that is cast to an array is its characters in order, and comes back as it was.
  lemma {:induction false} CharacterAt(s: string, i: nat)
    requires i < |s|
    ensures |Characters(s)| == |s| && Characters(s)[i] == Item(None, Str([s[i]]))
    decreases |s|
  {
    if i > 0 { CharacterAt(s[1..], i - 1); } else if |s| > 1 { CharacterAt(s[1..], 0); }
  }

  lemma {:induction false} CharactersBack(s: string, fmt: Formats)
    ensures CastToStr(Arr(Characters(s)), fmt) == s
    decreases |s|
  {
    var items := Characters(s);
    assert CastToStr(Arr(items), fmt) == ItemsToStr(items, fmt);
    if s != [] {
      CharactersBack(s[1..], fmt);
      assert items[0] == Item(None, Str([s[0]])) && items[1..] == Characters(s[1..]);
      assert CastToStr(Str([s[0]]), fmt) == [s[0]];
      assert ItemToStr(items[0], fmt) == [s[0]];
      assert CastToStr(Arr(items[1..]), fmt) == ItemsToStr(items[1..], fmt);
      assert [s[0]] + s[1..] == s;
    }
  }

  lemma StringsBack(s: string, fmt: Formats)
    ensures Cast(Cast(Str(s), ArrType, fmt).0, StrType, fmt) == (Str(s), false)
  {
    CharactersBack(s, fmt);
  }

  // Any other value becomes the one element, or the one field, of what it is cast to.
  lemma WrappedValues(v: Data, fmt: Formats)
    ensures !v.Arr? && !v.Str? ==> Cast(v, ArrType, fmt) == (Arr([Item(None, v)]), false)
    ensures !v.Struct? ==> Cast(v, StructType, fmt) == (Struct(map["value" := v]), false)
    ensures Cast(v, VoidType, fmt) == (Void, false)
  {
  }

  // Text is read and numbers are written by the formats, but for the empty text, which is zero.
  lemma TextOfValues(s: string, b: bool, f: real, fmt: Formats)
    ensures Cast(Str(s), IntType, fmt).0 == Int(if s == "" then 0 else fmt.intOf(s))
    ensures Cast(Str(s), FloatType, fmt).0 == Float(if s == "" then 0.0 else fmt.floatOf(s))
    ensures Cast(Float(f), StrType, fmt).0 == Str(fmt.floatText(f))
    ensures Cast(Bool(b), FloatType, fmt).0 == Float(if b then 1.0 else 0.0)
  {
  }

  // An array's text is that of its first element and then of the rest.
  lemma TextOfArrays(items: seq<Item>, item: Item, fmt: Formats)
    ensures CastToStr(Arr([]), fmt) == ""
    ensures CastToStr(Arr([item] + items), fmt) == CastToStr(item.value, fmt) + CastToStr(Arr(items), fmt)
  {
    assert ([item] + items)[1..] == items;
    assert CastToStr(Arr([item] + items), fmt) == ItemsToStr([item] + items, fmt);
    assert CastToStr(Arr(items), fmt) == ItemsToStr(items, fmt);
    assert ItemToStr(item, fmt) == CastToStr(item.value, fmt);
  }
}
