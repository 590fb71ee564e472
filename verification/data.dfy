/** Script values as a script sees them: what a value holds, without the cells that hold it. */
module Data {
  import opened Wrappers

  // Array elements carry a key or none; the table behind a struct maps names to values.
  datatype Data =
    | Void
    | Bool(b: bool)
    | Int(i: int)
    | Float(f: real)
    | Str(s: string)
    | Arr(items: seq<Item>)
    | Struct(fields: map<string, Data>)
    | Fn(sig: string)
    | Res(resource: nat)

  datatype Item = Item(key: Option<string>, value: Data)

  datatype Type = VoidType | BoolType | IntType | FloatType | StrType | ArrType | StructType | FnType | ResType

  function TypeOf(v: Data): Type {
    match v
    case Void => VoidType
    case Bool(_) => BoolType
    case Int(_) => IntType
    case Float(_) => FloatType
    case Str(_) => StrType
    case Arr(_) => ArrType
    case Struct(_) => StructType
    case Fn(_) => FnType
    case Res(_) => ResType
  }
}
