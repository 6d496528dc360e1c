/** The dynamic values that queries read and schemas validate. */
module Values {

  datatype Option<T> = None | Some(value: T) {
    function UnwrapOr(default: T): T {
      if None? then default else value
    }
  }

  /** The numeric types of the source language. Numbers are exact. */
  datatype NumKind =
    | Float64 | Float32 | Int | Int8 | Int16 | Int32 | Int64 | Uint | Uint8 | Uint16 | Uint32 | Uint64

  datatype Value =
    | Null
    | Bool(b: bool)
    | Num(kind: NumKind, r: real)
    | Str(s: string)
    | List(items: seq<Value>)
    | Map(entries: map<string, Value>)
}
