/**
 * An abstract JSON value, the target of the wire encoding.  Object members
 * keep the order in which the encoder emits them (struct declaration order).
 */
module Json {

  datatype Json =
    | JNull
    | JBool(b: bool)
    | JNum(n: int)
    | JStr(s: string)
    | JArr(items: seq<Json>)
    | JObj(members: seq<(string, Json)>)
}
