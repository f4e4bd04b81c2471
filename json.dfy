/** JSON values as the HTTP layer hands them to the store (parsed request bodies)
    and as the store hands them back (response bodies). */
module Json {

  /** A JSON value. Numbers are kept as exact reals; an object is an unordered
      map from member names to values. */
  datatype Json =
    | Null
    | Bool(b: bool)
    | Num(n: real)
    | Str(s: string)
    | Arr(items: seq<Json>)
    | Obj(fields: map<string, Json>)
}
