/** Parsed JSON.  Objects are maps: the order of keys is not observed. */
module JsonValues {
  datatype Json =
    | Null
    | Bool(b: bool)
    | Number(n: int)
    | Text(s: string)
    | Array(items: seq<Json>)
    | Object(fields: map<string, Json>)

  type Record = j: Json | j.Object? witness Object(map[])
}
