/** JSON values as read by `require`/`JSON.parse`, and deepmerge's notion of a mergeable value. */
module JsonValues {

  /** A JSON value. Numbers are integers here: the manifests and catalogs use no fractions. */
  datatype Json =
    | Null
    | Bool(b: bool)
    | Num(n: int)
    | Str(s: string)
    | Array(items: seq<Json>)
    | Object(fields: map<string, Json>)

  /** deepmerge's `isMergeableObject`: a non-null object, arrays included. */
  predicate IsMergeable(v: Json)
  {
    v.Array? || v.Object?
  }

  /** The `emptyTarget` helper of scripts/build.js: an empty array for an array, else an empty object. */
  function EmptyTarget(v: Json): (r: Json)
    ensures IsMergeable(r)
    ensures r == Array([]) || r == Object(map[])
    ensures r.Array? <==> v.Array?
  {
    if v.Array? then Array([]) else Object(map[])
  }
}
