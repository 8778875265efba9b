/** JSON values as JavaScript holds them once they are parsed. */
module JsonTree {

  /** The entries of an object are its own enumerable properties in the order of
      Object.entries; their keys are distinct. */
  datatype Json =
    | Undefined
    | Null
    | Bool(b: bool)
    | Num(n: int)
    | Str(s: string)
    | Arr(items: seq<Json>)
    | Obj(entries: seq<Entry>)

  datatype Entry = Entry(key: string, value: Json)

  /** Assigning to this key of a fresh object sets its prototype, and makes no property. */
  const PROTO := "__proto__"
}
