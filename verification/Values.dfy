/** The nested data a YAML file loads to, and how a path reads it. */
module Values {
  datatype Option<+T> = None | Some(value: T)

  /** A loaded YAML value.  Everything that is not a `Map` is a leaf to the merge. */
  datatype Value =
    | Null
    | Bool(b: bool)
    | Int(n: int)
    | Str(s: string)
    | List(xs: seq<Value>)
    | Map(m: map<string, Value>)

  type Path = seq<string>

  const EMPTY := Map(map[])

  /** What stands at `p`, mapping or leaf. */
  function Get(v: Value, p: Path): Option<Value> {
    if p == [] then Some(v)
    else if v.Map? && p[0] in v.m then Get(v.m[p[0]], p[1..])
    else None
  }

  /** The leaf a consumer reads at `p`; a mapping is not a leaf. */
  function Resolve(v: Value, p: Path): Option<Value> {
    var got := Get(v, p);
    if got.Some? && !got.value.Map? then got else None
  }

  /** A layer speaks at `p` when it holds a value there, or a leaf on the way. */
  predicate Speaks(v: Value, p: Path) {
    p == [] || !v.Map? || (p[0] in v.m && Speaks(v.m[p[0]], p[1..]))
  }

  function Child(v: Value, k: string): Value {
    if v.Map? && k in v.m then v.m[k] else EMPTY
  }
}
