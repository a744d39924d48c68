/**
 The values a widget's meta state is made of: schema-less, JSON-like trees
 whose inner nodes are string-keyed objects and whose leaves are scalars.
 Path lookup (`Get`) is the observation every law of the store is stated with.
 */
module MetaValues {

  datatype Option<+T> = None | Some(value: T)

  /** The JavaScript primitives a meta property can hold, except `undefined`.
      Numbers are kept as exact reals (floating-point rounding is not
      modelled). */
  datatype Scalar = Str(s: string) | Num(n: real) | Bool(b: bool) | Null

  /** A property value: a scalar leaf or a nested plain object. */
  datatype Val = Leaf(scalar: Scalar) | Obj(fields: map<string, Val>)

  /** The property object of one widget. */
  type Props = map<string, Val>

  /** A path of object keys, outermost first. */
  type Path = seq<string>

  const EmptyObj: Val := Obj(map[])

  /** The object fields of `v`, or none when `v` is a leaf: how lodash treats a
      non-object it has to descend into. */
  function FieldsOrEmpty(v: Val): (f: Props)
    ensures v.Obj? ==> f == v.fields
    ensures v.Leaf? ==> f == map[]
  {
    if v.Obj? then v.fields else map[]
  }

  /** The value reached from `v` by following `path`, if every step lands
      on an object that has the next key. */
  function Get(v: Val, path: Path): Option<Val>
    decreases |path|
  {
    if |path| == 0 then Some(v)
    else match v
      case Leaf(_) => None
      case Obj(f) => if path[0] in f then Get(f[path[0]], path[1..]) else None
  }

  /** `p` and `q` part ways: at the first index where they differ both still
      have a key, so neither is a prefix of the other. */
  predicate Diverge(p: Path, q: Path)
    decreases |p|
  {
    |p| > 0 && |q| > 0 && (p[0] != q[0] || Diverge(p[1..], q[1..]))
  }

  /** Looking up a concatenated path is looking up its parts in turn. */
  lemma {:induction false} GetAppend(v: Val, p: Path, q: Path)
    ensures Get(v, p + q) == match Get(v, p) case None => None case Some(w) => Get(w, q)
    decreases |p|
  {
    if |p| == 0 {
      assert p + q == q;
    } else {
      assert (p + q)[0] == p[0];
      assert (p + q)[1..] == p[1..] + q;
      if v.Obj? && p[0] in v.fields {
        GetAppend(v.fields[p[0]], p[1..], q);
      }
    }
  }
}
