/** JSON trees as `encoding/json` decodes them into `interface{}`, and the field
    paths of the structured-merge-diff library that point into them. */
module JsonValues {
  import opened Wrappers

  datatype Value =
    | Null
    | Bool(b: bool)
    | Num(n: real)
    | Str(s: string)
    | List(items: seq<Value>)
    | Map(fields: map<string, Value>)

  type Fields = map<string, Value>

  datatype PathElement =
    | Field(name: string)
    | Key(keys: Fields)
    | Val(value: Value)
    | Index(index: int)

  type Path = seq<PathElement>

  type PathSet = set<Path>

  ghost predicate AllFields(p: Path) {
    forall i | 0 <= i < |p| :: p[i].Field?
  }

  /** The value a path of field names leads to. Only maps have fields, so a path
      with a key, value or index element leads nowhere. */
  function Resolve(v: Value, p: Path): Option<Value> {
    if p == [] then Some(v)
    else if v.Map? && p[0].Field? && p[0].name in v.fields then Resolve(v.fields[p[0].name], p[1..])
    else None
  }

  lemma {:induction false} ResolveConcat(v: Value, p: Path, q: Path)
    ensures Resolve(v, p + q) == (match Resolve(v, p) case None => None case Some(w) => Resolve(w, q))
  {
    if p == [] {
      assert p + q == q;
    } else if v.Map? && p[0].Field? && p[0].name in v.fields {
      assert (p + q)[1..] == p[1..] + q;
      ResolveConcat(v.fields[p[0].name], p[1..], q);
    }
  }

  /** Some path of `s` is `p` or leads to it. */
  ghost predicate Covers(s: PathSet, p: Path) {
    exists q | q in s :: q <= p
  }

  // ---- k8s.io/apimachinery unstructured accessors ----

  datatype Lookup = Found(value: Value) | Missing | WrongType

  /** unstructured.NestedFieldNoCopy: a null on the way reads as missing, any other
      value that is not an object is an error. */
  function NestedField(v: Value, names: seq<string>): Lookup {
    if names == [] then Found(v)
    else match v
      case Null => Missing
      case Map(m) => if names[0] in m then NestedField(m[names[0]], names[1..]) else Missing
      case _ => WrongType
  }

  /** unstructured.NestedString with its error dropped, as every caller here does. */
  function NestedString(v: Value, names: seq<string>): string {
    match NestedField(v, names)
    case Found(Str(s)) => s
    case _ => ""
  }

  lemma NestedStringOne(v: Value, name: string)
    ensures NestedString(v, [name]) ==
            if v.Map? && name in v.fields && v.fields[name].Str? then v.fields[name].s else ""
  {
    assert [name] == [name] + [];
    NestedStep(v, name, []);
  }

  lemma NestedStep(v: Value, name: string, rest: seq<string>)
    ensures NestedField(v, [name] + rest) ==
            match v
            case Null => Missing
            case Map(m) => if name in m then NestedField(m[name], rest) else Missing
            case _ => WrongType
  {
  }

  /** unstructured.NestedSlice: None is the error, a missing list is empty. */
  function NestedSlice(v: Value, names: seq<string>): Option<seq<Value>> {
    match NestedField(v, names)
    case Found(List(items)) => Some(items)
    case Missing => Some([])
    case _ => None
  }

  /** unstructured.NestedStringSlice with its error dropped. */
  function NestedStringSlice(v: Value, names: seq<string>): seq<string> {
    match NestedField(v, names)
    case Found(List(items)) =>
      if forall x | x in items :: x.Str? then
        seq(|items|, i requires 0 <= i < |items| => if items[i].Str? then items[i].s else "")
      else []
    case _ => []
  }

  /** unstructured.NestedMap with its error dropped. */
  function NestedMap(v: Value, names: seq<string>): Fields {
    match NestedField(v, names)
    case Found(Map(m)) => m
    case _ => map[]
  }
}
