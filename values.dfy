/** Decoded front-matter values and `convert`, the walk that turns maps
    keyed by arbitrary values into maps keyed by strings. */
module Values {

  /** The keys a YAML decoder may produce for a map: strings, and the other
      scalars YAML allows as keys. */
  datatype Key = KString(s: string) | KInt(i: int) | KBool(b: bool)

  /** A decoded value: a scalar (string, number, boolean or null, kept as
      its text), a sequence, a map with arbitrary keys
      (`map[interface{}]interface{}`) or a map with string keys
      (`map[string]interface{}`). */
  datatype Value =
    | Scalar(text: string)
    | Seq(items: seq<Value>)
    | IMap(im: map<Key, Value>)
    | SMap(sm: map<string, Value>)

  /** `convert` succeeds on `v`: every arbitrary-keyed map it walks into has
      only string keys (any other key makes the assertion `k.(string)`
      panic). Only maps and sequences are walked into; scalars and
      string-keyed maps are left as they are. */
  predicate Convertible(v: Value) {
    match v
    case Scalar(_) => true
    case SMap(_) => true
    case Seq(xs) => forall i :: 0 <= i < |xs| ==> Convertible(xs[i])
    case IMap(m) => forall k :: k in m ==> k.KString? && Convertible(m[k])
  }

  /** No arbitrary-keyed map can be reached from `v` through arbitrary-keyed
      maps and sequences. */
  predicate Normalized(v: Value) {
    match v
    case Scalar(_) => true
    case SMap(_) => true
    case Seq(xs) => forall i :: 0 <= i < |xs| ==> Normalized(xs[i])
    case IMap(_) => false
  }

  /** `convert`. */
  function Convert(v: Value): (r: Value)
    requires Convertible(v)
    ensures Normalized(r)
    ensures v.IMap? ==> r.SMap? && r.sm.Keys == set k | k in v.im :: k.s
    ensures v.IMap? ==> forall s :: s in r.sm ==> KString(s) in v.im && r.sm[s] == Convert(v.im[KString(s)])
    ensures v.Seq? ==> r.Seq? && |r.items| == |v.items|
    ensures v.Seq? ==> forall i :: 0 <= i < |v.items| ==> r.items[i] == Convert(v.items[i])
    ensures v.Scalar? || v.SMap? ==> r == v
  {
    match v
    case IMap(m) => SMap(map k | k in m :: k.s := Convert(m[k]))
    case Seq(xs) => Seq(seq(|xs|, i requires 0 <= i < |xs| => Convert(xs[i])))
    case _ => v
  }

  /** A value that is already normalized is convertible and left unchanged. */
  lemma {:induction false} ConvertFixesNormalized(v: Value)
    requires Normalized(v)
    ensures Convertible(v) && Convert(v) == v
  {
    match v
    case Scalar(_) =>
    case SMap(_) =>
    case Seq(xs) =>
      forall i | 0 <= i < |xs|
        ensures Convertible(xs[i]) && Convert(xs[i]) == xs[i]
      {
        ConvertFixesNormalized(xs[i]);
      }
      assert Convert(v).items == xs;
  }

  /** Converting twice is converting once. */
  lemma ConvertIdempotent(v: Value)
    requires Convertible(v)
    ensures Convertible(Convert(v)) && Convert(Convert(v)) == Convert(v)
  {
    ConvertFixesNormalized(Convert(v));
  }
}
