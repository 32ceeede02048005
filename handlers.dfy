/** The entry points of `front.go` that decode the front matter:
    `JSONHandler`, `YAMLHandler`, and `JSONToMap`, `YAMLToMap` and
    `YAMLToJSON`, which run `splitFront` first. The JSON and YAML libraries
    are parameters: a decoder is any function from the front-matter text to
    a decoded value or an error message. */
module Handlers {
  import opened Bytes
  import opened Front
  import opened Values
  import opened Extraction

  /** What a library call returns: a value, or an error (its message). */
  datatype Decoded<T> = Decoded(value: T) | DecodeError(message: string)

  /** What a handler does: returns a value, returns an error, or panics. */
  datatype Handled<T> = Handled(value: T) | Failed(error: Error) | Panics

  /** What an entry point does: returns `(front, body, err)` with `front`
      possibly nil (`None`), or panics. */
  datatype Outcome<T> = Outcome(front: Option<T>, body: bytes, err: Option<Error>) | Panicked

  /** `map[string]interface{}` */
  type Object = map<string, Value>

  /** `JSONHandler`: the decoder's error is returned as is; a top-level
      object yields its map; any other top-level value fails the assertion
      `rst.(map[string]interface{})` and panics. */
  function JSONHandler(front: bytes, unmarshal: bytes -> Decoded<Value>): (r: Handled<Object>)
    ensures r.Failed? <==> unmarshal(front).DecodeError?
    ensures r.Failed? ==> r.error == Library(unmarshal(front).message)
    ensures r.Handled? <==> unmarshal(front).Decoded? && unmarshal(front).value.SMap?
    ensures r.Handled? ==> SMap(r.value) == unmarshal(front).value
  {
    match unmarshal(front)
    case DecodeError(msg) => Failed(Library(msg))
    case Decoded(v) => if v.SMap? then Handled(v.sm) else Panics
  }

  /** Some top-level value of `out` makes `convert` panic. */
  predicate Stuck(out: Object) {
    exists k :: k in out && !Convertible(out[k])
  }

  /** `res` is `out` with `convert` applied to every top-level value. */
  predicate ConvertedEach(out: Object, res: Object) {
    res.Keys == out.Keys &&
    forall k :: k in out ==> Convertible(out[k]) && res[k] == Convert(out[k])
  }

  /** `YAMLHandler`: decode, then overwrite every entry `out[k]` with
      `convert(out[k])`. The order in which Go visits the keys does not
      matter: the result is the same for every order, and so is a panic. */
  method YAMLHandler(front: bytes, unmarshal: bytes -> Decoded<Object>) returns (r: Handled<Object>)
    ensures r.Failed? <==> unmarshal(front).DecodeError?
    ensures r.Failed? ==> r.error == Library(unmarshal(front).message)
    ensures r.Panics? <==> unmarshal(front).Decoded? && Stuck(unmarshal(front).value)
    ensures r.Handled? ==> ConvertedEach(unmarshal(front).value, r.value)
    ensures r.Handled? ==> forall k :: k in r.value ==> Normalized(r.value[k])
  {
    var decoded := unmarshal(front);
    if decoded.DecodeError? {
      return Failed(Library(decoded.message));
    }
    var out := decoded.value;
    var pending := out.Keys;
    while pending != {}
      invariant pending <= decoded.value.Keys && out.Keys == decoded.value.Keys
      invariant forall k :: k in pending ==> out[k] == decoded.value[k]
      invariant forall k :: k in out && k !in pending ==>
        Convertible(decoded.value[k]) && out[k] == Convert(decoded.value[k])
      decreases pending
    {
      var k :| k in pending;
      if !Convertible(out[k]) {
        return Panics;
      }
      out := out[k := Convert(out[k])];
      pending := pending - {k};
    }
    return Handled(out);
  }

  /** The common tail of the three entry points: a split error returns the
      given empty front matter with the body; otherwise a handler error
      returns nil and an empty body, and a handler result is returned with
      the body. */
  function Finish<T>(e: Extracted, empty: T, h: Handled<T>): Outcome<T> {
    if e.err.Some? then Outcome(Some(empty), e.body, e.err)
    else
      match h
      case Failed(error) => Outcome(None, [], Some(error))
      case Handled(v) => Outcome(Some(v), e.body, None)
      case Panics => Panicked
  }

  /** `Matter.JSONToMap`. */
  method JSONToMap(m: Matter, input: bytes, unmarshal: bytes -> Decoded<Value>) returns (r: Outcome<Object>)
    requires m.Valid()
    ensures var e := Extract(m, input); r == Finish(e, map[], JSONHandler(e.front, unmarshal))
    ensures !HasPrefix(input, m.delim) ==> r == Outcome(Some(map[]), TrimSpace(input), Some(IsEmpty))
  {
    var f, body, err := SplitFront(m, input);
    if !HasPrefix(input, m.delim) {
      ExtractNoFront(m, input);
    }
    if err.Some? {
      return Outcome(Some(map[]), body, err);
    }
    var h := JSONHandler(f, unmarshal);
    match h
    case Failed(error) => return Outcome(None, [], Some(error));
    case Handled(front) => return Outcome(Some(front), body, None);
    case Panics => return Panicked;
  }

  /** `Matter.YAMLToMap`. */
  method YAMLToMap(m: Matter, input: bytes, unmarshal: bytes -> Decoded<Object>) returns (r: Outcome<Object>)
    requires m.Valid()
    ensures var e := Extract(m, input);
      e.err.Some? ==> r == Outcome(Some(map[]), e.body, e.err)
    ensures var e := Extract(m, input);
      e.err.None? && unmarshal(e.front).DecodeError? ==> r == Outcome(None, [], Some(Library(unmarshal(e.front).message)))
    ensures var e := Extract(m, input);
      r.Panicked? <==> e.err.None? && unmarshal(e.front).Decoded? && Stuck(unmarshal(e.front).value)
    ensures var e := Extract(m, input);
      r.Outcome? && r.err.None? ==>
        unmarshal(e.front).Decoded? && r.body == e.body && r.front.Some? &&
        ConvertedEach(unmarshal(e.front).value, r.front.value)
    ensures var e := Extract(m, input);
      e.err.None? && unmarshal(e.front).Decoded? && !Stuck(unmarshal(e.front).value) ==>
        r.Outcome? && r.err.None?
    ensures !HasPrefix(input, m.delim) ==> r == Outcome(Some(map[]), TrimSpace(input), Some(IsEmpty))
  {
    var f, body, err := SplitFront(m, input);
    if !HasPrefix(input, m.delim) {
      ExtractNoFront(m, input);
    }
    if err.Some? {
      return Outcome(Some(map[]), body, err);
    }
    var h := YAMLHandler(f, unmarshal);
    match h
    case Failed(error) => return Outcome(None, [], Some(error));
    case Handled(front) => return Outcome(Some(front), body, None);
    case Panics => return Panicked;
  }

  /** `Matter.YAMLToJSON`: the front matter transcoded to JSON bytes by the
      library's `YAMLToJSON`, which returns an error rather than panicking. */
  method YAMLToJSON(m: Matter, input: bytes, transcode: bytes -> Decoded<bytes>) returns (r: Outcome<bytes>)
    requires m.Valid()
    ensures var e := Extract(m, input);
      r == Finish(e, [], match transcode(e.front)
                         case Decoded(json) => Handled(json)
                         case DecodeError(msg) => Failed(Library(msg)))
    ensures r.Outcome?
    ensures !HasPrefix(input, m.delim) ==> r == Outcome(Some([]), TrimSpace(input), Some(IsEmpty))
  {
    var f, body, err := SplitFront(m, input);
    if !HasPrefix(input, m.delim) {
      ExtractNoFront(m, input);
    }
    if err.Some? {
      return Outcome(Some([]), body, err);
    }
    var t := transcode(f);
    match t
    case DecodeError(msg) => return Outcome(None, [], Some(Library(msg)));
    case Decoded(json) => return Outcome(Some(json), body, None);
  }
}
