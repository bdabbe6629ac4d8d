/** The `JSON` wrapper of Source/JSON.swift: an optional decoded value of
    unknown shape, two initializers, and the two navigation subscripts.

    The Swift code holds an `AnyObject?` and discovers the shape by casting
    at run time. Here the shapes are a closed sum type, `JVal`, and the
    optional is `Option<JVal>`, so that `None` (Swift's `nil`, "absent")
    stays distinct from `JNull` (an `NSNull`, a present value). */
module Json {
  import opened Wrappers

  /** A decoded value. The first six variants are what a JSON decoder
      produces; `Other` stands for any other class instance a caller may
      hand to `init(_ object:)`, which the wrapper accepts as well. */
  datatype JVal =
    | JObject(fields: map<string, JVal>)
    | JArray(elems: seq<JVal>)
    | JString(str: string)
    | JNumber(num: int)
    | JBool(b: bool)
    | JNull
    | Other(className: string)

  /** Raw encoded input (the bytes of an `NSData`). */
  type Bytes = seq<bv8>

  /** Why the foreign decoder threw; the wrapper discards it. */
  datatype DecodeError = Malformed | Unsupported | Fragment

  /** The foreign decoder `NSJSONSerialization.JSONObjectWithData(_:options:)`
      called with no options: it returns a value or throws. */
  type Decoder = Bytes -> Result<JVal, DecodeError>

  /** The wrapper. `obj` is the Swift field `object`; the datatype
      constructor `JSON(obj := o)` is the internal `init(object:)`. */
  datatype JSON = JSON(obj: Option<JVal>) {
    predicate IsAbsent() { obj.None? }
    predicate IsPresent() { obj.Some? }
  }

  /** The wrapper around nothing, what every miss produces. */
  const Absent: JSON := JSON(None)

  /** `init(_ object: AnyObject?)`: wraps an already-decoded value, or
      nothing, exactly as given. */
  function FromObject(o: Option<JVal>): (j: JSON)
    ensures j.obj == o
    ensures j.IsAbsent() <==> o.None?
  {
    JSON(obj := o)
  }

  /** `objectWithData(_:)`: no data gives `nil`; otherwise the decoder is
      tried and any error it throws is swallowed into `nil`. */
  function ObjectWithData(data: Option<Bytes>, decode: Decoder): (o: Option<JVal>)
    ensures data.None? ==> o.None?
    ensures data.Some? && decode(data.value).Failure? ==> o.None?
    ensures data.Some? && decode(data.value).Success? ==> o == Some(decode(data.value).value)
    ensures o.Some? <==> data.Some? && decode(data.value).Success?
  {
    match data
    case None => None
    case Some(bytes) => decode(bytes).ToOption()
  }

  /** `init(_ data: NSData?)`: decodes the bytes and wraps the outcome;
      never fails, it degrades to the absent wrapper instead. */
  function FromData(data: Option<Bytes>, decode: Decoder): (j: JSON)
    ensures data.None? ==> j.IsAbsent()
    ensures data.Some? && decode(data.value).Failure? ==> j.IsAbsent()
    ensures j.IsPresent() <==> data.Some? && decode(data.value).Success?
    ensures j.IsPresent() ==> j.obj.value == decode(data.value).value
  {
    FromObject(ObjectWithData(data, decode))
  }

  /** A container: what may stand at the top level of a document. */
  predicate IsContainer(v: JVal) {
    v.JObject? || v.JArray?
  }

  /** The decoder is called with empty options, so without the
      "allow fragments" reading option: a document whose top level is not
      an object or an array is refused with an error. */
  ghost predicate RejectsFragments(decode: Decoder) {
    forall b :: decode(b).Success? ==> IsContainer(decode(b).value)
  }

  /** Under that decoder, a wrapper built from bytes is either absent or
      holds an object or an array, never a bare scalar or null. */
  lemma FromDataHoldsContainer(data: Option<Bytes>, decode: Decoder)
    requires RejectsFragments(decode)
    ensures FromData(data, decode).IsAbsent() || IsContainer(FromData(data, decode).obj.value)
  {
  }

  /** The `nsDictionary` cast (defined outside Source/JSON.swift): the
      wrapped value seen as a dictionary, if it is one. */
  function AsDictionary(j: JSON): (d: Option<map<string, JVal>>)
    ensures d.Some? <==> j.IsPresent() && j.obj.value.JObject?
    ensures d.Some? ==> d.value == j.obj.value.fields
  {
    if j.obj.Some? && j.obj.value.JObject? then Some(j.obj.value.fields) else None
  }

  /** The `nsArray` cast (defined outside Source/JSON.swift): the wrapped
      value seen as an array, if it is one. */
  function AsArray(j: JSON): (a: Option<seq<JVal>>)
    ensures a.Some? <==> j.IsPresent() && j.obj.value.JArray?
    ensures a.Some? ==> a.value == j.obj.value.elems
  {
    if j.obj.Some? && j.obj.value.JArray? then Some(j.obj.value.elems) else None
  }

  /** Dictionary lookup, `nsDictionary[key]`: the stored value or `nil`. */
  function Lookup(d: map<string, JVal>, key: string): (o: Option<JVal>)
    ensures o.Some? <==> key in d
    ensures o.Some? ==> o.value == d[key]
  {
    if key in d then Some(d[key]) else None
  }

  /** The bounds-checked `array[safe: index]` (defined outside
      Source/JSON.swift): the element when the index is in range, `nil`
      for a negative index or one past the end, never a trap. */
  function SafeIndex<T>(s: seq<T>, i: int): (o: Option<T>)
    ensures o.Some? <==> 0 <= i < |s|
    ensures o.Some? ==> o.value == s[i]
  {
    if 0 <= i < |s| then Some(s[i]) else None
  }

  /** `subscript(index: String)`: the absent wrapper returns itself; a
      dictionary yields the value at `key`, or absent when the key is
      missing; any other present value yields absent. */
  function GetKey(j: JSON, key: string): (r: JSON)
    ensures j.IsAbsent() ==> r == j
    ensures r.IsPresent() <==> j.IsPresent() && j.obj.value.JObject? && key in j.obj.value.fields
    ensures r.IsPresent() ==> r.obj.value == j.obj.value.fields[key]
  {
    if j.obj.None? then j
    else match AsDictionary(j)
      case Some(d) => FromObject(Lookup(d, key))
      case None => Absent
  }

  /** `subscript(index: Int)`: the absent wrapper returns itself; an
      array yields its element at `index` when `0 <= index < count`, and
      absent otherwise; any other present value yields absent. */
  function GetIndex(j: JSON, index: int): (r: JSON)
    ensures j.IsAbsent() ==> r == j
    ensures r.IsPresent() <==> j.IsPresent() && j.obj.value.JArray? && 0 <= index < |j.obj.value.elems|
    ensures r.IsPresent() ==> r.obj.value == j.obj.value.elems[index]
  {
    if j.obj.None? then j
    else match AsArray(j)
      case Some(a) => FromObject(SafeIndex(a, index))
      case None => Absent
  }

  /** Wrapping and unwrapping are inverse: every wrapper is the wrapping
      of its own contents. */
  lemma WrapUnwrap(j: JSON)
    ensures FromObject(j.obj) == j
  {
  }

  /** An `NSNull` is a present value: reaching it through any dictionary
      is not a miss, but any further navigation from it is. */
  lemma NullIsPresent(m: map<string, JVal>, key: string, next: string, i: int)
    requires key in m && m[key] == JNull
    ensures GetKey(FromObject(Some(JObject(m))), key) == JSON(Some(JNull))
    ensures GetKey(JSON(Some(JNull)), next).IsAbsent()
    ensures GetIndex(JSON(Some(JNull)), i).IsAbsent()
  {
  }
}
