# JSON wrapper: a verified model

This project models the `JSON` struct of the JASON library (`Source/JSON.swift`).
The struct wraps an optional decoded value of unknown shape. It has two public
initializers, one from an already-decoded `AnyObject?` and one from `NSData?`,
plus an internal `init(object:)`. It offers two subscripts, by `String` key and
by `Int` index. Each subscript always returns another `JSON` and never fails: a
missing key, an out-of-range index or a shape mismatch produce the *absent*
wrapper, the one whose `object` is `nil`. Navigating from the absent wrapper
returns the wrapper itself, so absence is absorbing along any chain such as
`doc["a"]["b"][2]["c"]`.

Modules:

- `Wrappers` (`wrappers.dfy`): `Option` (a Swift optional) and `Result` (a call that may throw).
- `Json` (`json.dfy`): the value shapes `JVal`, the wrapper `JSON`, the initializers, `objectWithData`, and the two subscripts.
- `JsonPaths` (`json_paths.dfy`): chained subscripts over a path of steps, a reference semantics on raw value trees, and the lemmas that connect them.
- `JsonExamples` (`json_examples.dfy`): concrete navigations over small documents.

How the model is encoded:

- Swift's `AnyObject?` becomes `Option<JVal>`. `None` is `nil`, the absent state.
- `JNull` (an `NSNull`) is a present value and stays distinct from absent.
- `JVal.Other` stands for any non-JSON object that a caller may pass to `init(_ object:)`.
- The datatype constructor `JSON(obj := o)` is `init(object:)`. The Swift field `object` is named `obj`, because `object` is a Dafny type name.
- The foreign decoder `NSJSONSerialization.JSONObjectWithData(_:options:)` is a parameter of type `Decoder = Bytes -> Result<JVal, DecodeError>`. A thrown error is a `Failure`.
- The `nsDictionary` and `nsArray` casts and the `[safe:]` array subscript are defined in files that are not part of this model. They are encoded from their evident meaning as `AsDictionary`, `AsArray` and `SafeIndex`: a shape test and a bounds-checked lookup that yields `nil` for a negative index or for one at or past the end. This is an assumption about code outside Source/JSON.swift.

## Model

| member | source | states |
|---|---|---|
| Json.FromObject | Source/JSON.swift:38-40 | wrapping an already-decoded value stores it unchanged, including `nil`; the wrapper is absent exactly when the input is `nil` |
| Json.WrapUnwrap | Source/JSON.swift:61-63 | every wrapper is the wrapping of its own `object`, so wrapping and unwrapping are inverse |
| Json.ObjectWithData | Source/JSON.swift:114-124 | no data gives `nil`; a throwing decoder gives `nil`; otherwise exactly the decoder's value; present exactly when data is given and decoding succeeds |
| Json.FromData | Source/JSON.swift:49-51 | construction from bytes never fails: absent for nil data or a decode error, and otherwise it wraps the decoded value |
| Json.FromDataHoldsContainer | Source/JSON.swift:117 | with empty reading options (fragments refused), a wrapper built from bytes is absent or holds an object or array |
| Wrappers.Result.ToOption | Source/JSON.swift:116-120 | a throwing call caught by `catch _ { return nil }` yields the returned value exactly when the call succeeds, and `nil` for every error |
| Json.AsDictionary | Source/JSON.swift:79 | the dictionary cast succeeds exactly when the wrapper holds an object, and then yields that object's fields |
| Json.AsArray | Source/JSON.swift:96 | the array cast succeeds exactly when the wrapper holds an array, and then yields its elements |
| Json.Lookup | Source/JSON.swift:80 | dictionary lookup yields a value exactly when the key is present, and then the stored value |
| Json.SafeIndex | Source/JSON.swift:97 | bounds-checked lookup yields a value exactly when `0 <= i < count`, and then the element at `i`; negative or too-large indices yield `nil` |
| Json.GetKey | Source/JSON.swift:76-84 | absent receiver returns itself; the result is present iff the receiver holds an object containing the key, and then it is the stored value; any other present shape gives absent |
| Json.GetIndex | Source/JSON.swift:93-101 | absent receiver returns itself; the result is present iff the receiver holds an array and `0 <= index < count`, and then it is that element; any other present shape gives absent |
| Json.NullIsPresent | Source/JSON.swift:79-83 | in any dictionary, a key bound to `NSNull` yields a present null, and any subscript on a present null yields absent |
| JsonPaths.Apply | Source/JSON.swift:76-101 | one subscript keeps absent absent, and a present result is the reference child of the receiver's value |
| JsonPaths.ApplyIsChild | Source/JSON.swift:93-101 | a subscript on the wrapper equals the reference child step on the wrapped value, misses included |
| JsonPaths.Follow | Source/JSON.swift:76-101 | a chain of subscripts on the absent wrapper returns that wrapper, for every path |
| JsonPaths.FollowAppend | Source/JSON.swift:76-101 | navigating along `p + q` equals navigating along `p` and then along `q` |
| JsonPaths.FollowPrefixMiss | Source/JSON.swift:76-77 | a miss after any prefix of a path makes the whole path miss, whatever steps follow |
| JsonPaths.FollowPresentPrefixes | Source/JSON.swift:76-84 | a present result implies every intermediate wrapper on the path was present |
| JsonPaths.FollowMatchesResolve | Source/JSON.swift:79-100 | chained subscripts from a present value agree with the reference path resolution on the raw value tree; from the absent wrapper they yield absent |
| JsonExamples.NestedNavigation | Source/JSON.swift:76-101 | on `{"a":{"b":[10,20,30]}}`: `["a"]["b"][1]` is 20, `["a"]["b"][5]` and `["x"]` are absent |
| JsonExamples.ArrayNavigation | Source/JSON.swift:93-100 | on `[1,2,3]`: key access is absent, index -1 is absent, index 2 is 3 |
| JsonExamples.BrokenChain | Source/JSON.swift:76-101 | on any document, a chain whose first step misses stays absent through any further steps |

## Left out

- The text decoding itself (`NSJSONSerialization.JSONObjectWithData`): it is a Foundation call, so it is a parameter of the model. Its only stated property is that empty options refuse top-level fragments (`RejectsFragments`).
- The kinds of decode error: `objectWithData` discards them all, so `DecodeError` is only a placeholder.
- `NSData`/`AnyObject` reference identity and Objective-C bridging: values are modelled structurally. "Returns itself" and "returns `JSON(object: nil)`" are therefore the same absent value.
- Floating-point numbers: `JNumber` carries an `int`, since the wrapper only carries numbers and never computes with them. Booleans are a separate `JBool`, whereas Foundation represents them as `NSNumber`; no subscript tells the two apart.
- Swift's 64-bit `Int` index is an unbounded `int`: the bounds check rejects every index outside `0 <= i < count`, so the width does not change any result.
- Dictionary key equality is `seq<char>` equality. Foundation's string comparison and Unicode handling are not modelled.
- The `nsDictionary`/`nsArray` helpers and the `[safe:]` subscript are not part of this model beyond their evident meaning, as described above.
- Typed extraction getters (string, int, bool conversions) are not part of this model.
- Concurrency: the wrapper is an immutable value, and subscripts are pure functions. Determinism is therefore automatic and needs no lemma.
