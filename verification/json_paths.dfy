/** Chained navigation, `doc["a"]["b"][2]["c"]`: a path of key and index
    steps applied one subscript at a time, left to right. The absent
    wrapper is absorbing along any path, and chained navigation agrees with
    a reference semantics that walks the raw value tree directly. */
module JsonPaths {
  import opened Wrappers
  import opened Json

  /** One subscript: by `String` key or by `Int` index. */
  datatype Step = Key(name: string) | Index(pos: int)

  type Path = seq<Step>

  /** One subscript call on a wrapper. */
  function Apply(j: JSON, s: Step): (r: JSON)
    ensures j.IsAbsent() ==> r.IsAbsent()
    ensures r.IsPresent() ==> j.IsPresent() && Child(j.obj.value, s) == r.obj
  {
    match s
    case Key(k) => GetKey(j, k)
    case Index(i) => GetIndex(j, i)
  }

  /** A chain of subscripts, applied from the first step to the last. Once
      a step misses, the absent wrapper is handed on and returned as is. */
  function Follow(j: JSON, path: Path): (r: JSON)
    ensures j.IsAbsent() ==> r == j
    decreases |path|
  {
    if |path| == 0 then j else Follow(Apply(j, path[0]), path[1..])
  }

  /** Reference semantics of one step on a raw value, with no wrapper and
      no short-circuit: the member at the key of an object, the element at
      an in-range index of an array, nothing otherwise. */
  function Child(v: JVal, s: Step): (o: Option<JVal>)
  {
    match s
    case Key(k) => if v.JObject? && k in v.fields then Some(v.fields[k]) else None
    case Index(i) => if v.JArray? && 0 <= i < |v.elems| then Some(v.elems[i]) else None
  }

  /** Reference semantics of a path on a raw value, defined from the last
      step backwards: resolve the prefix, then take one child of it. */
  function Resolve(v: JVal, path: Path): (o: Option<JVal>)
    decreases |path|
  {
    if |path| == 0 then Some(v)
    else match Resolve(v, path[..|path| - 1])
      case None => None
      case Some(u) => Child(u, path[|path| - 1])
  }

  /** A step against the wrapper is the reference step on the wrapped
      value, and a miss in both directions. */
  lemma ApplyIsChild(j: JSON, s: Step)
    ensures Apply(j, s).obj == (if j.IsAbsent() then None else Child(j.obj.value, s))
  {
  }

  /** Navigating along `p + q` is navigating along `p`, then along `q`
      from wherever `p` led. */
  lemma {:induction false} FollowAppend(j: JSON, p: Path, q: Path)
    ensures Follow(j, p + q) == Follow(Follow(j, p), q)
    decreases |p|
  {
    if |p| == 0 {
      assert p + q == q;
    } else {
      assert (p + q)[0] == p[0];
      assert (p + q)[1..] == p[1..] + q;
      FollowAppend(Apply(j, p[0]), p[1..], q);
    }
  }

  /** Absent is absorbing: a miss anywhere along a path (after the first
      `k` steps) makes the whole path miss, whatever follows. */
  lemma FollowPrefixMiss(j: JSON, path: Path, k: nat)
    requires k <= |path|
    requires Follow(j, path[..k]).IsAbsent()
    ensures Follow(j, path).IsAbsent()
  {
    assert path == path[..k] + path[k..];
    FollowAppend(j, path[..k], path[k..]);
  }

  /** A present result means every intermediate wrapper along the way was
      present as well. */
  lemma FollowPresentPrefixes(j: JSON, path: Path, k: nat)
    requires k <= |path|
    requires Follow(j, path).IsPresent()
    ensures Follow(j, path[..k]).IsPresent()
  {
    if Follow(j, path[..k]).IsAbsent() {
      FollowPrefixMiss(j, path, k);
    }
  }

  /** Chained navigation from a present value agrees with the reference
      semantics on the raw value tree; from the absent wrapper it yields
      absent. */
  lemma {:induction false} FollowMatchesResolve(j: JSON, path: Path)
    ensures Follow(j, path).obj == (if j.IsAbsent() then None else Resolve(j.obj.value, path))
    decreases |path|
  {
    if j.IsAbsent() || |path| == 0 {
    } else {
      var init, last := path[..|path| - 1], path[|path| - 1];
      assert path == init + [last];
      FollowAppend(j, init, [last]);
      FollowMatchesResolve(j, init);
      assert Follow(Follow(j, init), [last]) == Apply(Follow(j, init), last);
      ApplyIsChild(Follow(j, init), last);
    }
  }
}
