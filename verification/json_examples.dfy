/** Concrete navigations over small documents, one per scenario the
    wrapper is meant to support. */
module JsonExamples {
  import opened Wrappers
  import opened Json
  import opened JsonPaths

  /** `{"a": {"b": [10, 20, 30]}}` */
  function Nested(): JVal {
    JObject(map["a" := JObject(map["b" := JArray([JNumber(10), JNumber(20), JNumber(30)])])])
  }

  /** Chained access into a nested document: `v["a"]["b"][1]` is 20,
      `v["a"]["b"][5]` and `v["x"]` are absent. */
  lemma NestedNavigation()
    ensures GetIndex(GetKey(GetKey(FromObject(Some(Nested())), "a"), "b"), 1).obj == Some(JNumber(20))
    ensures GetIndex(GetKey(GetKey(FromObject(Some(Nested())), "a"), "b"), 5).IsAbsent()
    ensures GetKey(FromObject(Some(Nested())), "x").IsAbsent()
  {
  }

  /** On `[1, 2, 3]`: key access misses, index -1 misses, index 2 is 3. */
  lemma ArrayNavigation()
    ensures GetKey(FromObject(Some(JArray([JNumber(1), JNumber(2), JNumber(3)]))), "key").IsAbsent()
    ensures GetIndex(FromObject(Some(JArray([JNumber(1), JNumber(2), JNumber(3)]))), -1).IsAbsent()
    ensures GetIndex(FromObject(Some(JArray([JNumber(1), JNumber(2), JNumber(3)]))), 2).obj == Some(JNumber(3))
  {
  }

  /** A chain whose first subscript misses stays absent through any
      further subscripts, on any document and for any missing step. */
  lemma BrokenChain(j: JSON, s: Step, path: Path)
    requires Apply(j, s).IsAbsent()
    ensures Follow(j, [s] + path).IsAbsent()
  {
    FollowPrefixMiss(j, [s] + path, 1);
  }
}
