/**
 * The earlier entry point (index.js), which only flattens the dependency
 * tree before fetching raw metrics.
 */
module RootIndex {
  import opened Wrappers
  import opened Dependencies

  /**
   * `getDependecies` as index.js writes it: the same walk as the scoring
   * command's. The `names` binding is never read, yet `Object.keys` is what
   * throws when the `dependencies` property is missing; for a present object
   * the result is the `for...in` walk alone.
   */
  method GetDependencies(depList: Option<DepObject>) returns (r: Result<seq<Dependency>, JsError>)
    ensures depList.None? <==> r.Failure?
    ensures r.Failure? ==> r.error == TypeError
    ensures depList.Some? ==> r.Success? && |r.value| == |depList.value|
    ensures depList.Some? ==> forall i :: 0 <= i < |depList.value| ==>
      r.value[i] == Dependency(depList.value[i].0, depList.value[i].1.version)
    ensures depList.Some? ==> r == Success(Flatten(depList.value))
    ensures depList.Some? && DistinctKeys(depList.value) ==>
      forall i, j :: 0 <= i < j < |r.value| ==> r.value[i].name != r.value[j].name
  {
    if depList.None? {
      return Failure(TypeError);
    }
    var d := depList.value;
    var names := Keys(d);
    var list := [];
    var i := 0;
    while i < |d|
      invariant 0 <= i <= |d|
      invariant |list| == i
      invariant forall j :: 0 <= j < i ==> list[j] == Dependency(d[j].0, d[j].1.version)
    {
      var (key, entry) := d[i];
      list := list + [Dependency(key, entry.version)];
      i := i + 1;
    }
    FlattenAt(d);
    assert forall j :: 0 <= j < |d| ==> Flatten(d)[j] == list[j];
    assert list == Flatten(d);
    return Success(list);
  }
}
