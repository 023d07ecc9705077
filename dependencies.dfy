/**
 * The `dependencies` object of an `npm list -json` result and the flat
 * `{name, version}` list that `getDependecies` builds from it.
 *
 * A JavaScript object is modelled as the sequence of its own properties in
 * enumeration order (the order shared by `for (const key in o)` and
 * `Object.keys(o)`); its keys are distinct.
 */
module Dependencies {
  import opened Wrappers

  /** One value of the `dependencies` object: only its `version` property is read. */
  datatype Entry = Entry(version: Option<string>)

  /** The `dependencies` object, property by property, in enumeration order. */
  type DepObject = seq<(string, Entry)>

  /** One element of the list `getDependecies` returns. */
  datatype Dependency = Dependency(name: string, version: Option<string>)

  /** What a JavaScript call may throw here. */
  datatype JsError = TypeError

  /** Object keys are unique. */
  predicate DistinctKeys(d: DepObject) {
    forall i, j :: 0 <= i < j < |d| ==> d[i].0 != d[j].0
  }

  /** `Object.keys(d)`. */
  function Keys(d: DepObject): seq<string> {
    seq(|d|, i requires 0 <= i < |d| => d[i].0)
  }

  /** The names of a dependency list, in order. */
  function Names(list: seq<Dependency>): seq<string> {
    seq(|list|, i requires 0 <= i < |list| => list[i].name)
  }

  /** The record pushed for the property `(key, entry)`. */
  function ToDependency(p: (string, Entry)): Dependency {
    Dependency(p.0, p.1.version)
  }

  /**
   * The list `getDependecies` returns for a present object: one record pushed
   * per key, in enumeration order (so the last property gives the last push).
   */
  function Flatten(d: DepObject): seq<Dependency> {
    if d == [] then [] else Flatten(d[..|d| - 1]) + [ToDependency(d[|d| - 1])]
  }

  /** Entry i of the flattened list is key i with that key's `version` (absent when missing). */
  lemma {:induction false} FlattenAt(d: DepObject)
    ensures |Flatten(d)| == |d|
    ensures forall i :: 0 <= i < |d| ==>
      Flatten(d)[i].name == d[i].0 && Flatten(d)[i].version == d[i].1.version
  {
    if d != [] {
      FlattenAt(d[..|d| - 1]);
    }
  }

  /** An empty object gives an empty list. */
  lemma FlattenEmpty(d: DepObject)
    ensures Flatten(d) == [] <==> d == []
  {
    FlattenAt(d);
  }

  /** The names of the flattened list are exactly `Object.keys(d)`, in the same order. */
  lemma FlattenNames(d: DepObject)
    ensures Names(Flatten(d)) == Keys(d)
  {
    FlattenAt(d);
  }

  /** The names of the flattened list are pairwise distinct, because object keys are. */
  lemma FlattenNamesDistinct(d: DepObject)
    requires DistinctKeys(d)
    ensures forall i, j :: 0 <= i < j < |Flatten(d)| ==> Flatten(d)[i].name != Flatten(d)[j].name
  {
    FlattenAt(d);
  }

  /** Pushing the record of one more property extends the list by that record. */
  lemma FlattenSnoc(d: DepObject, i: nat)
    requires i < |d|
    ensures Flatten(d[..i + 1]) == Flatten(d[..i]) + [ToDependency(d[i])]
  {
    assert d[..i + 1][..i] == d[..i];
  }
}
