/**
 * The computing steps of the scoring command (bin/index.js): flattening the
 * dependency tree, scoring one package, and scoring a whole metric list.
 */
module BinIndex {
  import opened Wrappers
  import opened Dependencies
  import opened Scoring

  /** One line of the printed result: a package name and its label. */
  datatype ScoreEntry = ScoreEntry(name: string, score: Label)

  /**
   * `getDependecies`: one `{name, version}` record per key of the
   * `dependencies` object, in enumeration order. The leading
   * `Object.keys(depList)` throws a TypeError when the property is missing
   * (a project without dependencies), before the walk starts.
   */
  method GetDependencies(depList: Option<DepObject>) returns (r: Result<seq<Dependency>, JsError>)
    ensures depList.None? <==> r.Failure?
    ensures r.Failure? ==> r.error == TypeError
    ensures depList.Some? ==> r == Success(Flatten(depList.value))
  {
    if depList.None? {
      return Failure(TypeError);
    }
    var d := depList.value;
    var names := Keys(d);
    var list := [];
    for i := 0 to |d|
      invariant list == Flatten(d[..i])
    {
      FlattenSnoc(d, i);
      var (key, entry) := d[i];
      list := list + [Dependency(key, entry.version)];
    }
    assert d[..|d|] == d;
    return Success(list);
  }

  /**
   * `calculateSingleScore`: averages the five components, divides the
   * percentage by 1.1 in place when the installed version is not the latest,
   * and bands the result.
   */
  method CalculateSingleScore(packageEntry: PackageMetrics, referencePoint: ReferencePoint) returns (readableScore: Label)
    ensures readableScore == SingleScore(packageEntry, referencePoint)
    ensures readableScore == Error <==> ScorePercentage(packageEntry, referencePoint).value > 100.0
  {
    var weeklyDownloadsScore := Ratio(packageEntry.weeklyDownloads, referencePoint.weeklyDownloads);
    var npmStarsCountScore := Ratio(packageEntry.npmStarsCount, referencePoint.npmStarsCount);
    var gitHubForksCountScore := Ratio(packageEntry.gitHubForksCount, referencePoint.gitHubForksCount);
    var githubStarsCountScore := Ratio(packageEntry.githubStarsCount, referencePoint.githubStarsCount);
    var githubSubscribersCountScore := Ratio(packageEntry.githubSubscribersCount, referencePoint.githubSubscribersCount);

    var scorePercentage := Average([weeklyDownloadsScore, npmStarsCountScore, gitHubForksCountScore,
                                    githubStarsCountScore, githubSubscribersCountScore]);

    if packageEntry.currentVersion != Some(packageEntry.latestVersion) {
      scorePercentage := Div(scorePercentage, 1.1);
    }

    readableScore := ParseScorePercentage(scorePercentage);
  }

  /**
   * `calculateAllScores`: scores every package of the list, pushing one
   * `{name, score}` record per package in list order.
   */
  method CalculateAllScores(packageMetrics: seq<PackageMetrics>, referencePoint: ReferencePoint) returns (scores: seq<ScoreEntry>)
    ensures |scores| == |packageMetrics|
    ensures forall i :: 0 <= i < |packageMetrics| ==>
      scores[i] == ScoreEntry(packageMetrics[i].name, SingleScore(packageMetrics[i], referencePoint))
  {
    scores := [];
    for k := 0 to |packageMetrics|
      invariant |scores| == k
      invariant forall i :: 0 <= i < k ==>
        scores[i] == ScoreEntry(packageMetrics[i].name, SingleScore(packageMetrics[i], referencePoint))
    {
      var entry := packageMetrics[k];
      var score := CalculateSingleScore(entry, referencePoint);
      scores := scores + [ScoreEntry(entry.name, score)];
    }
  }
}
