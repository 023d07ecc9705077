/**
 * Popularity scoring of one package against a reference point, and the
 * banding of the resulting percentage into a readable label.
 *
 * JavaScript numbers are idealised as reals: rounding, infinities and the
 * binary approximations of 0.1, 1.1, 66.6, 33.3 and 11.0 are not modelled,
 * but NaN is kept because `average([])` yields it and every comparison with
 * it is false.
 */
module Scoring {
  import opened Wrappers

  /** A JavaScript number: NaN or a finite value. */
  datatype Number = NaN | Num(value: real)

  /** JavaScript `x > c`: false when x is NaN. */
  predicate Gt(x: Number, c: real) {
    x.Num? && x.value > c
  }

  /** JavaScript `x >= c`: false when x is NaN. */
  predicate Ge(x: Number, c: real) {
    x.Num? && x.value >= c
  }

  /** JavaScript `x / d` for a non-zero constant d. */
  function Div(x: Number, d: real): (r: Number)
    requires d != 0.0
    ensures r.NaN? <==> x.NaN?
    ensures d >= 1.0 && x.Num? && x.value >= 0.0 ==> 0.0 <= r.value <= x.value
  {
    match x
    case NaN => NaN
    case Num(v) => Num(v / d)
  }

  /** The strings `parseScorePercentage` returns. */
  datatype Label = Error | Exceptional | High | Medium | Low | Terrible

  /** Position of a quality label in TERRIBLE < LOW < MEDIUM < HIGH < EXCEPTIONAL; ERROR is outside the order. */
  function Rank(l: Label): int {
    match l
    case Error => -1
    case Terrible => 0
    case Low => 1
    case Medium => 2
    case High => 3
    case Exceptional => 4
  }

  /**
   * `parseScorePercentage`: the ladder of comparisons, tried top to bottom.
   * It is total, and it splits [0, 100] into five adjacent bands.
   */
  function ParseScorePercentage(percentage: Number): (l: Label)
    ensures l == Error <==> percentage.NaN? || percentage.value > 100.0 || percentage.value < 0.0
    ensures l == Exceptional <==> percentage.Num? && 91.0 < percentage.value <= 100.0
    ensures l == High <==> percentage.Num? && 66.6 <= percentage.value <= 91.0
    ensures l == Medium <==> percentage.Num? && 33.3 <= percentage.value < 66.6
    ensures l == Low <==> percentage.Num? && 11.0 < percentage.value < 33.3
    ensures l == Terrible <==> percentage.Num? && 0.0 <= percentage.value <= 11.0
  {
    if Gt(percentage, 100.0) then Error
    else if Gt(percentage, 91.0) then Exceptional
    else if Ge(percentage, 66.6) then High
    else if Ge(percentage, 33.3) then Medium
    else if Gt(percentage, 11.0) then Low
    else if Ge(percentage, 0.0) then Terrible
    else Error
  }

  /** The label at each boundary of the ladder: strict tests at 100, 91 and 11, inclusive ones at 66.6, 33.3 and 0. */
  lemma BandingBoundaries()
    ensures ParseScorePercentage(Num(100.0)) == Exceptional
    ensures ParseScorePercentage(Num(91.0)) == High
    ensures ParseScorePercentage(Num(66.6)) == High
    ensures ParseScorePercentage(Num(33.3)) == Medium
    ensures ParseScorePercentage(Num(11.0)) == Terrible
    ensures ParseScorePercentage(Num(0.0)) == Terrible
  {
  }

  /** On [0, 100] the label never decreases as the percentage grows. */
  lemma BandingMonotone(p: real, q: real)
    requires 0.0 <= p <= q <= 100.0
    ensures ParseScorePercentage(Num(p)) != Error
    ensures Rank(ParseScorePercentage(Num(p))) <= Rank(ParseScorePercentage(Num(q)))
  {
  }

  /** `arr.reduce((a, b) => a + b, 0)`: the elements added left to right onto 0. */
  function Sum(xs: seq<real>): real {
    if xs == [] then 0.0 else Sum(xs[..|xs| - 1]) + xs[|xs| - 1]
  }

  /** `average`: the sum divided by the length; an empty array gives 0 / 0, which is NaN. */
  function Average(xs: seq<real>): (r: Number)
    ensures r.NaN? <==> xs == []
    ensures xs != [] && (forall i :: 0 <= i < |xs| ==> xs[i] >= 0.0) ==> r.value >= 0.0
  {
    if xs == [] then NaN
    else
      assert (forall i :: 0 <= i < |xs| ==> xs[i] >= 0.0) ==> Sum(xs) >= 0.0 by {
        if forall i :: 0 <= i < |xs| ==> xs[i] >= 0.0 {
          SumBounds(xs, 0.0, Max(xs));
        }
      }
      Num(Sum(xs) / (|xs| as real))
  }

  /** A sum of n values in [lo, hi] lies in [n * lo, n * hi]. */
  lemma {:induction false} SumBounds(xs: seq<real>, lo: real, hi: real)
    requires forall i :: 0 <= i < |xs| ==> lo <= xs[i] <= hi
    ensures lo * (|xs| as real) <= Sum(xs) <= hi * (|xs| as real)
  {
    if xs != [] {
      var init := xs[..|xs| - 1];
      assert forall i :: 0 <= i < |init| ==> init[i] == xs[i];
      SumBounds(init, lo, hi);
      assert (|xs| as real) == (|init| as real) + 1.0;
    }
  }

  /** The average of a non-empty array lies between any lower and upper bound of its elements. */
  lemma AverageBounds(xs: seq<real>, lo: real, hi: real)
    requires xs != []
    requires forall i :: 0 <= i < |xs| ==> lo <= xs[i] <= hi
    ensures lo <= Average(xs).value <= hi
  {
    SumBounds(xs, lo, hi);
    var n := |xs| as real;
    var a := Average(xs).value;
    assert a == Sum(xs) / n;
    assert a * n == Sum(xs);
    ScaleLe(lo, a, n);
    ScaleLe(a, hi, n);
  }

  /** Dividing both sides of `a * n <= b * n` by a positive n. */
  lemma ScaleLe(a: real, b: real, n: real)
    requires n > 0.0 && a * n <= b * n
    ensures a <= b
  {
  }

  /** Sign and upper bound of a quotient by a positive d. */
  lemma DivFacts(x: real, d: real, c: real)
    requires d > 0.0
    ensures x >= 0.0 ==> x / d >= 0.0
    ensures x / d == 0.0 <==> x == 0.0
    ensures x < c * d ==> x / d < c
  {
  }

  /** The popularity figures of one installed package, as collected from the registry. */
  datatype PackageMetrics = PackageMetrics(
    name: string,
    weeklyDownloads: nat,
    npmStarsCount: nat,
    githubStarsCount: nat,
    gitHubForksCount: nat,
    githubSubscribersCount: nat,
    latestVersion: string,
    currentVersion: Option<string>)

  /** The figures every package is measured against. */
  datatype ReferencePoint = ReferencePoint(
    weeklyDownloads: nat,
    npmStarsCount: nat,
    githubStarsCount: nat,
    gitHubForksCount: nat,
    githubSubscribersCount: nat)

  /** One score component: `metric * 100 / (reference + 0.1)`. */
  function Ratio(metric: nat, reference: nat): (r: real)
    ensures r >= 0.0
    ensures r == 0.0 <==> metric == 0
    ensures metric <= reference ==> r < 100.0
  {
    var den := reference as real + 0.1;
    var r := (metric as real) * 100.0 / den;
    assert r >= 0.0 && (r == 0.0 <==> metric == 0) && (metric <= reference ==> r < 100.0) by {
      DivFacts((metric as real) * 100.0, den, 100.0);
    }
    r
  }

  /** The five components, in the order `calculateSingleScore` averages them. */
  function Components(m: PackageMetrics, ref: ReferencePoint): (cs: seq<real>)
    ensures |cs| == 5
    ensures forall i :: 0 <= i < 5 ==> cs[i] >= 0.0
  {
    [ Ratio(m.weeklyDownloads, ref.weeklyDownloads),
      Ratio(m.npmStarsCount, ref.npmStarsCount),
      Ratio(m.gitHubForksCount, ref.gitHubForksCount),
      Ratio(m.githubStarsCount, ref.githubStarsCount),
      Ratio(m.githubSubscribersCount, ref.githubSubscribersCount) ]
  }

  /** JavaScript `currentVersion != latestVersion`; an undefined installed version differs from every string. */
  predicate Outdated(m: PackageMetrics) {
    m.currentVersion != Some(m.latestVersion)
  }

  /**
   * The percentage `calculateSingleScore` passes to banding: the average of the
   * components, divided by 1.1 when the installed version is not the latest.
   */
  function ScorePercentage(m: PackageMetrics, ref: ReferencePoint): (p: Number)
    ensures p.Num? && p.value >= 0.0
    ensures p.value <= Average(Components(m, ref)).value
    ensures !Outdated(m) ==> p == Average(Components(m, ref))
    ensures Outdated(m) ==> p.value * 1.1 == Average(Components(m, ref)).value
  {
    var cs := Components(m, ref);
    AverageBounds(cs, 0.0, Max(cs));
    var avg := Average(cs);
    if Outdated(m) then Div(avg, 1.1) else avg
  }

  /** The largest of a non-empty sequence. */
  function Max(xs: seq<real>): (r: real)
    requires xs != []
    ensures forall i :: 0 <= i < |xs| ==> xs[i] <= r
  {
    if |xs| == 1 then xs[0]
    else
      var t := Max(xs[1..]);
      assert forall i :: 1 <= i < |xs| ==> xs[i] == xs[1..][i - 1];
      if xs[0] >= t then xs[0] else t
  }

  /** The label `calculateSingleScore` returns for one package. */
  function SingleScore(m: PackageMetrics, ref: ReferencePoint): (l: Label)
    ensures l == Error <==> ScorePercentage(m, ref).value > 100.0
  {
    ParseScorePercentage(ScorePercentage(m, ref))
  }

  /** A package no more popular than the reference point in any metric never scores ERROR. */
  lemma WithinReferenceNeverError(m: PackageMetrics, ref: ReferencePoint)
    requires m.weeklyDownloads <= ref.weeklyDownloads
    requires m.npmStarsCount <= ref.npmStarsCount
    requires m.githubStarsCount <= ref.githubStarsCount
    requires m.gitHubForksCount <= ref.gitHubForksCount
    requires m.githubSubscribersCount <= ref.githubSubscribersCount
    ensures ScorePercentage(m, ref).value < 100.0
    ensures SingleScore(m, ref) != Error
  {
    var cs := Components(m, ref);
    AverageBounds(cs, 0.0, Max(cs));
    assert Max(cs) < 100.0 by { MaxIsElement(cs); }
  }

  /** The largest element is one of the elements. */
  lemma {:induction false} MaxIsElement(xs: seq<real>)
    requires xs != []
    ensures exists i :: 0 <= i < |xs| && Max(xs) == xs[i]
  {
    if |xs| == 1 {
      assert Max(xs) == xs[0];
    } else {
      MaxIsElement(xs[1..]);
      if xs[0] < Max(xs[1..]) {
        var j :| 0 <= j < |xs[1..]| && Max(xs[1..]) == xs[1..][j];
        assert Max(xs) == xs[j + 1];
      } else {
        assert Max(xs) == xs[0];
      }
    }
  }

  /**
   * The outdated-version penalty never raises the label: when the plain average
   * is in range, the label given is at most the one the average itself would get.
   */
  lemma PenaltyNeverRaisesLabel(m: PackageMetrics, ref: ReferencePoint)
    requires Average(Components(m, ref)).value <= 100.0
    ensures SingleScore(m, ref) != Error
    ensures Rank(SingleScore(m, ref)) <= Rank(ParseScorePercentage(Average(Components(m, ref))))
  {
    BandingMonotone(ScorePercentage(m, ref).value, Average(Components(m, ref)).value);
  }

  /**
   * Outside that range the penalty does lift the label: a plain average in
   * (100, 110] bands to ERROR, yet an outdated package with that average is
   * divided back into [0, 100] and gets a quality label.
   */
  lemma PenaltyLiftsOutOfError(m: PackageMetrics, ref: ReferencePoint)
    requires 100.0 < Average(Components(m, ref)).value <= 110.0
    requires Outdated(m)
    ensures ParseScorePercentage(Average(Components(m, ref))) == Error
    ensures SingleScore(m, ref) != Error
  {
    var avg := Average(Components(m, ref)).value;
    var p := ScorePercentage(m, ref).value;
    assert p * 1.1 == avg;
    ScaleLe(p, 100.0, 1.1);
  }
}
