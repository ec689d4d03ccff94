/** The arithmetic behind the report summary (generateReport.js): counting
    stored results into safe / warning / critical buckets, the rounded
    average threat turned into a security score, the risk band printed for
    that score, and the truncation of long lines. */
module Report {
  import opened Text
  import L = Levels

  /** A stored analysis result as the summary reads it: the level string
      as stored and the score, absent when missing or falsy. */
  datatype StoredResult = StoredResult(threatLevel: string, threatScore: Option<int>)

  datatype ChartData = ChartData(safe: nat, warning: nat, critical: nat, avgScore: int)

  datatype Bucket = SafeBucket | WarningBucket | CriticalBucket | NoBucket

  /** Which counter a stored level string increments. */
  function BucketOf(level: string): Bucket {
    if level == "safe" then SafeBucket
    else if level == "low" || level == "medium" then WarningBucket
    else if level == "high" || level == "critical" then CriticalBucket
    else NoBucket
  }

  predicate KnownLevel(level: string) {
    level in {"safe", "low", "medium", "high", "critical"}
  }

  /** `file.threatScore || 0`. */
  function ScoreOf(r: StoredResult): int {
    match r.threatScore
    case Some(v) => v
    case None => 0
  }

  // ---------------------------------------------------------------------
  // Reference definitions

  function CountIn(rs: seq<StoredResult>, b: Bucket): nat
    decreases |rs|
  {
    if |rs| == 0 then 0
    else CountIn(rs[..|rs| - 1], b) + (if BucketOf(rs[|rs| - 1].threatLevel) == b then 1 else 0)
  }

  function Total(rs: seq<StoredResult>): int
    decreases |rs|
  {
    if |rs| == 0 then 0 else Total(rs[..|rs| - 1]) + ScoreOf(rs[|rs| - 1])
  }

  /** `Math.round(total / n)` for `n > 0`: the nearest integer, halves
      rounded up. */
  function RoundDiv(total: int, n: int): int
    requires n > 0
  {
    (2 * total + n) / (2 * n)
  }

  function Max(a: int, b: int): int { if a >= b then a else b }

  /** The summary of a stored result list, or of nothing stored. */
  function ChartDataOf(stored: Option<seq<StoredResult>>): ChartData {
    match stored
    case None => ChartData(0, 0, 0, 0)
    case Some(rs) =>
      var avgThreat := if |rs| > 0 then RoundDiv(Total(rs), |rs|) else 0;
      ChartData(CountIn(rs, SafeBucket), CountIn(rs, WarningBucket), CountIn(rs, CriticalBucket),
                Max(0, 100 - avgThreat))
  }

  // ---------------------------------------------------------------------
  // The summary loop

  /** `calculateReportChartData`: one pass over the stored results. */
  method CalculateReportChartData(stored: Option<seq<StoredResult>>) returns (c: ChartData)
    ensures c == ChartDataOf(stored)
    ensures stored.None? ==> c == ChartData(0, 0, 0, 0)
    ensures stored == Some([]) ==> c == ChartData(0, 0, 0, 100)
    ensures c.safe + c.warning + c.critical <= if stored.Some? then |stored.value| else 0
    ensures c.avgScore >= 0
  {
    if stored.None? {
      return ChartData(0, 0, 0, 0);
    }
    var results := stored.value;
    var safe, warning, critical := 0, 0, 0;
    var totalScore := 0;
    var i := 0;
    while i < |results|
      invariant 0 <= i <= |results|
      invariant safe == CountIn(results[..i], SafeBucket)
      invariant warning == CountIn(results[..i], WarningBucket)
      invariant critical == CountIn(results[..i], CriticalBucket)
      invariant totalScore == Total(results[..i])
    {
      var file := results[i];
      assert results[..i + 1][..i] == results[..i];
      if file.threatLevel == "safe" {
        safe := safe + 1;
      } else if file.threatLevel == "low" || file.threatLevel == "medium" {
        warning := warning + 1;
      } else if file.threatLevel == "high" || file.threatLevel == "critical" {
        critical := critical + 1;
      }
      totalScore := totalScore + ScoreOf(file);
      i := i + 1;
    }
    assert results[..i] == results;
    var avgThreat := if |results| > 0 then RoundDiv(totalScore, |results|) else 0;
    c := ChartData(safe, warning, critical, Max(0, 100 - avgThreat));
    BucketsPartition(results);
  }

  // ---------------------------------------------------------------------
  // Properties

  /** Every result falls in exactly one of the three counters or in none,
      so the counters add up to at most the number of results, and to
      exactly that number when every stored level is a known one. */
  lemma {:induction false} BucketsPartition(rs: seq<StoredResult>)
    ensures CountIn(rs, SafeBucket) + CountIn(rs, WarningBucket) + CountIn(rs, CriticalBucket)
            + CountIn(rs, NoBucket) == |rs|
    ensures CountIn(rs, NoBucket) == 0 <==>
            forall k :: 0 <= k < |rs| ==> KnownLevel(rs[k].threatLevel)
    decreases |rs|
  {
    if |rs| > 0 {
      var front := rs[..|rs| - 1];
      BucketsPartition(front);
      var last := rs[|rs| - 1].threatLevel;
      assert BucketOf(last) == NoBucket <==> !KnownLevel(last);
      if forall k :: 0 <= k < |rs| ==> KnownLevel(rs[k].threatLevel) {
        assert forall k :: 0 <= k < |front| ==> KnownLevel(front[k].threatLevel) by {
          forall k | 0 <= k < |front| ensures KnownLevel(front[k].threatLevel) {
            assert front[k] == rs[k];
          }
        }
      }
      if forall k :: 0 <= k < |front| ==> KnownLevel(front[k].threatLevel) {
        if KnownLevel(last) {
          forall k | 0 <= k < |rs| ensures KnownLevel(rs[k].threatLevel) {
            if k < |front| { assert rs[k] == front[k]; }
          }
        }
      }
    }
  }

  /** The counters over all results add up to the number of results
      exactly when every level is known. */
  lemma BucketsAddUp(rs: seq<StoredResult>)
    ensures var c := ChartDataOf(Some(rs));
      c.safe + c.warning + c.critical <= |rs|
      && (c.safe + c.warning + c.critical == |rs| <==>
            forall k :: 0 <= k < |rs| ==> KnownLevel(rs[k].threatLevel))
  {
    BucketsPartition(rs);
  }

  /** The levels the analyzers produce land in the expected counters:
      safe in `safe`, low and medium in `warning`, high and critical in
      `critical`. */
  lemma LevelBuckets(l: L.Level)
    ensures KnownLevel(L.Name(l))
    ensures BucketOf(L.Name(l)) ==
      if L.Rank(l) == 0 then SafeBucket
      else if L.Rank(l) <= 2 then WarningBucket
      else CriticalBucket
  {
    match l
    case Safe =>
    case Low =>
    case Medium => assert L.Name(l) != "low" by { assert |L.Name(l)| != 3; }
    case High =>
      assert L.Name(l) != "low" && L.Name(l) != "safe";
      assert L.Name(l) != "medium" by { assert |L.Name(l)| != 6; }
    case Critical =>
      assert |L.Name(l)| == 8;
  }

  /** `Math.round` of the average: the rounded value lies within half a
      unit of `total / n`, halves going up. */
  lemma RoundDivSpec(total: int, n: int)
    requires n > 0
    ensures var r := RoundDiv(total, n);
      2 * n * r <= 2 * total + n < 2 * n * r + 2 * n
  {
  }

  /** The total over two lists is the sum of their totals. */
  lemma {:induction false} TotalAppend(a: seq<StoredResult>, b: seq<StoredResult>)
    ensures Total(a + b) == Total(a) + Total(b)
    decreases |b|
  {
    if |b| == 0 {
      assert a + b == a;
    } else {
      assert (a + b)[..|a + b| - 1] == a + b[..|b| - 1];
      TotalAppend(a, b[..|b| - 1]);
    }
  }

  /** A result without a score adds nothing to the total, whatever its
      level. */
  lemma MissingScoreAddsNothing(rs: seq<StoredResult>, level: string)
    ensures Total(rs + [StoredResult(level, None)]) == Total(rs)
  {
    TotalAppend(rs, [StoredResult(level, None)]);
    assert [StoredResult(level, None)][..0] == [];
  }

  /** Non-negative scores give a non-negative total. */
  lemma {:induction false} TotalNonNegative(rs: seq<StoredResult>)
    requires forall k :: 0 <= k < |rs| ==> ScoreOf(rs[k]) >= 0
    ensures Total(rs) >= 0
    decreases |rs|
  {
    if |rs| > 0 {
      var front := rs[..|rs| - 1];
      assert forall k :: 0 <= k < |front| ==> ScoreOf(front[k]) >= 0 by {
        forall k | 0 <= k < |front| ensures ScoreOf(front[k]) >= 0 {
          assert front[k] == rs[k];
        }
      }
      TotalNonNegative(front);
      assert ScoreOf(rs[|rs| - 1]) >= 0;
    }
  }

  /** With non-negative scores the security score lies in 0..100. */
  lemma AvgScoreBounds(rs: seq<StoredResult>)
    requires forall k :: 0 <= k < |rs| ==> ScoreOf(rs[k]) >= 0
    ensures 0 <= ChartDataOf(Some(rs)).avgScore <= 100
    ensures Total(rs) >= 0
  {
    TotalNonNegative(rs);
    if |rs| > 0 {
      RoundDivNonNegative(Total(rs), |rs|);
    }
  }

  /** The rounded average of a non-negative total is non-negative. */
  lemma RoundDivNonNegative(total: int, n: int)
    requires total >= 0 && n > 0
    ensures RoundDiv(total, n) >= 0
  {
    RoundDivSpec(total, n);
  }


  // ---------------------------------------------------------------------
  // Risk band

  datatype Risk = CriticalRisk | ModerateRisk | LowRisk

  /** The band printed beside the security score: below 40 critical, below
      70 moderate, otherwise low. */
  function RiskBand(avgScore: int): Risk {
    if avgScore < 40 then CriticalRisk
    else if avgScore < 70 then ModerateRisk
    else LowRisk
  }

  function RiskText(r: Risk): string {
    match r
    case CriticalRisk => "CRITICAL RISK"
    case ModerateRisk => "MODERATE RISK"
    case LowRisk => "LOW RISK"
  }

  /** Worse is lower: 0 for critical, 2 for low. */
  function Safety(r: Risk): nat {
    match r
    case CriticalRisk => 0
    case ModerateRisk => 1
    case LowRisk => 2
  }

  /** A higher security score never reads as a worse band. */
  lemma RiskBandMonotone(a: int, b: int)
    requires a <= b
    ensures Safety(RiskBand(a)) <= Safety(RiskBand(b))
  {
  }

  /** The band's text names its band and no other. */
  lemma RiskTextInjective(a: Risk, b: Risk)
    ensures RiskText(a) == RiskText(b) <==> a == b
  {
    if a != b {
      assert RiskText(a)[0] != RiskText(b)[0];
    }
  }

  /** With nothing stored the security score is 0 and the report reads
      CRITICAL RISK; with an empty stored list it is 100 and reads LOW
      RISK. */
  lemma EmptyReports()
    ensures ChartDataOf(None).avgScore == 0 && RiskBand(ChartDataOf(None).avgScore) == CriticalRisk
    ensures ChartDataOf(Some([])).avgScore == 100 && RiskBand(ChartDataOf(Some([])).avgScore) == LowRisk
  {
  }

  // ---------------------------------------------------------------------
  // Truncation

  /** Width of a finding line in either details section. */
  const FindingWidth: nat := 75

  /** Width of a URL heading. */
  const UrlWidth: nat := 70

  /** `s.substring(0, width) + (s.length > width ? '...' : '')`. */
  function Truncate(s: string, width: nat): string {
    s[..if |s| <= width then |s| else width] + (if |s| > width then "..." else "")
  }

  /** A short text is kept whole; a longer one keeps exactly its first
      `width` characters and gains `...`, so it comes out unchanged only
      when it already was those characters followed by `...`. */
  lemma TruncateSpec(s: string, width: nat)
    ensures Truncate(s, width) == s <==> |s| <= width || (|s| == width + 3 && s[width..] == "...")
    ensures |s| > width ==>
      |Truncate(s, width)| == width + 3
      && StartsWith(Truncate(s, width), s[..width])
      && EndsWith(Truncate(s, width), "...")
    ensures |Truncate(s, width)| <= width + 3
  {
    var r := Truncate(s, width);
    if |s| > width {
      assert r == s[..width] + "...";
      assert r[..width] == s[..width];
      assert r[width..] == "...";
      if |s| == width + 3 && s[width..] == "..." {
        assert s == s[..width] + s[width..];
      }
    }
  }

  /** Texts that agree on their first `width` characters and are both
      longer print the same. */
  lemma TruncateForgets(s: string, t: string, width: nat)
    requires |s| > width && |t| > width && s[..width] == t[..width]
    ensures Truncate(s, width) == Truncate(t, width)
  {
  }

  /** A finding line: a dash, then the text cut at 75. */
  function FindingLine(text: string): string {
    "- " + Truncate(text, FindingWidth)
  }

  /** A URL heading: the position from 1, then the URL cut at 70. */
  function UrlHeading(index: nat, url: string): string {
    NatToString(index + 1) + ". " + Truncate(url, UrlWidth)
  }

  /** Finding lines are at most 80 characters and URL headings carry at
      most 73 characters of URL text after the numbering. */
  lemma LineWidths(text: string, index: nat, url: string)
    ensures |FindingLine(text)| <= 2 + FindingWidth + 3
    ensures |UrlHeading(index, url)| <= |NatToString(index + 1)| + 2 + UrlWidth + 3
    ensures StartsWith(FindingLine(text), "- ")
  {
    TruncateSpec(text, FindingWidth);
    TruncateSpec(url, UrlWidth);
    assert FindingLine(text)[..2] == "- ";
  }
}
