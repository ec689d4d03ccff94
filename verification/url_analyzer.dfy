/** `analyzeURL` (url-analyzer.js): ten heuristic rules over the trimmed
    input and the parts a URL parser extracts from it, a score capped at
    100, a threat level from fixed bands (raised to medium for a shortener
    that would otherwise rate low), the fired rules' findings in rule order
    (or a single placeholder when none fired) and the explanation text.

    The URL parser is a parameter: it receives the string the analyzer
    hands to `new URL(...)` and either rejects it or yields the hostname,
    path and query the rules read. */
module UrlAnalyzer {
  import opened Text
  import opened Patterns
  import L = Levels
  import E = UrlExplanation

  // ---------------------------------------------------------------------
  // Keyword tables (all case-insensitive)

  const PhishingWords: seq<string> :=
    ["login", "verify", "secure", "update", "account", "bank", "signin",
     "password", "reset", "confirm", "suspended", "locked", "urgent"]

  const BrandWords: seq<string> :=
    ["google", "paypal", "amazon", "microsoft", "apple", "netflix", "facebook",
     "instagram", "whatsapp", "telegram", "bank"]

  const ShortenerWords: seq<string> := ["bit.ly", "tinyurl", "t.co", "ow.ly", "cutt.ly", "rb.gy"]

  const RiskyTlds: seq<string> := ["xyz", "top", "icu", "tk", "ml", "ga"]

  const ParamWords: seq<string> :=
    ["token", "session", "auth", "redirect", "callback", "login", "password"]

  /** `/\.(a|b|…)$/i`: one anchored pattern per top-level domain. */
  function TldPatterns(tlds: seq<string>): (res: seq<Regex>)
    ensures |res| == |tlds|
    ensures forall k :: 0 <= k < |tlds| ==> res[k] == Regex([Lit("." + tlds[k]), End], true)
  {
    seq(|tlds|, k requires 0 <= k < |tlds| => Regex([Lit("." + tlds[k]), End], true))
  }

  /** Everything the analyzer looks things up in. */
  datatype Tables = Tables(
    phishing: seq<Regex>,
    brands: seq<Regex>,
    shorteners: seq<Regex>,
    tlds: seq<Regex>,
    params: seq<Regex>,
    glossary: E.Glossary)

  const Shipped: Tables := Tables(
    Words(PhishingWords, true),
    Words(BrandWords, true),
    Words(ShortenerWords, true),
    TldPatterns(RiskyTlds),
    Words(ParamWords, true),
    E.ShippedGlossary)

  // ---------------------------------------------------------------------
  // Findings

  const NotHttpsFinding: string := "Connection is not HTTPS"
  const ImpersonationFinding: string := "Brand name used alongside phishing indicators \U{2014} possible impersonation attempt"
  const DeepPathFinding: string := "Unusually deep URL path structure"
  const NoIssuesFinding: string := "No obvious heuristic issues detected"

  // ---------------------------------------------------------------------
  // Parsing and the text the rules read

  /** What the URL parser yields that the rules read. */
  datatype UrlParts = UrlParts(hostname: string, pathname: string, search: string)

  /** The string handed to the parser: the input itself when it already
      starts with `http://` or `https://`, otherwise `http://` before it. */
  function ParserInput(url: string): string {
    if StartsWith(url, "http://") || StartsWith(url, "https://") then url else "http://" + url
  }

  /** The parsed protocol is `https:` exactly when the parser received an
      `https://` string, which happens exactly when the input started so. */
  predicate IsHttps(url: string) {
    StartsWith(url, "https://")
  }

  /** `/^\d{1,3}(\.\d{1,3}){3}$/`: four dot-separated runs of one to three
      ASCII digits, nothing else. */
  predicate IsIpHost(host: string) {
    var parts := Split(host, '.');
    |parts| == 4 && forall k :: 0 <= k < 4 ==> IsOctet(parts[k])
  }

  predicate IsOctet(s: string) {
    1 <= |s| <= 3 && IsDigits(s)
  }

  /** `path.split("/").filter(Boolean).length`: the non-empty segments. */
  function PathDepth(path: string): nat {
    NonEmpty(Split(path, '/'))
  }

  function NonEmpty(parts: seq<string>): (n: nat)
    ensures n <= |parts|
    decreases |parts|
  {
    if |parts| == 0 then 0
    else (if |parts[0]| > 0 then 1 else 0) + NonEmpty(parts[1..])
  }

  /** `parts.slice(0, -2).join(".")`: the host without its last two labels
      (nothing when it has two or fewer). */
  function Subdomain(host: string): string {
    var parts := Split(host, '.');
    Join(parts[..if |parts| >= 2 then |parts| - 2 else 0], '.')
  }

  // ---------------------------------------------------------------------
  // Rules

  /** The facts the ten rules test, read off the input and its parts. */
  datatype Signals = Signals(
    ipHost: bool,           // rule 1, on the hostname
    phishing: bool,         // rule 2, on the input
    shortener: bool,        // rule 3, on the input
    https: bool,            // rule 4
    tldInUrl: bool,         // rule 5, on the input
    brandInHost: bool,      // rule 6, on the hostname
    tldInHost: bool,        // rule 6, on the hostname
    deepPath: bool,         // rule 7
    sensitiveQuery: bool,   // rule 8, on a non-empty query
    brandInUrl: bool,       // rule 9, on the input
    brandInSubdomain: bool) // rule 10

  function SignalsOf(t: Tables, url: string, p: UrlParts): Signals {
    var host := LowerAsciiString(p.hostname);
    var labels := Split(host, '.');
    Signals(
      IsIpHost(host),
      AnyTest(t.phishing, url),
      AnyTest(t.shorteners, url),
      IsHttps(url),
      AnyTest(t.tlds, url),
      AnyTest(t.brands, host),
      AnyTest(t.tlds, host),
      PathDepth(p.pathname) >= 5,
      |p.search| > 0 && AnyTest(t.params, p.search),
      AnyTest(t.brands, url),
      |labels| > 3 && AnyTest(t.brands, Subdomain(host)))
  }

  datatype Rule = Rule(fired: bool, points: nat, finding: string)

  /** The ten rules in the order they are applied. */
  function Rules(s: Signals): (rs: seq<Rule>)
    ensures |rs| == 10
  {
    [ Rule(s.ipHost, 30, E.IpFinding),
      Rule(s.phishing, 20, E.PhishingFinding),
      Rule(s.shortener, 25, E.ShortenerFinding),
      Rule(!s.https, 15, NotHttpsFinding),
      Rule(s.tldInUrl, 25, E.TldFinding),
      Rule(s.brandInHost && (s.phishing || s.tldInHost || s.shortener), 15, ImpersonationFinding),
      Rule(s.deepPath, 10, DeepPathFinding),
      Rule(s.sensitiveQuery, 20, E.QueryFinding),
      Rule(s.brandInUrl && (s.phishing || s.tldInUrl || s.shortener), 15, ImpersonationFinding),
      Rule(s.brandInSubdomain, 20, E.SubdomainFinding) ]
  }

  /** The points of the fired rules. */
  function Points(rs: seq<Rule>): nat
    decreases |rs|
  {
    if |rs| == 0 then 0 else (if rs[0].fired then rs[0].points else 0) + Points(rs[1..])
  }

  /** The findings of the fired rules, in rule order. */
  function Fired(rs: seq<Rule>): seq<string>
    decreases |rs|
  {
    if |rs| == 0 then [] else (if rs[0].fired then [rs[0].finding] else []) + Fired(rs[1..])
  }

  function Min(a: int, b: int): int { if a <= b then a else b }

  /** The score bands: 70 critical, 50 high, 25 medium, anything above 0 low. */
  function UrlLevel(score: int): L.Level {
    if score >= 70 then L.Critical
    else if score >= 50 then L.High
    else if score >= 25 then L.Medium
    else if score > 0 then L.Low
    else L.Safe
  }

  datatype UrlResult = UrlResult(
    url: string,
    threatScore: int,
    threatLevel: L.Level,
    findings: seq<string>,
    explanation: string)

  /** Scoring, level, findings and explanation for one set of signals. */
  function Assess(t: Tables, url: string, s: Signals): UrlResult {
    var rs := Rules(s);
    var score := Min(Points(rs), 100);
    var level := Floored(s.shortener, UrlLevel(score));
    var findings := Reported(rs);
    UrlResult(url, score, level, findings, E.Explanation(t.glossary, findings, level, url))
  }

  /** A shortener lifts a low rating to medium. */
  function Floored(shortener: bool, banded: L.Level): L.Level {
    if shortener && banded == L.Low then L.Medium else banded
  }

  /** The fired rules' findings, or the placeholder when none fires. */
  function Reported(rs: seq<Rule>): seq<string> {
    if |Fired(rs)| == 0 then [NoIssuesFinding] else Fired(rs)
  }

  datatype UrlOutcome =
    | InvalidUrl               // the parser rejected the string ("Invalid URL format")
    | EmptyUrl                 // nothing left after trimming ("Enter a URL")
    | Analyzed(result: UrlResult)

  /** The whole analysis of the text typed in. The parser runs before the
      emptiness check, so an input the parser rejects is reported invalid
      even when it is blank. */
  function AnalyzeUrl(t: Tables, input: string, parse: string -> Option<UrlParts>): UrlOutcome {
    var url := Trim(input);
    match parse(ParserInput(url))
    case None => InvalidUrl
    case Some(p) =>
      if |url| == 0 then EmptyUrl else Analyzed(Assess(t, url, SignalsOf(t, url, p)))
  }

  // ---------------------------------------------------------------------
  // Reference definitions

  function Flag(b: bool, points: nat): nat { if b then points else 0 }

  /** The rule weights summed straight off the signals. */
  function WeightedSum(s: Signals): nat {
    Flag(s.ipHost, 30) + Flag(s.phishing, 20) + Flag(s.shortener, 25) + Flag(!s.https, 15)
    + Flag(s.tldInUrl, 25) + Flag(Rules(s)[5].fired, 15) + Flag(s.deepPath, 10)
    + Flag(s.sensitiveQuery, 20) + Flag(Rules(s)[8].fired, 15) + Flag(s.brandInSubdomain, 20)
  }

  /** How often `m` occurs in a list of findings. */
  function Occurrences(fs: seq<string>, m: string): nat
    decreases |fs|
  {
    if |fs| == 0 then 0 else (if fs[0] == m then 1 else 0) + Occurrences(fs[1..], m)
  }

  /** Every rule that fires in `a` fires in `b`. */
  predicate FiresWithin(a: seq<Rule>, b: seq<Rule>) {
    |a| == |b| && forall k :: 0 <= k < |a| ==> a[k].points == b[k].points && (a[k].fired ==> b[k].fired)
  }

  // ---------------------------------------------------------------------
  // Rule lists

  lemma {:induction false} PointsAppend(a: seq<Rule>, b: seq<Rule>)
    ensures Points(a + b) == Points(a) + Points(b)
    decreases |a|
  {
    if |a| == 0 {
      assert a + b == b;
    } else {
      assert (a + b)[1..] == a[1..] + b;
      PointsAppend(a[1..], b);
    }
  }

  /** Findings keep rule order: the findings of two rule lists side by side
      are the findings of each, one after the other. */
  lemma {:induction false} FiredAppend(a: seq<Rule>, b: seq<Rule>)
    ensures Fired(a + b) == Fired(a) + Fired(b)
    decreases |a|
  {
    if |a| == 0 {
      assert a + b == b;
    } else {
      assert (a + b)[1..] == a[1..] + b;
      FiredAppend(a[1..], b);
    }
  }

  /** A finding is reported exactly when some rule carrying it fires. */
  lemma {:induction false} FiredMember(rs: seq<Rule>, m: string)
    ensures m in Fired(rs) <==> exists k :: 0 <= k < |rs| && rs[k].fired && rs[k].finding == m
    decreases |rs|
  {
    if |rs| > 0 {
      FiredMember(rs[1..], m);
      if exists k :: 0 <= k < |rs| && rs[k].fired && rs[k].finding == m {
        var k :| 0 <= k < |rs| && rs[k].fired && rs[k].finding == m;
        if k > 0 { assert rs[1..][k - 1] == rs[k]; }
      }
      if exists k :: 0 <= k < |rs[1..]| && rs[1..][k].fired && rs[1..][k].finding == m {
        var k :| 0 <= k < |rs[1..]| && rs[1..][k].fired && rs[1..][k].finding == m;
        assert rs[k + 1] == rs[1..][k];
      }
    }
  }

  /** No findings and no points exactly when no rule fires (every rule is
      worth something). */
  lemma {:induction false} NothingFired(rs: seq<Rule>)
    requires forall k :: 0 <= k < |rs| ==> rs[k].points > 0
    ensures |Fired(rs)| == 0 <==> forall k :: 0 <= k < |rs| ==> !rs[k].fired
    ensures Points(rs) == 0 <==> forall k :: 0 <= k < |rs| ==> !rs[k].fired
    decreases |rs|
  {
    if |rs| > 0 {
      NothingFired(rs[1..]);
      if forall k :: 0 <= k < |rs[1..]| ==> !rs[1..][k].fired {
        if !rs[0].fired {
          forall k | 0 <= k < |rs| ensures !rs[k].fired {
            if k > 0 { assert rs[k] == rs[1..][k - 1]; }
          }
        }
      } else {
        var k :| 0 <= k < |rs[1..]| && rs[1..][k].fired;
        assert rs[k + 1].fired;
      }
    }
  }

  /** Firing more rules never lowers the points. */
  lemma {:induction false} PointsMonotone(a: seq<Rule>, b: seq<Rule>)
    requires FiresWithin(a, b)
    ensures Points(a) <= Points(b)
    decreases |a|
  {
    if |a| > 0 {
      assert FiresWithin(a[1..], b[1..]) by {
        forall k | 0 <= k < |a[1..]|
          ensures a[1..][k].points == b[1..][k].points && (a[1..][k].fired ==> b[1..][k].fired)
        {
          assert a[1..][k] == a[k + 1] && b[1..][k] == b[k + 1];
        }
      }
      PointsMonotone(a[1..], b[1..]);
    }
  }

  /** Each fired rule contributes its points. */
  lemma {:induction false} PointsCoverRule(rs: seq<Rule>, k: nat)
    requires k < |rs| && rs[k].fired
    ensures Points(rs) >= rs[k].points
    decreases |rs|
  {
    if k > 0 {
      assert rs[1..][k - 1] == rs[k];
      PointsCoverRule(rs[1..], k - 1);
    }
  }

  lemma {:induction false} OccurrencesAppend(a: seq<string>, b: seq<string>, m: string)
    ensures Occurrences(a + b, m) == Occurrences(a, m) + Occurrences(b, m)
    decreases |a|
  {
    if |a| == 0 {
      assert a + b == b;
    } else {
      assert (a + b)[1..] == a[1..] + b;
      OccurrencesAppend(a[1..], b, m);
    }
  }

  /** The points of a rule list, peeled one rule at a time. */
  lemma PeelPoints(rs: seq<Rule>, k: nat)
    requires k < |rs|
    ensures Points(rs[k..]) == Flag(rs[k].fired, rs[k].points) + Points(rs[k + 1..])
  {
    assert rs[k..][1..] == rs[k + 1..];
  }

  /** The findings of a rule list, peeled one rule at a time. */
  lemma PeelFired(rs: seq<Rule>, k: nat)
    requires k < |rs|
    ensures Fired(rs[k..]) == (if rs[k].fired then [rs[k].finding] else []) + Fired(rs[k + 1..])
  {
    assert rs[k..][1..] == rs[k + 1..];
  }

  /** The points of a list of ten rules, rule by rule. */
  lemma PointsOfTen(rs: seq<Rule>)
    requires |rs| == 10
    ensures Points(rs) ==
      Flag(rs[0].fired, rs[0].points) + Flag(rs[1].fired, rs[1].points)
      + Flag(rs[2].fired, rs[2].points) + Flag(rs[3].fired, rs[3].points)
      + Flag(rs[4].fired, rs[4].points) + Flag(rs[5].fired, rs[5].points)
      + Flag(rs[6].fired, rs[6].points) + Flag(rs[7].fired, rs[7].points)
      + Flag(rs[8].fired, rs[8].points) + Flag(rs[9].fired, rs[9].points)
  {
    assert rs[10..] == [];
    assert rs[0..] == rs;
    PointsOfFive(rs, 0);
    PointsOfFive(rs, 5);
  }

  /** The points of five consecutive rules, rule by rule. */
  lemma PointsOfFive(rs: seq<Rule>, k: nat)
    requires k + 5 <= |rs|
    ensures Points(rs[k..]) ==
      Flag(rs[k].fired, rs[k].points) + Flag(rs[k + 1].fired, rs[k + 1].points)
      + Flag(rs[k + 2].fired, rs[k + 2].points) + Flag(rs[k + 3].fired, rs[k + 3].points)
      + Flag(rs[k + 4].fired, rs[k + 4].points) + Points(rs[k + 5..])
  {
    PeelPoints(rs, k); PeelPoints(rs, k + 1); PeelPoints(rs, k + 2);
    PeelPoints(rs, k + 3); PeelPoints(rs, k + 4);
  }

  // ---------------------------------------------------------------------
  // Scoring

  /** The rule tally is the weighted sum of the signals. */
  lemma RulePoints(s: Signals)
    ensures Points(Rules(s)) == WeightedSum(s)
  {
    var rs := Rules(s);
    PointsOfTen(rs);
  }

  /** 1 when the rule fires and reports `m`. */
  function Carries(r: Rule, m: string): nat {
    if r.fired && r.finding == m then 1 else 0
  }

  /** Occurrences of a finding among the fired findings, peeled one rule at
      a time. */
  lemma PeelOccurrences(rs: seq<Rule>, k: nat, m: string)
    requires k < |rs|
    ensures Occurrences(Fired(rs[k..]), m) ==
      Carries(rs[k], m) + Occurrences(Fired(rs[k + 1..]), m)
  {
    PeelFired(rs, k);
    var head := if rs[k].fired then [rs[k].finding] else [];
    OccurrencesAppend(head, Fired(rs[k + 1..]), m);
    assert Occurrences(head, m) == Carries(rs[k], m) by {
      if rs[k].fired { assert head[1..] == []; }
    }
  }

  /** How many of ten rules carrying `m` fire. */
  lemma OccurrencesOfTen(rs: seq<Rule>, m: string)
    requires |rs| == 10
    ensures Occurrences(Fired(rs), m) ==
      Carries(rs[0], m) + Carries(rs[1], m)
      + Carries(rs[2], m) + Carries(rs[3], m)
      + Carries(rs[4], m) + Carries(rs[5], m)
      + Carries(rs[6], m) + Carries(rs[7], m)
      + Carries(rs[8], m) + Carries(rs[9], m)
  {
    assert rs[10..] == [];
    assert rs[0..] == rs;
    OccurrencesOfFive(rs, 0, m);
    OccurrencesOfFive(rs, 5, m);
  }

  /** How many of five consecutive rules carrying `m` fire. */
  lemma OccurrencesOfFive(rs: seq<Rule>, k: nat, m: string)
    requires k + 5 <= |rs|
    ensures Occurrences(Fired(rs[k..]), m) ==
      Carries(rs[k], m) + Carries(rs[k + 1], m) + Carries(rs[k + 2], m)
      + Carries(rs[k + 3], m) + Carries(rs[k + 4], m) + Occurrences(Fired(rs[k + 5..]), m)
  {
    PeelOccurrences(rs, k, m); PeelOccurrences(rs, k + 1, m); PeelOccurrences(rs, k + 2, m);
    PeelOccurrences(rs, k + 3, m); PeelOccurrences(rs, k + 4, m);
  }

  /** The findings differ in length, hence from one another. */
  lemma FindingLengths()
    ensures |E.IpFinding| == 37 && |E.PhishingFinding| == 34 && |E.ShortenerFinding| == 43
    ensures |NotHttpsFinding| == 23 && |E.TldFinding| == 65 && |ImpersonationFinding| == 78
    ensures |DeepPathFinding| == 33 && |E.QueryFinding| == 63 && |E.SubdomainFinding| == 67
    ensures |NoIssuesFinding| == 36
  {
  }

  lemma UrlLevelMonotone(a: int, b: int)
    requires a <= b
    ensures L.Rank(UrlLevel(a)) <= L.Rank(UrlLevel(b))
  {
  }

  /** The result's score, level and findings as a rule list gives them. */
  predicate Scored(r: UrlResult, rs: seq<Rule>, shortener: bool) {
    && r.threatScore == Min(Points(rs), 100)
    && r.threatLevel == Floored(shortener, UrlLevel(r.threatScore))
    && r.findings == Reported(rs)
  }

  /** Ten rules, each worth some points, none reporting the placeholder. */
  predicate WellFormedRules(rs: seq<Rule>) {
    && |rs| == 10
    && forall k :: 0 <= k < |rs| ==> rs[k].points > 0 && rs[k].finding != NoIssuesFinding
  }

  lemma AssessScored(t: Tables, url: string, s: Signals)
    ensures Scored(Assess(t, url, s), Rules(s), s.shortener)
  {
  }

  /** Every rule is worth something, and none reports the placeholder. */
  lemma RulesWellFormed(s: Signals)
    ensures WellFormedRules(Rules(s))
  {
    var rs := Rules(s);
    FindingLengths();
    forall k | 0 <= k < 10 ensures rs[k].finding != NoIssuesFinding {
      assert |rs[k].finding| != |NoIssuesFinding|;
    }
  }

  /** The shortener rule alone is worth 25 points. */
  lemma ShortenerPoints(s: Signals)
    ensures s.shortener ==> Points(Rules(s)) >= 25
  {
    if s.shortener {
      PointsCoverRule(Rules(s), 2);
    }
  }

  /** Given the points a shortener brings, the floor never changes the band. */
  lemma ScoredLevel(r: UrlResult, rs: seq<Rule>, shortener: bool)
    requires Scored(r, rs, shortener)
    requires shortener ==> Points(rs) >= 25
    ensures r.threatLevel == UrlLevel(r.threatScore)
    ensures shortener ==> L.Rank(r.threatLevel) >= L.Rank(L.Medium)
  {
  }

  /** Nothing scored, and the level safe, exactly when no rule fires. */
  lemma ScoredQuiet(r: UrlResult, rs: seq<Rule>, shortener: bool)
    requires Scored(r, rs, shortener) && WellFormedRules(rs)
    requires shortener ==> Points(rs) >= 25
    ensures r.threatScore == 0 <==> forall k :: 0 <= k < 10 ==> !rs[k].fired
    ensures r.threatLevel == L.Safe <==> r.threatScore == 0
  {
    NothingFired(rs);
    ScoredLevel(r, rs, shortener);
  }

  /** The placeholder alone exactly when no rule fires, the fired findings
      otherwise. */
  lemma ScoredFindings(r: UrlResult, rs: seq<Rule>, shortener: bool)
    requires Scored(r, rs, shortener) && WellFormedRules(rs)
    ensures r.findings == [NoIssuesFinding] <==> forall k :: 0 <= k < 10 ==> !rs[k].fired
    ensures (exists k :: 0 <= k < 10 && rs[k].fired) ==> r.findings == Fired(rs)
  {
    NothingFired(rs);
    FiredMember(rs, NoIssuesFinding);
    assert NoIssuesFinding in [NoIssuesFinding];
  }

  /** A finding other than the placeholder is reported exactly when a rule
      carrying it fires. */
  lemma ScoredReports(r: UrlResult, rs: seq<Rule>, shortener: bool, m: string)
    requires Scored(r, rs, shortener) && WellFormedRules(rs)
    requires m != NoIssuesFinding
    ensures m in r.findings <==> exists k :: 0 <= k < 10 && rs[k].fired && rs[k].finding == m
  {
    NothingFired(rs);
    FiredMember(rs, m);
  }

  /** A finding other than the placeholder occurs among the reported
      findings as often as among the fired ones. */
  lemma ScoredOccurrences(r: UrlResult, rs: seq<Rule>, shortener: bool, m: string)
    requires Scored(r, rs, shortener) && WellFormedRules(rs)
    requires m != NoIssuesFinding
    ensures Occurrences(r.findings, m) == Occurrences(Fired(rs), m)
  {
    if |Fired(rs)| == 0 {
      assert [NoIssuesFinding][1..] == [];
    }
  }

  /** The score is the weighted sum of the fired rules, capped at 100. */
  lemma AssessScore(t: Tables, url: string, s: Signals)
    ensures 0 <= Assess(t, url, s).threatScore <= 100
    ensures Assess(t, url, s).threatScore == Min(WeightedSum(s), 100)
  {
    RulePoints(s);
  }

  /** The level is the band of the score: the shortener floor never changes
      it, because a shortener alone scores 25, which already bands medium. */
  lemma AssessLevel(t: Tables, url: string, s: Signals)
    ensures Assess(t, url, s).threatLevel == UrlLevel(Assess(t, url, s).threatScore)
    ensures s.shortener ==> L.Rank(Assess(t, url, s).threatLevel) >= L.Rank(L.Medium)
  {
    AssessScored(t, url, s);
    ShortenerPoints(s);
    ScoredLevel(Assess(t, url, s), Rules(s), s.shortener);
  }

  /** No rule of the ten reports the placeholder. */
  lemma PlaceholderNotFired(s: Signals)
    ensures NoIssuesFinding !in Fired(Rules(s))
  {
    RulesWellFormed(s);
    FiredMember(Rules(s), NoIssuesFinding);
  }

  /** The score is 0, and the level safe, exactly when no rule fires. */
  lemma AssessQuiet(t: Tables, url: string, s: Signals)
    ensures var r := Assess(t, url, s);
      && (r.threatScore == 0 <==> forall k :: 0 <= k < 10 ==> !Rules(s)[k].fired)
      && (r.threatLevel == L.Safe <==> r.threatScore == 0)
  {
    AssessScored(t, url, s);
    RulesWellFormed(s);
    ShortenerPoints(s);
    ScoredQuiet(Assess(t, url, s), Rules(s), s.shortener);
  }

  /** The placeholder is reported exactly when no rule fires; otherwise the
      findings are the fired rules' findings in rule order. */
  lemma AssessFindings(t: Tables, url: string, s: Signals)
    ensures var r := Assess(t, url, s);
      && (r.findings == [NoIssuesFinding] <==> forall k :: 0 <= k < 10 ==> !Rules(s)[k].fired)
      && ((exists k :: 0 <= k < 10 && Rules(s)[k].fired) ==> r.findings == Fired(Rules(s)))
  {
    AssessScored(t, url, s);
    RulesWellFormed(s);
    ScoredFindings(Assess(t, url, s), Rules(s), s.shortener);
  }

  /** A finding other than the placeholder is reported exactly when a rule
      carrying it fires. */
  lemma AssessReports(t: Tables, url: string, s: Signals, m: string)
    requires m != NoIssuesFinding
    ensures m in Assess(t, url, s).findings <==>
      exists k :: 0 <= k < 10 && Rules(s)[k].fired && Rules(s)[k].finding == m
  {
    AssessScored(t, url, s);
    RulesWellFormed(s);
    ScoredReports(Assess(t, url, s), Rules(s), s.shortener, m);
  }

  /** Only rules 6 and 9 carry the impersonation finding. */
  lemma ImpersonationRules(s: Signals)
    ensures Occurrences(Fired(Rules(s)), ImpersonationFinding) ==
      Flag(Rules(s)[5].fired, 1) + Flag(Rules(s)[8].fired, 1)
  {
    var rs := Rules(s);
    FindingLengths();
    OccurrencesOfTen(rs, ImpersonationFinding);
  }

  /** The impersonation finding is reported once for each of rules 6 and 9
      that fires: twice when both do. */
  lemma ImpersonationCount(t: Tables, url: string, s: Signals)
    ensures Occurrences(Assess(t, url, s).findings, ImpersonationFinding) ==
      Flag(Rules(s)[5].fired, 1) + Flag(Rules(s)[8].fired, 1)
  {
    AssessScored(t, url, s);
    RulesWellFormed(s);
    FindingLengths();
    ScoredOccurrences(Assess(t, url, s), Rules(s), s.shortener, ImpersonationFinding);
    ImpersonationRules(s);
  }

  /** Firing more rules never lowers the score or the level. */
  lemma AssessMonotone(t: Tables, url: string, s1: Signals, s2: Signals)
    requires FiresWithin(Rules(s1), Rules(s2))
    ensures Assess(t, url, s1).threatScore <= Assess(t, url, s2).threatScore
    ensures L.Rank(Assess(t, url, s1).threatLevel) <= L.Rank(Assess(t, url, s2).threatLevel)
  {
    PointsMonotone(Rules(s1), Rules(s2));
    AssessLevel(t, url, s1);
    AssessLevel(t, url, s2);
    UrlLevelMonotone(Assess(t, url, s1).threatScore, Assess(t, url, s2).threatScore);
  }

  /** The explanation names the input, counts the findings and closes with
      the sentence for the level. */
  lemma AssessExplanation(t: Tables, url: string, s: Signals)
    ensures var r := Assess(t, url, s);
      && StartsWith(r.explanation, E.Opening(url))
      && EndsWith(r.explanation, E.Footer(r.threatLevel))
      && StartsWith(r.explanation, E.Header(url, |r.findings|))
  {
    var r := Assess(t, url, s);
    E.ExplanationFrame(t.glossary, r.findings, r.threatLevel, url);
  }

  // ---------------------------------------------------------------------
  // Parsing

  /** The parser always receives an `http://` or `https://` string that
      ends with the input; prefixing is idempotent, and the protocol is
      `https:` exactly when the input itself starts with `https://`. */
  lemma ParserInputSpec(url: string)
    ensures StartsWith(ParserInput(url), "http://") || StartsWith(ParserInput(url), "https://")
    ensures EndsWith(ParserInput(url), url)
    ensures ParserInput(ParserInput(url)) == ParserInput(url)
    ensures StartsWith(ParserInput(url), "https://") <==> IsHttps(url)
  {
    var q := ParserInput(url);
    if q != url {
      assert q == "http://" + url;
      assert q[..7] == "http://";
      assert q[7..] == url;
      if |q| >= 8 {
        assert q[4] == ':' && "https://"[4] == 's';
      }
    }
  }

  /** The input is reported invalid exactly when the parser rejects it
      (blank input included), reported empty exactly when the parser
      accepts a blank input, and otherwise analysed as trimmed. */
  lemma AnalyzeUrlOutcome(t: Tables, input: string, parse: string -> Option<UrlParts>)
    ensures var url := Trim(input);
      && (AnalyzeUrl(t, input, parse) == InvalidUrl <==> parse(ParserInput(url)).None?)
      && (AnalyzeUrl(t, input, parse) == EmptyUrl <==> parse(ParserInput(url)).Some? && |url| == 0)
      && (AnalyzeUrl(t, input, parse).Analyzed? ==>
            AnalyzeUrl(t, input, parse).result.url == url
            && AnalyzeUrl(t, input, parse).result ==
                 Assess(t, url, SignalsOf(t, url, parse(ParserInput(url)).value)))
  {
  }

  /** An input typed without `https://` is always marked not HTTPS and
      scores at least 15. */
  lemma SchemelessNotHttps(t: Tables, input: string, parse: string -> Option<UrlParts>)
    requires parse(ParserInput(Trim(input))).Some? && |Trim(input)| > 0
    requires !StartsWith(Trim(input), "https://")
    ensures NotHttpsFinding in AnalyzeUrl(t, input, parse).result.findings
    ensures AnalyzeUrl(t, input, parse).result.threatScore >= 15
  {
    var url := Trim(input);
    var s := SignalsOf(t, url, parse(ParserInput(url)).value);
    FindingLengths();
    assert Rules(s)[3].fired && Rules(s)[3].finding == NotHttpsFinding;
    AssessReports(t, url, s, NotHttpsFinding);
    AssessScore(t, url, s);
  }

  // ---------------------------------------------------------------------
  // Hostnames and paths

  /** A hostname counts as an IP address exactly when it is four runs of
      one to three digits joined by dots; the runs' values are not
      checked, so `999.999.999.999` counts. */
  lemma IpHostSpec(host: string)
    ensures IsIpHost(host) <==>
      exists octets :: |octets| == 4 && host == Join(octets, '.')
        && forall k :: 0 <= k < 4 ==> IsOctet(octets[k])
  {
    JoinSplit(host, '.');
    if exists octets :: |octets| == 4 && host == Join(octets, '.')
        && forall k :: 0 <= k < 4 ==> IsOctet(octets[k]) {
      var octets :| |octets| == 4 && host == Join(octets, '.')
        && forall k :: 0 <= k < 4 ==> IsOctet(octets[k]);
      assert SeparatorFree(octets, '.') by {
        forall k | 0 <= k < 4 ensures '.' !in octets[k] {
          assert forall i :: 0 <= i < |octets[k]| ==> octets[k][i] != '.';
        }
      }
      SplitJoin(octets, '.');
    }
  }

  lemma {:induction false} NonEmptyAppend(a: seq<string>, b: seq<string>)
    ensures NonEmpty(a + b) == NonEmpty(a) + NonEmpty(b)
    decreases |a|
  {
    if |a| == 0 {
      assert a + b == b;
    } else {
      assert (a + b)[1..] == a[1..] + b;
      NonEmptyAppend(a[1..], b);
    }
  }

  lemma {:induction false} NonEmptyAll(parts: seq<string>)
    requires forall k :: 0 <= k < |parts| ==> |parts[k]| > 0
    ensures NonEmpty(parts) == |parts|
    decreases |parts|
  {
    if |parts| > 0 {
      NonEmptyAll(parts[1..]);
    }
  }

  /** Depths add across a slash, whatever the empty segments around it. */
  lemma PathDepthConcat(a: string, b: string)
    ensures PathDepth(a + "/" + b) == PathDepth(a) + PathDepth(b)
  {
    SplitConcat(a, b, '/');
    NonEmptyAppend(Split(a, '/'), Split(b, '/'));
  }

  /** A path of non-empty, slash-free segments after a leading slash has
      as many levels as segments. */
  lemma PathDepthSegments(segments: seq<string>)
    requires |segments| >= 1
    requires forall k :: 0 <= k < |segments| ==> |segments[k]| > 0 && '/' !in segments[k]
    ensures PathDepth("/" + Join(segments, '/')) == |segments|
  {
    var j := Join(segments, '/');
    assert "/" + j == "" + "/" + j;
    PathDepthConcat("", j);
    assert PathDepth("") == 0;
    SplitJoin(segments, '/');
    NonEmptyAll(segments);
  }

  /** The text rule 10 tests for a brand is the hostname without its last
      two labels, and the rule's label count exceeds 3 exactly when that
      text has a dot. */
  lemma SubdomainSpec(sub: string, domain: string, tld: string)
    requires '.' !in domain && '.' !in tld
    ensures Subdomain(sub + "." + domain + "." + tld) == sub
    ensures |Split(sub + "." + domain + "." + tld, '.')| == |Split(sub, '.')| + 2
  {
    var host := sub + "." + domain + "." + tld;
    var rest := domain + "." + tld;
    assert host == sub + ['.'] + rest;
    SplitConcat(sub, rest, '.');
    SplitAtSeparator(domain, tld, '.');
    assert domain + "." + tld == domain + ['.'] + tld;
    SplitNoSeparator(tld, '.');
    var parts := Split(host, '.');
    assert parts == Split(sub, '.') + [domain, tld];
    assert parts[..|parts| - 2] == Split(sub, '.');
    JoinSplit(sub, '.');
  }

  // ---------------------------------------------------------------------
  // The top-level-domain rule

  /** An anchored TLD pattern list tests true exactly when the text ends
      with a dot and one of the listed domains, ignoring ASCII case. */
  lemma TldRuleSpec(tlds: seq<string>, u: string)
    ensures AnyTest(TldPatterns(tlds), u) <==>
      exists k :: 0 <= k < |tlds| && |tlds[k]| + 1 <= |u|
        && LitAt("." + tlds[k], u[|u| - |tlds[k]| - 1..], true)
  {
    var res := TldPatterns(tlds);
    forall k | 0 <= k < |tlds|
      ensures Test(res[k], u) <==>
        |tlds[k]| + 1 <= |u| && LitAt("." + tlds[k], u[|u| - |tlds[k]| - 1..], true)
    {
      SuffixTest("." + tlds[k], true, u);
    }
  }

  /** Rule 5 reads the whole input, so an input ending with a slash (a
      path after the domain) never fires it, whatever the domain. */
  lemma TrailingSlashHidesTld(tlds: seq<string>, u: string)
    requires forall k :: 0 <= k < |tlds| ==> |tlds[k]| > 0 && tlds[k][|tlds[k]| - 1] != '/'
    requires |u| > 0 && u[|u| - 1] == '/'
    ensures !AnyTest(TldPatterns(tlds), u)
  {
    TldRuleSpec(tlds, u);
    forall k | 0 <= k < |tlds| && |tlds[k]| + 1 <= |u|
      ensures !LitAt("." + tlds[k], u[|u| - |tlds[k]| - 1..], true)
    {
      var w := "." + tlds[k];
      var v := u[|u| - |w|..];
      assert v[|w| - 1] == '/';
      assert w[|w| - 1] == tlds[k][|tlds[k]| - 1];
      assert !CharMatches(w[|w| - 1], v[|w| - 1], true);
    }
  }

  // ---------------------------------------------------------------------
  // Consequences for particular inputs

  /** The shipped tables hold `t.co` as the third shortener and
      `microsoft` as the fourth brand, and every risky domain ends in a
      letter. */
  lemma ShippedTableFacts()
    ensures |Shipped.shorteners| == 6 && Shipped.shorteners[2] == Regex([Lit("t.co")], true)
    ensures |Shipped.brands| == 11 && Shipped.brands[3] == Regex([Lit("microsoft")], true)
    ensures Shipped.tlds == TldPatterns(RiskyTlds)
    ensures forall k :: 0 <= k < |RiskyTlds| ==>
      |RiskyTlds[k]| > 0 && RiskyTlds[k][|RiskyTlds[k]| - 1] != '/'
  {
  }

  /** `t.co` occurs inside `microsoft.com`, and `microsoft` in both the
      input and the hostname. */
  lemma MicrosoftHomeSignals(t: Tables, p: UrlParts)
    requires |t.shorteners| > 2 && t.shorteners[2] == Regex([Lit("t.co")], true)
    requires |t.brands| > 3 && t.brands[3] == Regex([Lit("microsoft")], true)
    requires p.hostname == "microsoft.com"
    ensures var s := SignalsOf(t, "https://microsoft.com", p);
      s.shortener && s.brandInUrl && s.brandInHost
  {
    var url := "https://microsoft.com";
    MicrosoftHomeSplits();
    LowerAsciiNoCapitals("microsoft.com");
    SignalsRead(t, url, p);
    WordIn("t.co", true, "https://microsof", "m");
    assert Test(t.shorteners[2], url);
    WordIn("microsoft", true, "https://", ".com");
    assert Test(t.brands[3], url);
    WordIn("microsoft", true, "", ".com");
    assert Test(t.brands[3], "microsoft.com");
  }

  /** The three signals read off the input and the lower-cased hostname. */
  lemma SignalsRead(t: Tables, url: string, p: UrlParts)
    ensures SignalsOf(t, url, p).shortener == AnyTest(t.shorteners, url)
    ensures SignalsOf(t, url, p).brandInUrl == AnyTest(t.brands, url)
    ensures SignalsOf(t, url, p).brandInHost == AnyTest(t.brands, LowerAsciiString(p.hostname))
  {
  }

  /** Where the two words sit in the input and the hostname. */
  lemma MicrosoftHomeSplits()
    ensures "https://microsoft.com" == "https://microsof" + "t.co" + "m"
    ensures "https://microsoft.com" == "https://" + "microsoft" + ".com"
    ensures "microsoft.com" == "" + "microsoft" + ".com"
  {
  }


  /** A shortener hit next to a brand in both the input and the hostname
      fires rules 3, 6 and 9: at least 55 points, a high rating, the
      shortener finding and the impersonation finding twice. */
  lemma ShortenedBrand(t: Tables, url: string, s: Signals)
    requires s.shortener && s.brandInUrl && s.brandInHost
    ensures Assess(t, url, s).threatScore >= 55
    ensures L.Rank(Assess(t, url, s).threatLevel) >= L.Rank(L.High)
    ensures E.ShortenerFinding in Assess(t, url, s).findings
    ensures Occurrences(Assess(t, url, s).findings, ImpersonationFinding) == 2
  {
    var r := Assess(t, url, s);
    ShortenedBrandRules(s);
    AssessScore(t, url, s);
    AssessLevel(t, url, s);
    HighBand(r.threatScore);
    AssessReports(t, url, s, E.ShortenerFinding);
    ImpersonationCount(t, url, s);
  }

  /** Rules 3, 6 and 9 fire, and rule 3 carries the shortener finding. */
  lemma ShortenedBrandRules(s: Signals)
    requires s.shortener && s.brandInUrl && s.brandInHost
    ensures Rules(s)[2].fired && Rules(s)[2].finding == E.ShortenerFinding
    ensures Rules(s)[5].fired && Rules(s)[8].fired
    ensures WeightedSum(s) >= 55
    ensures E.ShortenerFinding != NoIssuesFinding
  {
    FindingLengths();
  }

  /** A score of 50 or more bands at least high. */
  lemma HighBand(score: int)
    requires score >= 50
    ensures L.Rank(UrlLevel(score)) >= L.Rank(L.High)
  {
  }

  /** So the plain Microsoft home page scores at least 55 and rates high. */
  lemma MicrosoftHomeRatedHigh(t: Tables, input: string, parse: string -> Option<UrlParts>, p: UrlParts)
    requires |t.shorteners| > 2 && t.shorteners[2] == Regex([Lit("t.co")], true)
    requires |t.brands| > 3 && t.brands[3] == Regex([Lit("microsoft")], true)
    requires Trim(input) == "https://microsoft.com"
    requires parse(ParserInput("https://microsoft.com")) == Some(p) && p.hostname == "microsoft.com"
    ensures AnalyzeUrl(t, input, parse).Analyzed?
    ensures AnalyzeUrl(t, input, parse).result.threatScore >= 55
    ensures L.Rank(AnalyzeUrl(t, input, parse).result.threatLevel) >= L.Rank(L.High)
    ensures E.ShortenerFinding in AnalyzeUrl(t, input, parse).result.findings
    ensures Occurrences(AnalyzeUrl(t, input, parse).result.findings, ImpersonationFinding) == 2
  {
    var url := "https://microsoft.com";
    MicrosoftHomeSignals(t, p);
    ShortenedBrand(t, url, SignalsOf(t, url, p));
  }

  /** The same holds with the shipped tables. */
  lemma ShippedMicrosoftHomeRatedHigh(input: string, parse: string -> Option<UrlParts>, p: UrlParts)
    requires Trim(input) == "https://microsoft.com"
    requires parse(ParserInput("https://microsoft.com")) == Some(p) && p.hostname == "microsoft.com"
    ensures AnalyzeUrl(Shipped, input, parse).Analyzed?
    ensures AnalyzeUrl(Shipped, input, parse).result.threatScore >= 55
    ensures L.Rank(AnalyzeUrl(Shipped, input, parse).result.threatLevel) >= L.Rank(L.High)
  {
    ShippedTableFacts();
    MicrosoftHomeRatedHigh(Shipped, input, parse, p);
  }

  /** Only rule 5 reports the top-level-domain finding. */
  lemma TldFindingOnlyFromRule5(t: Tables, url: string, s: Signals)
    requires !s.tldInUrl
    ensures E.TldFinding !in Assess(t, url, s).findings
  {
    TldRuleOnly(s);
    AssessReports(t, url, s, E.TldFinding);
  }

  /** Rule 5 is the only rule that carries the top-level-domain finding. */
  lemma TldRuleOnly(s: Signals)
    ensures forall k :: 0 <= k < 10 && Rules(s)[k].finding == E.TldFinding ==> k == 4
    ensures Rules(s)[4].fired == s.tldInUrl
    ensures E.TldFinding != NoIssuesFinding
  {
    var rs := Rules(s);
    FindingLengths();
    forall k | 0 <= k < 10 && k != 4 ensures rs[k].finding != E.TldFinding {
      assert |rs[k].finding| != |E.TldFinding|;
    }
  }

  /** With the shipped tables, an input that ends with a slash is never
      reported for its top-level domain (rule 5), even `evil.xyz/`. */
  lemma ShippedTrailingSlashNoTldFinding(input: string, parse: string -> Option<UrlParts>)
    requires parse(ParserInput(Trim(input))).Some?
    requires var url := Trim(input); |url| > 0 && url[|url| - 1] == '/'
    ensures E.TldFinding !in AnalyzeUrl(Shipped, input, parse).result.findings
  {
    var url := Trim(input);
    var s := SignalsOf(Shipped, url, parse(ParserInput(url)).value);
    ShippedTableFacts();
    TrailingSlashHidesTld(RiskyTlds, url);
    TldFindingOnlyFromRule5(Shipped, url, s);
  }
}
