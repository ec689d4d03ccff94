/** `generateHeuristicExplanation` (url-analyzer.js): the text shown beside a
    URL verdict. A header names the URL and the number of findings, one
    bullet per finding carries its finding and an explanation (a fixed one
    for six known findings, a generic one otherwise), and a risk sentence
    for the level and a fixed disclaimer close the text. */
module UrlExplanation {
  import opened Text
  import L = Levels

  const Fallback: string := "This pattern matches known social-engineering or obfuscation techniques."

  const Disclaimer: string := "This analysis is heuristic-based and does not guarantee malicious intent."

  /** The bullet character `•` and the space after it. */
  const BulletMark: string := "\U{2022} "

  const ShortenerFinding: string := "Uses URL shortener (destination obfuscated)"
  const PhishingFinding: string := "Contains phishing-related keywords"
  const SubdomainFinding: string := "Brand name appears in subdomain \U{2014} common phishing evasion technique"
  const TldFinding: string := "Uses high-risk TLD often associated with newly registered domains"
  const IpFinding: string := "Uses raw IP address instead of domain"
  const QueryFinding: string := "Contains sensitive query parameters commonly abused in phishing"

  /** `explanationMap` with its fallback: entries are looked up by finding,
      and a finding without an entry gets the fallback. */
  datatype Glossary = Glossary(entries: seq<(string, string)>, fallback: string)

  const ShippedGlossary: Glossary := Glossary(
    [ (ShortenerFinding,
       "URL shorteners hide the final destination, preventing users from seeing the real domain. Attackers often use them to conceal malicious links."),
      (PhishingFinding,
       "Urgency-based keywords are commonly used in phishing to pressure users into acting quickly without verifying legitimacy."),
      (SubdomainFinding,
       "Attackers embed trusted brand names inside subdomains to trick users into overlooking the actual malicious domain."),
      (TldFinding,
       "Certain TLDs are statistically abused more often due to low cost and minimal verification."),
      (IpFinding,
       "IP-based URLs avoid domain reputation checks and hide ownership, which is common in malicious infrastructure."),
      (QueryFinding,
       "Parameters like tokens or session IDs may indicate attempts to capture authentication data.") ],
    Fallback)

  predicate HasEntry(g: Glossary, finding: string) {
    exists k :: 0 <= k < |g.entries| && g.entries[k].0 == finding
  }

  /** `explanationMap[f] || fallback`: the first entry for the finding. */
  function Explain(g: Glossary, finding: string): string
    decreases |g.entries|
  {
    if |g.entries| == 0 then g.fallback
    else if g.entries[0].0 == finding then g.entries[0].1
    else Explain(g.(entries := g.entries[1..]), finding)
  }

  /** `riskMap[threatLevel]`. */
  function RiskSentence(level: L.Level): string {
    match level
    case Safe => "Overall risk is minimal."
    case Low => "Low risk indicators detected."
    case Medium => "Multiple suspicious indicators detected."
    case High => "Strong correlation with phishing or malicious behavior."
    case Critical => "High-confidence malicious intent detected."
  }

  /** The first paragraph: the URL in quotes and the count of findings,
      with `indicator` made plural unless there is exactly one. */
  function Header(url: string, count: nat): string {
    Opening(url) + CountPhrase(count)
  }

  function Opening(url: string): string {
    "ZeroRisk Sentinel analyzed \"" + url + "\""
  }

  function CountPhrase(count: nat): string {
    Tally(count) + Noun(count) + ".\n\n"
  }

  function Tally(count: nat): string {
    " and identified " + NatToString(count) + " heuristic "
  }

  function Noun(count: nat): string {
    if count != 1 then "indicators" else "indicator"
  }

  function BulletLine(g: Glossary, finding: string): string {
    BulletMark + finding + ": " + Explain(g, finding) + "\n"
  }

  /** One bullet line per finding, in order. */
  function Bullets(g: Glossary, findings: seq<string>): string
    decreases |findings|
  {
    if |findings| == 0 then "" else BulletLine(g, findings[0]) + Bullets(g, findings[1..])
  }

  function Footer(level: L.Level): string {
    "\n" + RiskSentence(level) + "\n" + Disclaimer
  }

  function Explanation(g: Glossary, findings: seq<string>, level: L.Level, url: string): string {
    Header(url, |findings|) + Bullets(g, findings) + Footer(level)
  }

  function GenerateHeuristicExplanation(findings: seq<string>, level: L.Level, url: string): string {
    Explanation(ShippedGlossary, findings, level, url)
  }

  // ---------------------------------------------------------------------
  // Properties

  /** The text opens with the header, which names the URL in quotes, and
      closes with the risk sentence for the level followed by the
      disclaimer. */
  lemma ExplanationFrame(g: Glossary, findings: seq<string>, level: L.Level, url: string)
    ensures StartsWith(Explanation(g, findings, level, url), Opening(url))
    ensures StartsWith(Explanation(g, findings, level, url), Header(url, |findings|))
    ensures EndsWith(Explanation(g, findings, level, url), Footer(level))
  {
    ConcatFrame4(Opening(url), CountPhrase(|findings|), Bullets(g, findings), Footer(level));
  }

  /** The header carries the count as a numeral that reads back to the
      number of findings, and says `indicators` exactly when that number
      is not one. */
  lemma HeaderCount(url: string, count: nat)
    ensures exists numeral ::
              && IsDigits(numeral) && ParseNat(numeral) == count
              && StartsWith(CountPhrase(count), " and identified " + numeral + " heuristic ")
    ensures EndsWith(Header(url, count), "indicators.\n\n") <==> count != 1
  {
    NatToStringRoundTrip(count);
    ConcatFrame(Tally(count), Noun(count), ".\n\n");
    HeaderNoun(url, count);
  }

  lemma HeaderNoun(url: string, count: nat)
    ensures EndsWith(Header(url, count), "indicators.\n\n") <==> count != 1
  {
    var cp := CountPhrase(count);
    assert |cp| >= 14;
    EndsWithRight(Opening(url), cp, "indicators.\n\n");
    if count != 1 {
      EndsWithLastTwo(Tally(count), "indicators", ".\n\n");
      assert "indicators" + ".\n\n" == "indicators.\n\n";
    } else {
      CharFromEnd(Tally(count), "indicator", ".\n\n", 4);
      NotEndsWithAt(cp, "indicators.\n\n", 4);
    }
  }

  /** Bullets follow the findings' order: the bullets of two lists side by
      side are the bullets of the lists joined. */
  lemma {:induction false} BulletsAppend(g: Glossary, a: seq<string>, b: seq<string>)
    ensures Bullets(g, a + b) == Bullets(g, a) + Bullets(g, b)
    decreases |a|
  {
    if |a| == 0 {
      assert a + b == b;
    } else {
      assert (a + b)[1..] == a[1..] + b;
      BulletsAppend(g, a[1..], b);
    }
  }

  /** A finding with an entry gets the text of its first entry; a finding
      without one gets the fallback. */
  lemma {:induction false} ExplainSpec(g: Glossary, finding: string)
    ensures HasEntry(g, finding) ==>
      exists k :: 0 <= k < |g.entries| && g.entries[k].0 == finding
        && Explain(g, finding) == g.entries[k].1
        && forall j :: 0 <= j < k ==> g.entries[j].0 != finding
    ensures !HasEntry(g, finding) ==> Explain(g, finding) == g.fallback
    decreases |g.entries|
  {
    if |g.entries| > 0 && g.entries[0].0 != finding {
      var rest := g.(entries := g.entries[1..]);
      ExplainSpec(rest, finding);
      if HasEntry(g, finding) {
        var k :| 0 <= k < |g.entries| && g.entries[k].0 == finding;
        assert rest.entries[k - 1].0 == finding;
        var k' :| 0 <= k' < |rest.entries| && rest.entries[k'].0 == finding
          && Explain(rest, finding) == rest.entries[k'].1
          && forall j :: 0 <= j < k' ==> rest.entries[j].0 != finding;
        assert g.entries[k' + 1] == rest.entries[k'];
        assert forall j :: 0 <= j < k' + 1 ==> g.entries[j].0 != finding by {
          forall j | 0 <= j < k' + 1 ensures g.entries[j].0 != finding {
            if j > 0 { assert g.entries[j] == rest.entries[j - 1]; }
          }
        }
      } else {
        forall k | 0 <= k < |rest.entries| ensures rest.entries[k].0 != finding {
          assert rest.entries[k] == g.entries[k + 1];
        }
      }
    } else if |g.entries| > 0 {
      assert g.entries[0].0 == finding;
    }
  }

  /** When no entry's text is the fallback, the fallback is given exactly
      to the findings without an entry. */
  lemma FallbackExactlyWhenUnmapped(g: Glossary, finding: string)
    requires forall k :: 0 <= k < |g.entries| ==> g.entries[k].1 != g.fallback
    ensures Explain(g, finding) == g.fallback <==> !HasEntry(g, finding)
  {
    ExplainSpec(g, finding);
  }

  /** None of the six shipped explanations is the fallback text. */
  lemma ShippedGlossaryTexts()
    ensures |ShippedGlossary.entries| == 6
    ensures forall k :: 0 <= k < 6 ==> ShippedGlossary.entries[k].1 != ShippedGlossary.fallback
  {
    var e := ShippedGlossary.entries;
    assert |Fallback| == 72;
    assert |e[0].1| == 141 && |e[1].1| == 120 && |e[2].1| == 114;
    assert |e[3].1| == 90 && |e[4].1| == 109 && |e[5].1| == 91;
  }

  /** Different levels close with different sentences. */
  lemma RiskSentenceInjective(a: L.Level, b: L.Level)
    ensures RiskSentence(a) == RiskSentence(b) <==> a == b
  {
    RiskSentenceLengths();
  }

  /** The five sentences have five different lengths. */
  lemma RiskSentenceLengths()
    ensures |RiskSentence(L.Safe)| == 24 && |RiskSentence(L.Low)| == 29
    ensures |RiskSentence(L.Medium)| == 40 && |RiskSentence(L.High)| == 55
    ensures |RiskSentence(L.Critical)| == 42
  {
  }
}
