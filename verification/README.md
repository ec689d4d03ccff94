# ZeroRisk Sentinel: static scoring core in Dafny

This project models the client-side heuristics of ZeroRisk Sentinel and proves properties about them. ZeroRisk Sentinel classifies an uploaded file or a submitted URL on a scale from safe to critical. The project covers four parts.

- **File analysis** (`main.js`), in the modules `Hex`, `FileTypes`, `Signatures` and `FileAnalysis`:
  - the hexadecimal rendering of a file's leading 32 bytes;
  - the magic-number table and `detectFileType`, where the first row in table order with a matching prefix wins;
  - the signature database and `scanForMalware`, where malware rows come before suspicious rows and each list keeps its own order;
  - `checkRTLOSpoofing`, `detectKeylogger`, and the network-word test for exfiltration;
  - the scoring and classification of `performFileAnalysis`. This covers:
    - the mismatch (+30), RLO (+50), signature (40/25/15/5), keylogger (+60) and exfiltration (+20) increments;
    - the clamp to 100;
    - the confidence score, which adds 10 for each of surveillance, persistence, exfiltration and stealth;
    - the level bands 80/50/25/10;
    - the error path (main.js:316-322). When a read rejects or throws, the record built so far is kept and an error finding is appended.
- **URL analysis** (`url-analyzer.js`), in the module `UrlAnalyzer`:
  - the ten rules with their exact order, points and messages;
  - the clamp to 100;
  - the bands 70/50/25/>0;
  - the rule that a shortener lifts a low rating to medium;
  - the placeholder finding used when no rule fires;
  - the order of the steps: parse first, then reject an empty input.
- **URL explanation** (`generateHeuristicExplanation`), in the module `UrlExplanation`: the header with the count and plural, one bullet per finding, the glossary with its fallback, the risk sentence and the disclaimer.
- **Report helpers** (`generateReport.js`), in the module `Report`:
  - `calculateReportChartData`: the three buckets, a missing score counted as 0, the rounded average and its inversion into a security score;
  - the risk band printed beside that score;
  - the truncation of findings at 75 characters and of URL headings at 70 characters.

Two shared modules sit underneath.

- `Patterns` gives the meaning of the JavaScript regular expressions the scanners use. These are literals, `.*`, `\s*`, `$` and the `i` flag, with `test` searching every start position. Since every literal in the tables is ASCII, the `i` flag reduces to ASCII case folding.
- `Text` gives the string operations: `split`, `join`, `trim`, `pop`, ASCII case mapping and decimal numerals.

External effects are parameters.

- Reading the file's header and content is an input that is either `Loaded(value)` or `Failed(message)`. `Failed(message)` stands for a read that rejects or throws, for example when `file.slice` or `readAsArrayBuffer` throws; the `catch` at main.js:316-322 handles exactly those cases.
- The `new URL` parser is a function parameter that returns `None` when it throws.
- The glossary and keyword tables are parameters. Constants `Shipped` and `ShippedGlossary` hold the tables the code ships.

Some facts about the code that shape the model:

- **Threshold bands.** The file level bands are 80/50/25/10 (main.js:309-313).
- **Extension comparison.** The detected type name is compared with the upper-cased text after the last dot of the file name (main.js:235-238). There is no alias table for extensions such as JPG and JPEG, and no exemption for an APK backed by a ZIP signature.
- **Local analysis only.** `performFileAnalysis` and the URL analyzer compute their results locally; the code modelled here holds no remote job state and no merge of local and remote results.

Several behaviours of the code as written are stated as lemmas.

- **`https://microsoft.com` is rated at least high** (`UrlAnalyzer.ShippedMicrosoftHomeRatedHigh`). The shortener literal `t.co` occurs inside `microsoft.com`, so the shortener rule fires and both impersonation rules fire with it.
- **A URL ending in `/` never gets the high-risk TLD finding** (`UrlAnalyzer.ShippedTrailingSlashNoTldFinding`). The TLD pattern is anchored to the end of the raw input, not to the host name.
- **At least eighteen of the 53 file types can never be detected** (`FileTypes.UnreachableNeverDetected`). Five types have no signature. The others repeat or extend the signature of an earlier row:
  - DOCX, XLSX, PPTX, JAR and APK fall under ZIP;
  - DLL falls under EXE;
  - DOC, XLS and PPT fall under MSI;
  - AI, PS, CMD and WSF fall under PDF, EPS, BAT and XML.
- **A file named `weekly.txt` is flagged as a keylogger** (`FileAnalysis.WeeklyNamedKeylogger`). The name pattern's `kl` alternative matches it.
- **An empty report reads CRITICAL RISK** (`Report.EmptyReports`). With no stored analysis at all, the security score is 0 and the band is CRITICAL RISK. With a stored but empty list, the score is 100.
- **`malwareDetected` is never set** (`FileAnalysis.CompletedFlags`).

## Model

| member | source | states |
|---|---|---|
| Hex.ToHexSpec | main.js:333 | each byte becomes exactly two upper-case hexadecimal digits, and the digits read back to the bytes |
| Hex.ToHexInjective | main.js:333 | two byte strings have the same hexadecimal rendering exactly when they are equal |
| Hex.HeaderStartsWithBytes | main.js:327-338 | a file whose leading bytes are `pre` (at most 32) has a header whose hexadecimal text starts with the rendering of `pre` |
| FileTypes.DetectInSpec | main.js:350-359 | detection returns UNKNOWN exactly when no row matches; otherwise it returns the first row in table order having a signature the header starts with |
| FileTypes.ShadowedBy | main.js:350-359 | a type listed only after a row with a signature that is a prefix of one of its own is never reported by that part of the table; whenever the type's row matches, an earlier row has already matched |
| FileTypes.ShadowedInTable | main.js:350-359 | such a shadowed type is never the detected type of the whole table, once the rows after its group cannot change a result already found |
| FileTypes.UnreachableNeverDetected | main.js:62-118 | the eighteen types listed above are never the detected type, whatever the header |
| FileTypes.EmptyRowsNeverDetected | main.js:112-116 | TXT, CSV, INI, CFG and LOG, having no signatures, are never detected |
| FileTypes.RepeatedExecutableNeverDetected | main.js:75-76 | DLL repeats the EXE signature and is never detected |
| FileTypes.CompoundDocumentsNeverDetected | main.js:77-80 | DOC, XLS and PPT repeat the MSI signature and are never detected |
| FileTypes.ZipContainersNeverDetected | main.js:70-94 | DOCX, XLSX, PPTX, JAR and APK extend or repeat a ZIP signature and are never detected |
| FileTypes.LaterDuplicatesNeverDetected | main.js:97-111 | AI, PS, CMD and WSF repeat the signature of PDF, EPS, BAT and XML and are never detected |
| FileTypes.PostscriptNeverDetected | main.js:98-99 | PS is shadowed by EPS |
| FileTypes.CmdNeverDetected | main.js:107-108 | CMD is shadowed by BAT |
| FileTypes.WsfNeverDetected | main.js:101-111 | WSF is shadowed by XML |
| FileTypes.IllustratorNeverDetected | main.js:69-97 | AI repeats the PDF signature and is never detected |
| FileTypes.PdfHeaderDetected | main.js:69 | a header starting `25504446` is detected as PDF |
| FileTypes.ExecutableHeaderDetected | main.js:75 | a header starting `4D5A` is detected as EXE |
| FileTypes.ZipHeaderDetected | main.js:70 | a header starting `504B0304` is detected as ZIP |
| Signatures.HitsSpec | main.js:370-389 | one list's findings are exactly the rows whose pattern tests true, in row order, each carrying its row's severity and description |
| Signatures.HitsKind | main.js:370-389 | every finding of one list carries that list's kind |
| Signatures.ScanForMalwareSpec | main.js:366-392 | the scan reports exactly the rows of malware followed by suspicious that test true, in that order, at most one per row |
| Signatures.ScanOrder | main.js:366-392 | whatever the tables, the scan yields at most one finding per row, and no suspicious finding precedes a malware finding |
| Signatures.ScanOfDatabase | main.js:19-59 | on the shipped database at most 30 findings, and no suspicious finding before a malware finding |
| Signatures.DetectKeyloggerSpec | main.js:394-421 | keylogger detection holds exactly when a content pattern tests true or the name contains `keystroke`, `keylog` or `kl` ignoring case |
| Signatures.DetectExfiltrationSpec | main.js:287 | exfiltration holds exactly when the content contains `http`, `ftp`, `upload`, `post` or `socket` ignoring case |
| FileAnalysis.SignatureScoreBounds | main.js:266-272 | the signature points lie between 5 and 40 per finding |
| FileAnalysis.SignatureScoreAppend | main.js:266-272 | signature points add up over concatenated finding lists |
| FileAnalysis.FileLevelMonotone | main.js:309-313 | a higher final score never gives a lower level |
| FileAnalysis.FileLevelBands | main.js:309-313 | critical iff score ≥ 80, high iff 50-79, medium iff 25-49, low iff 10-24, safe iff below 10 |
| FileAnalysis.ClassifySpec | main.js:291-313 | the score is clamped to 0-100; the confidence is the score plus 10 per bonus flag, capped at 100, and never below the score; the level is the band of the confidence; findings are untouched |
| FileAnalysis.CredentialHarvestingNoBonus | main.js:293-300 | the credential-harvesting flag does not change the confidence or the level |
| FileAnalysis.HeaderFailure | main.js:228-322 | when the header read rejects or throws, the result holds only the error finding, is safe with score and confidence 0, and has no header |
| FileAnalysis.NameStagesSpec | main.js:237-258 | the name checks add 30 on a mismatch and 50 on an RLO name, set stealth for either, and change nothing else |
| FileAnalysis.ContentFindings | main.js:261-285 | the content stages append the scan findings and then, if a keylogger is detected, the keylogger finding |
| FileAnalysis.ContentScore | main.js:265-290 | the content stages add the signature points, 60 for a keylogger and 20 for exfiltration |
| FileAnalysis.ContentFlags | main.js:266-290 | persistence follows any scan finding; surveillance, credential harvesting and keyloggerDetected follow the keylogger; exfiltration follows the network test; nothing else changes |
| FileAnalysis.ContentClassified | main.js:291-313 | after the content stages, the confidence is the score plus 10 per bonus flag capped at 100, score ≤ confidence ≤ 100, and the level is the band of the confidence |
| FileAnalysis.ContentFailure | main.js:261-322 | when the content read rejects or throws, the name findings are followed by the error finding; the score keeps only the name increments (at most 80) and is not classified |
| FileAnalysis.FindingsLayout | main.js:237-285 | a completed analysis lists its findings in this order: mismatch, RLO, scan, then keylogger |
| FileAnalysis.CompletedScore | main.js:237-291 | the completed score is the sum of all increments capped at 100 |
| FileAnalysis.CompletedConfidence | main.js:291-313 | in a completed analysis, the confidence is the score plus 10 per bonus flag capped at 100, score ≤ confidence ≤ 100, and the level is the band of the confidence |
| FileAnalysis.CompletedBonus | main.js:237-300 | in a completed analysis the score is the capped sum of the increments, and the bonus flags are the keylogger, any scan finding, exfiltration, and a mismatch or RLO name |
| FileAnalysis.CompletedFlags | main.js:205-290 | each profile flag is set exactly when its detector fires; the header is recorded; malwareDetected stays false and permissions stay unknown |
| FileAnalysis.FindingCounts | main.js:237-285 | in a completed analysis, at most one mismatch, RLO and keylogger finding each, one scan finding per matching row, and no error finding |
| FileAnalysis.LayoutCounts | main.js:237-285 | counts of each finding kind in the findings layout |
| FileAnalysis.ScanKinds | main.js:366-392 | every scan finding is a malware-signature or suspicious-pattern finding |
| FileAnalysis.LevelFloors | main.js:237-313 | each detector sets a floor on the level: a scan finding gives at least low; a mismatch or exfiltration gives at least medium; an RLO name or a keylogger gives at least high |
| FileAnalysis.ChecksFloor | main.js:237-313 | given the increments and bonus flags, a scan finding forces at least low, a mismatch or exfiltration at least medium, and an RLO name or keylogger at least high |
| FileAnalysis.ChecksSafe | main.js:237-313 | given the increments and bonus flags, the level is safe exactly when no check fires, and then score and confidence are 0 |
| FileAnalysis.SafeExactlyWhenNothingFires | main.js:237-313 | a completed analysis is safe exactly when no detector fires, and it then has score and confidence 0 |
| FileAnalysis.ExtensionOfDotted | main.js:235 | the extension is the upper-cased text after the last dot |
| FileAnalysis.MismatchReported | main.js:238-247 | when the detected type's name differs from the extension, the first finding is the mismatch and the level is at least medium |
| FileAnalysis.ExecutableBytesDetected | main.js:327-359 | a file starting with the bytes 4D 5A is detected as EXE |
| FileAnalysis.ZipBytesDetected | main.js:327-359 | a file starting with the bytes 50 4B 03 04 is detected as ZIP |
| FileAnalysis.ScenarioExtensions | main.js:235 | `invoice.pdf` has the extension PDF; `report.docx` has DOCX |
| FileAnalysis.ExecutableMessage | main.js:244 | an EXE named with extension PDF is a mismatch, reported as `File appears to be EXE but has .PDF extension` |
| FileAnalysis.ZipMessage | main.js:244 | a ZIP named with extension DOCX is a mismatch, reported as `File appears to be ZIP but has .DOCX extension` |
| FileAnalysis.RenamedExecutable | main.js:228-247 | an executable named `invoice.pdf` is reported as EXE posing as PDF, and rated at least medium |
| FileAnalysis.DocxReportedAsZip | main.js:228-247 | a genuine `report.docx` is reported as a ZIP with a mismatched extension, and rated at least medium |
| FileAnalysis.WeeklyNamedKeylogger | main.js:275-285 | a file named `weekly.txt` gets the keylogger finding and is rated at least high |
| FileAnalysis.RloNameFlagged | main.js:250-258 | a name containing U+202E gives exactly one RLO finding, sets stealth, and is rated at least high |
| Levels.NameInjective | main.js:309-313 | the five level names are distinct |
| UrlAnalyzer.RulePoints | url-analyzer.js:94-175 | the rule points equal the weighted sum 30, 20, 25, 15, 25, 15, 10, 20, 15, 20 over the rule signals |
| UrlAnalyzer.PointsMonotone | url-analyzer.js:91-175 | when every rule firing in one list also fires in another, the first list scores no higher |
| UrlAnalyzer.FiredMember | url-analyzer.js:91-175 | a message is reported exactly when a rule carrying it fires |
| UrlAnalyzer.NothingFired | url-analyzer.js:91-193 | with positive points, the findings are empty iff the points are 0 iff no rule fires |
| UrlAnalyzer.UrlLevelMonotone | url-analyzer.js:180-185 | a higher URL score never gives a lower level |
| UrlAnalyzer.ScoredLevel | url-analyzer.js:177-189 | when a shortener brings at least 25 points, the shortener floor leaves the band of the score unchanged, and a shortener rates at least medium |
| UrlAnalyzer.ScoredQuiet | url-analyzer.js:177-189 | for any ten positive-point rules, the score is 0 exactly when none fires, and the level is safe exactly when the score is 0 |
| UrlAnalyzer.ScoredFindings | url-analyzer.js:91-193 | for any ten rules, the placeholder alone is reported exactly when none fires, and otherwise the fired findings in order |
| UrlAnalyzer.ScoredReports | url-analyzer.js:91-193 | for any ten rules, a non-placeholder finding is reported exactly when a rule carrying it fires |
| UrlAnalyzer.ScoredOccurrences | url-analyzer.js:191-193 | a non-placeholder finding occurs among the reported findings as often as among the fired ones |
| UrlAnalyzer.RulesWellFormed | url-analyzer.js:94-175 | all ten rules are worth points and none reports the placeholder |
| UrlAnalyzer.AssessScore | url-analyzer.js:91-177 | the URL score is the weighted rule sum capped at 100 |
| UrlAnalyzer.AssessLevel | url-analyzer.js:179-189 | the level is the 70/50/25/>0 band of the score, and a shortener always gives at least medium |
| UrlAnalyzer.PlaceholderNotFired | url-analyzer.js:191-193 | no rule emits the placeholder message |
| UrlAnalyzer.AssessQuiet | url-analyzer.js:177-185 | the score is 0 exactly when no rule fires, and the level is safe exactly when the score is 0 |
| UrlAnalyzer.AssessFindings | url-analyzer.js:91-193 | the findings are the placeholder alone exactly when no rule fires; otherwise they are the fired rules' messages in rule order |
| UrlAnalyzer.AssessReports | url-analyzer.js:94-175 | a non-placeholder message is reported exactly when a rule carrying it fires |
| UrlAnalyzer.ImpersonationRules | url-analyzer.js:128-167 | among the fired findings, the impersonation message occurs once for each of rules 6 and 9 that fires, and no other rule carries it |
| UrlAnalyzer.ImpersonationCount | url-analyzer.js:128-167 | the impersonation message appears once for each of rules 6 and 9 that fires |
| UrlAnalyzer.AssessMonotone | url-analyzer.js:91-189 | firing more rules never lowers the score or the level |
| UrlAnalyzer.AssessExplanation | url-analyzer.js:195 | the explanation opens with the URL and the finding count, and closes with the risk sentence for the final level |
| UrlAnalyzer.ParserInputSpec | url-analyzer.js:71-75 | the parser is given the input unchanged if it already has an http(s) scheme, else with `http://` prepended; the step is idempotent and keeps https exactly when the input has it |
| UrlAnalyzer.AnalyzeUrlOutcome | url-analyzer.js:65-89 | an invalid-URL alert exactly when the parser fails; an empty-URL alert exactly when it succeeds on an empty trimmed input; otherwise the assessment of the trimmed URL |
| UrlAnalyzer.SchemelessNotHttps | url-analyzer.js:115-119 | an input without `https://` always gets the not-HTTPS finding and scores at least 15 |
| UrlAnalyzer.IpHostSpec | url-analyzer.js:95 | a host counts as an IP exactly when it is four dot-separated runs of 1-3 digits |
| UrlAnalyzer.PathDepthConcat | url-analyzer.js:142 | path depth adds over a `/` join, since empty segments are not counted |
| UrlAnalyzer.PathDepthSegments | url-analyzer.js:141-146 | a path of n non-empty segments has depth n |
| UrlAnalyzer.SubdomainSpec | url-analyzer.js:169-170 | the subdomain tested by rule 10 is the host without its last two labels |
| UrlAnalyzer.TldRuleSpec | url-analyzer.js:60 | the TLD pattern matches exactly when the text ends with a dot and a listed TLD, ignoring case |
| UrlAnalyzer.TrailingSlashHidesTld | url-analyzer.js:121-127 | text ending in `/` never matches the TLD pattern |
| UrlAnalyzer.TldRuleOnly | url-analyzer.js:121-127 | rule 5 alone carries the TLD finding, and it fires exactly on its signal |
| UrlAnalyzer.TldFindingOnlyFromRule5 | url-analyzer.js:121-127 | the TLD finding is reported only when rule 5's test holds |
| UrlAnalyzer.ShippedTrailingSlashNoTldFinding | url-analyzer.js:121-127 | with the shipped tables, an analysed URL ending in `/` never gets the TLD finding |
| UrlAnalyzer.ShippedTableFacts | url-analyzer.js:55-60 | the shipped tables contain `t.co` among the shorteners and `microsoft` among the brands, and no TLD ends in `/` |
| UrlAnalyzer.MicrosoftHomeSignals | url-analyzer.js:58 | for `https://microsoft.com`, the shortener, brand-in-URL and brand-in-host signals all hold |
| UrlAnalyzer.ShortenedBrand | url-analyzer.js:106-167 | a shortener together with a brand in the URL and in the host scores at least 55, rates at least high, and reports impersonation twice |
| UrlAnalyzer.MicrosoftHomeRatedHigh | url-analyzer.js:65-189 | `https://microsoft.com` is analysed, scores at least 55, rates at least high, and reports the shortener and impersonation twice |
| UrlAnalyzer.ShippedMicrosoftHomeRatedHigh | url-analyzer.js:52-189 | with the shipped keyword tables, `https://microsoft.com` is analysed, scores at least 55 and rates at least high |
| UrlExplanation.ExplanationFrame | url-analyzer.js:26-47 | the explanation starts with the quoted URL followed by the count sentence, and ends with the risk sentence and the disclaimer |
| UrlExplanation.HeaderCount | url-analyzer.js:26-28 | the count sentence carries a numeral that reads back to the finding count, and the header ends `indicators.` exactly when the count is not 1 |
| UrlExplanation.BulletsAppend | url-analyzer.js:30-35 | bullets follow the findings' order, one per finding |
| UrlExplanation.ExplainSpec | url-analyzer.js:30-34 | a finding with a glossary entry gets the text of its first entry; a finding with none gets the fallback |
| UrlExplanation.FallbackExactlyWhenUnmapped | url-analyzer.js:30-34 | when no entry's text is the fallback, the fallback appears exactly for unmapped findings |
| UrlExplanation.ShippedGlossaryTexts | url-analyzer.js:6-24 | the shipped glossary has six entries, none of them the fallback text |
| UrlExplanation.RiskSentenceInjective | url-analyzer.js:37-43 | each level has its own closing sentence |
| Report.CalculateReportChartData | generateReport.js:8-30 | the computed record is the chart data of the stored results; nothing stored gives all zeros; an empty list gives a score of 100; bucket counts never exceed the number of results; the score is never negative |
| Report.BucketsPartition | generateReport.js:19-22 | every stored result falls in exactly one of safe, warning, critical or none; none is empty iff every level is known |
| Report.BucketsAddUp | generateReport.js:16-29 | safe + warning + critical ≤ n, with equality iff every stored level is one of the five names |
| Report.LevelBuckets | generateReport.js:20-22 | safe counts as safe; low and medium as warning; high and critical as critical |
| Report.RoundDivSpec | generateReport.js:26 | the average is the nearest integer, with halves rounded up |
| Report.TotalAppend | generateReport.js:19-24 | the score total adds over concatenated result lists |
| Report.MissingScoreAddsNothing | generateReport.js:23 | a result without a score adds nothing to the total |
| Report.TotalNonNegative | generateReport.js:19-23 | non-negative scores give a non-negative total |
| Report.AvgScoreBounds | generateReport.js:23-27 | with non-negative scores, the security score lies between 0 and 100 |
| Report.RiskBandMonotone | generateReport.js:219-227 | a higher security score never reads as a worse band |
| Report.RiskTextInjective | generateReport.js:219-227 | the three band labels are distinct |
| Report.EmptyReports | generateReport.js:9-27 | nothing stored gives score 0 and reads CRITICAL RISK; an empty list gives 100 and reads LOW RISK |
| Report.TruncateSpec | generateReport.js:318 | text of at most `width` characters is kept whole; longer text keeps exactly its first `width` characters plus `...`; the output never exceeds width + 3 |
| Report.TruncateForgets | generateReport.js:379 | two long texts that agree on their first `width` characters truncate to the same line |
| Report.LineWidths | generateReport.js:351 | a finding line is at most 80 characters, and a URL heading carries at most 73 characters of URL text |
| Patterns.TestSpec | main.js:371 | `test` succeeds exactly when the pattern matches at some start position |
| Patterns.CaseSensitiveLiteralTest | main.js:27 | a literal pattern without `i` tests true exactly when the text contains it |
| Patterns.GapSpec | main.js:32 | `a.*b` continues from an occurrence exactly when `b` follows later on the same line |
| Patterns.SuffixTest | url-analyzer.js:60 | a pattern of a literal and `$` tests true exactly when the text ends with the literal, modulo case folding |
| Patterns.LiteralPrefixTest | main.js:418 | when a literal tests true, so does each of its prefixes, so `keylogger` adds nothing beside `keylog` |
| Text.TrimSpec | url-analyzer.js:67 | the result occurs in the input at some offset, everything before and after that occurrence is white space, and the result neither starts nor ends with white space |
| Text.JoinSplit | url-analyzer.js:169-170 | joining the pieces of a split gives back the string |
| Text.SplitJoin | url-analyzer.js:169-170 | splitting a join of separator-free pieces gives back the pieces |
| Text.LastPieceSpec | main.js:235 | `pop` after `split` yields the separator-free suffix after the last separator |
| Text.NatToStringRoundTrip | url-analyzer.js:27 | the decimal numeral of a count has no leading zero and parses back to the count |

## Left out

- **User interface.** The DOM, alerts, page navigation, the terminal log, animations, `updateThreatLevel` and the other UI methods of `main.js` are left out. An alert becomes an outcome constructor of `UrlOutcome`.
- **Storage.** sessionStorage writes are left out. `calculateReportChartData` receives the parsed stored list as an `Option`, where `None` means nothing stored.
- **Parse failures.** `JSON.parse` failures on corrupted storage are not modelled.
- **File reading.** `FileReader` and the asynchronous reads are inputs (`Read`). `Failed` covers only a read that rejects or throws synchronously. The decoding of the first 10,000 bytes as text by `readAsText` is not modelled: the content is the decoded string.
- **FileReader errors.** `readFileHeader` and `readFileContent` (main.js:327-348) set only `onload` and never reject, so a `FileReader` error event leaves the promise pending: the analysis hangs instead of recording an error finding. No model input stands for that outcome.
- **URL parsing.** `new URL` is a parser parameter. Host-name normalisation is not modelled: punycode, IPv4 shorthand and percent-encoding. The protocol is taken from the scheme prefix that the code itself ensures.
- **Case mapping.** `toUpperCase` and `toLowerCase` are modelled as ASCII case mapping. Non-ASCII characters whose case mapping lands in ASCII are left out, such as the dotless i and the long s.
- **String length.** JavaScript strings count UTF-16 code units, while Dafny strings count characters. The truncation widths and `substring` are modelled on characters, which agrees whenever no character lies outside the Basic Multilingual Plane.
- **Report.RoundDivSpec:** models `Math.round(total / n)` as exact rational rounding with halves rounded up. Floating-point error for totals beyond 2^53 is not modelled.
- **Report.StoredResult:** a stored `threatScore` is either a number or absent. A truthy non-numeric score, which JavaScript would concatenate as a string, is not modelled.
- **UrlExplanation.Explain:** inherited object keys such as `constructor` are not modelled. The findings handed to it are always the analyzer's own messages, none of which is such a key.
- **UrlAnalyzer.ShippedMicrosoftHomeRatedHigh:** states a lower bound (at least 55, at least high) rather than the exact score. The exact score would also require ruling out every phishing keyword, TLD and query rule for that input.
- **PDF output.** The jsPDF layout, colours, pagination and downloads of the report are left out. The JSON export and the modal state of the report dialog are left out too.
- **Remote analysis.** The deep or sandbox scan through the remote service is left out. The `sentinel-api` client and `runAIExplanation` are not part of this model.
