/** The scoring and classification pipeline of `performFileAnalysis`
    (main.js): the initial record, the extension-mismatch and
    right-to-left-override checks, the signature scan and its score, the
    keylogger and exfiltration heuristics, the clamp, the confidence score,
    the threat level, and the error path taken when a read rejects or throws.

    Reading the file is not modelled: the reader's results arrive as
    `Read` values, the header as the bytes of the leading slice and the
    content as the decoded text of the first ten kilobytes. */
module FileAnalysis {
  import opened Text
  import opened Patterns
  import opened Signatures
  import FT = FileTypes
  import L = Levels
  import Hex

  /** `spywareProfile`. */
  datatype Profile = Profile(
    surveillance: bool,
    dataExfiltration: bool,
    persistence: bool,
    stealth: bool,
    credentialHarvesting: bool,
    confidenceScore: int)

  /** The analyzer's tables, built once by its constructor: the signature
      database and the header table's rows in insertion order. */
  datatype Scanner = Scanner(db: SignatureDatabase, headerOrder: seq<FT.FileType>)

  /** The tables as shipped. */
  const Shipped: Scanner := Scanner(Database, FT.HeaderTable)

  /** What an asynchronous read hands back: its value, or the message of
      the error it rejected or threw with. A `FileReader` error event is
      not among these: the reads never settle on one. */
  datatype Read<T> = Loaded(value: T) | Failed(message: string)

  /** The `File` being analysed, with the outcomes of its two reads. */
  datatype FileInput = FileInput(
    name: string,
    size: nat,
    mimeType: string,
    lastModified: int,
    leadingBytes: Read<seq<Hex.Byte>>,
    content: Read<string>)

  /** The analysis record `performFileAnalysis` returns. */
  datatype Analysis = Analysis(
    name: string,
    size: nat,
    mimeType: string,
    lastModified: int,
    threatLevel: L.Level,
    threatScore: nat,
    findings: seq<Finding>,
    fileHeader: Option<string>,
    extensionMismatch: bool,
    permissions: string,
    malwareDetected: bool,
    keyloggerDetected: bool,
    profile: Profile)

  // ---------------------------------------------------------------------
  // The stages, in the order the method runs them

  /** The record before any check has run. */
  function Initial(f: FileInput): Analysis {
    Analysis(f.name, f.size, f.mimeType, f.lastModified, L.Safe, 0, [], None, false,
             "unknown", false, false, Profile(false, false, false, false, false, 0))
  }

  /** `file.name.split('.').pop().toUpperCase()`. */
  function ExtensionOf(name: string): string {
    UpperAsciiString(LastPiece(name, '.'))
  }

  /** The mismatch test: a known type whose name differs from the extension. */
  predicate IsMismatch(detected: FT.Detected, extension: string) {
    detected.Known? && FT.Name(detected.fileType) != extension
  }

  function MismatchFinding(t: FT.FileType, extension: string): Finding {
    Finding(ExtensionMismatch, High,
            "File appears to be " + FT.Name(t) + " but has ." + extension + " extension")
  }

  function CheckExtension(a: Analysis, detected: FT.Detected, extension: string): Analysis {
    if IsMismatch(detected, extension) then
      a.(profile := a.profile.(stealth := true),
         extensionMismatch := true,
         findings := a.findings + [MismatchFinding(detected.fileType, extension)],
         threatScore := a.threatScore + 30)
    else a
  }

  /** `checkRTLOSpoofing`: the override character itself, or its written
      name `[U+202E]`, occurs in the file name. */
  predicate HasRlo(name: string) {
    Contains(name, "\U{202E}") || Contains(name, "[U+202E]")
  }

  const RloFinding: Finding :=
    Finding(RloSpoofing, Critical, "Right-to-Left Override character detected - potential extension spoofing")

  function CheckRlo(a: Analysis, spoofed: bool): Analysis {
    if spoofed then
      a.(profile := a.profile.(stealth := true),
         findings := a.findings + [RloFinding],
         threatScore := a.threatScore + 50)
    else a
  }

  /** The points one signature finding adds. */
  function SeverityPoints(s: Severity): nat {
    match s
    case Critical => 40
    case High => 25
    case Medium => 15
    case Low => 5
  }

  /** The points a list of signature findings adds, one finding at a time. */
  function SignatureScore(hits: seq<Finding>): nat
    decreases |hits|
  {
    if |hits| == 0 then 0 else SeverityPoints(hits[0].severity) + SignatureScore(hits[1..])
  }

  function ApplySignatures(a: Analysis, hits: seq<Finding>): Analysis {
    a.(findings := a.findings + hits,
       profile := a.profile.(persistence := a.profile.persistence || |hits| > 0),
       threatScore := a.threatScore + SignatureScore(hits))
  }

  const KeyloggerFinding: Finding :=
    Finding(KeyloggerBehaviour, Critical, "Keylogger behavior patterns detected")

  function CheckKeylogger(a: Analysis, detected: bool): Analysis {
    if detected then
      a.(keyloggerDetected := true,
         profile := a.profile.(surveillance := true, credentialHarvesting := true),
         findings := a.findings + [KeyloggerFinding],
         threatScore := a.threatScore + 60)
    else a
  }

  function CheckExfiltration(a: Analysis, detected: bool): Analysis {
    if detected then
      a.(profile := a.profile.(dataExfiltration := true), threatScore := a.threatScore + 20)
    else a
  }

  function Min(a: int, b: int): int { if a <= b then a else b }
  function Max(a: int, b: int): int { if a >= b then a else b }

  function Flag(b: bool): nat { if b then 1 else 0 }

  /** The number of behaviour flags that earn a confidence bonus:
      surveillance, persistence, exfiltration and stealth. */
  function BonusFlags(p: Profile): nat {
    Flag(p.surveillance) + Flag(p.persistence) + Flag(p.dataExfiltration) + Flag(p.stealth)
  }

  /** The step function from a final score to a threat level. */
  function FileLevel(score: int): L.Level {
    if score >= 80 then L.Critical
    else if score >= 50 then L.High
    else if score >= 25 then L.Medium
    else if score >= 10 then L.Low
    else L.Safe
  }

  /** The clamp, the confidence score and the level. */
  function Classify(a: Analysis): Analysis {
    var score := Min(100, a.threatScore);
    var confidence := Min(100, score + 10 * BonusFlags(a.profile));
    var final := Min(100, Max(score, confidence));
    a.(threatScore := score,
       profile := a.profile.(confidenceScore := confidence),
       threatLevel := FileLevel(final))
  }

  function ErrorFinding(message: string): Finding {
    Finding(AnalysisError, Low, "Analysis error: " + message)
  }

  /** The `catch` block: the record as it stood, plus one error finding. */
  function RecordError(a: Analysis, message: string): Analysis {
    a.(findings := a.findings + [ErrorFinding(message)])
  }

  /** The checks on the name: extension mismatch, then RLO spoofing. */
  function NameStages(a: Analysis, detected: FT.Detected, extension: string, spoofed: bool): Analysis {
    CheckRlo(CheckExtension(a, detected, extension), spoofed)
  }

  /** The checks on the content, then the classification. */
  function ContentStages(a: Analysis, hits: seq<Finding>, keylogger: bool, exfiltration: bool): Analysis {
    Classify(CheckExfiltration(CheckKeylogger(ApplySignatures(a, hits), keylogger), exfiltration))
  }

  /** The header string the detector sees for a file's leading bytes. */
  function HeaderOf(bytes: seq<Hex.Byte>): string {
    Hex.ToHex(Hex.HeaderBytes(bytes))
  }

  /** The record once the header has been read and the name checked. */
  function CheckName(s: Scanner, f: FileInput, bytes: seq<Hex.Byte>): Analysis {
    var header := HeaderOf(bytes);
    NameStages(Initial(f).(fileHeader := Some(header)), FT.DetectIn(s.headerOrder, header), ExtensionOf(f.name),
               HasRlo(f.name))
  }

  /** `performFileAnalysis`. */
  function PerformFileAnalysis(s: Scanner, f: FileInput): Analysis {
    match f.leadingBytes
    case Failed(m) => RecordError(Initial(f), m)
    case Loaded(bytes) =>
      var a := CheckName(s, f, bytes);
      match f.content
      case Failed(m) => RecordError(a, m)
      case Loaded(content) =>
        ContentStages(a, ScanForMalware(s.db, content), DetectKeylogger(content, f.name),
                      DetectExfiltration(content))
  }

  // ---------------------------------------------------------------------
  // Reference definitions

  predicate MismatchOf(s: Scanner, f: FileInput, bytes: seq<Hex.Byte>) {
    IsMismatch(FT.DetectIn(s.headerOrder, HeaderOf(bytes)), ExtensionOf(f.name))
  }

  /** The score before the clamp, written as the sum of what each check
      contributes. */
  function RawScore(s: Scanner, f: FileInput, bytes: seq<Hex.Byte>, content: string): nat {
    30 * Flag(MismatchOf(s, f, bytes)) + 50 * Flag(HasRlo(f.name))
    + SignatureScore(ScanForMalware(s.db, content))
    + 60 * Flag(DetectKeylogger(content, f.name)) + 20 * Flag(DetectExfiltration(content))
  }

  /** The mismatch finding when there is a mismatch, nothing otherwise. */
  function MismatchFindings(detected: FT.Detected, extension: string): seq<Finding> {
    if IsMismatch(detected, extension) then [MismatchFinding(detected.fileType, extension)] else []
  }

  /** A finding when `present`, nothing otherwise. */
  function Optional(present: bool, x: Finding): seq<Finding> {
    if present then [x] else []
  }

  /** The findings the name checks give: the mismatch finding, then the
      RLO finding, each when its test holds. */
  function NameFindings(s: Scanner, f: FileInput, bytes: seq<Hex.Byte>): seq<Finding> {
    MismatchFindings(FT.DetectIn(s.headerOrder, HeaderOf(bytes)), ExtensionOf(f.name))
    + Optional(HasRlo(f.name), RloFinding)
  }

  /** The findings of a completed analysis, written as one list. */
  function ExpectedFindings(s: Scanner, f: FileInput, bytes: seq<Hex.Byte>, content: string): seq<Finding> {
    NameFindings(s, f, bytes)
    + ScanForMalware(s.db, content)
    + Optional(DetectKeylogger(content, f.name), KeyloggerFinding)
  }

  /** The number of findings of a kind. */
  function CountKind(fs: seq<Finding>, kind: FindingKind): nat
    decreases |fs|
  {
    if |fs| == 0 then 0 else Flag(fs[0].kind == kind) + CountKind(fs[1..], kind)
  }

  // ---------------------------------------------------------------------
  // Properties

  /** Each signature finding is worth between 5 and 40 points. */
  lemma {:induction false} SignatureScoreBounds(hits: seq<Finding>)
    ensures 5 * |hits| <= SignatureScore(hits) <= 40 * |hits|
    decreases |hits|
  {
    if |hits| > 0 {
      SignatureScoreBounds(hits[1..]);
    }
  }

  /** The score of a list is the sum of the scores of its parts. */
  lemma {:induction false} SignatureScoreAppend(a: seq<Finding>, b: seq<Finding>)
    ensures SignatureScore(a + b) == SignatureScore(a) + SignatureScore(b)
    decreases |a|
  {
    if |a| > 0 {
      assert (a + b)[1..] == a[1..] + b;
      SignatureScoreAppend(a[1..], b);
    } else {
      assert a + b == b;
    }
  }

  lemma {:induction false} CountKindAppend(a: seq<Finding>, b: seq<Finding>, kind: FindingKind)
    ensures CountKind(a + b, kind) == CountKind(a, kind) + CountKind(b, kind)
    decreases |a|
  {
    if |a| > 0 {
      assert (a + b)[1..] == a[1..] + b;
      CountKindAppend(a[1..], b, kind);
    } else {
      assert a + b == b;
    }
  }

  /** A list none of whose findings has the kind counts zero of it. */
  lemma {:induction false} CountKindAbsent(fs: seq<Finding>, kind: FindingKind)
    requires forall a :: 0 <= a < |fs| ==> fs[a].kind != kind
    ensures CountKind(fs, kind) == 0
    decreases |fs|
  {
    if |fs| > 0 {
      CountKindAbsent(fs[1..], kind);
    }
  }

  /** The level is monotone in the score. */
  lemma FileLevelMonotone(s: int, t: int)
    requires s <= t
    ensures L.Rank(FileLevel(s)) <= L.Rank(FileLevel(t))
  {
  }

  /** The level classes are the score bands [80, ∞), [50, 80), [25, 50),
      [10, 25) and below 10. */
  lemma FileLevelBands(s: int)
    ensures FileLevel(s) == L.Critical <==> s >= 80
    ensures FileLevel(s) == L.High <==> 50 <= s < 80
    ensures FileLevel(s) == L.Medium <==> 25 <= s < 50
    ensures FileLevel(s) == L.Low <==> 10 <= s < 25
    ensures FileLevel(s) == L.Safe <==> s < 10
  {
  }

  /** After the clamp the score lies in [0, 100] and is the raw score or
      100; the confidence score adds ten per bonus flag, capped at 100, so
      it is never below the score; and the level is that of the
      confidence score, the larger of the two. */
  lemma ClassifySpec(a: Analysis)
    requires a.threatScore >= 0
    ensures var r := Classify(a);
      && 0 <= r.threatScore <= 100
      && (a.threatScore <= 100 ==> r.threatScore == a.threatScore)
      && (a.threatScore > 100 ==> r.threatScore == 100)
      && r.threatScore <= r.profile.confidenceScore <= 100
      && r.profile.confidenceScore <= r.threatScore + 40
      && (r.profile.confidenceScore < 100 ==>
            r.profile.confidenceScore == r.threatScore + 10 * BonusFlags(a.profile))
      && r.threatLevel == FileLevel(r.profile.confidenceScore)
      && r.findings == a.findings
  {
  }

  /** Credential harvesting earns no confidence bonus: two records that
      differ only in that flag are classified alike. */
  lemma CredentialHarvestingNoBonus(a: Analysis, b: bool)
    ensures Classify(a.(profile := a.profile.(credentialHarvesting := b))).threatLevel == Classify(a).threatLevel
    ensures Classify(a.(profile := a.profile.(credentialHarvesting := b))).profile.confidenceScore ==
            Classify(a).profile.confidenceScore
  {
  }

  /** A header read that rejects or throws leaves the initial record plus exactly one
      low-severity error finding. */
  lemma HeaderFailure(s: Scanner, f: FileInput)
    requires f.leadingBytes.Failed?
    ensures var r := PerformFileAnalysis(s, f);
      && r.findings == [Finding(AnalysisError, Low, "Analysis error: " + f.leadingBytes.message)]
      && r.threatLevel == L.Safe && r.threatScore == 0 && r.profile.confidenceScore == 0
      && r.fileHeader == None
  {
  }

  /** The name checks add the mismatch finding (+30) and the RLO finding
      (+50), each exactly when its test holds, set `stealth` when either
      does, and touch nothing else. */
  lemma NameStagesSpec(a: Analysis, detected: FT.Detected, extension: string, spoofed: bool)
    ensures var r := NameStages(a, detected, extension, spoofed);
      && r.findings == a.findings
         + (if IsMismatch(detected, extension) then [MismatchFinding(detected.fileType, extension)] else [])
         + (if spoofed then [RloFinding] else [])
      && r.threatScore == a.threatScore + 30 * Flag(IsMismatch(detected, extension)) + 50 * Flag(spoofed)
      && r.extensionMismatch == (a.extensionMismatch || IsMismatch(detected, extension))
      && r.profile == a.profile.(stealth := a.profile.stealth || IsMismatch(detected, extension) || spoofed)
      && r == a.(findings := r.findings, threatScore := r.threatScore,
                 extensionMismatch := r.extensionMismatch, profile := r.profile)
  {
  }

  /** The content checks append the signature findings, then the
      keylogger finding when it was detected. */
  lemma ContentFindings(a: Analysis, hits: seq<Finding>, keylogger: bool, exfiltration: bool)
    ensures ContentStages(a, hits, keylogger, exfiltration).findings ==
      a.findings + hits + (if keylogger then [KeyloggerFinding] else [])
  {
  }

  /** The content checks add the signature points, 60 for a keylogger and
      20 for exfiltration, and clamp the sum to 100. */
  lemma ContentScore(a: Analysis, hits: seq<Finding>, keylogger: bool, exfiltration: bool)
    ensures ContentStages(a, hits, keylogger, exfiltration).threatScore ==
      Min(100, a.threatScore + SignatureScore(hits) + 60 * Flag(keylogger) + 20 * Flag(exfiltration))
  {
  }

  /** The behaviour flags the content checks set: persistence for a
      signature hit, surveillance and credential harvesting for a
      keylogger, exfiltration for a network keyword; the rest of the
      record other than the score, level and findings is unchanged. */
  lemma ContentFlags(a: Analysis, hits: seq<Finding>, keylogger: bool, exfiltration: bool)
    ensures var r := ContentStages(a, hits, keylogger, exfiltration);
      && r.profile.persistence == (a.profile.persistence || |hits| > 0)
      && r.profile.surveillance == (a.profile.surveillance || keylogger)
      && r.profile.credentialHarvesting == (a.profile.credentialHarvesting || keylogger)
      && r.profile.dataExfiltration == (a.profile.dataExfiltration || exfiltration)
      && r.profile.stealth == a.profile.stealth
      && r.keyloggerDetected == (a.keyloggerDetected || keylogger)
      && r.extensionMismatch == a.extensionMismatch && r.fileHeader == a.fileHeader
      && r.malwareDetected == a.malwareDetected && r.permissions == a.permissions
  {
  }

  /** A classified record: the score lies within 0..100, the confidence is
      the score plus ten per bonus flag, capped at 100 (so it lies between
      the score and 100), and the level is the band of the confidence. */
  predicate WellClassified(r: Analysis) {
    && r.profile.confidenceScore == Min(100, r.threatScore + 10 * BonusFlags(r.profile))
    && 0 <= r.threatScore <= r.profile.confidenceScore <= 100
    && r.threatLevel == FileLevel(r.profile.confidenceScore)
  }

  /** The classification the content checks end with. */
  lemma ContentClassified(a: Analysis, hits: seq<Finding>, keylogger: bool, exfiltration: bool)
    ensures WellClassified(ContentStages(a, hits, keylogger, exfiltration))
  {
  }

  /** A completed analysis is the content stages run on the record the
      name checks left. */
  lemma CompletedStages(s: Scanner, f: FileInput)
    requires f.leadingBytes.Loaded? && f.content.Loaded?
    ensures PerformFileAnalysis(s, f) ==
      ContentStages(CheckName(s, f, f.leadingBytes.value), ScanForMalware(s.db, f.content.value),
                    DetectKeylogger(f.content.value, f.name), DetectExfiltration(f.content.value))
  {
  }

  /** A content read that rejects or throws keeps what the name checks found, with the
      unclamped score they gave, adds one error finding, and leaves the
      level at `safe` and the confidence at 0. */
  lemma ContentFailure(s: Scanner, f: FileInput)
    requires f.leadingBytes.Loaded? && f.content.Failed?
    ensures var bytes := f.leadingBytes.value;
      var r := PerformFileAnalysis(s, f);
      && r.findings == NameFindings(s, f, bytes) + [ErrorFinding(f.content.message)]
      && r.threatScore == 30 * Flag(MismatchOf(s, f, bytes)) + 50 * Flag(HasRlo(f.name)) <= 80
      && r.threatLevel == L.Safe && r.profile.confidenceScore == 0
      && r.fileHeader == Some(HeaderOf(bytes))
      && r.extensionMismatch == MismatchOf(s, f, bytes)
      && r.profile.stealth == (MismatchOf(s, f, bytes) || HasRlo(f.name))
  {
    var bytes := f.leadingBytes.value;
    var header := HeaderOf(bytes);
    var detected := FT.DetectIn(s.headerOrder, header);
    var extension := ExtensionOf(f.name);
    var spoofed := HasRlo(f.name);
    NameStagesSpec(Initial(f).(fileHeader := Some(header)), detected, extension, spoofed);
  }

  /** In a completed analysis the findings are, in order: the mismatch
      finding if any, the RLO finding if any, the signature scan's
      findings, and the keylogger finding if any. */
  lemma FindingsLayout(s: Scanner, f: FileInput)
    requires f.leadingBytes.Loaded? && f.content.Loaded?
    ensures PerformFileAnalysis(s, f).findings ==
      ExpectedFindings(s, f, f.leadingBytes.value, f.content.value)
  {
    var bytes := f.leadingBytes.value;
    var content := f.content.value;
    var header := HeaderOf(bytes);
    var a := CheckName(s, f, bytes);
    NameStagesSpec(Initial(f).(fileHeader := Some(header)), FT.DetectIn(s.headerOrder, header), ExtensionOf(f.name),
                   HasRlo(f.name));
    var front := NameFindings(s, f, bytes);
    assert a.findings == [] + front;
    assert [] + front == front;
    var hits := ScanForMalware(s.db, content);
    var keylogger := DetectKeylogger(content, f.name);
    var exfiltration := DetectExfiltration(content);
    var back := if keylogger then [KeyloggerFinding] else [];
    assert PerformFileAnalysis(s, f) == ContentStages(a, hits, keylogger, exfiltration);
    ContentFindings(a, hits, keylogger, exfiltration);
    assert PerformFileAnalysis(s, f).findings == front + hits + back;
    assert ExpectedFindings(s, f, bytes, content) == front + hits + back;
  }

  /** A completed analysis scores the sum of what each check contributes,
      clamped to 100. */
  lemma CompletedScore(s: Scanner, f: FileInput)
    requires f.leadingBytes.Loaded? && f.content.Loaded?
    ensures PerformFileAnalysis(s, f).threatScore == Min(100, RawScore(s, f, f.leadingBytes.value, f.content.value))
  {
    var bytes := f.leadingBytes.value;
    var content := f.content.value;
    NameScore(s, f, bytes);
    CompletedStages(s, f);
    ContentScore(CheckName(s, f, bytes), ScanForMalware(s.db, content),
                 DetectKeylogger(content, f.name), DetectExfiltration(content));
  }

  /** The name checks score 30 for a mismatch and 50 for an RLO name. */
  lemma NameScore(s: Scanner, f: FileInput, bytes: seq<Hex.Byte>)
    ensures CheckName(s, f, bytes).threatScore == 30 * Flag(MismatchOf(s, f, bytes)) + 50 * Flag(HasRlo(f.name))
  {
  }

  /** In a completed analysis the confidence score is ten more than the
      score per bonus flag, capped at 100, and so never below the score;
      and the level is that of the confidence score. */
  lemma CompletedConfidence(s: Scanner, f: FileInput)
    requires f.leadingBytes.Loaded? && f.content.Loaded?
    ensures WellClassified(PerformFileAnalysis(s, f))
  {
    var content := f.content.value;
    CompletedStages(s, f);
    ContentClassified(CheckName(s, f, f.leadingBytes.value), ScanForMalware(s.db, content),
                      DetectKeylogger(content, f.name), DetectExfiltration(content));
  }

  /** In a completed analysis each behaviour flag is set exactly when its
      check fired: stealth for a mismatch or an RLO name, persistence for a
      signature hit, surveillance and credential harvesting for a
      keylogger, exfiltration for a network keyword. The header is
      recorded, `malwareDetected` stays false and `permissions` stays
      `unknown`. */
  lemma CompletedFlags(s: Scanner, f: FileInput)
    requires f.leadingBytes.Loaded? && f.content.Loaded?
    ensures var bytes := f.leadingBytes.value;
      var content := f.content.value;
      var r := PerformFileAnalysis(s, f);
      && r.extensionMismatch == MismatchOf(s, f, bytes)
      && r.profile.stealth == (MismatchOf(s, f, bytes) || HasRlo(f.name))
      && r.profile.persistence == (|ScanForMalware(s.db, content)| > 0)
      && r.keyloggerDetected == DetectKeylogger(content, f.name)
      && r.profile.surveillance == DetectKeylogger(content, f.name)
      && r.profile.credentialHarvesting == DetectKeylogger(content, f.name)
      && r.profile.dataExfiltration == DetectExfiltration(content)
      && r.fileHeader == Some(HeaderOf(bytes))
      && !r.malwareDetected && r.permissions == "unknown"
  {
    var bytes := f.leadingBytes.value;
    var content := f.content.value;
    var header := HeaderOf(bytes);
    var a := CheckName(s, f, bytes);
    NameStagesSpec(Initial(f).(fileHeader := Some(header)), FT.DetectIn(s.headerOrder, header), ExtensionOf(f.name),
                   HasRlo(f.name));
    assert a.extensionMismatch == MismatchOf(s, f, bytes);
    assert a.profile.stealth == (MismatchOf(s, f, bytes) || HasRlo(f.name));
    assert !a.profile.persistence && !a.profile.surveillance && !a.profile.credentialHarvesting;
    assert !a.profile.dataExfiltration && !a.keyloggerDetected && !a.malwareDetected;
    var hits := ScanForMalware(s.db, content);
    var keylogger := DetectKeylogger(content, f.name);
    var exfiltration := DetectExfiltration(content);
    assert PerformFileAnalysis(s, f) == ContentStages(a, hits, keylogger, exfiltration);
    ContentFlags(a, hits, keylogger, exfiltration);
  }

  /** An optional finding counts once for its own kind when present. */
  lemma CountOptional(present: bool, x: Finding)
    ensures forall kind :: CountKind(Optional(present, x), kind) == Flag(present && x.kind == kind)
  {
    assert [x][1..] == [];
  }

  /** A four-part list counts what its parts count. */
  lemma CountKind4(p1: seq<Finding>, p2: seq<Finding>, p3: seq<Finding>, p4: seq<Finding>, kind: FindingKind)
    ensures CountKind(p1 + p2 + p3 + p4, kind) ==
      CountKind(p1, kind) + CountKind(p2, kind) + CountKind(p3, kind) + CountKind(p4, kind)
  {
    CountKindAppend(p1 + p2 + p3, p4, kind);
    CountKindAppend(p1 + p2, p3, kind);
    CountKindAppend(p1, p2, kind);
  }

  /** Counts over the layout of a completed analysis's findings: mismatch
      findings, then the RLO finding if any, then the scan's, then the
      keylogger finding if any. */
  lemma LayoutCounts(p1: seq<Finding>, spoofed: bool, rlo: Finding, scan: seq<Finding>, keylogger: bool,
                     kl: Finding)
    requires forall a :: 0 <= a < |p1| ==> p1[a].kind == ExtensionMismatch
    requires forall a :: 0 <= a < |scan| ==> scan[a].kind in {MalwareSignature, SuspiciousPattern}
    requires rlo.kind == RloSpoofing && kl.kind == KeyloggerBehaviour
    ensures var fs := p1 + Optional(spoofed, rlo) + scan + Optional(keylogger, kl);
      && CountKind(fs, ExtensionMismatch) == |p1|
      && CountKind(fs, RloSpoofing) == Flag(spoofed)
      && CountKind(fs, KeyloggerBehaviour) == Flag(keylogger)
      && CountKind(fs, MalwareSignature) + CountKind(fs, SuspiciousPattern) == |scan|
      && CountKind(fs, AnalysisError) == 0
  {
    LayoutNamedCounts(p1, spoofed, rlo, scan, keylogger, kl);
    LayoutScanCounts(p1, spoofed, rlo, scan, keylogger, kl);
  }

  lemma LayoutNamedCounts(p1: seq<Finding>, spoofed: bool, rlo: Finding, scan: seq<Finding>, keylogger: bool,
                          kl: Finding)
    requires forall a :: 0 <= a < |p1| ==> p1[a].kind == ExtensionMismatch
    requires forall a :: 0 <= a < |scan| ==> scan[a].kind in {MalwareSignature, SuspiciousPattern}
    requires rlo.kind == RloSpoofing && kl.kind == KeyloggerBehaviour
    ensures var fs := p1 + Optional(spoofed, rlo) + scan + Optional(keylogger, kl);
      && CountKind(fs, ExtensionMismatch) == |p1|
      && CountKind(fs, RloSpoofing) == Flag(spoofed)
      && CountKind(fs, KeyloggerBehaviour) == Flag(keylogger)
  {
    var p2 := Optional(spoofed, rlo);
    var p4 := Optional(keylogger, kl);
    CountOptional(spoofed, rlo);
    CountOptional(keylogger, kl);
    CountKind4(p1, p2, scan, p4, ExtensionMismatch);
    CountKindAll(p1, ExtensionMismatch);
    CountKindAbsent(scan, ExtensionMismatch);
    CountKind4(p1, p2, scan, p4, RloSpoofing);
    CountKindAbsent(p1, RloSpoofing);
    CountKindAbsent(scan, RloSpoofing);
    CountKind4(p1, p2, scan, p4, KeyloggerBehaviour);
    CountKindAbsent(p1, KeyloggerBehaviour);
    CountKindAbsent(scan, KeyloggerBehaviour);
  }

  lemma LayoutScanCounts(p1: seq<Finding>, spoofed: bool, rlo: Finding, scan: seq<Finding>, keylogger: bool,
                         kl: Finding)
    requires forall a :: 0 <= a < |p1| ==> p1[a].kind == ExtensionMismatch
    requires forall a :: 0 <= a < |scan| ==> scan[a].kind in {MalwareSignature, SuspiciousPattern}
    requires rlo.kind == RloSpoofing && kl.kind == KeyloggerBehaviour
    ensures var fs := p1 + Optional(spoofed, rlo) + scan + Optional(keylogger, kl);
      && CountKind(fs, MalwareSignature) + CountKind(fs, SuspiciousPattern) == |scan|
      && CountKind(fs, AnalysisError) == 0
  {
    var p2 := Optional(spoofed, rlo);
    var p4 := Optional(keylogger, kl);
    CountOptional(spoofed, rlo);
    CountOptional(keylogger, kl);
    CountKind4(p1, p2, scan, p4, MalwareSignature);
    CountKind4(p1, p2, scan, p4, SuspiciousPattern);
    CountKindAbsent(p1, MalwareSignature);
    CountKindAbsent(p1, SuspiciousPattern);
    ScanKindCount(scan);
    CountKind4(p1, p2, scan, p4, AnalysisError);
    CountKindAbsent(p1, AnalysisError);
    CountKindAbsent(scan, AnalysisError);
  }

  /** A list all of whose findings have the kind counts each of them. */
  lemma {:induction false} CountKindAll(fs: seq<Finding>, kind: FindingKind)
    requires forall a :: 0 <= a < |fs| ==> fs[a].kind == kind
    ensures CountKind(fs, kind) == |fs|
    decreases |fs|
  {
    if |fs| > 0 {
      CountKindAll(fs[1..], kind);
    }
  }

  /** In a completed analysis the mismatch, RLO and keylogger findings
      each appear exactly once when their check fired and not at all
      otherwise, the signature findings are exactly the scan's, and there
      is no error finding. */
  lemma FindingCounts(s: Scanner, f: FileInput)
    requires f.leadingBytes.Loaded? && f.content.Loaded?
    ensures var bytes := f.leadingBytes.value;
      var content := f.content.value;
      var fs := PerformFileAnalysis(s, f).findings;
      && CountKind(fs, ExtensionMismatch) == Flag(MismatchOf(s, f, bytes))
      && CountKind(fs, RloSpoofing) == Flag(HasRlo(f.name))
      && CountKind(fs, KeyloggerBehaviour) == Flag(DetectKeylogger(content, f.name))
      && CountKind(fs, MalwareSignature) + CountKind(fs, SuspiciousPattern) ==
         |ScanForMalware(s.db, content)|
      && CountKind(fs, AnalysisError) == 0
  {
    var bytes := f.leadingBytes.value;
    var content := f.content.value;
    FindingsLayout(s, f);
    var scan := ScanForMalware(s.db, content);
    ScanKinds(s.db, content);
    var p1 := MismatchFindings(FT.DetectIn(s.headerOrder, HeaderOf(bytes)), ExtensionOf(f.name));
    LayoutCounts(p1, HasRlo(f.name), RloFinding, scan, DetectKeylogger(content, f.name), KeyloggerFinding);
  }

  /** Every finding of the scan is a signature or a pattern finding. */
  lemma ScanKinds(db: SignatureDatabase, content: string)
    ensures forall a :: 0 <= a < |ScanForMalware(db, content)| ==>
      ScanForMalware(db, content)[a].kind in {MalwareSignature, SuspiciousPattern}
  {
    HitsKind(db.malware, MalwareSignature, content);
    HitsKind(db.suspicious, SuspiciousPattern, content);
  }

  /** A list of signature and pattern findings counts each as one of the two. */
  lemma {:induction false} ScanKindCount(fs: seq<Finding>)
    requires forall a :: 0 <= a < |fs| ==> fs[a].kind in {MalwareSignature, SuspiciousPattern}
    ensures CountKind(fs, MalwareSignature) + CountKind(fs, SuspiciousPattern) == |fs|
    decreases |fs|
  {
    if |fs| > 0 {
      ScanKindCount(fs[1..]);
    }
  }

  // ---------------------------------------------------------------------
  // Consequences for the level

  /** Each check that fires puts a floor under the level of a completed
      analysis: a signature hit at least `low` (5 points and the
      persistence bonus), a mismatch or a network keyword at least
      `medium`, an RLO name or a keylogger at least `high`. */
  lemma LevelFloors(s: Scanner, f: FileInput)
    requires f.leadingBytes.Loaded? && f.content.Loaded?
    ensures var bytes := f.leadingBytes.value;
      var content := f.content.value;
      var rank := L.Rank(PerformFileAnalysis(s, f).threatLevel);
      && (|ScanForMalware(s.db, content)| > 0 ==> rank >= L.Rank(L.Low))
      && (MismatchOf(s, f, bytes) ==> rank >= L.Rank(L.Medium))
      && (DetectExfiltration(content) ==> rank >= L.Rank(L.Medium))
      && (HasRlo(f.name) ==> rank >= L.Rank(L.High))
      && (DetectKeylogger(content, f.name) ==> rank >= L.Rank(L.High))
  {
    var bytes := f.leadingBytes.value;
    var content := f.content.value;
    var hits := ScanForMalware(s.db, content);
    CompletedBonus(s, f);
    SignatureScoreBounds(hits);
    ChecksFloor(PerformFileAnalysis(s, f), RawScore(s, f, bytes, content), |hits|, SignatureScore(hits),
                MismatchOf(s, f, bytes), HasRlo(f.name), DetectKeylogger(content, f.name),
                DetectExfiltration(content));
  }

  /** The floors, for a classified record scored from the outcomes of the
      checks. */
  lemma ChecksFloor(r: Analysis, raw: int, hitCount: nat, signatureScore: nat, mismatch: bool, rlo: bool,
                    keylogger: bool, exfiltration: bool)
    requires WellClassified(r) && signatureScore >= 5 * hitCount && r.threatScore == Min(100, raw)
    requires raw == 30 * Flag(mismatch) + 50 * Flag(rlo) + signatureScore
                    + 60 * Flag(keylogger) + 20 * Flag(exfiltration)
    requires BonusFlags(r.profile) ==
      Flag(keylogger) + Flag(hitCount > 0) + Flag(exfiltration) + Flag(mismatch || rlo)
    ensures hitCount > 0 ==> L.Rank(r.threatLevel) >= L.Rank(L.Low)
    ensures mismatch || exfiltration ==> L.Rank(r.threatLevel) >= L.Rank(L.Medium)
    ensures rlo || keylogger ==> L.Rank(r.threatLevel) >= L.Rank(L.High)
  {
    if hitCount > 0 { LevelFloor(r, raw, 15); }
    if mismatch { LevelFloor(r, raw, 40); }
    if exfiltration { LevelFloor(r, raw, 30); }
    if rlo { LevelFloor(r, raw, 60); }
    if keylogger { LevelFloor(r, raw, 70); }
  }

  /** The facts about a completed analysis the level floors rest on. */
  lemma CompletedBonus(s: Scanner, f: FileInput)
    requires f.leadingBytes.Loaded? && f.content.Loaded?
    ensures var bytes := f.leadingBytes.value;
      var content := f.content.value;
      var r := PerformFileAnalysis(s, f);
      && WellClassified(r)
      && r.threatScore == Min(100, RawScore(s, f, bytes, content))
      && BonusFlags(r.profile) ==
         Flag(DetectKeylogger(content, f.name)) + Flag(|ScanForMalware(s.db, content)| > 0)
         + Flag(DetectExfiltration(content)) + Flag(MismatchOf(s, f, bytes) || HasRlo(f.name))
  {
    CompletedScore(s, f);
    CompletedConfidence(s, f);
    CompletedFlags(s, f);
  }

  /** A classified record whose score is the clamped `raw`, and whose raw
      score and bonus flags reach `floor`, is at least at `floor`'s level. */
  lemma LevelFloor(r: Analysis, raw: int, floor: int)
    requires WellClassified(r) && r.threatScore == Min(100, raw)
    requires floor <= 100 && floor <= raw + 10 * BonusFlags(r.profile)
    ensures L.Rank(r.threatLevel) >= L.Rank(FileLevel(floor))
  {
    FileLevelMonotone(floor, r.profile.confidenceScore);
  }

  /** A completed analysis is `safe` exactly when no check fired, and then
      its score and confidence are both 0. */
  lemma SafeExactlyWhenNothingFires(s: Scanner, f: FileInput)
    requires f.leadingBytes.Loaded? && f.content.Loaded?
    ensures var bytes := f.leadingBytes.value;
      var content := f.content.value;
      var r := PerformFileAnalysis(s, f);
      && (r.threatLevel == L.Safe <==>
            && !MismatchOf(s, f, bytes) && !HasRlo(f.name)
            && |ScanForMalware(s.db, content)| == 0
            && !DetectKeylogger(content, f.name) && !DetectExfiltration(content))
      && (r.threatLevel == L.Safe ==> r.threatScore == 0 && r.profile.confidenceScore == 0)
  {
    var bytes := f.leadingBytes.value;
    var content := f.content.value;
    var hits := ScanForMalware(s.db, content);
    CompletedBonus(s, f);
    SignatureScoreBounds(hits);
    ChecksSafe(PerformFileAnalysis(s, f), RawScore(s, f, bytes, content), |hits|, SignatureScore(hits),
               MismatchOf(s, f, bytes), HasRlo(f.name), DetectKeylogger(content, f.name),
               DetectExfiltration(content));
  }

  /** The level is `safe` exactly when no check fires, and then nothing is
      scored. */
  lemma ChecksSafe(r: Analysis, raw: int, hitCount: nat, signatureScore: nat, mismatch: bool, rlo: bool,
                   keylogger: bool, exfiltration: bool)
    requires WellClassified(r) && 5 * hitCount <= signatureScore <= 40 * hitCount
    requires r.threatScore == Min(100, raw)
    requires raw == 30 * Flag(mismatch) + 50 * Flag(rlo) + signatureScore
                    + 60 * Flag(keylogger) + 20 * Flag(exfiltration)
    requires BonusFlags(r.profile) ==
      Flag(keylogger) + Flag(hitCount > 0) + Flag(exfiltration) + Flag(mismatch || rlo)
    ensures r.threatLevel == L.Safe <==> !mismatch && !rlo && hitCount == 0 && !keylogger && !exfiltration
    ensures r.threatLevel == L.Safe ==> r.threatScore == 0 && r.profile.confidenceScore == 0
  {
    ChecksFloor(r, raw, hitCount, signatureScore, mismatch, rlo, keylogger, exfiltration);
  }


  // ---------------------------------------------------------------------
  // Scenarios with the shipped tables

  /** `"base.ext"` as one string. */
  lemma ExtensionOfDotted(base: string, ext: string)
    requires '.' !in ext
    ensures ExtensionOf(base + "." + ext) == UpperAsciiString(ext)
  {
    LastPieceOfDotted(base, ext, '.');
    assert base + "." + ext == base + ['.'] + ext;
  }

  /** A detected type that differs from the extension puts the mismatch
      finding first and rates the file at least `medium`. */
  lemma MismatchReported(s: Scanner, f: FileInput, t: FT.FileType, ext: string)
    requires f.leadingBytes.Loaded? && f.content.Loaded?
    requires FT.DetectIn(s.headerOrder, HeaderOf(f.leadingBytes.value)) == FT.Known(t)
    requires ExtensionOf(f.name) == ext && FT.Name(t) != ext
    ensures var r := PerformFileAnalysis(s, f);
      && r.extensionMismatch
      && r.findings[0] == MismatchFinding(t, ext)
      && L.Rank(r.threatLevel) >= L.Rank(L.Medium)
  {
    var bytes := f.leadingBytes.value;
    assert MismatchOf(s, f, bytes);
    FindingsLayout(s, f);
    CompletedFlags(s, f);
    LevelFloors(s, f);
    var e := ExpectedFindings(s, f, bytes, f.content.value);
    assert e[0] == MismatchFinding(t, ext);
  }

  /** Leading bytes `4D 5A` (`MZ`) make the shipped table report EXE. */
  lemma ExecutableBytesDetected(bytes: seq<Hex.Byte>)
    requires |bytes| >= 2 && bytes[..2] == [0x4D, 0x5A]
    ensures FT.DetectIn(FT.HeaderTable, HeaderOf(bytes)) == FT.Known(FT.EXE)
  {
    Hex.HeaderStartsWithBytes(bytes, [0x4D, 0x5A]);
    assert Hex.ToHex([0x4D, 0x5A]) == "4D5A";
    FT.ExecutableHeaderDetected(HeaderOf(bytes));
  }

  /** Leading bytes `50 4B 03 04` (`PK..`) make the shipped table report ZIP. */
  lemma ZipBytesDetected(bytes: seq<Hex.Byte>)
    requires |bytes| >= 4 && bytes[..4] == [0x50, 0x4B, 0x03, 0x04]
    ensures FT.DetectIn(FT.HeaderTable, HeaderOf(bytes)) == FT.Known(FT.ZIP)
  {
    Hex.HeaderStartsWithBytes(bytes, [0x50, 0x4B, 0x03, 0x04]);
    assert Hex.ToHex([0x50, 0x4B, 0x03, 0x04]) == "504B0304";
    FT.ZipHeaderDetected(HeaderOf(bytes));
  }

  /** The extensions of the two scenario names. */
  lemma ScenarioExtensions()
    ensures ExtensionOf("invoice.pdf") == "PDF"
    ensures ExtensionOf("report.docx") == "DOCX"
  {
    ExtensionOfDotted("invoice", "pdf");
    var up := UpperAsciiString("pdf");
    assert up[0] == 'P' && up[1] == 'D' && up[2] == 'F';
    assert up == "PDF";
    assert "invoice.pdf" == "invoice" + "." + "pdf";
    ExtensionOfDotted("report", "docx");
    var up2 := UpperAsciiString("docx");
    assert up2[0] == 'D' && up2[1] == 'O' && up2[2] == 'C' && up2[3] == 'X';
    assert up2 == "DOCX";
    assert "report.docx" == "report" + "." + "docx";
  }

  /** The mismatch message of the renamed executable, spelled out. */
  lemma ExecutableMessage()
    ensures MismatchFinding(FT.EXE, "PDF").description == "File appears to be EXE but has .PDF extension"
    ensures FT.Name(FT.EXE) != "PDF"
  {
    var n := FT.Name(FT.EXE);
    assert n == "EXE";
    assert n[0] != "PDF"[0];
    assert "File appears to be " + n == "File appears to be EXE";
    assert "File appears to be EXE" + " but has ." == "File appears to be EXE but has .";
    assert "File appears to be EXE but has ." + "PDF" == "File appears to be EXE but has .PDF";
  }

  /** The mismatch message of the Word document, spelled out. */
  lemma ZipMessage()
    ensures MismatchFinding(FT.ZIP, "DOCX").description == "File appears to be ZIP but has .DOCX extension"
    ensures FT.Name(FT.ZIP) != "DOCX"
  {
    var n := FT.Name(FT.ZIP);
    assert n == "ZIP";
    assert n[0] != "DOCX"[0];
    assert "File appears to be " + n == "File appears to be ZIP";
    assert "File appears to be ZIP" + " but has ." == "File appears to be ZIP but has .";
    assert "File appears to be ZIP but has ." + "DOCX" == "File appears to be ZIP but has .DOCX";
  }

  /** An executable renamed `invoice.pdf` is reported, with the shipped
      header table and any signature database, as an EXE posing as a PDF,
      and rated at least `medium`. */
  lemma RenamedExecutable(db: SignatureDatabase, f: FileInput)
    requires f.name == "invoice.pdf"
    requires f.leadingBytes.Loaded? && |f.leadingBytes.value| >= 2
    requires f.leadingBytes.value[..2] == [0x4D, 0x5A]
    requires f.content.Loaded?
    ensures var r := PerformFileAnalysis(Scanner(db, FT.HeaderTable), f);
      && r.extensionMismatch
      && r.findings[0] == Finding(ExtensionMismatch, High, "File appears to be EXE but has .PDF extension")
      && L.Rank(r.threatLevel) >= L.Rank(L.Medium)
  {
    ExecutableMessage();
    ExecutableBytesDetected(f.leadingBytes.value);
    ScenarioExtensions();
    MismatchReported(Scanner(db, FT.HeaderTable), f, FT.EXE, "PDF");
  }

  /** A Word document is a ZIP archive underneath, and the ZIP row comes
      first, so `report.docx` with the ZIP magic number is reported as a
      ZIP posing as a DOCX and rated at least `medium`. */
  lemma DocxReportedAsZip(db: SignatureDatabase, f: FileInput)
    requires f.name == "report.docx"
    requires f.leadingBytes.Loaded? && |f.leadingBytes.value| >= 4
    requires f.leadingBytes.value[..4] == [0x50, 0x4B, 0x03, 0x04]
    requires f.content.Loaded?
    ensures var r := PerformFileAnalysis(Scanner(db, FT.HeaderTable), f);
      && r.extensionMismatch
      && r.findings[0] == Finding(ExtensionMismatch, High, "File appears to be ZIP but has .DOCX extension")
      && L.Rank(r.threatLevel) >= L.Rank(L.Medium)
  {
    ZipMessage();
    ZipBytesDetected(f.leadingBytes.value);
    ScenarioExtensions();
    MismatchReported(Scanner(db, FT.HeaderTable), f, FT.ZIP, "DOCX");
  }

  /** The name alternative `kl` matches inside ordinary words: any file
      named `weekly.txt` is reported as a keylogger and rated at least
      `high`, whatever it contains. */
  lemma WeeklyNamedKeylogger(s: Scanner, f: FileInput)
    requires f.name == "weekly.txt"
    requires f.leadingBytes.Loaded? && f.content.Loaded?
    ensures var r := PerformFileAnalysis(s, f);
      && r.keyloggerDetected
      && KeyloggerFinding in r.findings
      && L.Rank(r.threatLevel) >= L.Rank(L.High)
  {
    var res := Words(KeyloggerNameWords, true);
    assert res[3] == Regex([Lit("kl")], true);
    assert MatchesPrefix([Lit("kl")], f.name[3..], true) by {
      assert f.name[3..][0] == 'k' && f.name[3..][1] == 'l';
      assert LitAt("kl", f.name[3..], true);
      assert [Lit("kl")][1..] == [];
    }
    TestAt(res[3], f.name, 3);
    assert DetectKeylogger(f.content.value, f.name);
    FindingsLayout(s, f);
    CompletedFlags(s, f);
    LevelFloors(s, f);
    var e := ExpectedFindings(s, f, f.leadingBytes.value, f.content.value);
    assert e[|e| - 1] == KeyloggerFinding;
  }

  /** A name carrying the override character is reported once as RLO
      spoofing and rated at least `high`, whatever the file holds. */
  lemma RloNameFlagged(s: Scanner, f: FileInput)
    requires Contains(f.name, "\U{202E}")
    requires f.leadingBytes.Loaded? && f.content.Loaded?
    ensures var r := PerformFileAnalysis(s, f);
      && CountKind(r.findings, RloSpoofing) == 1
      && r.profile.stealth
      && L.Rank(r.threatLevel) >= L.Rank(L.High)
  {
    FindingCounts(s, f);
    CompletedFlags(s, f);
    LevelFloors(s, f);
  }
}
