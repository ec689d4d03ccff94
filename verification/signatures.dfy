/** The content scanners of main.js: the malware and suspicious-pattern
    signature tables (`initializeSignatureDatabase`), the ordered scan over
    them (`scanForMalware`), and the keylogger and network-keyword
    heuristics (`detectKeylogger` and the exfiltration test of
    `performFileAnalysis`). */
module Signatures {
  import opened Text
  import opened Patterns

  datatype Severity = Low | Medium | High | Critical

  /** The `type` tag of a finding. */
  datatype FindingKind =
    | ExtensionMismatch  // 'extension_mismatch'
    | RloSpoofing        // 'rlo_spoofing'
    | MalwareSignature   // 'malware_signature'
    | SuspiciousPattern  // 'suspicious_pattern'
    | KeyloggerBehaviour // 'keylogger'
    | AnalysisError      // 'error'

  datatype Finding = Finding(kind: FindingKind, severity: Severity, description: string)

  /** One row of a signature table: `{ pattern, threat, description }`. */
  datatype SignatureRow = SignatureRow(pattern: Regex, threat: Severity, description: string)

  datatype SignatureDatabase = SignatureDatabase(malware: seq<SignatureRow>, suspicious: seq<SignatureRow>)

  /** `/w/` or `/w/i`. */
  function Word(w: string, ignoreCase: bool): Regex {
    Regex([Lit(w)], ignoreCase)
  }

  /** `/name\s*\(/`: a call of `name`. */
  function Call(name: string): Regex {
    Regex([Lit(name), Blanks, Lit("(")], false)
  }

  /** `/a.*b/i`. */
  function Near(a: string, b: string): Regex {
    Regex([Lit(a), Gap, Lit(b)], true)
  }

  const MalwareRows: seq<SignatureRow> := [
    SignatureRow(Call("eval"), High, "Code execution detected"),
    SignatureRow(Call("shell"), High, "Shell command execution"),
    SignatureRow(Call("system"), High, "System command execution"),
    SignatureRow(Call("exec"), High, "Process execution detected"),
    SignatureRow(Word("cmd.exe", false), High, "Windows command prompt"),
    SignatureRow(Word("powershell.exe", false), High, "PowerShell execution"),
    SignatureRow(Word("wscript.shell", false), High, "Windows Script Host"),
    SignatureRow(Word("keylogger", true), Critical, "Keylogger detected"),
    SignatureRow(Word("keystroke", true), Critical, "Keystroke logging"),
    SignatureRow(Near("password", "steal"), Critical, "Password theft"),
    SignatureRow(Word("trojan", true), Critical, "Trojan horse"),
    SignatureRow(Word("ransomware", true), Critical, "Ransomware detected"),
    SignatureRow(Near("encrypt", "file"), High, "File encryption"),
    SignatureRow(Near("delete", "file"), Medium, "File deletion"),
    SignatureRow(Near("registry", "modify"), High, "Registry modification"),
    SignatureRow(Near("startup", "add"), High, "Startup persistence"),
    SignatureRow(Near("network", "send"), Medium, "Network communication"),
    SignatureRow(Near("http", "post"), Medium, "HTTP data exfiltration"),
    SignatureRow(Near("ftp", "upload"), High, "FTP data transfer"),
    SignatureRow(Near("email", "send"), Medium, "Email data theft")
  ]

  const SuspiciousRows: seq<SignatureRow> := [
    SignatureRow(Word("base64_decode", true), Medium, "Base64 decoding"),
    SignatureRow(Word("gzinflate", true), Medium, "Compression detected"),
    SignatureRow(Word("str_rot13", true), Low, "String obfuscation"),
    SignatureRow(Call("chr"), Low, "Character encoding"),
    SignatureRow(Word("fromCharCode", true), Low, "Character encoding"),
    SignatureRow(Word("charCodeAt", true), Low, "Character analysis"),
    SignatureRow(Word("substr", true), Low, "String manipulation"),
    SignatureRow(Word("substring", true), Low, "String manipulation"),
    SignatureRow(Near("replace", "regex"), Medium, "String replacement"),
    SignatureRow(Near("split", "join"), Low, "String manipulation")
  ]

  const Database: SignatureDatabase := SignatureDatabase(MalwareRows, SuspiciousRows)

  function FindingFor(row: SignatureRow, kind: FindingKind): Finding {
    Finding(kind, row.threat, row.description)
  }

  /** Whether each row's pattern tests true on the content. */
  function Fires(rows: seq<SignatureRow>, content: string): (f: seq<bool>)
    ensures |f| == |rows|
  {
    seq(|rows|, i requires 0 <= i < |rows| => Test(rows[i].pattern, content))
  }

  /** One finding per flagged row, in row order. */
  function Select(rows: seq<SignatureRow>, flags: seq<bool>, kind: FindingKind): seq<Finding>
    requires |flags| == |rows|
    decreases |rows|
  {
    if |rows| == 0 then []
    else
      (if flags[0] then [FindingFor(rows[0], kind)] else [])
      + Select(rows[1..], flags[1..], kind)
  }

  /** One finding per row whose pattern tests true, in row order. */
  function Hits(rows: seq<SignatureRow>, kind: FindingKind, content: string): seq<Finding> {
    Select(rows, Fires(rows, content), kind)
  }

  /** `scanForMalware`: the malware table's hits, then the suspicious table's. */
  function ScanForMalware(db: SignatureDatabase, content: string): seq<Finding> {
    Hits(db.malware, MalwareSignature, content) + Hits(db.suspicious, SuspiciousPattern, content)
  }

  /** The positions, counted from `base`, of the set flags, in order. */
  function Indices(flags: seq<bool>, base: nat): seq<nat>
    decreases |flags|
  {
    if |flags| == 0 then []
    else (if flags[0] then [base] else []) + Indices(flags[1..], base + 1)
  }

  /** The listed positions lie in range and strictly increase. */
  lemma {:induction false} IndicesOrdered(flags: seq<bool>, base: nat)
    ensures forall a :: 0 <= a < |Indices(flags, base)| ==>
      base <= Indices(flags, base)[a] < base + |flags|
    ensures forall a, b :: 0 <= a < b < |Indices(flags, base)| ==>
      Indices(flags, base)[a] < Indices(flags, base)[b]
    decreases |flags|
  {
    if |flags| > 0 {
      IndicesOrdered(flags[1..], base + 1);
    }
  }

  /** A position is listed exactly when its flag is set. */
  lemma {:induction false} IndicesMember(flags: seq<bool>, base: nat, i: nat)
    ensures i in Indices(flags, base) <==> base <= i < base + |flags| && flags[i - base]
    decreases |flags|
  {
    if |flags| > 0 {
      IndicesMember(flags[1..], base + 1, i);
      if base < i < base + |flags| {
        assert flags[i - base] == flags[1..][i - (base + 1)];
      }
      IndicesOrdered(flags[1..], base + 1);
      assert base !in Indices(flags[1..], base + 1);
    }
  }

  /** The selection has one finding per listed position. */
  lemma {:induction false} SelectLength(rows: seq<SignatureRow>, flags: seq<bool>, kind: FindingKind, base: nat)
    requires |flags| == |rows|
    ensures |Select(rows, flags, kind)| == |Indices(flags, base)| <= |rows|
    decreases |rows|
  {
    if |rows| > 0 {
      SelectLength(rows[1..], flags[1..], kind, base + 1);
    }
  }

  /** The selection has one finding per listed position, taken from that row. */
  lemma {:induction false} SelectIndices(rows: seq<SignatureRow>, flags: seq<bool>, kind: FindingKind, base: nat)
    requires |flags| == |rows|
    ensures |Select(rows, flags, kind)| == |Indices(flags, base)| <= |rows|
    ensures forall a :: 0 <= a < |Indices(flags, base)| ==>
      base <= Indices(flags, base)[a] < base + |rows| &&
      Select(rows, flags, kind)[a] == FindingFor(rows[Indices(flags, base)[a] - base], kind)
    decreases |rows|
  {
    IndicesOrdered(flags, base);
    SelectLength(rows, flags, kind, base);
    if |rows| > 0 {
      SelectIndices(rows[1..], flags[1..], kind, base + 1);
      var head := if flags[0] then [FindingFor(rows[0], kind)] else [];
      var idx := Indices(flags, base);
      var rest := Indices(flags[1..], base + 1);
      var tail := Select(rows[1..], flags[1..], kind);
      assert Select(rows, flags, kind) == head + tail;
      forall a | |head| <= a < |idx|
        ensures (head + tail)[a] == FindingFor(rows[idx[a] - base], kind)
      {
        var b := a - |head|;
        assert idx[a] == rest[b];
        assert (head + tail)[a] == tail[b];
        assert tail[b] == FindingFor(rows[1..][rest[b] - (base + 1)], kind);
        assert rows[1..][rest[b] - (base + 1)] == rows[idx[a] - base];
      }
    }
  }

  /** The selection is the image of exactly the flagged rows, in order. */
  lemma SelectSpec(rows: seq<SignatureRow>, flags: seq<bool>, kind: FindingKind)
    returns (idx: seq<nat>)
    requires |flags| == |rows|
    ensures |idx| == |Select(rows, flags, kind)| <= |rows|
    ensures forall a, b :: 0 <= a < b < |idx| ==> idx[a] < idx[b]
    ensures forall a :: 0 <= a < |idx| ==>
      idx[a] < |rows| && Select(rows, flags, kind)[a] == FindingFor(rows[idx[a]], kind)
    ensures forall i :: 0 <= i < |rows| ==> (flags[i] <==> i in idx)
  {
    idx := Indices(flags, 0);
    IndicesOrdered(flags, 0);
    SelectIndices(rows, flags, kind, 0);
    forall i | 0 <= i < |rows|
      ensures flags[i] <==> i in idx
    {
      IndicesMember(flags, 0, i);
    }
  }

  /** The hits are the images of exactly the matching rows, in row order:
      `idx` lists the matching row numbers, strictly increasing, and the
      `a`-th finding carries the kind given and the severity and
      description of row `idx[a]`. */
  lemma HitsSpec(rows: seq<SignatureRow>, kind: FindingKind, content: string)
    returns (idx: seq<nat>)
    ensures |idx| == |Hits(rows, kind, content)| <= |rows|
    ensures forall a, b :: 0 <= a < b < |idx| ==> idx[a] < idx[b]
    ensures forall a :: 0 <= a < |idx| ==>
      idx[a] < |rows| && Hits(rows, kind, content)[a] == FindingFor(rows[idx[a]], kind)
    ensures forall i :: 0 <= i < |rows| ==> (Test(rows[i].pattern, content) <==> i in idx)
  {
    var flags := Fires(rows, content);
    idx := SelectSpec(rows, flags, kind);
    forall i | 0 <= i < |rows|
      ensures Test(rows[i].pattern, content) <==> i in idx
    {
      assert flags[i] == Test(rows[i].pattern, content);
    }
  }

  /** Every finding of `Hits` carries the kind it was asked for. */
  lemma HitsKind(rows: seq<SignatureRow>, kind: FindingKind, content: string)
    ensures forall a :: 0 <= a < |Hits(rows, kind, content)| ==> Hits(rows, kind, content)[a].kind == kind
  {
    var idx := HitsSpec(rows, kind, content);
  }

  /** The kind the scan gives to row `i` of the two tables laid end to end. */
  function KindOfRow(db: SignatureDatabase, i: nat): FindingKind {
    if i < |db.malware| then MalwareSignature else SuspiciousPattern
  }

  /** Each position of `s` moved up by `m`. */
  function Shift(s: seq<nat>, m: nat): (r: seq<nat>)
    ensures |r| == |s|
    ensures forall a :: 0 <= a < |s| ==> r[a] == s[a] + m
  {
    seq(|s|, a requires 0 <= a < |s| => s[a] + m)
  }

  /** The scan over both tables, laid end to end, reports exactly the
      matching rows in order: malware-table hits first, tagged
      `MalwareSignature`, then suspicious-table hits, tagged
      `SuspiciousPattern`, each with its row's severity and description. */
  lemma ScanForMalwareSpec(db: SignatureDatabase, content: string) returns (idx: seq<nat>)
    ensures |idx| == |ScanForMalware(db, content)| <= |db.malware| + |db.suspicious|
    ensures forall a, b :: 0 <= a < b < |idx| ==> idx[a] < idx[b]
    ensures forall a :: 0 <= a < |idx| ==>
      idx[a] < |db.malware + db.suspicious| &&
      ScanForMalware(db, content)[a] == FindingFor((db.malware + db.suspicious)[idx[a]], KindOfRow(db, idx[a]))
    ensures forall i :: 0 <= i < |db.malware + db.suspicious| ==>
      (Test((db.malware + db.suspicious)[i].pattern, content) <==> i in idx)
  {
    var im := HitsSpec(db.malware, MalwareSignature, content);
    var iSus := HitsSpec(db.suspicious, SuspiciousPattern, content);
    idx := im + Shift(iSus, |db.malware|);
    JoinedOrder(|db.malware|, im, iSus);
    JoinedFindings(db, Hits(db.malware, MalwareSignature, content),
                   Hits(db.suspicious, SuspiciousPattern, content), im, iSus);
    JoinedMembers(db, content, im, iSus);
  }

  /** Joining the two index lists keeps them strictly increasing. */
  lemma JoinedOrder(m: nat, im: seq<nat>, iSus: seq<nat>)
    requires forall a :: 0 <= a < |im| ==> im[a] < m
    requires forall a, b :: 0 <= a < b < |im| ==> im[a] < im[b]
    requires forall a, b :: 0 <= a < b < |iSus| ==> iSus[a] < iSus[b]
    ensures forall a, b :: 0 <= a < b < |im + Shift(iSus, m)| ==>
      (im + Shift(iSus, m))[a] < (im + Shift(iSus, m))[b]
  {
  }

  /** The joined findings line up with the joined index list. */
  lemma JoinedFindings(db: SignatureDatabase, hm: seq<Finding>, hs: seq<Finding>, im: seq<nat>, iSus: seq<nat>)
    requires |im| == |hm| && |iSus| == |hs|
    requires forall a :: 0 <= a < |im| ==>
      im[a] < |db.malware| && hm[a] == FindingFor(db.malware[im[a]], MalwareSignature)
    requires forall a :: 0 <= a < |iSus| ==>
      iSus[a] < |db.suspicious| && hs[a] == FindingFor(db.suspicious[iSus[a]], SuspiciousPattern)
    ensures forall a :: 0 <= a < |im + Shift(iSus, |db.malware|)| ==>
      (im + Shift(iSus, |db.malware|))[a] < |db.malware + db.suspicious| &&
      (hm + hs)[a] == FindingFor((db.malware + db.suspicious)[(im + Shift(iSus, |db.malware|))[a]],
                                 KindOfRow(db, (im + Shift(iSus, |db.malware|))[a]))
  {
    var rows := db.malware + db.suspicious;
    var idx := im + Shift(iSus, |db.malware|);
    forall a | 0 <= a < |idx|
      ensures idx[a] < |rows| && (hm + hs)[a] == FindingFor(rows[idx[a]], KindOfRow(db, idx[a]))
    {
      if a >= |im| {
        assert idx[a] == iSus[a - |im|] + |db.malware|;
        assert rows[idx[a]] == db.suspicious[iSus[a - |im|]];
      }
    }
  }

  /** A row of the joined tables is listed exactly when its pattern tests
      true. */
  lemma JoinedMembers(db: SignatureDatabase, content: string, im: seq<nat>, iSus: seq<nat>)
    requires forall i :: 0 <= i < |db.malware| ==> (Test(db.malware[i].pattern, content) <==> i in im)
    requires forall i :: 0 <= i < |db.suspicious| ==> (Test(db.suspicious[i].pattern, content) <==> i in iSus)
    requires forall a :: 0 <= a < |im| ==> im[a] < |db.malware|
    ensures forall i :: 0 <= i < |db.malware + db.suspicious| ==>
      (Test((db.malware + db.suspicious)[i].pattern, content) <==> i in im + Shift(iSus, |db.malware|))
  {
    var rows := db.malware + db.suspicious;
    var m := |db.malware|;
    var shifted := Shift(iSus, m);
    forall i | 0 <= i < |rows|
      ensures Test(rows[i].pattern, content) <==> i in im + shifted
    {
      if i >= m {
        assert rows[i] == db.suspicious[i - m];
        assert i !in im;
        if i - m in iSus {
          var a :| 0 <= a < |iSus| && iSus[a] == i - m;
          assert shifted[a] == i;
        }
        if i in shifted {
          var a :| 0 <= a < |shifted| && shifted[a] == i;
          assert iSus[a] == i - m;
        }
      } else {
        assert i !in shifted;
      }
    }
  }

  /** Whatever the tables, the scan yields at most one finding per row, and
      every malware-table finding comes before every suspicious-table
      finding. */
  lemma ScanOrder(db: SignatureDatabase, content: string)
    ensures |ScanForMalware(db, content)| <= |db.malware| + |db.suspicious|
    ensures forall a, b :: 0 <= a < b < |ScanForMalware(db, content)| ==>
      !(ScanForMalware(db, content)[a].kind == SuspiciousPattern &&
        ScanForMalware(db, content)[b].kind == MalwareSignature)
  {
    var hm := Hits(db.malware, MalwareSignature, content);
    var hs := Hits(db.suspicious, SuspiciousPattern, content);
    var im := HitsSpec(db.malware, MalwareSignature, content);
    var iSus := HitsSpec(db.suspicious, SuspiciousPattern, content);
    HitsKind(db.malware, MalwareSignature, content);
    HitsKind(db.suspicious, SuspiciousPattern, content);
    KindsInOrder(hm, hs);
  }

  /** Findings of one kind followed by findings of another. */
  lemma KindsInOrder(hm: seq<Finding>, hs: seq<Finding>)
    requires forall a :: 0 <= a < |hm| ==> hm[a].kind == MalwareSignature
    requires forall a :: 0 <= a < |hs| ==> hs[a].kind == SuspiciousPattern
    ensures forall a, b :: 0 <= a < b < |hm + hs| ==>
      !((hm + hs)[a].kind == SuspiciousPattern && (hm + hs)[b].kind == MalwareSignature)
  {
    forall a, b | 0 <= a < b < |hm + hs|
      ensures !((hm + hs)[a].kind == SuspiciousPattern && (hm + hs)[b].kind == MalwareSignature)
    {
      if b < |hm| {
        assert (hm + hs)[a] == hm[a];
      } else {
        assert (hm + hs)[b] == hs[b - |hm|];
      }
    }
  }

  /** With the shipped tables the scan yields at most 30 findings, malware
      findings first. */
  lemma ScanOfDatabase(content: string)
    ensures |ScanForMalware(Database, content)| <= 30
    ensures forall a, b :: 0 <= a < b < |ScanForMalware(Database, content)| ==>
      !(ScanForMalware(Database, content)[a].kind == SuspiciousPattern &&
        ScanForMalware(Database, content)[b].kind == MalwareSignature)
  {
    ScanOrder(Database, content);
    assert |Database.malware| == 20 && |Database.suspicious| == 10;
  }

  // ---------------------------------------------------------------------
  // Keylogger and exfiltration heuristics

  const KeyloggerContentPatterns: seq<Regex> := [
    Word("GetAsyncKeyState", true),
    Word("GetKeyboardState", true),
    Word("SetWindowsHookEx", true),
    Word("WH_KEYBOARD_LL", true),
    Near("keyboard", "hook"),
    Near("keystroke", "log"),
    Regex([Lit("key"), Gap, Lit("press"), Gap, Lit("log")], true),
    Near("log", "key"),
    Near("record", "key"),
    Near("capture", "key"),
    Word("keylogger", true),
    Near("key", "stroke"),
    Near("typed", "character"),
    Near("virtual", "key"),
    Near("scan", "code")
  ]

  /** `/keylogger|keystroke|keylog|kl/i`, one alternative per entry. */
  const KeyloggerNameWords: seq<string> := ["keylogger", "keystroke", "keylog", "kl"]

  /** `/http|ftp|upload|post|socket/i`, one alternative per entry. */
  const NetworkWords: seq<string> := ["http", "ftp", "upload", "post", "socket"]

  predicate DetectKeylogger(content: string, name: string) {
    AnyTest(KeyloggerContentPatterns, content) || AnyTest(Words(KeyloggerNameWords, true), name)
  }

  predicate DetectExfiltration(content: string) {
    AnyTest(Words(NetworkWords, true), content)
  }

  /** `w` occurs in `t` ignoring ASCII case. */
  predicate ContainsIgnoringCase(t: string, w: string) {
    exists i :: 0 <= i <= |t| && LitAt(w, t[i..], true)
  }

  /** The keylogger heuristic fires exactly when a content pattern matches
      or the name contains, in any case, `keystroke`, `keylog` or `kl`
      (the alternative `keylogger` is subsumed by `keylog`). */
  lemma DetectKeyloggerSpec(content: string, name: string)
    ensures DetectKeylogger(content, name) <==>
      || AnyTest(KeyloggerContentPatterns, content)
      || ContainsIgnoringCase(name, "keystroke")
      || ContainsIgnoringCase(name, "keylog")
      || ContainsIgnoringCase(name, "kl")
  {
    var res := Words(KeyloggerNameWords, true);
    assert res[0] == Word("keylogger", true) && res[1] == Word("keystroke", true);
    assert res[2] == Word("keylog", true) && res[3] == Word("kl", true);
    LiteralTest("keylogger", true, name);
    LiteralTest("keystroke", true, name);
    LiteralTest("keylog", true, name);
    LiteralTest("kl", true, name);
    if Test(res[0], name) {
      LiteralPrefixTest("keylogger", "keylog", true, name);
    }
  }

  /** The exfiltration heuristic fires exactly when one of the network
      keywords occurs in the content, ignoring case. */
  lemma DetectExfiltrationSpec(content: string)
    ensures DetectExfiltration(content) <==>
      exists k :: 0 <= k < |NetworkWords| && ContainsIgnoringCase(content, NetworkWords[k])
  {
    var res := Words(NetworkWords, true);
    forall k | 0 <= k < |NetworkWords|
      ensures Test(res[k], content) <==> ContainsIgnoringCase(content, NetworkWords[k])
    {
      LiteralTest(NetworkWords[k], true, content);
    }
  }
}
