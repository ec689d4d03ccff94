/** Magic-number type detection: the ordered header table and the
    first-match search over it (main.js `initializeFileHeaders` and
    `detectFileType`). The header is the upper-case hexadecimal rendering of
    the file's first 32 bytes; a signature matches when it is a prefix of it. */
module FileTypes {
  import opened Text

  /** The keys of the header table. `SevenZip` is the key `'7Z'`. */
  datatype FileType =
    | TXT | CSV | INI | CFG | LOG
    | JPEG | PNG | GIF | BMP | TIFF | PDF | ZIP | RAR | SevenZip | TAR | GZ
    | EXE | DLL | MSI | DOC | XLS | PPT | DOCX | XLSX | PPTX | MP3 | MP4
    | AVI | WMV | MOV | ISO | MPG | FLV | SWF | JAR | APK | CLASS | PSD | AI
    | EPS | PS | RTF | XML | HTML | JS | CSS | PHP | SQL | BAT | CMD | PS1
    | VBS | WSF

  datatype Detected = Known(fileType: FileType) | Unknown

  /** The table's keys in the order `Object.entries` yields them: insertion
      order, since no key is an integer index. The keys are written as eight
      consecutive groups, each headed by a row whose signatures shadow later
      rows; `UptoK` is the first `K` groups. */
  const HeaderTable: seq<FileType> := Upto7 + Rows8

  const Rows1: seq<FileType> := [JPEG, PNG, GIF, BMP, TIFF]
  const Rows2: seq<FileType> := [PDF]
  const Rows3: seq<FileType> := [ZIP, RAR, SevenZip, TAR, GZ]
  const Rows4: seq<FileType> := [EXE, DLL]
  const Rows5: seq<FileType> :=
    [MSI, DOC, XLS, PPT, DOCX, XLSX, PPTX, MP3, MP4, AVI, WMV, MOV, ISO, MPG, FLV,
     SWF, JAR, APK, CLASS, PSD, AI]
  const Rows6: seq<FileType> := [EPS, PS, RTF]
  const Rows7: seq<FileType> := [XML, HTML, JS, CSS, PHP, SQL]
  const Rows8: seq<FileType> := [BAT, CMD, PS1, VBS, WSF, TXT, CSV, INI, CFG, LOG]

  const Upto2: seq<FileType> := Rows1 + Rows2
  const Upto3: seq<FileType> := Upto2 + Rows3
  const Upto4: seq<FileType> := Upto3 + Rows4
  const Upto5: seq<FileType> := Upto4 + Rows5
  const Upto6: seq<FileType> := Upto5 + Rows6
  const Upto7: seq<FileType> := Upto6 + Rows7

  /** The key as written, which is what the extension is compared with. */
  function Name(t: FileType): string {
    match t
    case JPEG => "JPEG"  case PNG => "PNG"  case GIF => "GIF"  case BMP => "BMP"
    case TIFF => "TIFF"  case PDF => "PDF"  case ZIP => "ZIP"  case RAR => "RAR"
    case SevenZip => "7Z"  case TAR => "TAR"  case GZ => "GZ"  case EXE => "EXE"
    case DLL => "DLL"  case MSI => "MSI"  case DOC => "DOC"  case XLS => "XLS"
    case PPT => "PPT"  case DOCX => "DOCX"  case XLSX => "XLSX"  case PPTX => "PPTX"
    case MP3 => "MP3"  case MP4 => "MP4"  case AVI => "AVI"  case WMV => "WMV"
    case MOV => "MOV"  case ISO => "ISO"  case MPG => "MPG"  case FLV => "FLV"
    case SWF => "SWF"  case JAR => "JAR"  case APK => "APK"  case CLASS => "CLASS"
    case PSD => "PSD"  case AI => "AI"  case EPS => "EPS"  case PS => "PS"
    case RTF => "RTF"  case XML => "XML"  case HTML => "HTML"  case JS => "JS"
    case CSS => "CSS"  case PHP => "PHP"  case SQL => "SQL"  case BAT => "BAT"
    case CMD => "CMD"  case PS1 => "PS1"  case VBS => "VBS"  case WSF => "WSF"
    case TXT => "TXT"  case CSV => "CSV"  case INI => "INI"  case CFG => "CFG"
    case LOG => "LOG"
  }

  /** The hexadecimal signatures listed for each key, in table order. */
  function Signatures(t: FileType): seq<string> {
    match t
    case JPEG => ["FFD8FFE0", "FFD8FFE1", "FFD8FFE2", "FFD8FFE3", "FFD8FFE8"]
    case PNG => ["89504E47"]
    case GIF => ["47494638"]
    case BMP => ["424D"]
    case TIFF => ["49492A00", "4D4D002A"]
    case PDF => ["25504446"]
    case ZIP => ["504B0304", "504B0506", "504B0708"]
    case RAR => ["52617221"]
    case SevenZip => ["377ABCAF271C"]
    case TAR => ["7573746172"]
    case GZ => ["1F8B"]
    case EXE => ["4D5A"]
    case DLL => ["4D5A"]
    case MSI => ["D0CF11E0A1B11AE1"]
    case DOC => ["D0CF11E0A1B11AE1"]
    case XLS => ["D0CF11E0A1B11AE1"]
    case PPT => ["D0CF11E0A1B11AE1"]
    case DOCX => ["504B030414000600"]
    case XLSX => ["504B030414000600"]
    case PPTX => ["504B030414000600"]
    case MP3 => ["494433", "FFFB", "FFF3", "FFFA"]
    case MP4 => ["0000001866747970", "0000001C66747970"]
    case AVI => ["52494646"]
    case WMV => ["3026B2758E66CF11"]
    case MOV => ["0000001466747970"]
    case ISO => ["4344303031"]
    case MPG => ["000001BA", "000001B3"]
    case FLV => ["464C56"]
    case SWF => ["465753", "435753"]
    case JAR => ["504B0304"]
    case APK => ["504B0304"]
    case CLASS => ["CAFEBABE"]
    case PSD => ["38425053"]
    case AI => ["25504446"]
    case EPS => ["25215053"]
    case PS => ["25215053"]
    case RTF => ["7B5C72746631"]
    case XML => ["3C3F786D6C"]
    case HTML => ["3C21444F4354595045", "3C68746D6C"]
    case JS => ["2F2A", "2F2F"]
    case CSS => ["2F2A", "4063686172736574"]
    case PHP => ["3C3F706870"]
    case SQL => ["2D2D", "2F2A"]
    case BAT => ["406563686F20", "4063686F20"]
    case CMD => ["406563686F20", "4063686F20"]
    case PS1 => ["2323"]
    case VBS => ["2773C61766553"]
    case WSF => ["3C3F786D6C"]
    case TXT => []
    case CSV => []
    case INI => []
    case CFG => []
    case LOG => []
  }

  /** Some signature of `t` is a prefix of the header. */
  predicate RowMatches(t: FileType, header: string) {
    exists k :: 0 <= k < |Signatures(t)| && StartsWith(header, Signatures(t)[k])
  }

  /** The nested search of `detectFileType` over the rows `order`. */
  function DetectIn(order: seq<FileType>, header: string): Detected
    decreases |order|
  {
    if |order| == 0 then Unknown
    else if RowMatches(order[0], header) then Known(order[0])
    else DetectIn(order[1..], header)
  }

  function DetectFileType(header: string): Detected {
    DetectIn(HeaderTable, header)
  }

  /** The search returns the type of the first row, in table order, that has
      a matching signature, and `Unknown` exactly when no row has one. */
  lemma {:induction false} DetectInSpec(order: seq<FileType>, header: string)
    ensures DetectIn(order, header) == Unknown <==>
      forall j :: 0 <= j < |order| ==> !RowMatches(order[j], header)
    ensures DetectIn(order, header).Known? ==>
      exists i :: 0 <= i < |order| && order[i] == DetectIn(order, header).fileType &&
        RowMatches(order[i], header) &&
        forall j :: 0 <= j < i ==> !RowMatches(order[j], header)
    ensures forall i :: (0 <= i < |order| && RowMatches(order[i], header) &&
                         (forall j :: 0 <= j < i ==> !RowMatches(order[j], header))) ==>
                        DetectIn(order, header) == Known(order[i])
    decreases |order|
  {
    if |order| > 0 {
      DetectInSpec(order[1..], header);
      if !RowMatches(order[0], header) {
        forall i | 0 < i < |order|
          ensures order[1..][i - 1] == order[i]
        {
        }
        if DetectIn(order, header).Known? {
          var i :| 0 <= i < |order[1..]| && order[1..][i] == DetectIn(order, header).fileType &&
            RowMatches(order[1..][i], header) &&
            forall j :: 0 <= j < i ==> !RowMatches(order[1..][j], header);
          assert forall j :: 0 <= j < i + 1 ==> !RowMatches(order[j], header) by {
            forall j | 0 <= j < i + 1 ensures !RowMatches(order[j], header) {
              if j > 0 { assert order[j] == order[1..][j - 1]; }
            }
          }
        }
        forall i | 0 < i < |order| && RowMatches(order[i], header) &&
          (forall j :: 0 <= j < i ==> !RowMatches(order[j], header))
          ensures DetectIn(order, header) == Known(order[i])
        {
          assert forall j :: 0 <= j < i - 1 ==> !RowMatches(order[1..][j], header) by {
            forall j | 0 <= j < i - 1 ensures !RowMatches(order[1..][j], header) {
              assert order[1..][j] == order[j + 1];
            }
          }
        }
      }
    }
  }

  /** Every signature of `t` has a signature of `u` as a prefix. */
  predicate Covers(u: FileType, t: FileType) {
    forall k :: 0 <= k < |Signatures(t)| ==>
      exists m :: 0 <= m < |Signatures(u)| && StartsWith(Signatures(t)[k], Signatures(u)[m])
  }

  /** Searching two lists of rows one after the other: the second is
      searched only when the first has no match. */
  lemma {:induction false} DetectInAppend(a: seq<FileType>, b: seq<FileType>, header: string)
    ensures DetectIn(a + b, header) ==
      if DetectIn(a, header).Known? then DetectIn(a, header) else DetectIn(b, header)
    decreases |a|
  {
    if |a| == 0 {
      assert a + b == b;
    } else {
      assert (a + b)[0] == a[0];
      assert (a + b)[1..] == a[1..] + b;
      DetectInAppend(a[1..], b, header);
    }
  }

  /** Only a type listed among the searched rows can be reported. */
  lemma {:induction false} DetectInMember(order: seq<FileType>, header: string)
    ensures DetectIn(order, header).Known? ==> DetectIn(order, header).fileType in order
    decreases |order|
  {
    if |order| > 0 && !RowMatches(order[0], header) {
      DetectInMember(order[1..], header);
    }
  }

  /** A type none of whose signatures matches the header is never reported. */
  lemma {:induction false} NotMatchedNeverDetected(order: seq<FileType>, t: FileType, header: string)
    requires !RowMatches(t, header)
    ensures DetectIn(order, header) != Known(t)
    decreases |order|
  {
    if |order| > 0 && !RowMatches(order[0], header) {
      NotMatchedNeverDetected(order[1..], t, header);
    }
  }

  /** Rows that do not list `t`, followed by a group headed by a row that
      covers `t`, never report `t`; and when `t` matches, the search stops
      by the end of that group. */
  lemma ShadowedBy(before: seq<FileType>, g: seq<FileType>, t: FileType, header: string)
    requires |g| > 0 && g[0] != t && Covers(g[0], t) && t !in before
    ensures DetectIn(before + g, header) != Known(t)
    ensures RowMatches(t, header) ==> DetectIn(before + g, header).Known?
  {
    DetectInAppend(before, g, header);
    DetectInMember(before, header);
    if RowMatches(t, header) {
      var k :| 0 <= k < |Signatures(t)| && StartsWith(header, Signatures(t)[k]);
      var m :| 0 <= m < |Signatures(g[0])| && StartsWith(Signatures(t)[k], Signatures(g[0])[m]);
      StartsWithTransitive(header, Signatures(t)[k], Signatures(g[0])[m]);
      assert RowMatches(g[0], header);
    } else {
      NotMatchedNeverDetected(before + g, t, header);
    }
  }

  /** Once the first groups have found a match, the later groups do not
      change the result. */
  lemma SettledFrom7(header: string)
    ensures DetectIn(Upto7, header).Known? ==> DetectFileType(header) == DetectIn(Upto7, header)
  {
    DetectInAppend(Upto7, Rows8, header);
  }

  lemma SettledFrom6(header: string)
    ensures DetectIn(Upto6, header).Known? ==> DetectFileType(header) == DetectIn(Upto6, header)
  {
    DetectInAppend(Upto6, Rows7, header);
    SettledFrom7(header);
  }

  lemma SettledFrom5(header: string)
    ensures DetectIn(Upto5, header).Known? ==> DetectFileType(header) == DetectIn(Upto5, header)
  {
    DetectInAppend(Upto5, Rows6, header);
    SettledFrom6(header);
  }

  lemma SettledFrom4(header: string)
    ensures DetectIn(Upto4, header).Known? ==> DetectFileType(header) == DetectIn(Upto4, header)
  {
    DetectInAppend(Upto4, Rows5, header);
    SettledFrom5(header);
  }

  lemma SettledFrom3(header: string)
    ensures DetectIn(Upto3, header).Known? ==> DetectFileType(header) == DetectIn(Upto3, header)
  {
    DetectInAppend(Upto3, Rows4, header);
    SettledFrom4(header);
  }

  lemma SettledFrom2(header: string)
    ensures DetectIn(Upto2, header).Known? ==> DetectFileType(header) == DetectIn(Upto2, header)
  {
    DetectInAppend(Upto2, Rows3, header);
    SettledFrom3(header);
  }

  /** A type covered by the row heading group `g`, and listed in none of
      the groups `before` it, is never reported by the table, provided the
      rest of the table cannot change a result found by the end of `g`. */
  lemma ShadowedInTable(before: seq<FileType>, g: seq<FileType>, t: FileType, header: string)
    requires |g| > 0 && g[0] != t && Covers(g[0], t) && t !in before
    requires DetectIn(before + g, header).Known? ==>
      DetectFileType(header) == DetectIn(before + g, header)
    ensures DetectFileType(header) != Known(t)
  {
    if RowMatches(t, header) {
      ShadowedBy(before, g, t, header);
    } else {
      NotMatchedNeverDetected(HeaderTable, t, header);
    }
  }

  /** Types that the table can never report: the five with no signature,
      and those repeating (or extending) an earlier row's signature: DLL
      after EXE; DOC, XLS and PPT after MSI; DOCX, XLSX, PPTX, JAR and APK
      after ZIP; AI after PDF; PS after EPS; CMD after BAT; WSF after XML. */
  const Unreachable: set<FileType> := {
    TXT, CSV, INI, CFG, LOG, DLL, DOC, XLS, PPT, DOCX, XLSX, PPTX, JAR, APK, AI, PS, CMD, WSF
  }

  lemma UnreachableNeverDetected(header: string)
    ensures forall t :: t in Unreachable ==> DetectFileType(header) != Known(t)
  {
    EmptyRowsNeverDetected(header);
    RepeatedExecutableNeverDetected(header);
    CompoundDocumentsNeverDetected(header);
    ZipContainersNeverDetected(header);
    LaterDuplicatesNeverDetected(header);
  }

  /** A type listed with no signatures is never reported. */
  lemma NoSignaturesNeverDetected(t: FileType, header: string)
    requires |Signatures(t)| == 0
    ensures DetectFileType(header) != Known(t)
  {
    NotMatchedNeverDetected(HeaderTable, t, header);
  }

  lemma EmptyRowsNeverDetected(header: string)
    ensures forall t :: t in {TXT, CSV, INI, CFG, LOG} ==> DetectFileType(header) != Known(t)
  {
    NoSignaturesNeverDetected(TXT, header);
    NoSignaturesNeverDetected(CSV, header);
    NoSignaturesNeverDetected(INI, header);
    NoSignaturesNeverDetected(CFG, header);
    NoSignaturesNeverDetected(LOG, header);
  }

  lemma RepeatedExecutableNeverDetected(header: string)
    ensures DetectFileType(header) != Known(DLL)
  {
    CoversBySingle(EXE, DLL);
    SettledFrom4(header);
    ShadowedInTable(Upto3, Rows4, DLL, header);
  }

  lemma CompoundDocumentsNeverDetected(header: string)
    ensures forall t :: t in {DOC, XLS, PPT} ==> DetectFileType(header) != Known(t)
  {
    forall t | t in {DOC, XLS, PPT}
      ensures DetectFileType(header) != Known(t)
    {
      CompoundDocumentCovered(t);
      SettledFrom5(header);
      ShadowedInTable(Upto4, Rows5, t, header);
    }
  }

  /** DOC, XLS and PPT repeat the MSI (compound file) signature. */
  lemma CompoundDocumentCovered(t: FileType)
    requires t in {DOC, XLS, PPT}
    ensures Covers(MSI, t)
  {
    CoversBySingle(MSI, t);
  }

  /** A type with one signature is covered by a row whose first signature
      is a prefix of it. */
  lemma CoversBySingle(u: FileType, t: FileType)
    requires |Signatures(t)| == 1 && |Signatures(u)| >= 1
    requires StartsWith(Signatures(t)[0], Signatures(u)[0])
    ensures Covers(u, t)
  {
  }

  lemma ZipContainersNeverDetected(header: string)
    ensures forall t :: t in {DOCX, XLSX, PPTX, JAR, APK} ==> DetectFileType(header) != Known(t)
  {
    forall t | t in {DOCX, XLSX, PPTX, JAR, APK}
      ensures DetectFileType(header) != Known(t)
    {
      ZipContainerCovered(t);
      SettledFrom3(header);
      ShadowedInTable(Upto2, Rows3, t, header);
    }
  }

  /** DOCX, XLSX and PPTX extend the ZIP signature `504B0304`; JAR and APK
      repeat it. */
  lemma ZipContainerCovered(t: FileType)
    requires t in {DOCX, XLSX, PPTX, JAR, APK}
    ensures Covers(ZIP, t)
  {
    if t in {DOCX, XLSX, PPTX} {
      OfficeSignatureExtendsZip(t);
    }
    CoversBySingle(ZIP, t);
  }

  lemma OfficeSignatureExtendsZip(t: FileType)
    requires t in {DOCX, XLSX, PPTX}
    ensures |Signatures(t)| == 1 && StartsWith(Signatures(t)[0], Signatures(ZIP)[0])
  {
    assert Signatures(t)[0][..8] == "504B0304";
  }

  lemma LaterDuplicatesNeverDetected(header: string)
    ensures forall t :: t in {AI, PS, CMD, WSF} ==> DetectFileType(header) != Known(t)
  {
    IllustratorNeverDetected(header);
    PostscriptNeverDetected(header);
    CmdNeverDetected(header);
    WsfNeverDetected(header);
  }

  lemma IllustratorNeverDetected(header: string)
    ensures DetectFileType(header) != Known(AI)
  {
    CoversBySingle(PDF, AI);
    SettledFrom2(header);
    ShadowedInTable(Rows1, Rows2, AI, header);
  }

  lemma PostscriptNeverDetected(header: string)
    ensures DetectFileType(header) != Known(PS)
  {
    PostscriptCovered();
    SettledFrom6(header);
    ShadowedInTable(Upto5, Rows6, PS, header);
  }

  lemma CmdNeverDetected(header: string)
    ensures DetectFileType(header) != Known(CMD)
  {
    CmdCovered();
    ShadowedInTable(Upto7, Rows8, CMD, header);
  }

  /** Both CMD signatures are BAT signatures. */
  lemma CmdCovered()
    ensures Covers(BAT, CMD)
  {
    assert StartsWith(Signatures(CMD)[0], Signatures(BAT)[0]);
    assert StartsWith(Signatures(CMD)[1], Signatures(BAT)[1]);
  }

  lemma WsfNeverDetected(header: string)
    ensures DetectFileType(header) != Known(WSF)
  {
    WsfCovered();
    SettledFrom7(header);
    ShadowedInTable(Upto6, Rows7, WSF, header);
  }

  /** PS repeats the EPS signature `25215053`. */
  lemma PostscriptCovered()
    ensures Covers(EPS, PS)
  {
    CoversBySingle(EPS, PS);
  }

  /** WSF repeats the XML declaration signature. */
  lemma WsfCovered()
    ensures Covers(XML, WSF)
  {
    CoversBySingle(XML, WSF);
  }

  /** A string that differs from `s` at a position both have does not
      start with `s`. */
  lemma DiffersAt(h: string, s: string, i: nat)
    requires i < |s| && i < |h| && h[i] != s[i]
    ensures !StartsWith(h, s)
  {
    assert |s| > |h| || h[..|s|][i] != s[i];
  }

  /** No row of `g` matches a header whose first three characters differ
      from those of each of the rows' signatures. */
  lemma GroupSilent(g: seq<FileType>, header: string, lead: string)
    requires |lead| == 3 && StartsWith(header, lead)
    requires forall t :: t in g ==> forall k :: 0 <= k < |Signatures(t)| ==>
      && |Signatures(t)[k]| >= 3
      && (Signatures(t)[k][0] != lead[0] || Signatures(t)[k][1] != lead[1] ||
          Signatures(t)[k][2] != lead[2])
    ensures DetectIn(g, header) == Unknown
  {
    assert header[..3] == lead;
    assert header[0] == lead[0] && header[1] == lead[1] && header[2] == lead[2];
    forall j | 0 <= j < |g|
      ensures !RowMatches(g[j], header)
    {
      var t := g[j];
      forall k | 0 <= k < |Signatures(t)|
        ensures !StartsWith(header, Signatures(t)[k])
      {
        var s := Signatures(t)[k];
        if s[0] != lead[0] {
          DiffersAt(header, s, 0);
        } else if s[1] != lead[1] {
          DiffersAt(header, s, 1);
        } else {
          DiffersAt(header, s, 2);
        }
      }
    }
    DetectInSpec(g, header);
  }

  /** The images group has no signature starting `255`, `504` or `4D5`. */
  lemma FirstGroupSilent(header: string, lead: string)
    requires lead == "255" || lead == "504" || lead == "4D5"
    requires StartsWith(header, lead)
    ensures DetectIn(Rows1, header) == Unknown
  {
    GroupSilent(Rows1, header, lead);
  }

  /** A header carrying the PDF magic number is detected as PDF. */
  lemma PdfHeaderDetected(header: string)
    requires StartsWith(header, "25504446")
    ensures DetectFileType(header) == Known(PDF)
  {
    StartsWithTransitive(header, "25504446", "255");
    FirstGroupSilent(header, "255");
    assert RowMatches(PDF, header) by {
      assert StartsWith(header, Signatures(PDF)[0]);
    }
    DetectInAppend(Rows1, Rows2, header);
    SettledFrom2(header);
  }

  /** A header carrying the ZIP local-file magic number is detected as ZIP,
      whatever the archive holds: the later DOCX, XLSX, PPTX, JAR and APK
      rows never get a chance. */
  lemma ZipHeaderDetected(header: string)
    requires StartsWith(header, "504B0304")
    ensures DetectFileType(header) == Known(ZIP)
  {
    StartsWithTransitive(header, "504B0304", "504");
    FirstGroupSilent(header, "504");
    GroupSilent(Rows2, header, "504");
    DetectInAppend(Rows1, Rows2, header);
    assert RowMatches(ZIP, header) by {
      assert StartsWith(header, Signatures(ZIP)[0]);
    }
    DetectInAppend(Upto2, Rows3, header);
    SettledFrom3(header);
  }

  /** A header carrying the `MZ` executable magic number is detected as EXE. */
  lemma ExecutableHeaderDetected(header: string)
    requires StartsWith(header, "4D5A")
    ensures DetectFileType(header) == Known(EXE)
  {
    StartsWithTransitive(header, "4D5A", "4D5");
    ExecutableSkipsFirstGroups(header);
    assert RowMatches(EXE, header) by {
      assert StartsWith(header, Signatures(EXE)[0]);
    }
    DetectInAppend(Upto3, Rows4, header);
    SettledFrom4(header);
  }

  /** No row of the first three groups has a signature starting `4D5`. */
  lemma ExecutableSkipsFirstGroups(header: string)
    requires StartsWith(header, "4D5")
    ensures DetectIn(Upto3, header) == Unknown
  {
    FirstGroupSilent(header, "4D5");
    GroupSilent(Rows2, header, "4D5");
    DetectInAppend(Rows1, Rows2, header);
    ArchivesSilent(header);
    DetectInAppend(Upto2, Rows3, header);
  }

  /** No archive row has a signature starting `4D5`. */
  lemma ArchivesSilent(header: string)
    requires StartsWith(header, "4D5")
    ensures DetectIn(Rows3, header) == Unknown
  {
    GroupSilent(Rows3, header, "4D5");
  }
}
