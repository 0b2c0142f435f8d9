/**
 * Concrete lines and documents traced through the model: the reading of each
 * line of a small document, the document's parse, the same document with a
 * wrong object count, a `.KEY` written with a leading zero, and title lines
 * with no text.
 */
module TxfScenarios {
  import opened TxfBase
  import opened TxfText
  import opened TxfLexer
  import opened TxfLines
  import opened TxfRecords
  import opened TxfObjects
  import opened TxfBlocks
  import opened TxfDocument

  /** The record of a line no rule matches. */
  const Nothing: Record := Record(None, None, None, false, None, None, None, None, None, None, None, None)

  /** A record is the reading of a line when every line rule agrees with its field. */
  lemma RecognizeIs(s: string, r: Record)
    requires HeaderLine(s) == r.header && PassportLine(s) == r.passport && DatLine(s) == r.dat
    requires EndLine(s) == r.endMark && ObjHeader(s) == r.obj && TitHeader(s) == r.tit
    requires FieldEntry(s) == r.entry && CountLine(s) == r.count && CoordLine(s) == r.coord
    requires SemHeader(s) == r.sem && SemLine(s) == r.semLine && TitleLine(s) == r.title
    ensures Recognize(s) == r
  {
  }

  /** A keyword does not match at the start of a line that differs from it at some place. */
  lemma KeywordMismatch(s: string, kw: string, m: nat)
    requires 0 < |s| && !IsBlank(s[0]) && m < |s| && m < |kw| && s[m] != kw[m]
    ensures Keyword(s, 0, kw).None?
  {
    assert SkipBlanks(s, 0) == 0;
    if |kw| <= |s| {
      assert s[0..|kw|][m] == s[m];
    }
  }

  /** A line that starts with a digit matches no keyword, tag or title rule. */
  lemma DigitLed(s: string)
    requires 0 < |s| && IsDigit(s[0])
    ensures HeaderLine(s).None? && PassportLine(s).None? && DatLine(s).None? && !EndLine(s)
    ensures ObjHeader(s).None? && TitHeader(s).None? && FieldEntry(s).None?
    ensures SemHeader(s).None? && TitleLine(s).None?
  {
    assert SkipBlanks(s, 0) == 0;
    KeywordMismatch(s, ".SXF", 0);
    KeywordMismatch(s, ".SIT", 0);
    KeywordMismatch(s, ".DAT", 0);
    KeywordMismatch(s, ".END", 0);
    KeywordMismatch(s, ".OBJ", 0);
    KeywordMismatch(s, ".KEY", 0);
    KeywordMismatch(s, ".SEM", 0);
  }

  /** A line that starts with `.` and a letter has no tag, number or title. */
  lemma Dotted(s: string)
    requires |s| > 1 && s[0] == '.' && IsAlpha(s[1])
    ensures PassportLine(s).None? && CountLine(s).None? && CoordLine(s).None?
    ensures SemLine(s).None? && TitleLine(s).None?
  {
    assert SkipBlanks(s, 0) == 0;
    assert RunEnd(s, 1, DotNumber) == 1;
    assert SkipBlanks(s, 1) == 1;
  }

  /**
   * A dotted keyword followed by one blank and a value is also read as a
   * field line: the keyword is the name, the rest of the line the value.
   */
  lemma DottedField(s: string, e: nat)
    requires 1 < e < |s| && s[0] == '.' && IsBlank(s[e]) && e + 1 < |s| && !IsBlank(s[e + 1])
    requires forall k :: 1 <= k < e ==> IsAlpha(s[k])
    ensures FieldLine(s) == Some((s[..e], s[e + 1..]))
  {
    assert SkipBlanks(s, 0) == 0;
    RunTo(s, 1, e, Letters);
    assert SkipBlanks(s, e) == e + 1 by { assert SkipBlanks(s, e + 1) == e + 1; }
  }

  // ---- The lines of the sample document, one by one.

  lemma HeaderOfSample()
    ensures HeaderLine(".SXF 1.0") == Some((".SXF", "1.0"))
  {
    var s := ".SXF 1.0";
    assert SkipBlanks(s, 0) == 0;
    assert s[0..4] == ".SXF";
    assert Keyword(s, 0, ".SXF") == Some(4);
    assert SkipBlanks(s, 4) == 5 by { assert SkipBlanks(s, 5) == 5; }
    assert RunEnd(s, 6, DotNumber) == 8 by {
      assert RunEnd(s, 8, DotNumber) == 8;
      assert RunEnd(s, 7, DotNumber) == 8;
    }
    assert s[5..8] == "1.0";
  }

  lemma HeaderOthers()
    ensures DatLine(".SXF 1.0").None? && !EndLine(".SXF 1.0") && ObjHeader(".SXF 1.0").None?
    ensures TitHeader(".SXF 1.0").None? && KeyLine(".SXF 1.0").None? && SemHeader(".SXF 1.0").None?
  {
    var s := ".SXF 1.0";
    KeywordMismatch(s, ".DAT", 1);
    KeywordMismatch(s, ".END", 1);
    KeywordMismatch(s, ".OBJ", 1);
    KeywordMismatch(s, ".KEY", 1);
    KeywordMismatch(s, ".SEM", 2);
  }

  const HeaderRecord: Record := Record(Some((".SXF", "1.0")), None, None, false, None, None, Some((".SXF", "1.0")), None, None, None, None, None)

  lemma HeaderEntry()
    ensures FieldEntry(".SXF 1.0") == Some((".SXF", "1.0"))
  {
    var s := ".SXF 1.0";
    KeywordMismatch(s, ".KEY", 1);
    DottedField(s, 4);
    assert s[..4] == ".SXF" && s[5..] == "1.0";
  }

  lemma HeaderRecordOf()
    ensures Recognize(".SXF 1.0") == HeaderRecord
  {
    var s := ".SXF 1.0";
    HeaderOfSample();
    HeaderOthers();
    Dotted(s);
    HeaderEntry();
    RecognizeIs(s, HeaderRecord);
  }

  /** `.DAT` with a one-digit count `d`. */
  function DatText(d: char): string
  {
    ['.', 'D', 'A', 'T', ' ', d]
  }

  lemma DatOfSample(d: char)
    requires IsDigit(d)
    ensures DatLine(DatText(d)) == Some([d])
  {
    var s := DatText(d);
    assert SkipBlanks(s, 0) == 0;
    assert s[0..4] == ".DAT";
    assert Keyword(s, 0, ".DAT") == Some(4);
    assert SkipBlanks(s, 4) == 5 by { assert SkipBlanks(s, 5) == 5; }
    assert RunEnd(s, 6, Digits) == 6;
    assert s[5..6] == [d];
  }

  lemma DatOthers(d: char)
    ensures HeaderLine(DatText(d)).None? && !EndLine(DatText(d)) && ObjHeader(DatText(d)).None?
    ensures TitHeader(DatText(d)).None? && KeyLine(DatText(d)).None? && SemHeader(DatText(d)).None?
  {
    var s := DatText(d);
    KeywordMismatch(s, ".SXF", 1);
    KeywordMismatch(s, ".SIT", 1);
    KeywordMismatch(s, ".END", 1);
    KeywordMismatch(s, ".OBJ", 1);
    KeywordMismatch(s, ".KEY", 1);
    KeywordMismatch(s, ".SEM", 1);
  }

  function DatRecord(d: char): Record
    requires IsDigit(d)
  {
    Record(None, None, Some([d]), false, None, None, Some((".DAT", [d])), None, None, None, None, None)
  }

  lemma DatEntry(d: char)
    requires IsDigit(d)
    ensures FieldEntry(DatText(d)) == Some((".DAT", [d]))
  {
    var s := DatText(d);
    KeywordMismatch(s, ".KEY", 1);
    DottedField(s, 4);
    assert s[..4] == ".DAT" && s[5..] == [d];
  }

  lemma DatRecordOf(d: char)
    requires IsDigit(d)
    ensures Recognize(DatText(d)) == DatRecord(d)
  {
    var s := DatText(d);
    DatOfSample(d);
    DatOthers(d);
    Dotted(s);
    DatEntry(d);
    RecognizeIs(s, DatRecord(d));
  }

  /** `.OBJ` with a one-digit classification code `c` and a one-letter localization `l`. */
  function ObjLineOf(c: char, l: char): string
  {
    ['.', 'O', 'B', 'J', ' ', c, ' ', l]
  }

  lemma ObjOfSample(c: char, l: char)
    requires IsDigit(c) && IsAlpha(l)
    ensures TitHeader(ObjLineOf(c, l)).None?
    ensures ObjHeader(ObjLineOf(c, l)) == Some(([c], [l]))
  {
    var s := ObjLineOf(c, l);
    assert SkipBlanks(s, 0) == 0;
    assert s[0..4] == ".OBJ";
    assert Keyword(s, 0, ".OBJ") == Some(4);
    assert SkipBlanks(s, 4) == 5 by { assert SkipBlanks(s, 5) == 5; }
    assert RunEnd(s, 6, Digits) == 6;
    assert s[5..6] == [c];
    assert SkipBlanks(s, 6) == 7 by { assert SkipBlanks(s, 7) == 7; }
    assert RunEnd(s, 8, Letters) == 8;
    assert s[7..8] == [l];
  }

  lemma ObjOthers(c: char, l: char)
    ensures HeaderLine(ObjLineOf(c, l)).None? && DatLine(ObjLineOf(c, l)).None? && !EndLine(ObjLineOf(c, l))
    ensures KeyLine(ObjLineOf(c, l)).None? && SemHeader(ObjLineOf(c, l)).None?
  {
    var s := ObjLineOf(c, l);
    KeywordMismatch(s, ".SXF", 1);
    KeywordMismatch(s, ".SIT", 1);
    KeywordMismatch(s, ".DAT", 1);
    KeywordMismatch(s, ".END", 1);
    KeywordMismatch(s, ".KEY", 1);
    KeywordMismatch(s, ".SEM", 1);
  }

  /** An object header also reads as a field line named `.OBJ`. */
  function ObjRecord(c: char, l: char): Record
    requires IsDigit(c)
  {
    Record(None, None, None, false, Some(([c], [l])), None, Some((".OBJ", [c, ' ', l])), None, None, None, None, None)
  }

  lemma ObjEntry(c: char, l: char)
    requires IsDigit(c)
    ensures FieldEntry(ObjLineOf(c, l)) == Some((".OBJ", [c, ' ', l]))
  {
    var s := ObjLineOf(c, l);
    KeywordMismatch(s, ".KEY", 1);
    DottedField(s, 4);
    assert s[..4] == ".OBJ" && s[5..] == [c, ' ', l];
  }

  lemma ObjRecordOf(c: char, l: char)
    requires IsDigit(c) && IsAlpha(l)
    ensures Recognize(ObjLineOf(c, l)) == ObjRecord(c, l)
  {
    var s := ObjLineOf(c, l);
    ObjOfSample(c, l);
    ObjOthers(c, l);
    Dotted(s);
    ObjEntry(c, l);
    RecognizeIs(s, ObjRecord(c, l));
  }

  lemma KeyOfSample()
    ensures KeyLine(".KEY 5") == Some("5")
  {
    var s := ".KEY 5";
    assert SkipBlanks(s, 0) == 0;
    assert s[0..4] == ".KEY";
    assert Keyword(s, 0, ".KEY") == Some(4);
    assert SkipBlanks(s, 4) == 5 by { assert SkipBlanks(s, 5) == 5; }
    assert RunEnd(s, 6, Digits) == 6;
    assert s[5..6] == "5";
  }

  lemma KeyOthers()
    ensures HeaderLine(".KEY 5").None? && DatLine(".KEY 5").None? && !EndLine(".KEY 5")
    ensures ObjHeader(".KEY 5").None? && TitHeader(".KEY 5").None? && SemHeader(".KEY 5").None?
  {
    var s := ".KEY 5";
    KeywordMismatch(s, ".SXF", 1);
    KeywordMismatch(s, ".SIT", 1);
    KeywordMismatch(s, ".DAT", 1);
    KeywordMismatch(s, ".END", 1);
    KeywordMismatch(s, ".OBJ", 1);
    KeywordMismatch(s, ".SEM", 1);
  }

  const KeyRecord: Record := Record(None, None, None, false, None, None, Some((".KEY", "5")), None, None, None, None, None)

  lemma KeyRecordOf()
    ensures Recognize(".KEY 5") == KeyRecord
  {
    var s := ".KEY 5";
    KeyOfSample();
    KeyOthers();
    Dotted(s);
    RecognizeIs(s, KeyRecord);
  }

  /** A line that starts with one digit reads as a count line of that digit. */
  lemma OneDigitCount(s: string)
    requires 0 < |s| && IsDigit(s[0]) && (|s| == 1 || !IsDigit(s[1]))
    ensures CountLine(s) == Some(s[..1])
    ensures |s| == 1 || !IsBlank(s[1]) ==> SemLine(s).None?
  {
    assert SkipBlanks(s, 0) == 0;
    assert RunEnd(s, 1, Digits) == 1;
  }

  /** A count line of one digit `d`. */
  function CountRecord(d: char): Record
    requires IsDigit(d)
  {
    Record(None, None, None, false, None, None, None, Some([d]), None, None, None, None)
  }

  lemma CountRecordOf(d: char)
    requires IsDigit(d)
    ensures Recognize([d]) == CountRecord(d)
  {
    var s := [d];
    DigitLed(s);
    OneDigitCount(s);
    assert s[..1] == [d];
    assert CoordLine(s).None? by {
      assert SkipBlanks(s, 0) == 0 && SkipBlanks(s, 1) == 1;
      assert RunEnd(s, 1, DotNumber) == 1;
    }
    RecognizeIs(s, CountRecord(d));
  }

  /** A coordinate line `x.0 y.0` with one-digit `x` and `y`. */
  function CoordLineOf(x: char, y: char): string
  {
    [x, '.', '0', ' ', y, '.', '0']
  }

  lemma CoordOfSample(x: char, y: char)
    requires IsDigit(x) && IsDigit(y)
    ensures CoordLine(CoordLineOf(x, y)) == Some(([x, '.', '0'], [y, '.', '0']))
  {
    var s := CoordLineOf(x, y);
    assert SkipBlanks(s, 0) == 0;
    assert RunEnd(s, 1, DotNumber) == 3 by {
      assert RunEnd(s, 3, DotNumber) == 3;
      assert RunEnd(s, 2, DotNumber) == 3;
    }
    assert SkipBlanks(s, 3) == 4 by { assert SkipBlanks(s, 4) == 4; }
    assert RunEnd(s, 5, DotNumber) == 7 by {
      assert RunEnd(s, 7, DotNumber) == 7;
      assert RunEnd(s, 6, DotNumber) == 7;
    }
    assert s[0..3] == [x, '.', '0'] && s[4..7] == [y, '.', '0'];
  }

  /** A coordinate line also reads as a count line: its leading digits. */
  function CoordRecord(x: char, y: char): Record
    requires IsDigit(x)
  {
    Record(None, None, None, false, None, None, None, Some([x]), Some(([x, '.', '0'], [y, '.', '0'])), None, None, None)
  }

  lemma CoordRecordOf(x: char, y: char)
    requires IsDigit(x) && IsDigit(y)
    ensures Recognize(CoordLineOf(x, y)) == CoordRecord(x, y)
  {
    var s := CoordLineOf(x, y);
    DigitLed(s);
    CoordOfSample(x, y);
    OneDigitCount(s);
    assert s[..1] == [x];
    RecognizeIs(s, CoordRecord(x, y));
  }

  lemma SemOfSample()
    ensures SemHeader(".SEM 1") == Some("1")
  {
    var s := ".SEM 1";
    assert SkipBlanks(s, 0) == 0;
    assert s[0..4] == ".SEM";
    assert Keyword(s, 0, ".SEM") == Some(4);
    assert SkipBlanks(s, 4) == 5 by { assert SkipBlanks(s, 5) == 5; }
    assert RunEnd(s, 6, Digits) == 6;
    assert s[5..6] == "1";
  }

  lemma SemOthers()
    ensures HeaderLine(".SEM 1").None? && DatLine(".SEM 1").None? && !EndLine(".SEM 1")
    ensures ObjHeader(".SEM 1").None? && TitHeader(".SEM 1").None? && KeyLine(".SEM 1").None?
  {
    var s := ".SEM 1";
    KeywordMismatch(s, ".SXF", 2);
    KeywordMismatch(s, ".SIT", 2);
    KeywordMismatch(s, ".DAT", 1);
    KeywordMismatch(s, ".END", 1);
    KeywordMismatch(s, ".OBJ", 1);
    KeywordMismatch(s, ".KEY", 1);
  }

  const SemRecord: Record := Record(None, None, None, false, None, None, Some((".SEM", "1")), None, None, Some("1"), None, None)

  lemma SemEntry()
    ensures FieldEntry(".SEM 1") == Some((".SEM", "1"))
  {
    var s := ".SEM 1";
    KeywordMismatch(s, ".KEY", 1);
    DottedField(s, 4);
    assert s[..4] == ".SEM" && s[5..] == "1";
  }

  lemma SemRecordOf()
    ensures Recognize(".SEM 1") == SemRecord
  {
    var s := ".SEM 1";
    SemOfSample();
    SemOthers();
    Dotted(s);
    SemEntry();
    RecognizeIs(s, SemRecord);
  }

  /** A semantic line also reads as a count line: its code. */
  const SemLineRecord: Record := Record(None, None, None, false, None, None, None, Some("1"), None, None, Some(("1", "hello")), None)

  lemma SemLineOfSample()
    ensures SemLine("1 hello") == Some(("1", "hello"))
    ensures CoordLine("1 hello").None?
  {
    var s := "1 hello";
    assert SkipBlanks(s, 0) == 0;
    assert RunEnd(s, 1, Digits) == 1 && RunEnd(s, 1, DotNumber) == 1;
    assert s[0..1] == "1";
    assert SkipBlanks(s, 1) == 2 by { assert SkipBlanks(s, 2) == 2; }
    assert s[2..] == "hello";
  }

  lemma SemLineRecordOf()
    ensures Recognize("1 hello") == SemLineRecord
  {
    var s := "1 hello";
    DigitLed(s);
    OneDigitCount(s);
    SemLineOfSample();
    assert s[..1] == "1";
    RecognizeIs(s, SemLineRecord);
  }

  const EndRecord: Record := Record(None, None, None, true, None, None, None, None, None, None, None, None)

  lemma EndRecordOf()
    ensures Recognize(".END") == EndRecord
  {
    var s := ".END";
    assert SkipBlanks(s, 0) == 0;
    assert s[0..4] == ".END";
    KeywordMismatch(s, ".SXF", 1);
    KeywordMismatch(s, ".SIT", 1);
    KeywordMismatch(s, ".DAT", 1);
    KeywordMismatch(s, ".OBJ", 1);
    KeywordMismatch(s, ".KEY", 1);
    KeywordMismatch(s, ".SEM", 1);
    Dotted(s);
    assert RunEnd(s, 1, Letters) == 4 by {
      assert RunEnd(s, 3, Letters) == 4;
      assert RunEnd(s, 2, Letters) == 4;
    }
    RecognizeIs(s, EndRecord);
  }

  /** A title object header: `.OBJ`, a one-digit classification code `c`, and `TIT`. */
  function TitLineOf(c: char): string
  {
    ['.', 'O', 'B', 'J', ' ', c, ' ', 'T', 'I', 'T']
  }

  lemma TitOfSample(c: char)
    requires IsDigit(c)
    ensures TitHeader(TitLineOf(c)) == Some([c])
  {
    var s := TitLineOf(c);
    assert SkipBlanks(s, 0) == 0;
    assert s[0..4] == ".OBJ";
    assert Keyword(s, 0, ".OBJ") == Some(4);
    assert SkipBlanks(s, 4) == 5 by { assert SkipBlanks(s, 5) == 5; }
    assert RunEnd(s, 6, Digits) == 6;
    assert s[5..6] == [c];
    assert SkipBlanks(s, 6) == 7 by { assert SkipBlanks(s, 7) == 7; }
    assert s[7..10] == "TIT";
  }

  lemma TitOthers(c: char)
    ensures HeaderLine(TitLineOf(c)).None? && DatLine(TitLineOf(c)).None? && !EndLine(TitLineOf(c))
    ensures KeyLine(TitLineOf(c)).None? && SemHeader(TitLineOf(c)).None?
  {
    var s := TitLineOf(c);
    KeywordMismatch(s, ".SXF", 1);
    KeywordMismatch(s, ".SIT", 1);
    KeywordMismatch(s, ".DAT", 1);
    KeywordMismatch(s, ".END", 1);
    KeywordMismatch(s, ".KEY", 1);
    KeywordMismatch(s, ".SEM", 1);
  }

  /** A title header also reads as an ordinary header with the word `TIT`, and as a field line. */
  function TitRecord(c: char): Record
    requires IsDigit(c)
  {
    Record(None, None, None, false, Some(([c], "TIT")), Some([c]), Some((".OBJ", [c, ' ', 'T', 'I', 'T'])), None, None, None, None, None)
  }

  lemma TitEntry(c: char)
    requires IsDigit(c)
    ensures FieldEntry(TitLineOf(c)) == Some((".OBJ", [c, ' ', 'T', 'I', 'T']))
  {
    var s := TitLineOf(c);
    KeywordMismatch(s, ".KEY", 1);
    DottedField(s, 4);
    assert s[..4] == ".OBJ" && s[5..] == [c, ' ', 'T', 'I', 'T'];
  }

  lemma TitObjOf(c: char)
    requires IsDigit(c)
    ensures ObjHeader(TitLineOf(c)) == Some(([c], "TIT"))
  {
    TitOfSample(c);
    TitHeaderIsObjHeader(TitLineOf(c));
  }

  lemma TitRecordOf(c: char)
    requires IsDigit(c)
    ensures Recognize(TitLineOf(c)) == TitRecord(c)
  {
    var s := TitLineOf(c);
    TitOfSample(c);
    TitObjOf(c);
    TitOthers(c);
    Dotted(s);
    TitEntry(c);
    RecognizeIs(s, TitRecord(c));
  }

  /** A `>` line: whatever follows the marker is the raw title text. */
  function TitleRecord(text: string): Record
  {
    Record(None, None, None, false, None, None, None, None, None, None, None, Some(text))
  }

  lemma TitleRecordOf(text: string)
    ensures Recognize(['>'] + text) == TitleRecord(text)
  {
    var s := ['>'] + text;
    assert SkipBlanks(s, 0) == 0;
    KeywordMismatch(s, ".SXF", 0);
    KeywordMismatch(s, ".SIT", 0);
    KeywordMismatch(s, ".DAT", 0);
    KeywordMismatch(s, ".END", 0);
    KeywordMismatch(s, ".OBJ", 0);
    KeywordMismatch(s, ".KEY", 0);
    KeywordMismatch(s, ".SEM", 0);
    assert s[1..] == text;
    RecognizeIs(s, TitleRecord(text));
  }

  // ---- Pieces both sample documents share.

  /** One pair whose value has no trailing space is its own dictionary. */
  lemma DictOfOne(k: string, v: string)
    requires v == [] || !IsSpace(v[|v| - 1])
    ensures DictOf([(k, v)]) == map[k := v]
  {
    assert [(k, v)][..0] == [];
  }

  lemma OneDigitValue(c: char)
    requires IsDigit(c)
    ensures DigitsToNat([c]) == c as int - '0' as int
  {
    assert [c][..0] == [];
  }

  lemma SampleKey()
    ensures ParseInt("5") == Some(5)
  {
    ParseIntOfDigits("5");
    OneDigitValue('5');
  }

  /** The field block `.KEY 5`: the fields dictionary and the key `int` reads from it. */
  lemma SampleFields()
    ensures ObjStart([(KeyField, "5")]) == Ok((map[KeyField := "5"], 5))
  {
    DictOfOne(KeyField, "5");
    SampleKey();
  }

  lemma TextFieldsOne(k: string, v: string)
    ensures TextFields(map[k := v]) == map[k := Text(v)]
  {
  }

  /** A header `.SXF 1.0` followed straight by `.DAT d`: the objects start on the third line. */
  lemma AfterDat(recs: seq<Record>, magic: Magic, version: string, count: DigitString)
    requires |recs| >= 3 && recs[0].header == Some((magic, version))
    requires recs[1].passport.None? && recs[1].dat == Some(count)
    ensures ParseRecords(recs) == Assemble(recs, ObjectRun(recs, 2), magic, version, map[], DigitsToNat(count))
  {
    EmptyPassport(recs);
    var pp := Repeat(recs, 1, PassportKind);
    assert pp.end == 1 && DictOf(pp.items) == map[];
    var run := ObjectRun(recs, 2);
    assert ParseRecords(recs) == Assemble(recs, run, magic, version, DictOf(pp.items), DigitsToNat(count));
  }

  /** One object closed by `.END`, against a declared count. */
  lemma AssembleOne(recs: seq<Record>, magic: string, version: string, obj: TxfObject, j: nat, declared: nat)
    requires 2 <= j < |recs| && recs[j].endMark && ObjectRun(recs, 2) == Many([obj], j)
    ensures Assemble(recs, ObjectRun(recs, 2), magic, version, map[], declared)
      == if declared == 1 then Ok(TxfFile(magic, version, map[], [obj]))
         else Err(Failed(CountMismatch(Objects, declared, 1)))
  {
  }

  // ---- The sample document with an ordinary object.

  /**
   * The sample document, line by line: a header, no passport, the declared
   * number `d` of objects, and one ordinary object with two coordinate pairs
   * and one semantic code.
   */
  predicate IsSample(input: seq<string>, d: char, c: char)
  {
    && |input| == 10 && IsDigit(d) && IsDigit(c)
    && input[0] == ".SXF 1.0" && input[1] == DatText(d) && input[2] == ObjLineOf('1', 'A')
    && input[3] == ".KEY 5" && input[4] == [c] && input[5] == CoordLineOf('1', '2')
    && input[6] == CoordLineOf('3', '4') && input[7] == ".SEM 1" && input[8] == "1 hello" && input[9] == ".END"
  }

  /** The records of the sample's lines. */
  predicate IsSampleRecords(recs: seq<Record>, d: char, c: char)
  {
    && |recs| == 10 && IsDigit(d) && IsDigit(c)
    && recs[0] == HeaderRecord && recs[1] == DatRecord(d) && recs[2] == ObjRecord('1', 'A')
    && recs[3] == KeyRecord && recs[4] == CountRecord(c) && recs[5] == CoordRecord('1', '2')
    && recs[6] == CoordRecord('3', '4') && recs[7] == SemRecord && recs[8] == SemLineRecord && recs[9] == EndRecord
  }

  /** The object of the sample: the number after `.OBJ` is the classification code, the word its localization. */
  const SampleObject: TxfObject :=
    TxfObject("1", "A", Number(5), map[KeyField := Text("5")], [("1.0", "2.0"), ("3.0", "4.0")], "", map["1" := "hello"])

  lemma SampleIsNonBlank(input: seq<string>, d: char, c: char)
    requires IsSample(input, d, c)
    ensures NonBlank(input) == input
  {
    forall k | 0 <= k < |input| ensures !BlankLine(input[k]) {
      assert !IsBlank(input[k][0]);
    }
  }

  lemma SampleNoTabs(input: seq<string>, d: char, c: char)
    requires IsSample(input, d, c)
    ensures ExpandLines(input) == input
  {
    SharedLinesNoTab(d, c);
    SampleLinesNoTab();
    forall k | 0 <= k < |input| ensures NoTab(input[k]) {
      if k == 0 {} else if k == 1 {} else if k == 2 {} else if k == 3 {} else if k == 4 {}
      else if k == 5 {} else if k == 6 {} else if k == 7 {} else if k == 8 {} else {}
    }
  }

  /** The lines both sample documents have hold no tab. */
  lemma SharedLinesNoTab(d: char, c: char)
    requires IsDigit(d) && IsDigit(c)
    ensures NoTab(".SXF 1.0") && NoTab(DatText(d)) && NoTab(".KEY 5") && NoTab([c]) && NoTab(".END")
    ensures NoTab(CoordLineOf('1', '2')) && NoTab(CoordLineOf('3', '4'))
  {
  }

  lemma SampleLinesNoTab()
    ensures NoTab(ObjLineOf('1', 'A')) && NoTab(".SEM 1") && NoTab("1 hello") && NoTab(TitLineOf('1'))
  {
  }

  lemma SampleRecordsOf(input: seq<string>, d: char, c: char)
    requires IsSample(input, d, c)
    ensures IsSampleRecords(Records(input), d, c)
  {
    var recs := Records(input);
    assert recs[0] == HeaderRecord by { HeaderRecordOf(); }
    assert recs[1] == DatRecord(d) by { DatRecordOf(d); }
    assert recs[2] == ObjRecord('1', 'A') by { ObjRecordOf('1', 'A'); }
    assert recs[3] == KeyRecord by { KeyRecordOf(); }
    assert recs[4] == CountRecord(c) by { CountRecordOf(c); }
    assert recs[5] == CoordRecord('1', '2') by { CoordRecordOf('1', '2'); }
    assert recs[6] == CoordRecord('3', '4') by { CoordRecordOf('3', '4'); }
    assert recs[7] == SemRecord by { SemRecordOf(); }
    assert recs[8] == SemLineRecord by { SemLineRecordOf(); }
    assert recs[9] == EndRecord by { EndRecordOf(); }
  }

  lemma SampleFieldLines(recs: seq<Record>, d: char, c: char)
    requires IsSampleRecords(recs, d, c)
    ensures Repeat(recs, 3, FieldKind) == Lines([(KeyField, "5")], 4)
  {
    assert Repeat(recs, 4, FieldKind) == Lines([], 4);
  }

  lemma SampleCoords(recs: seq<Record>, d: char)
    requires IsSampleRecords(recs, d, '2')
    ensures ParseCoords(recs, 4) == Match([("1.0", "2.0"), ("3.0", "4.0")], 7)
  {
    assert Repeat(recs, 7, CoordKind) == Lines([], 7);
    assert Repeat(recs, 6, CoordKind) == Lines([("3.0", "4.0")], 7);
    assert Repeat(recs, 5, CoordKind) == Lines([("1.0", "2.0"), ("3.0", "4.0")], 7);
    OneDigitValue('2');
  }

  lemma SampleSems(recs: seq<Record>, d: char)
    requires IsSampleRecords(recs, d, '2')
    ensures ParseSems(recs, 7) == Match(map["1" := "hello"], 9)
  {
    assert Repeat(recs, 9, SemKind) == Lines([], 9);
    assert Repeat(recs, 8, SemKind) == Lines([("1", "hello")], 9);
    DictOfOne("1", "hello");
    OneDigitValue('1');
  }

  lemma SampleNew()
    ensures NewTxfObject("1", "A", Some(Number(5)), map[KeyField := Text("5")], [("1.0", "2.0"), ("3.0", "4.0")], "", map["1" := "hello"]) == Ok(SampleObject)
  {
    var flds := map[KeyField := Text("5")];
    assert ResolveKey(Some(Number(5)), flds) == Ok((Number(5), flds));
  }

  lemma SampleBuild()
    ensures BuildObject("1", "A", [(KeyField, "5")], [("1.0", "2.0"), ("3.0", "4.0")], "", map["1" := "hello"], 9) == Match(SampleObject, 9)
  {
    SampleFields();
    TextFieldsOne(KeyField, "5");
    SampleNew();
  }

  lemma SampleOrdObj(recs: seq<Record>, d: char)
    requires IsSampleRecords(recs, d, '2')
    ensures ParseOrdObj(recs, 2) == Match(SampleObject, 9)
  {
    SampleFieldLines(recs, d, '2');
    SampleCoords(recs, d);
    SampleSems(recs, d);
    SampleBuild();
  }

  lemma SampleObjectAt(recs: seq<Record>, d: char)
    requires IsSampleRecords(recs, d, '2')
    ensures ParseObjAt(recs, 2) == Match(SampleObject, 9)
  {
    assert ParseTitObj(recs, 2) == NoMatch;
    SampleOrdObj(recs, d);
  }

  lemma SampleRunEnd(recs: seq<Record>, d: char)
    requires IsSampleRecords(recs, d, '2')
    ensures ObjectRun(recs, 9) == Many([], 9)
  {
    assert recs[9].obj.None? && recs[9].tit.None?;
  }

  lemma SampleObjects(recs: seq<Record>, d: char)
    requires IsSampleRecords(recs, d, '2')
    ensures ObjectRun(recs, 2) == Many([SampleObject], 9)
  {
    SampleRunHead(recs, d);
    SampleRunEnd(recs, d);
    assert [SampleObject] + [] == [SampleObject];
  }

  lemma SampleRunHead(recs: seq<Record>, d: char)
    requires IsSampleRecords(recs, d, '2')
    ensures ObjectRun(recs, 2) == Cons(SampleObject, ObjectRun(recs, 9))
  {
    SampleObjectAt(recs, d);
    RunAfter(recs, 2, SampleObject, 9);
  }

  /** A header, `.DAT` with `count`, and a run of one object closed by `.END`. */
  lemma OneObjectParse(recs: seq<Record>, count: DigitString, obj: TxfObject, j: nat)
    requires 3 <= j < |recs| && recs[0].header == Some((".SXF", "1.0"))
    requires recs[1].passport.None? && recs[1].dat == Some(count)
    requires recs[j].endMark && ObjectRun(recs, 2) == Many([obj], j)
    ensures ParseRecords(recs) == if DigitsToNat(count) == 1 then Ok(TxfFile(".SXF", "1.0", map[], [obj]))
      else Err(Failed(CountMismatch(Objects, DigitsToNat(count), 1)))
  {
    AfterDat(recs, ".SXF", "1.0", count);
    AssembleOne(recs, ".SXF", "1.0", obj, j, DigitsToNat(count));
  }

  /** The declared count `d` checked against the one object found. */
  lemma SampleRecordsParse(recs: seq<Record>, d: char)
    requires IsSampleRecords(recs, d, '2')
    ensures ParseRecords(recs) == if d == '1' then Ok(TxfFile(".SXF", "1.0", map[], [SampleObject]))
      else Err(Failed(CountMismatch(Objects, d as int - '0' as int, 1)))
  {
    SampleObjects(recs, d);
    OneObjectParse(recs, [d], SampleObject, 9);
    OneDigitValue(d);
  }

  /**
   * The sample document parses to magic `.SXF`, version `1.0`, an empty
   * passport and its one object, whose classification code is `1`,
   * localization `A`, key 5, coordinates the two pairs in file order and
   * semantics `1` to `hello`, when it declares one object; any other
   * declared count is a count mismatch of the object list.
   */
  lemma SampleParses(input: seq<string>, d: char)
    requires IsSample(input, d, '2')
    ensures ParseTxf(input) == if d == '1' then Ok(TxfFile(".SXF", "1.0", map[], [SampleObject]))
      else Err(Failed(CountMismatch(Objects, d as int - '0' as int, 1)))
  {
    SampleNoTabs(input, d, '2');
    SampleIsNonBlank(input, d, '2');
    SampleRecordsOf(input, d, '2');
    SampleRecordsParse(Records(input), d);
  }

  const Sample: seq<string> :=
    [".SXF 1.0", ".DAT 1", ".OBJ 1 A", ".KEY 5", "2", "1.0 2.0", "3.0 4.0", ".SEM 1", "1 hello", ".END"]

  lemma SampleIsSample()
    ensures IsSample(Sample, '1', '2')
  {
    assert DatText('1') == ".DAT 1" && ObjLineOf('1', 'A') == ".OBJ 1 A";
    assert CoordLineOf('1', '2') == "1.0 2.0" && CoordLineOf('3', '4') == "3.0 4.0";
  }

  lemma SampleTextParses()
    ensures ParseTxf(Sample) == Ok(TxfFile(".SXF", "1.0", map[], [SampleObject]))
  {
    SampleIsSample();
    SampleParses(Sample, '1');
  }

  /** The sample declaring two objects. */
  const Misdeclared: seq<string> :=
    [".SXF 1.0", ".DAT 2", ".OBJ 1 A", ".KEY 5", "2", "1.0 2.0", "3.0 4.0", ".SEM 1", "1 hello", ".END"]

  lemma MisdeclaredIsSample()
    ensures IsSample(Misdeclared, '2', '2')
  {
    assert DatText('2') == ".DAT 2" && ObjLineOf('1', 'A') == ".OBJ 1 A";
    assert CoordLineOf('1', '2') == "1.0 2.0" && CoordLineOf('3', '4') == "3.0 4.0";
  }

  lemma MisdeclaredFails()
    ensures ParseTxf(Misdeclared) == Err(Failed(CountMismatch(Objects, 2, 1)))
  {
    MisdeclaredIsSample();
    SampleParses(Misdeclared, '2');
  }

  /** The sample whose coordinate block declares three pairs but lists two. */
  const Miscounted: seq<string> :=
    [".SXF 1.0", ".DAT 1", ".OBJ 1 A", ".KEY 5", "3", "1.0 2.0", "3.0 4.0", ".SEM 1", "1 hello", ".END"]

  lemma MiscountedCoords(recs: seq<Record>)
    requires IsSampleRecords(recs, '1', '3')
    ensures ParseCoords(recs, 4) == Fatal(CountMismatch(Coords, 3, 2))
  {
    assert Repeat(recs, 7, CoordKind) == Lines([], 7);
    assert Repeat(recs, 6, CoordKind) == Lines([("3.0", "4.0")], 7);
    assert Repeat(recs, 5, CoordKind) == Lines([("1.0", "2.0"), ("3.0", "4.0")], 7);
    OneDigitValue('3');
  }

  lemma MiscountedObject(recs: seq<Record>)
    requires IsSampleRecords(recs, '1', '3')
    ensures ParseObjAt(recs, 2) == Fatal(CountMismatch(Coords, 3, 2))
  {
    SampleFieldLines(recs, '1', '3');
    MiscountedCoords(recs);
    assert ParseTitObj(recs, 2) == NoMatch;
  }

  lemma MiscountedRecordsParse(recs: seq<Record>)
    requires IsSampleRecords(recs, '1', '3')
    ensures ParseRecords(recs) == Err(Failed(CountMismatch(Coords, 3, 2)))
  {
    MiscountedObject(recs);
    RunStops(recs, 2);
    EmptyPassport(recs);
    RunAborts(recs);
  }

  /**
   * A count mismatch inside an object ends the whole parse with that
   * mismatch: the document is never assembled, although its one object
   * matches the one `.DAT` declares.
   */
  lemma MiscountedFails()
    ensures ParseTxf(Miscounted) == Err(Failed(CountMismatch(Coords, 3, 2)))
  {
    assert DatText('1') == ".DAT 1" && ObjLineOf('1', 'A') == ".OBJ 1 A";
    assert CoordLineOf('1', '2') == "1.0 2.0" && CoordLineOf('3', '4') == "3.0 4.0";
    assert IsSample(Miscounted, '1', '3');
    SampleNoTabs(Miscounted, '1', '3');
    SampleIsNonBlank(Miscounted, '1', '3');
    SampleRecordsOf(Miscounted, '1', '3');
    MiscountedRecordsParse(Records(Miscounted));
  }

  // ---- The sample document with a title object.

  /** A header, no passport, one declared object, and one title object with one coordinate pair. */
  predicate IsTitleSample(input: seq<string>, text: string)
  {
    && |input| == 8
    && input[0] == ".SXF 1.0" && input[1] == DatText('1') && input[2] == TitLineOf('1')
    && input[3] == ".KEY 5" && input[4] == ['1'] && input[5] == CoordLineOf('1', '2')
    && input[6] == ['>'] + text && input[7] == ".END"
  }

  predicate IsTitleRecords(recs: seq<Record>, text: string)
  {
    && |recs| == 8
    && recs[0] == HeaderRecord && recs[1] == DatRecord('1') && recs[2] == TitRecord('1')
    && recs[3] == KeyRecord && recs[4] == CountRecord('1') && recs[5] == CoordRecord('1', '2')
    && recs[6] == TitleRecord(text) && recs[7] == EndRecord
  }

  /** The title object: localization `TIT`, the right-stripped title, and no semantics. */
  function TitleObject(text: string): TxfObject
  {
    TxfObject("1", "TIT", Number(5), map[KeyField := Text("5")], [("1.0", "2.0")], RStrip(text), map[])
  }

  lemma TitleIsNonBlank(input: seq<string>, text: string)
    requires IsTitleSample(input, text)
    ensures NonBlank(input) == input
  {
    forall k | 0 <= k < |input| ensures !BlankLine(input[k]) {
      assert !IsBlank(input[k][0]);
    }
  }

  lemma TitleRecordsOf(input: seq<string>, text: string)
    requires IsTitleSample(input, text)
    ensures IsTitleRecords(Records(input), text)
  {
    var recs := Records(input);
    assert recs[0] == HeaderRecord by { HeaderRecordOf(); }
    assert recs[1] == DatRecord('1') by { DatRecordOf('1'); }
    assert recs[2] == TitRecord('1') by { TitRecordOf('1'); }
    assert recs[3] == KeyRecord by { KeyRecordOf(); }
    assert recs[4] == CountRecord('1') by { CountRecordOf('1'); }
    assert recs[5] == CoordRecord('1', '2') by { CoordRecordOf('1', '2'); }
    assert recs[6] == TitleRecord(text) by { TitleRecordOf(text); }
    assert recs[7] == EndRecord by { EndRecordOf(); }
  }

  lemma TitleFieldLines(recs: seq<Record>, text: string)
    requires IsTitleRecords(recs, text)
    ensures Repeat(recs, 3, FieldKind) == Lines([(KeyField, "5")], 4)
  {
    assert Repeat(recs, 4, FieldKind) == Lines([], 4);
  }

  lemma TitleCoords(recs: seq<Record>, text: string)
    requires IsTitleRecords(recs, text)
    ensures ParseCoords(recs, 4) == Match([("1.0", "2.0")], 6)
  {
    assert Repeat(recs, 6, CoordKind) == Lines([], 6);
    assert Repeat(recs, 5, CoordKind) == Lines([("1.0", "2.0")], 6);
    OneDigitValue('1');
  }

  lemma TitleBuild(text: string)
    ensures BuildObject("1", "TIT", [(KeyField, "5")], [("1.0", "2.0")], RStrip(text), map[], 7) == Match(TitleObject(text), 7)
  {
    SampleFields();
    TextFieldsOne(KeyField, "5");
    var flds := map[KeyField := Text("5")];
    assert ResolveKey(Some(Number(5)), flds) == Ok((Number(5), flds));
  }

  lemma TitleObjectAt(recs: seq<Record>, text: string)
    requires IsTitleRecords(recs, text)
    ensures ParseObjAt(recs, 2) == Match(TitleObject(text), 7)
  {
    TitleFieldLines(recs, text);
    TitleCoords(recs, text);
    TitleBuild(text);
    assert ParseTitObj(recs, 2) == Match(TitleObject(text), 7);
  }

  lemma TitleRunEnd(recs: seq<Record>, text: string)
    requires IsTitleRecords(recs, text)
    ensures ObjectRun(recs, 7) == Many([], 7)
  {
    assert recs[7].obj.None? && recs[7].tit.None?;
  }

  lemma TitleObjects(recs: seq<Record>, text: string)
    requires IsTitleRecords(recs, text)
    ensures ObjectRun(recs, 2) == Many([TitleObject(text)], 7)
  {
    TitleRunHead(recs, text);
    TitleRunEnd(recs, text);
    assert [TitleObject(text)] + [] == [TitleObject(text)];
  }

  lemma TitleRunHead(recs: seq<Record>, text: string)
    requires IsTitleRecords(recs, text)
    ensures ObjectRun(recs, 2) == Cons(TitleObject(text), ObjectRun(recs, 7))
  {
    TitleObjectAt(recs, text);
    RunAfter(recs, 2, TitleObject(text), 7);
  }

  lemma TitleRecordsParse(recs: seq<Record>, text: string)
    requires IsTitleRecords(recs, text)
    ensures ParseRecords(recs) == Ok(TxfFile(".SXF", "1.0", map[], [TitleObject(text)]))
  {
    TitleObjects(recs, text);
    OneObjectParse(recs, "1", TitleObject(text), 7);
    OneDigitValue('1');
  }

  /**
   * A document with a title object parses to that one object, whose
   * localization is `TIT`, whose title is the text after `>` right-stripped,
   * and whose semantics are empty, whatever the text is.
   */
  lemma TitleParses(input: seq<string>, text: string)
    requires IsTitleSample(input, text)
    ensures ParseTxf(input) == Ok(TxfFile(".SXF", "1.0", map[], [TitleObject(ExpandFrom(text, 1))]))
  {
    var lines := ExpandLines(input);
    var title := ExpandFrom(text, 1);
    TitleExpanded(input, text);
    TitleIsNonBlank(lines, title);
    TitleRecordsOf(lines, title);
    TitleRecordsParse(Records(lines), title);
  }

  /** Only the title line can hold a tab; after `>` it stands at column 1. */
  lemma TitleExpanded(input: seq<string>, text: string)
    requires IsTitleSample(input, text)
    ensures IsTitleSample(ExpandLines(input), ExpandFrom(text, 1))
  {
    ExpandAppend(">", text, 0);
    assert Column(">", 0) == 1 && ExpandFrom(">", 0) == ">";
    SharedLinesNoTab('1', '1');
    SampleLinesNoTab();
  }

  const TitleSample: seq<string> :=
    [".SXF 1.0", ".DAT 1", ".OBJ 1 TIT", ".KEY 5", "1", "1.0 2.0", ">Some Title  ", ".END"]

  lemma TitleSampleIsSample()
    ensures IsTitleSample(TitleSample, "Some Title  ")
  {
    assert DatText('1') == ".DAT 1" && TitLineOf('1') == ".OBJ 1 TIT" && CoordLineOf('1', '2') == "1.0 2.0";
    assert ['>'] + "Some Title  " == ">Some Title  ";
  }

  lemma TitleSampleStrips()
    ensures RStrip("Some Title  ") == "Some Title"
  {
    var t := "Some Title  ";
    assert t[..|t| - 1] == "Some Title " && "Some Title "[..10] == "Some Title";
  }

  lemma TitleTextNoTab()
    ensures NoTab("Some Title  ")
  {
  }

  lemma TitleSampleParses()
    ensures ParseTxf(TitleSample) == Ok(TxfFile(".SXF", "1.0", map[], [TitleObject("Some Title  ")]))
    ensures TitleObject("Some Title  ").title == "Some Title"
  {
    TitleSampleIsSample();
    TitleTextNoTab();
    TitleNoTabParses(TitleSample, "Some Title  ");
    TitleSampleStrips();
  }

  /** A title without tabs is read as written. */
  lemma TitleNoTabParses(input: seq<string>, text: string)
    requires IsTitleSample(input, text) && NoTab(text)
    ensures ParseTxf(input) == Ok(TxfFile(".SXF", "1.0", map[], [TitleObject(text)]))
  {
    TitleParses(input, text);
  }

  /** The title sample with a tab right after `>`. */
  const TabTitleSample: seq<string> :=
    [".SXF 1.0", ".DAT 1", ".OBJ 1 TIT", ".KEY 5", "1", "1.0 2.0", ">\tName", ".END"]

  lemma TabExpands()
    ensures ExpandFrom("\tName", 1) == "       Name" && RStrip("       Name") == "       Name"
  {
    var s := "\tName";
    assert s[0] == '\t' && s[1..] == "Name";
    NameNoTab();
    assert ExpandFrom(s, 1) == Spaces(TabWidth(1)) + ExpandFrom("Name", NextColumn('\t', 1));
    SevenSpaces();
    var t := "       Name";
    assert t[|t| - 1] == 'e';
  }

  lemma NameNoTab()
    ensures NoTab("Name") && ExpandFrom("Name", 8) == "Name"
  {
  }

  lemma SevenSpaces()
    ensures Spaces(TabWidth(1)) + "Name" == "       Name"
  {
    assert TabWidth(1) == 7;
    assert Spaces(7) == "       ";
  }

  /**
   * A tab in a title is expanded before the grammar reads the line: after
   * `>` at column 0 it becomes seven spaces, and the title keeps them.
   */
  lemma TabTitleParses()
    ensures ParseTxf(TabTitleSample) == Ok(TxfFile(".SXF", "1.0", map[], [TitleObject("       Name")]))
    ensures TitleObject("       Name").title == "       Name"
  {
    TabTitleIsSample();
    TitleParses(TabTitleSample, "\tName");
    TabExpands();
  }

  lemma TabTitleIsSample()
    ensures IsTitleSample(TabTitleSample, "\tName")
  {
    assert DatText('1') == ".DAT 1" && TitLineOf('1') == ".OBJ 1 TIT" && CoordLineOf('1', '2') == "1.0 2.0";
    assert ['>'] + "\tName" == ">\tName";
  }

  // ---- Keys and titles.

  lemma KeyLineOf05()
    ensures KeyLine(".KEY 05") == Some("05")
  {
    var s := ".KEY 05";
    assert SkipBlanks(s, 0) == 0;
    assert s[0..4] == ".KEY";
    assert Keyword(s, 0, ".KEY") == Some(4);
    assert SkipBlanks(s, 4) == 5 by { assert SkipBlanks(s, 5) == 5; }
    assert RunEnd(s, 6, Digits) == 7 by { assert RunEnd(s, 7, Digits) == 7; }
    assert s[5..7] == "05";
  }

  lemma ValueOf05()
    ensures AllDigits("05") && DigitsToNat("05") == 5
  {
    LeadingZero("5");
    assert "0" + "5" == "05";
    OneDigitValue('5');
  }

  /**
   * `.KEY 05` is a key line whose text is `05` while the key `int` reads
   * from it is 5, whose spelling is `5`: the text of `.KEY` does not always
   * spell the key.
   */
  lemma LeadingZeroKey()
    ensures KeyLine(".KEY 05") == Some("05")
    ensures ParseInt("05") == Some(5) && NatToDigits(5) == "5"
  {
    KeyLineOf05();
    ValueOf05();
    ParseIntOfDigits("05");
    assert NatToDigits(5) == [DigitChar(5)];
  }

  /** A title line of `>` alone has an empty title; blanks after `>` are kept until the action strips them. */
  lemma EmptyTitle()
    ensures TitleLine(">") == Some("") && TitleLine(">   ") == Some("   ") && RStrip("   ") == ""
  {
    assert SkipBlanks(">", 0) == 0;
    assert SkipBlanks(">   ", 0) == 0;
    assert ">   "[1..] == "   ";
    assert RStrip("   ") == "" by {
      assert "   "[..2] == "  " && "  "[..1] == " " && " "[..0] == "";
    }
  }
}
