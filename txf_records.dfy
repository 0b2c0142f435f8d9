/**
 * Every rule of the grammar below the block level looks at one line only,
 * so a line can be read once into a record of everything the line rules
 * find in it. The block rules then work on the sequence of these records.
 */
module TxfRecords {
  import opened TxfBase
  import opened TxfText
  import opened TxfLines

  /** The digit tokens of `Word(nums)`: the actions apply `int` to them. */
  type DigitString = s: string | AllDigits(s)

  /** The two magic keywords of `oneOf('.SXF .SIT')`. */
  type Magic = m: string | m == ".SXF" || m == ".SIT" witness ".SXF"

  /** What each line rule yields on one line; `None` (or `false`) where the rule does not match. */
  datatype Record = Record(
    header: Option<(Magic, string)>,
    passport: Option<(string, string)>,
    dat: Option<DigitString>,
    endMark: bool,
    obj: Option<(string, string)>,
    tit: Option<string>,
    entry: Option<(string, string)>,
    count: Option<DigitString>,
    coord: Option<(string, string)>,
    sem: Option<DigitString>,
    semLine: Option<(string, string)>,
    title: Option<string>)

  /**
   * The two facts about the line rules that decide between the object forms:
   * a title header is an ordinary header with the word `TIT`, and a title line
   * never opens a semantics block.
   */
  predicate Coherent(r: Record)
  {
    && (r.tit.Some? ==> r.obj == Some((r.tit.value, "TIT")))
    && (r.title.Some? ==> r.sem.None?)
  }

  /** One line, read by every line rule. */
  function Recognize(s: string): (r: Record)
    ensures Coherent(r)
  {
    assert TitHeader(s).Some? ==> ObjHeader(s) == Some((TitHeader(s).value, "TIT")) by {
      if TitHeader(s).Some? { TitHeaderIsObjHeader(s); }
    }
    assert TitleLine(s).Some? ==> SemHeader(s).None? by {
      if TitleLine(s).Some? { TitleLineIsNotSemHeader(s); }
    }
    Record(
      HeaderLine(s), PassportLine(s), DatLine(s), EndLine(s),
      ObjHeader(s), TitHeader(s), FieldEntry(s),
      CountLine(s), CoordLine(s), SemHeader(s), SemLine(s), TitleLine(s))
  }

  predicate AllCoherent(recs: seq<Record>)
  {
    forall k :: 0 <= k < |recs| ==> Coherent(recs[k])
  }

  /** The records of a file's lines, in order. */
  function Records(lines: seq<string>): (recs: seq<Record>)
    ensures |recs| == |lines| && AllCoherent(recs)
    ensures forall k :: 0 <= k < |lines| ==> recs[k] == Recognize(lines[k])
  {
    seq(|lines|, k requires 0 <= k < |lines| => Recognize(lines[k]))
  }
}
