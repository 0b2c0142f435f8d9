/**
 * The whole document: a header, zero or more passport lines, `.DAT` with the
 * declared number of objects, one or more objects and `.END`. Lines after
 * `.END` are not looked at.
 */
module TxfDocument {
  import opened TxfBase
  import opened TxfText
  import opened TxfObjects
  import opened TxfRecords
  import opened TxfBlocks

  /** A line the grammar's whitespace skipping passes over entirely. */
  predicate BlankLine(s: string)
  {
    forall k :: 0 <= k < |s| ==> IsBlank(s[k])
  }

  /** The input without its blank lines, in order. */
  function NonBlank(input: seq<string>): (r: seq<string>)
    ensures |r| <= |input|
    ensures forall k :: 0 <= k < |r| ==> !BlankLine(r[k]) && r[k] in input
    ensures (forall k :: 0 <= k < |input| ==> !BlankLine(input[k])) ==> r == input
  {
    if input == [] then []
    else
      var rest := NonBlank(input[1..]);
      assert forall k :: 0 <= k < |rest| ==> rest[k] in input by {
        forall k | 0 <= k < |rest| ensures rest[k] in input {
          var j :| 0 <= j < |input[1..]| && input[1..][j] == rest[k];
          assert input[j + 1] == rest[k];
        }
      }
      if BlankLine(input[0]) then rest
      else
        assert (forall k :: 0 <= k < |input| ==> !BlankLine(input[k])) ==> rest == input[1..] by {
          if forall k :: 0 <= k < |input| ==> !BlankLine(input[k]) {
            assert forall k :: 0 <= k < |input[1..]| ==> !BlankLine(input[1..][k]) by {
              forall k | 0 <= k < |input[1..]| ensures !BlankLine(input[1..][k]) {
                assert input[1..][k] == input[k + 1];
              }
            }
          }
        }
        [input[0]] + rest
  }

  /** Skipping blank lines works line by line: the lines of two inputs in a row are those of each, in a row. */
  lemma {:induction false} NonBlankAppend(a: seq<string>, b: seq<string>)
    ensures NonBlank(a + b) == NonBlank(a) + NonBlank(b)
    decreases |a|
  {
    if a == [] {
      assert a + b == b;
    } else {
      assert (a + b)[0] == a[0] && (a + b)[1..] == a[1..] + b;
      NonBlankAppend(a[1..], b);
      if !BlankLine(a[0]) {
        assert [a[0]] + (NonBlank(a[1..]) + NonBlank(b)) == ([a[0]] + NonBlank(a[1..])) + NonBlank(b);
      }
    }
  }

  /** One line is dropped exactly when it is blank. */
  lemma NonBlankOne(s: string)
    ensures NonBlank([s]) == if BlankLine(s) then [] else [s]
  {
    assert [s][1..] == [];
  }

  /** Why a document did not parse: its lines do not have the document's shape, or an action failed. */
  datatype ParseError = Syntax | Failed(failure: Failure)

  /** The lines as the grammar sees them: every tab expanded to the next multiple of 8. */
  function ExpandLines(input: seq<string>): (r: seq<string>)
    ensures |r| == |input|
    ensures forall k :: 0 <= k < |r| ==> NoTab(r[k]) && r[k] == ExpandTabs(input[k])
    ensures (forall k :: 0 <= k < |input| ==> NoTab(input[k])) ==> r == input
  {
    seq(|input|, k requires 0 <= k < |input| => ExpandTabs(input[k]))
  }

  /**
   * The parser's entry point, on the lines of the decoded text: tabs are
   * expanded first, and then blank lines are passed over.
   */
  function ParseTxf(input: seq<string>): (r: Result<TxfFile, ParseError>)
    ensures r.Ok? ==> r.value.magic == ".SXF" || r.value.magic == ".SIT"
    ensures r.Ok? ==> |r.value.objs| >= 1 && AllWellFormed(r.value.objs)
    ensures r.Err? && r.error.Failed? && r.error.failure.CountMismatch? ==>
      r.error.failure.declared != r.error.failure.actual
  {
    ParseRecords(Records(NonBlank(ExpandLines(input))))
  }

  /** The document grammar and its action, on the non-blank lines of a document. */
  function ParseRecords(recs: seq<Record>): (r: Result<TxfFile, ParseError>)
    ensures r.Ok? ==> r.value.magic == ".SXF" || r.value.magic == ".SIT"
    ensures r.Ok? ==> |r.value.objs| >= 1 && AllWellFormed(r.value.objs)
    ensures r.Err? && r.error.Failed? && r.error.failure.CountMismatch? ==>
      r.error.failure.declared != r.error.failure.actual
  {
    if recs == [] || recs[0].header.None? then Err(Syntax)
    else
      var h := recs[0].header.value;
      var pp := Repeat(recs, 1, PassportKind);
      if pp.end == |recs| || recs[pp.end].dat.None? then Err(Syntax)
      else Assemble(recs, ObjectRun(recs, pp.end + 1), h.0, h.1, DictOf(pp.items), DigitsToNat(recs[pp.end].dat.value))
  }

  /**
   * An accepted document: its header, the passport of the lines after it,
   * `.DAT` with the number of objects, the objects that follow, and `.END`.
   */
  lemma ParseRecordsOk(recs: seq<Record>)
    requires ParseRecords(recs).Ok?
    ensures var f := ParseRecords(recs).value;
      && |recs| >= 2
      && var pp := Repeat(recs, 1, PassportKind);
      && recs[0].header == Some((f.magic, f.version))
      && f.passport == DictOf(pp.items)
      && pp.end < |recs| && recs[pp.end].dat.Some?
      && DigitsToNat(recs[pp.end].dat.value) == |f.objs|
      && ObjectsEnd(recs, pp.end + 1, f.objs)
  {
    assert recs != [] && recs[0].header.Some?;
    assert Repeat(recs, 1, PassportKind).end < |recs|;
    assert recs[Repeat(recs, 1, PassportKind).end].dat.Some?;
    ParseRecordsSteps(recs);
  }

  /**
   * A count mismatch on the objects happens only in a document of the right
   * shape, and reports the number `.DAT` declares and the number found.
   */
  lemma ParseRecordsMismatch(recs: seq<Record>)
    requires var r := ParseRecords(recs);
      r.Err? && r.error.Failed? && r.error.failure.CountMismatch? && r.error.failure.block == Objects
    ensures Shaped(recs) && Declared(recs) != Found(recs)
    ensures ParseRecords(recs).error.failure == CountMismatch(Objects, Declared(recs), Found(recs))
  {
    assert recs != [] && recs[0].header.Some?;
    assert Repeat(recs, 1, PassportKind).end < |recs|;
    assert recs[Repeat(recs, 1, PassportKind).end].dat.Some?;
    ParseRecordsSteps(recs);
  }

  /** The converse: in a document of the right shape, only the counts decide, and a difference is reported. */
  lemma ShapedOutcome(recs: seq<Record>)
    requires Shaped(recs)
    ensures Declared(recs) == Found(recs) ==> ParseRecords(recs).Ok?
    ensures Declared(recs) != Found(recs) ==>
      ParseRecords(recs) == Err(Failed(CountMismatch(Objects, Declared(recs), Found(recs))))
  {
    ParseRecordsSteps(recs);
  }

  /**
   * Once the header and `.DAT` lines are found, the rest of the parse is
   * `Assemble`. This is a proof step for the lemmas about `ParseRecords`,
   * which state what the document's outcome means.
   */
  lemma ParseRecordsSteps(recs: seq<Record>)
    requires |recs| >= 1 && recs[0].header.Some?
    requires Repeat(recs, 1, PassportKind).end < |recs|
    requires recs[Repeat(recs, 1, PassportKind).end].dat.Some?
    ensures var pp := Repeat(recs, 1, PassportKind); var h := recs[0].header.value;
      ParseRecords(recs) == Assemble(recs, ObjectRun(recs, pp.end + 1), h.0, h.1,
                                    DictOf(pp.items), DigitsToNat(recs[pp.end].dat.value))
  {
  }

  /** After the header and `.DAT`, an aborted object run is the document's failure. */
  lemma RunAborts(recs: seq<Record>)
    requires |recs| >= 1 && recs[0].header.Some?
    requires Repeat(recs, 1, PassportKind).end < |recs|
    requires recs[Repeat(recs, 1, PassportKind).end].dat.Some?
    requires ObjectRun(recs, Repeat(recs, 1, PassportKind).end + 1).Aborted?
    ensures ParseRecords(recs) == Err(Failed(ObjectRun(recs, Repeat(recs, 1, PassportKind).end + 1).failure))
  {
    ParseRecordsSteps(recs);
  }

  /**
   * The converse: every failure other than the object count comes from an
   * object, read after the header and `.DAT` and the objects before it.
   */
  lemma ParseRecordsFailed(recs: seq<Record>)
    requires var r := ParseRecords(recs);
      r.Err? && r.error.Failed? && !(r.error.failure.CountMismatch? && r.error.failure.block == Objects)
    ensures |recs| >= 1 && recs[0].header.Some?
    ensures Repeat(recs, 1, PassportKind).end < |recs| && recs[Repeat(recs, 1, PassportKind).end].dat.Some?
    ensures AbortsAt(recs, Repeat(recs, 1, PassportKind).end + 1, ParseRecords(recs).error.failure)
  {
    FailedHasDat(recs);
    ParseRecordsSteps(recs);
    ObjectRunSteps(recs, Repeat(recs, 1, PassportKind).end + 1);
  }

  /** A document that fails in an action has its header and `.DAT` line. */
  lemma FailedHasDat(recs: seq<Record>)
    requires ParseRecords(recs).Err? && ParseRecords(recs).error.Failed?
    ensures |recs| >= 1 && recs[0].header.Some?
    ensures Repeat(recs, 1, PassportKind).end < |recs| && recs[Repeat(recs, 1, PassportKind).end].dat.Some?
  {
    assert recs != [] && recs[0].header.Some?;
    assert Repeat(recs, 1, PassportKind).end < |recs|;
  }

  /**
   * The object run from `i` has the objects `objs`, at least one, and
   * ends at an `.END` line.
   */
  predicate ObjectsEnd(recs: seq<Record>, i: nat, objs: seq<TxfObject>)
    requires i <= |recs|
  {
    var run := ObjectRun(recs, i);
    Closed(recs, run) && run.items == objs
  }

  /** A run that ended normally, with at least one object, at an `.END` line. */
  predicate Closed(recs: seq<Record>, run: Many<TxfObject>)
  {
    run.Many? && run.items != [] && run.end < |recs| && recs[run.end].endMark
  }

  /**
   * `.DAT` to `.END`: the object run must be followed by `.END` and match the
   * declared count, and a failure inside it is the document's failure.
   */
  function Assemble(recs: seq<Record>, run: Many<TxfObject>, magic: string, version: string,
                    passport: map<string, string>, declared: nat): (r: Result<TxfFile, ParseError>)
    ensures r.Ok? <==> Closed(recs, run) && declared == |run.items|
    ensures r.Ok? ==> r.value == TxfFile(magic, version, passport, run.items)
    ensures r == Err(Syntax) <==> run.Many? && !Closed(recs, run)
    ensures run.Aborted? ==> r == Err(Failed(run.failure))
    ensures run.Many? && r.Err? && r.error.Failed? ==>
      && Closed(recs, run) && r.error.failure == CountMismatch(Objects, declared, |run.items|)
      && declared != |run.items|
  {
    match run
    case Aborted(f) => Err(Failed(f))
    case Many(objs, e) =>
      if objs == [] || e >= |recs| || !recs[e].endMark then Err(Syntax)
      else if declared != |objs| then Err(Failed(CountMismatch(Objects, declared, |objs|)))
      else Ok(TxfFile(magic, version, passport, objs))
  }

  /** The lines have the document's shape: header, passport lines, `.DAT`, one or more objects and `.END`. */
  predicate Shaped(recs: seq<Record>)
  {
    && |recs| >= 2 && recs[0].header.Some?
    && var pp := Repeat(recs, 1, PassportKind);
    && pp.end < |recs| && recs[pp.end].dat.Some?
    && ObjectRun(recs, pp.end + 1).Many?
    && ObjectsEnd(recs, pp.end + 1, ObjectRun(recs, pp.end + 1).items)
  }

  /** The number of objects `.DAT` declares. */
  function Declared(recs: seq<Record>): nat
    requires Shaped(recs)
  {
    DigitsToNat(recs[Repeat(recs, 1, PassportKind).end].dat.value)
  }

  /** The number of objects between `.DAT` and `.END`. */
  function Found(recs: seq<Record>): nat
    requires Shaped(recs)
  {
    |ObjectRun(recs, Repeat(recs, 1, PassportKind).end + 1).items|
  }

  /** The lines have the document's shape and `.DAT` declares the number of objects found. */
  predicate Accepted(recs: seq<Record>)
  {
    Shaped(recs) && Declared(recs) == Found(recs)
  }

  /**
   * The converse of `ParseRecordsOk`: a document is accepted exactly when its
   * lines have the document's shape and the counts agree.
   */
  lemma ParseRecordsOkIff(recs: seq<Record>)
    ensures ParseRecords(recs).Ok? <==> Accepted(recs)
  {
    if ParseRecords(recs).Ok? {
      ParseRecordsOk(recs);
    }
    if Accepted(recs) {
      ParseRecordsSteps(recs);
    }
  }

  /** With no passport line after the header, the passport is empty and `.DAT` must follow the header. */
  lemma EmptyPassport(recs: seq<Record>)
    requires |recs| >= 2 && recs[1].passport.None?
    ensures Repeat(recs, 1, PassportKind) == Lines([], 1)
    ensures DictOf(Repeat(recs, 1, PassportKind).items) == map[]
  {
  }
}
