/**
 * The block assemblers: repetition of one kind of line, the dictionaries the
 * parse actions build, the coordinate and semantics blocks with their count
 * checks, and the two object forms.
 */
module TxfBlocks {
  import opened TxfBase
  import opened TxfText
  import opened TxfObjects
  import opened TxfRecords

  /**
   * What a grammar rule does at a line position: it matches (with the value
   * its action built and the next position), it does not match (another
   * alternative may be tried), or its action failed, which ends the parse.
   */
  datatype Outcome<T> = Match(value: T, next: nat) | NoMatch | Fatal(failure: Failure)

  /** The kinds of line that the grammar repeats; each yields a pair of strings. */
  datatype LineKind = CoordKind | SemKind | FieldKind | PassportKind

  function PairOf(kind: LineKind, r: Record): Option<(string, string)>
  {
    match kind
    case CoordKind => r.coord
    case SemKind => r.semLine
    case FieldKind => r.entry
    case PassportKind => r.passport
  }

  datatype Lines = Lines(items: seq<(string, string)>, end: nat)

  /**
   * Greedy repetition of one kind of line from position `i`: the pairs of
   * the longest run of such lines, in file order, and the position after it.
   */
  function Repeat(recs: seq<Record>, i: nat, kind: LineKind): (r: Lines)
    requires i <= |recs|
    ensures i <= r.end <= |recs| && |r.items| == r.end - i
    ensures forall k :: 0 <= k < |r.items| ==> PairOf(kind, recs[i + k]) == Some(r.items[k])
    ensures r.end == |recs| || PairOf(kind, recs[r.end]).None?
    decreases |recs| - i
  {
    if i < |recs| && PairOf(kind, recs[i]).Some? then
      var p := PairOf(kind, recs[i]);
      var rest := Repeat(recs, i + 1, kind);
      var items := [p.value] + rest.items;
      assert forall k :: 0 <= k < |items| ==> PairOf(kind, recs[i + k]) == Some(items[k]) by {
        forall k | 0 <= k < |items| ensures PairOf(kind, recs[i + k]) == Some(items[k]) {
          if k > 0 {
            assert items[k] == rest.items[k - 1];
            assert recs[i + k] == recs[(i + 1) + (k - 1)];
          }
        }
      }
      Lines(items, rest.end)
    else
      Lines([], i)
  }

  ghost function KeysOf(pairs: seq<(string, string)>): set<string>
  {
    set k | 0 <= k < |pairs| :: pairs[k].0
  }

  /**
   * The dictionary of a list of (key, value) pairs with right-stripped
   * values; a later pair overwrites an earlier one with the same key.
   */
  function DictOf(pairs: seq<(string, string)>): (m: map<string, string>)
    ensures m.Keys == KeysOf(pairs)
    ensures |m| <= |pairs|
  {
    if pairs == [] then
      map[]
    else
      var init := pairs[..|pairs| - 1];
      var last := pairs[|pairs| - 1];
      assert KeysOf(pairs) == KeysOf(init) + {last.0} by {
        forall x | x in KeysOf(pairs) ensures x in KeysOf(init) + {last.0} {
          var k :| 0 <= k < |pairs| && pairs[k].0 == x;
          if k < |pairs| - 1 { assert init[k] == pairs[k]; }
        }
        forall x | x in KeysOf(init) ensures x in KeysOf(pairs) {
          var k :| 0 <= k < |init| && init[k].0 == x;
          assert pairs[k] == init[k];
        }
      }
      DictOf(init)[last.0 := RStrip(last.1)]
  }

  /** The value under a key is the right-stripped value of the key's last pair. */
  lemma {:induction false} LastWins(pairs: seq<(string, string)>, j: nat)
    requires j < |pairs|
    requires forall k :: j < k < |pairs| ==> pairs[k].0 != pairs[j].0
    ensures pairs[j].0 in DictOf(pairs) && DictOf(pairs)[pairs[j].0] == RStrip(pairs[j].1)
  {
    if j < |pairs| - 1 {
      var init := pairs[..|pairs| - 1];
      assert init[j] == pairs[j];
      LastWins(init, j);
    }
  }

  predicate DistinctKeys(pairs: seq<(string, string)>)
  {
    forall a, b :: 0 <= a < b < |pairs| ==> pairs[a].0 != pairs[b].0
  }

  /** The dictionary has one entry per pair exactly when no key repeats; a repeated key lowers its size. */
  lemma {:induction false} DictSize(pairs: seq<(string, string)>)
    ensures |DictOf(pairs)| == |pairs| <==> DistinctKeys(pairs)
  {
    if pairs != [] {
      var init := pairs[..|pairs| - 1];
      var last := pairs[|pairs| - 1];
      DictSize(init);
      DistinctSnoc(pairs);
      if last.0 in DictOf(init) {
        assert |DictOf(pairs)| == |DictOf(init)|;
      } else {
        assert |DictOf(pairs)| == |DictOf(init)| + 1;
      }
    }
  }

  /** The keys of a non-empty list are distinct when those before its last are and the last is new. */
  lemma DistinctSnoc(pairs: seq<(string, string)>)
    requires pairs != []
    ensures var init := pairs[..|pairs| - 1];
      DistinctKeys(pairs) <==> DistinctKeys(init) && pairs[|pairs| - 1].0 !in KeysOf(init)
  {
    var init := pairs[..|pairs| - 1];
    var n := |pairs| - 1;
    assert forall a :: 0 <= a < n ==> init[a] == pairs[a];
    if DistinctKeys(pairs) {
      forall k | 0 <= k < n ensures init[k].0 != pairs[n].0 {
        assert init[k] == pairs[k];
      }
    }
  }

  /**
   * The coordinate block: a count line, then one or more coordinate lines.
   * It fails when the count differs from the number of coordinate lines.
   */
  function ParseCoords(recs: seq<Record>, i: nat): (r: Outcome<seq<(string, string)>>)
    requires i <= |recs|
    ensures r.Match? ==>
      && i < |recs| && recs[i].count.Some?
      && var run := Repeat(recs, i + 1, CoordKind);
      && DigitsToNat(recs[i].count.value) == |r.value| >= 1
      && r.value == run.items && r.next == run.end == i + 1 + |r.value|
    ensures r.Fatal? ==>
      && i < |recs| && recs[i].count.Some?
      && r.failure == CountMismatch(Coords, DigitsToNat(recs[i].count.value), |Repeat(recs, i + 1, CoordKind).items|)
      && r.failure.declared != r.failure.actual && r.failure.actual >= 1
    ensures r.NoMatch? <==> i == |recs| || recs[i].count.None? || Repeat(recs, i + 1, CoordKind).items == []
  {
    if i == |recs| then NoMatch
    else
      match recs[i].count
      case None => NoMatch
      case Some(count) =>
        var run := Repeat(recs, i + 1, CoordKind);
        var n := DigitsToNat(count);
        if run.items == [] then NoMatch
        else if n != |run.items| then Fatal(CountMismatch(Coords, n, |run.items|))
        else Match(run.items, run.end)
  }

  /**
   * The semantics block: `.SEM n`, then one or more semantic lines, kept as
   * a code-to-text dictionary. It fails when `n` differs from the size of
   * that dictionary, which is below the number of lines when a code repeats.
   */
  function ParseSems(recs: seq<Record>, i: nat): (r: Outcome<map<string, string>>)
    requires i <= |recs|
    ensures r.Match? ==>
      && i < |recs| && recs[i].sem.Some?
      && var run := Repeat(recs, i + 1, SemKind);
      && DigitsToNat(recs[i].sem.value) == |r.value| >= 1
      && r.value == DictOf(run.items) && r.next == run.end
    ensures r.Fatal? ==>
      && i < |recs| && recs[i].sem.Some?
      && r.failure == CountMismatch(Semantics, DigitsToNat(recs[i].sem.value), |DictOf(Repeat(recs, i + 1, SemKind).items)|)
      && r.failure.declared != r.failure.actual && r.failure.actual >= 1
    ensures r.NoMatch? <==> i == |recs| || recs[i].sem.None? || Repeat(recs, i + 1, SemKind).items == []
  {
    if i == |recs| then NoMatch
    else
      match recs[i].sem
      case None => NoMatch
      case Some(count) =>
        var run := Repeat(recs, i + 1, SemKind);
        var n := DigitsToNat(count);
        if run.items == [] then NoMatch
        else
          var sems := DictOf(run.items);
          assert |sems| >= 1 by { assert run.items[0].0 in KeysOf(run.items); }
          if n != |sems| then Fatal(CountMismatch(Semantics, n, |sems|))
          else Match(sems, run.end)
  }

  /** A block whose semantic codes are all distinct declares exactly its number of lines. */
  lemma SemCountIsLineCount(recs: seq<Record>, i: nat)
    requires i <= |recs| && ParseSems(recs, i).Match?
    ensures var run := Repeat(recs, i + 1, SemKind);
      DistinctKeys(run.items) <==> DigitsToNat(recs[i].sem.value) == run.end - i - 1
  {
    DictSize(Repeat(recs, i + 1, SemKind).items);
  }

  /** The parser's fields as object fields: every value is text. */
  function TextFields(flds: map<string, string>): (m: map<string, FieldValue>)
    ensures m.Keys == flds.Keys
    ensures forall f :: f in flds ==> m[f] == Text(flds[f])
  {
    map f | f in flds :: Text(flds[f])
  }

  /**
   * The part both object actions share: the fields dictionary of the field
   * block, and the key read with `int` from its `.KEY` entry.
   */
  function ObjStart(entries: seq<(string, string)>): (r: Result<(map<string, string>, int), Failure>)
    ensures r.Ok? ==> r.value.0 == DictOf(entries) && KeyField in r.value.0 && ParseInt(r.value.0[KeyField]) == Some(r.value.1)
    ensures r.Err? ==> (r.error == MissingKey <==> KeyField !in DictOf(entries))
    ensures r.Err? && KeyField in DictOf(entries) ==>
      ParseInt(DictOf(entries)[KeyField]).None? && r.error == KeyNotInteger(DictOf(entries)[KeyField])
  {
    var flds := DictOf(entries);
    if KeyField !in flds then Err(MissingKey)
    else
      match ParseInt(flds[KeyField])
      case None => Err(KeyNotInteger(flds[KeyField]))
      case Some(key) => Ok((flds, key))
  }

  /** Builds the object once its lines have matched, as both object actions do. */
  function BuildObject(
    clsCode: string, locCode: string, entries: seq<(string, string)>,
    coords: seq<(string, string)>, title: string, sems: map<string, string>, next: nat): (r: Outcome<TxfObject>)
    ensures r.NoMatch? == false
    ensures r.Fatal? <==> ObjStart(entries).Err?
    ensures r.Fatal? ==> r.failure == ObjStart(entries).error && !r.failure.CountMismatch?
    ensures r.Match? ==>
      && r.next == next
      && r.value.clsCode == clsCode && r.value.locCode == locCode
      && r.value.coords == coords && r.value.title == title && r.value.sems == sems
      && r.value.flds == TextFields(DictOf(entries))
      && ObjStart(entries).Ok? && r.value.key == Number(ObjStart(entries).value.1)
  {
    match ObjStart(entries)
    case Err(e) => Fatal(e)
    case Ok(start) =>
      match NewTxfObject(clsCode, locCode, Some(Number(start.1)), TextFields(start.0), coords, title, sems)
      case Err(e) => Fatal(e)
      case Ok(obj) => Match(obj, next)
  }

  /**
   * What every parsed object satisfies: the key is the number `int` reads
   * from the `.KEY` text, every field is text, and the object has either the
   * title form (no semantics) or the ordinary form (an empty title and at
   * least one semantic code).
   */
  predicate WellFormed(o: TxfObject)
  {
    && o.key.Number?
    && KeyField in o.flds
    && (forall f :: f in o.flds ==> o.flds[f].Text?)
    && ParseInt(o.flds[KeyField].text) == Some(o.key.number)
    && |o.coords| >= 1
    && ((o.sems == map[] && o.locCode == "TIT") || (|o.sems| >= 1 && o.title == ""))
  }

  /**
   * A well-formed object's key is the number its `.KEY` text reads as; when
   * that text is a digit string without a leading zero it is exactly the
   * key's decimal spelling (`.KEY 05` reads as key 5, whose spelling is `5`).
   */
  lemma KeyTextSpellsKey(o: TxfObject)
    requires WellFormed(o)
    requires var t := o.flds[KeyField].text; AllDigits(t) && |t| >= 1 && (|t| > 1 ==> t[0] != '0')
    ensures o.key.number >= 0 && NatToDigits(o.key.number) == o.flds[KeyField].text
  {
    var t := o.flds[KeyField].text;
    ParseIntOfDigits(t);
    NatOfDigits(t);
  }

  /**
   * A failure raised inside one object: a count mismatch there is about its
   * coordinates or its semantics, and only when the two counts differ.
   */
  predicate ObjectFailure(f: Failure)
  {
    f.CountMismatch? ==> f.block != Objects && f.declared != f.actual
  }

  /**
   * A title object: `.OBJ <code> TIT`, one or more field lines, a coordinate
   * block and a `>` line whose right-stripped text is the title.
   */
  function ParseTitObj(recs: seq<Record>, i: nat): (r: Outcome<TxfObject>)
    requires i <= |recs|
    ensures r.NoMatch? <==>
      || i == |recs| || recs[i].tit.None?
      || var fields := Repeat(recs, i + 1, FieldKind);
         || fields.items == []
         || var coords := ParseCoords(recs, fields.end);
            || coords.NoMatch?
            || (coords.Match? && (coords.next == |recs| || recs[coords.next].title.None?))
    ensures r.Fatal? ==> ObjectFailure(r.failure)
    ensures r.Match? ==>
      && i < r.next <= |recs|
      && var fields := Repeat(recs, i + 1, FieldKind);
      && recs[i].tit == Some(r.value.clsCode) && r.value.locCode == "TIT"
      && fields.items != [] && r.value.flds == TextFields(DictOf(fields.items))
      && var coords := ParseCoords(recs, fields.end);
      && coords.Match? && coords.value == r.value.coords && r.next == coords.next + 1
      && recs[coords.next].title.Some? && r.value.title == RStrip(recs[coords.next].title.value)
      && r.value.sems == map[]
      && ObjStart(fields.items).Ok? && r.value.key == Number(ObjStart(fields.items).value.1)
      && WellFormed(r.value)
    ensures r.Fatal? ==>
      i < |recs| && recs[i].tit.Some? &&
      var fields := Repeat(recs, i + 1, FieldKind);
      fields.items != [] &&
      var coords := ParseCoords(recs, fields.end);
      || (coords.Fatal? && r.failure == coords.failure)
      || (&& coords.Match? && coords.next < |recs| && recs[coords.next].title.Some?
          && ObjStart(fields.items).Err? && r.failure == ObjStart(fields.items).error)
  {
    if i == |recs| then NoMatch
    else
      match recs[i].tit
      case None => NoMatch
      case Some(clsCode) =>
        var fields := Repeat(recs, i + 1, FieldKind);
        if fields.items == [] then NoMatch
        else
          match ParseCoords(recs, fields.end)
          case NoMatch => NoMatch
          case Fatal(f) => Fatal(f)
          case Match(coords, j) => TitleTail(recs, j, clsCode, fields.items, coords)
  }

  /** The end of a title object: its `>` line at `j`, then the object action. */
  function TitleTail(recs: seq<Record>, j: nat, clsCode: string, entries: seq<(string, string)>, coords: seq<(string, string)>): (r: Outcome<TxfObject>)
    requires j <= |recs|
    ensures r.NoMatch? <==> j == |recs| || recs[j].title.None?
    ensures r.Fatal? ==> ObjStart(entries).Err? && r.failure == ObjStart(entries).error && !r.failure.CountMismatch?
    ensures r.Match? ==>
      && r.next == j + 1 && recs[j].title.Some?
      && r.value.title == RStrip(recs[j].title.value)
      && r.value.clsCode == clsCode && r.value.locCode == "TIT"
      && r.value.coords == coords && r.value.sems == map[]
      && r.value.flds == TextFields(DictOf(entries))
      && ObjStart(entries).Ok? && r.value.key == Number(ObjStart(entries).value.1)
  {
    if j == |recs| then NoMatch
    else
      match recs[j].title
      case None => NoMatch
      case Some(text) => BuildObject(clsCode, "TIT", entries, coords, RStrip(text), map[], j + 1)
  }

  /**
   * An ordinary object: `.OBJ <code> <word>`, one or more field lines, a
   * coordinate block and a semantics block; its title stays empty.
   */
  function ParseOrdObj(recs: seq<Record>, i: nat): (r: Outcome<TxfObject>)
    requires i <= |recs|
    ensures r.NoMatch? <==>
      || i == |recs| || recs[i].obj.None?
      || var fields := Repeat(recs, i + 1, FieldKind);
         || fields.items == []
         || var coords := ParseCoords(recs, fields.end);
            || coords.NoMatch?
            || (coords.Match? && ParseSems(recs, coords.next).NoMatch?)
    ensures r.Fatal? ==> ObjectFailure(r.failure)
    ensures r.Match? ==>
      && i < r.next <= |recs|
      && var fields := Repeat(recs, i + 1, FieldKind);
      && recs[i].obj == Some((r.value.clsCode, r.value.locCode))
      && fields.items != [] && r.value.flds == TextFields(DictOf(fields.items))
      && ParseCoords(recs, fields.end).Match? && ParseCoords(recs, fields.end).value == r.value.coords
      && ParseSems(recs, ParseCoords(recs, fields.end).next) == Match(r.value.sems, r.next)
      && r.value.title == ""
      && ObjStart(fields.items).Ok? && r.value.key == Number(ObjStart(fields.items).value.1)
      && WellFormed(r.value)
    ensures r.Fatal? ==>
      i < |recs| && recs[i].obj.Some? &&
      var fields := Repeat(recs, i + 1, FieldKind);
      fields.items != [] &&
      var coords := ParseCoords(recs, fields.end);
      || (coords.Fatal? && r.failure == coords.failure)
      || (coords.Match? && ParseSems(recs, coords.next).Fatal? && r.failure == ParseSems(recs, coords.next).failure)
      || (&& coords.Match? && ParseSems(recs, coords.next).Match?
          && ObjStart(fields.items).Err? && r.failure == ObjStart(fields.items).error)
  {
    if i == |recs| then NoMatch
    else
      match recs[i].obj
      case None => NoMatch
      case Some(h) =>
        var fields := Repeat(recs, i + 1, FieldKind);
        if fields.items == [] then NoMatch
        else
          match ParseCoords(recs, fields.end)
          case NoMatch => NoMatch
          case Fatal(f) => Fatal(f)
          case Match(coords, j) =>
            match ParseSems(recs, j)
            case NoMatch => NoMatch
            case Fatal(f) => Fatal(f)
            case Match(sems, k) => BuildObject(h.0, h.1, fields.items, coords, "", sems, k)
  }

  /**
   * One object at position `i`: the title form is tried first, and the
   * ordinary form only when the title form does not match; a failed action
   * in the title form ends the parse.
   */
  function ParseObjAt(recs: seq<Record>, i: nat): (r: Outcome<TxfObject>)
    requires i <= |recs|
    ensures r.Fatal? ==> ObjectFailure(r.failure)
    ensures r.Match? ==> i < r.next <= |recs| && WellFormed(r.value)
    ensures ParseTitObj(recs, i).Match? ==> r.Match? && r.value.sems == map[]
    ensures ParseTitObj(recs, i).Fatal? ==> r.Fatal?
    ensures r.Match? && |r.value.sems| >= 1 ==> ParseTitObj(recs, i).NoMatch? && r == ParseOrdObj(recs, i)
  {
    match ParseTitObj(recs, i)
    case NoMatch => ParseOrdObj(recs, i)
    case other => other
  }

  /**
   * The two object forms never both match at one position, and trying the
   * ordinary form first would give the same outcome everywhere, failures
   * included: the order of the alternatives only decides which form is
   * tried, never the result.
   */
  lemma AlternativeOrderIrrelevant(recs: seq<Record>, i: nat)
    requires i <= |recs| && AllCoherent(recs)
    ensures !(ParseTitObj(recs, i).Match? && ParseOrdObj(recs, i).Match?)
    ensures ParseObjAt(recs, i) == if ParseOrdObj(recs, i).NoMatch? then ParseTitObj(recs, i) else ParseOrdObj(recs, i)
  {
    if i < |recs| && recs[i].tit.Some? {
      assert Coherent(recs[i]);
      var fields := Repeat(recs, i + 1, FieldKind);
      if fields.items != [] {
        var c := ParseCoords(recs, fields.end);
        if c.Match? && c.next < |recs| {
          assert Coherent(recs[c.next]);
          if recs[c.next].title.Some? {
            assert ParseSems(recs, c.next).NoMatch?;
          } else if recs[c.next].sem.Some? {
            assert TitleTail(recs, c.next, recs[i].tit.value, fields.items, c.value).NoMatch?;
          }
        }
      }
    }
  }

  predicate AllWellFormed(objs: seq<TxfObject>)
  {
    forall k :: 0 <= k < |objs| ==> WellFormed(objs[k])
  }

  datatype Many<T> = Many(items: seq<T>, end: nat) | Aborted(failure: Failure)

  /**
   * One object after another from position `i`, as long as one matches;
   * a failed action in any of them ends the parse.
   */
  function ObjectRun(recs: seq<Record>, i: nat): (r: Many<TxfObject>)
    requires i <= |recs|
    ensures r.Many? ==> i <= r.end <= |recs| && AllWellFormed(r.items)
    ensures r.Many? && r.items == [] ==> r.end == i
    ensures r.Aborted? ==> ObjectFailure(r.failure)
    decreases |recs| - i, 1
  {
    if i < |recs| && (recs[i].obj.Some? || recs[i].tit.Some?) then ObjectsAt(recs, i)
    else Many([], i)
  }

  /** The run from an `.OBJ` line at `i`: the object there, then the run after it. */
  function ObjectsAt(recs: seq<Record>, i: nat): (r: Many<TxfObject>)
    requires i < |recs|
    ensures r.Many? ==> i <= r.end <= |recs| && AllWellFormed(r.items)
    ensures r.Many? && r.items == [] ==> r.end == i
    ensures r.Aborted? ==> ObjectFailure(r.failure)
    decreases |recs| - i, 0
  {
    match ParseObjAt(recs, i)
    case NoMatch => Many([], i)
    case Fatal(f) => Aborted(f)
    case Match(obj, j) => Cons(obj, ObjectRun(recs, j))
  }

  /** A run is empty where no object starts, aborts where one fails, and otherwise goes on after the object found. */
  lemma ObjectRunStep(recs: seq<Record>, i: nat)
    requires i <= |recs|
    ensures var o := ParseObjAt(recs, i);
      ObjectRun(recs, i) ==
        if o.NoMatch? then Many([], i)
        else if o.Fatal? then Aborted(o.failure)
        else Cons(o.value, ObjectRun(recs, o.next))
  {
    if i < |recs| && (recs[i].obj.Some? || recs[i].tit.Some?) {
      assert ObjectRun(recs, i) == ObjectsAt(recs, i);
    }
  }

  /** One more object in front of a run; an aborted run stays aborted. */
  function Cons(obj: TxfObject, run: Many<TxfObject>): (r: Many<TxfObject>)
    ensures r.Aborted? <==> run.Aborted?
    ensures r.Aborted? ==> r.failure == run.failure
    ensures r.Many? ==> r.items == [obj] + run.items && r.end == run.end
    ensures r.Many? && WellFormed(obj) && AllWellFormed(run.items) ==> AllWellFormed(r.items)
  {
    match run
    case Aborted(f) => Aborted(f)
    case Many(objs, e) =>
      var items := [obj] + objs;
      assert WellFormed(obj) && AllWellFormed(objs) ==> AllWellFormed(items) by {
        if WellFormed(obj) && AllWellFormed(objs) {
          forall k | 0 <= k < |items| ensures WellFormed(items[k]) {
            if k > 0 { assert items[k] == objs[k - 1]; }
          }
        }
      }
      Many(items, e)
  }

  /** Where an object is found, the run is that object and then the run after it. */
  lemma RunAfter(recs: seq<Record>, i: nat, obj: TxfObject, j: nat)
    requires i <= |recs| && ParseObjAt(recs, i) == Match(obj, j)
    ensures j <= |recs| && ObjectRun(recs, i) == Cons(obj, ObjectRun(recs, j))
  {
    ObjectRunStep(recs, i);
  }

  /** Where an object's action fails, the run aborts with that failure. */
  lemma RunStops(recs: seq<Record>, i: nat)
    requires i <= |recs| && ParseObjAt(recs, i).Fatal?
    ensures ObjectRun(recs, i) == Aborted(ParseObjAt(recs, i).failure)
  {
    ObjectRunStep(recs, i);
  }

  /** The run of objects is greedy: no object starts where it ends. */
  lemma {:induction false} ObjectRunIsMaximal(recs: seq<Record>, i: nat)
    requires i <= |recs| && ObjectRun(recs, i).Many?
    ensures ParseObjAt(recs, ObjectRun(recs, i).end).NoMatch?
    decreases |recs| - i
  {
    ObjectRunStep(recs, i);
    if ParseObjAt(recs, i).Match? {
      ObjectRunIsMaximal(recs, ParseObjAt(recs, i).next);
    }
  }

  /**
   * `objs` are the objects read one after another from position `i`, each
   * starting where the one before it ended, the last one ending at `end`.
   */
  predicate Chain(recs: seq<Record>, i: nat, objs: seq<TxfObject>, end: nat)
    requires i <= |recs|
    decreases |objs|
  {
    if objs == [] then end == i
    else
      var o := ParseObjAt(recs, i);
      o.Match? && o.value == objs[0] && Chain(recs, o.next, objs[1..], end)
  }

  /**
   * What a run of objects is: the objects found one after another, in file
   * order, up to the first position where no object starts; or, when an
   * object's action fails on the way, that failure.
   */
  lemma {:induction false} ObjectRunSteps(recs: seq<Record>, i: nat)
    requires i <= |recs|
    ensures var r := ObjectRun(recs, i);
      r.Many? ==> Chain(recs, i, r.items, r.end) && ParseObjAt(recs, r.end).NoMatch?
    ensures var r := ObjectRun(recs, i);
      r.Aborted? ==> AbortsAt(recs, i, r.failure)
    decreases |recs| - i
  {
    var r := ObjectRun(recs, i);
    ObjectRunStep(recs, i);
    match ParseObjAt(recs, i)
    case NoMatch =>
    case Fatal(f) =>
      assert StopsAt(recs, i, [], i, f);
    case Match(obj, j) =>
      ObjectRunSteps(recs, j);
      var rest := ObjectRun(recs, j);
      if rest.Many? {
        assert r.items[1..] == rest.items;
      } else {
        var objs: seq<TxfObject>, p: nat :| StopsAt(recs, j, objs, p, rest.failure);
        StopsAtCons(recs, i, obj, objs, p, rest.failure);
      }
  }

  /**
   * The objects `objs` are read one after another from `i`, and at `p`, where
   * the last one ends, an object's action fails with `f`.
   */
  predicate StopsAt(recs: seq<Record>, i: nat, objs: seq<TxfObject>, p: nat, f: Failure)
  {
    i <= |recs| && p <= |recs| && Chain(recs, i, objs, p) && ParseObjAt(recs, p).Fatal? && ParseObjAt(recs, p).failure == f
  }

  /** Some objects are read one after another from `i` up to a position where an object's action fails with `f`. */
  ghost predicate AbortsAt(recs: seq<Record>, i: nat, f: Failure)
  {
    exists objs: seq<TxfObject>, p: nat :: StopsAt(recs, i, objs, p, f)
  }

  lemma StopsAtCons(recs: seq<Record>, i: nat, obj: TxfObject, objs: seq<TxfObject>, p: nat, f: Failure)
    requires i <= |recs| && ParseObjAt(recs, i).Match? && ParseObjAt(recs, i).value == obj
    requires StopsAt(recs, ParseObjAt(recs, i).next, objs, p, f)
    ensures StopsAt(recs, i, [obj] + objs, p, f)
  {
    assert ([obj] + objs)[1..] == objs;
  }

  /** The converse: a chain of objects that stops where no object starts is the run. */
  lemma {:induction false} ChainIsRun(recs: seq<Record>, i: nat, objs: seq<TxfObject>, p: nat)
    requires i <= |recs| && p <= |recs| && Chain(recs, i, objs, p) && ParseObjAt(recs, p).NoMatch?
    ensures ObjectRun(recs, i).Many? && ObjectRun(recs, i).items == objs && ObjectRun(recs, i).end == p
    decreases |objs|
  {
    if objs != [] {
      var o := ParseObjAt(recs, i);
      ChainIsRun(recs, o.next, objs[1..], p);
      ObjectRunStep(recs, i);
      var run := ObjectRun(recs, i);
      assert run == Cons(o.value, ObjectRun(recs, o.next));
      assert run.items == [objs[0]] + objs[1..];
      HeadTail(objs);
    }
  }

  /** A chain of objects that stops where an object fails makes the run abort with that failure. */
  lemma {:induction false} StopsAtIsRun(recs: seq<Record>, i: nat, objs: seq<TxfObject>, p: nat, f: Failure)
    requires StopsAt(recs, i, objs, p, f)
    ensures ObjectRun(recs, i).Aborted? && ObjectRun(recs, i).failure == f
    decreases |objs|
  {
    if objs != [] {
      var o := ParseObjAt(recs, i);
      StopsAtIsRun(recs, o.next, objs[1..], p, f);
    }
    ObjectRunStep(recs, i);
  }


  lemma HeadTail<T>(s: seq<T>)
    requires s != []
    ensures [s[0]] + s[1..] == s
  {
  }
}
