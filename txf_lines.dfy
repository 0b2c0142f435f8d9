/**
 * The record recognizers: one function per kind of line of a TXF file. Each
 * looks at one line and yields the tokens the grammar keeps, or `None` when
 * the line does not have that shape. Text after the last token a recognizer
 * needs is discarded, as the grammar's `skip_endl` does.
 *
 * Each recognizer's contract names the exact spelling of the lines it
 * accepts (a `...Text` predicate, written as the concatenation of the line's
 * pieces) in both directions: every line it accepts is spelled so, with the
 * tokens it yields, and every line so spelled is accepted with those tokens.
 */
module TxfLines {
  import opened TxfBase
  import opened TxfText
  import opened TxfLexer

  // ---- A keyword and one word after it: `.DAT`, `.KEY`, `.SEM` and the header.

  ghost predicate KeywordWordParts(b0: string, b1: string, w: string, rest: string, cls: CharClass)
  {
    Blanks(b0) && Blanks(b1) && |b1| >= 1 && |w| >= 1 && AllIn(w, cls) && Ends(rest, cls)
  }

  /**
   * `s` is blanks, the keyword `kw`, at least one blank, the word `w` of
   * `cls`, and text that does not continue the word.
   */
  ghost predicate KeywordWordText(s: string, kw: string, cls: CharClass, w: string)
  {
    exists b0, b1, rest {:trigger KeywordWordParts(b0, b1, w, rest, cls)} :: KeywordWordParts(b0, b1, w, rest, cls) && s == b0 + (kw + (b1 + (w + rest)))
  }

  /** A keyword followed by a word of one class. */
  function KeywordWord(s: string, kw: string, cls: CharClass): (r: Option<string>)
    requires |kw| >= 1 && !IsBlank(kw[0]) && Solid(cls)
    ensures r.Some? ==> Keyword(s, 0, kw).Some? && |r.value| >= 1 && AllIn(r.value, cls)
    ensures forall w | KeywordWordText(s, kw, cls, w) :: r == Some(w)
  {
    var r := (match Keyword(s, 0, kw)
      case None => None
      case Some(e) =>
        match WordOf(s, e, cls)
        case None => None
        case Some(n) => Some(n.text));
    assert forall w | KeywordWordText(s, kw, cls, w) :: r == Some(w) by {
      forall w | KeywordWordText(s, kw, cls, w) ensures r == Some(w) {
        var b0, b1, rest :| KeywordWordParts(b0, b1, w, rest, cls) && s == b0 + (kw + (b1 + (w + rest)));
        KeywordWordOfText(s, kw, cls, b0, b1, w, rest);
      }
    }
    r
  }

  lemma KeywordWordOfText(s: string, kw: string, cls: CharClass, b0: string, b1: string, w: string, rest: string)
    requires |kw| >= 1 && !IsBlank(kw[0]) && Solid(cls)
    requires KeywordWordParts(b0, b1, w, rest, cls) && s == b0 + (kw + (b1 + (w + rest)))
    ensures Keyword(s, 0, kw).Some?
    ensures var n := WordOf(s, Keyword(s, 0, kw).value, cls); n.Some? && n.value.text == w
  {
    assert s[0..] == s;
    assert (b1 + (w + rest))[0] == b1[0];
    KeywordFrom(s, 0, b0, kw, b1 + (w + rest));
    WordOfFrom(s, Keyword(s, 0, kw).value, b1, w, rest, cls);
  }

  /** Every line `KeywordWord` accepts is spelled as `KeywordWordText` says, with the word it yields. */
  lemma KeywordWordSpelling(s: string, kw: string, cls: CharClass)
    requires |kw| >= 1 && !IsBlank(kw[0]) && Solid(cls) && KeywordWord(s, kw, cls).Some?
    ensures KeywordWordText(s, kw, cls, KeywordWord(s, kw, cls).value)
  {
    var e := Keyword(s, 0, kw).value;
    var n := WordOf(s, e, cls).value;
    var b0 := s[0..SkipBlanks(s, 0)];
    var b1 := s[e..SkipBlanks(s, e)];
    var rest := s[n.end..];
    assert s == b0 + (kw + s[e..]) by {
      KeywordSplit(s, 0, kw);
      assert s[0..] == s;
    }
    assert KeywordWordParts(b0, b1, n.text, rest, cls) && s[e..] == b1 + (n.text + rest) by {
      KeywordSplit(s, 0, kw);
      WordSplit(s, e, cls, cls);
      assert s[e..][0] == s[e];
    }
    KeywordWordIntro(s, kw, cls, b0, b1, n.text, rest);
  }

  lemma KeywordWordIntro(s: string, kw: string, cls: CharClass, b0: string, b1: string, w: string, rest: string)
    requires KeywordWordParts(b0, b1, w, rest, cls) && s == b0 + (kw + (b1 + (w + rest)))
    ensures KeywordWordText(s, kw, cls, w)
  {
  }

  /** The file header: the magic `.SXF` or `.SIT` and a version of digits, dots and dashes. */
  function HeaderLine(s: string): (r: Option<(string, string)>)
    ensures r.Some? ==> r.value.0 == ".SXF" || r.value.0 == ".SIT"
    ensures r.Some? ==> |r.value.1| >= 1 && AllIn(r.value.1, DotNumber)
    ensures forall m, v | (m == ".SXF" || m == ".SIT") && KeywordWordText(s, m, DotNumber, v) :: r == Some((m, v))
  {
    var magic := if Keyword(s, 0, ".SXF").Some? then ".SXF" else ".SIT";
    var r := (match KeywordWord(s, magic, DotNumber)
      case None => None
      case Some(v) => Some((magic, v)));
    assert forall m, v | (m == ".SXF" || m == ".SIT") && KeywordWordText(s, m, DotNumber, v) :: r == Some((m, v)) by {
      forall m, v | (m == ".SXF" || m == ".SIT") && KeywordWordText(s, m, DotNumber, v) ensures r == Some((m, v)) {
        assert KeywordWord(s, m, DotNumber) == Some(v);
        if m == ".SIT" {
          SitIsNotSxf(s);
        }
      }
    }
    r
  }

  /** Every line `HeaderLine` accepts is spelled as `KeywordWordText` says, with the magic and version it yields. */
  lemma HeaderLineSpelling(s: string)
    requires HeaderLine(s).Some?
    ensures KeywordWordText(s, HeaderLine(s).value.0, DotNumber, HeaderLine(s).value.1)
  {
    KeywordWordSpelling(s, HeaderLine(s).value.0, DotNumber);
  }

  /** A line that starts with the keyword `.SIT` does not start with `.SXF`. */
  lemma SitIsNotSxf(s: string)
    requires Keyword(s, 0, ".SIT").Some?
    ensures Keyword(s, 0, ".SXF").None?
  {
    var k := SkipBlanks(s, 0);
    assert s[k..k + 4][2] == 'I';
  }

  /** `.DAT` and the declared number of objects. */
  function DatLine(s: string): (r: Option<string>)
    ensures r.Some? ==> |r.value| >= 1 && AllDigits(r.value)
    ensures forall n | KeywordWordText(s, ".DAT", Digits, n) :: r == Some(n)
  {
    KeywordWord(s, ".DAT", Digits)
  }

  /** Every line `DatLine` accepts is spelled as `KeywordWordText` says, with the number it yields. */
  lemma DatLineSpelling(s: string)
    requires DatLine(s).Some?
    ensures KeywordWordText(s, ".DAT", Digits, DatLine(s).value)
  {
    KeywordWordSpelling(s, ".DAT", Digits);
  }

  /** `.KEY` and the object's own number. */
  function KeyLine(s: string): (r: Option<string>)
    ensures r.Some? ==> |r.value| >= 1 && AllDigits(r.value)
    ensures forall n | KeywordWordText(s, ".KEY", Digits, n) :: r == Some(n)
  {
    KeywordWord(s, ".KEY", Digits)
  }

  /** Every line `KeyLine` accepts is spelled as `KeywordWordText` says, with the number it yields. */
  lemma KeyLineSpelling(s: string)
    requires KeyLine(s).Some?
    ensures KeywordWordText(s, ".KEY", Digits, KeyLine(s).value)
  {
    KeywordWordSpelling(s, ".KEY", Digits);
  }

  /** `.SEM` and the declared number of semantic codes. */
  function SemHeader(s: string): (r: Option<string>)
    ensures r.Some? ==> |r.value| >= 1 && AllDigits(r.value)
    ensures forall n | KeywordWordText(s, ".SEM", Digits, n) :: r == Some(n)
  {
    KeywordWord(s, ".SEM", Digits)
  }

  /** Every line `SemHeader` accepts is spelled as `KeywordWordText` says, with the number it yields. */
  lemma SemHeaderSpelling(s: string)
    requires SemHeader(s).Some?
    ensures KeywordWordText(s, ".SEM", Digits, SemHeader(s).value)
  {
    KeywordWordSpelling(s, ".SEM", Digits);
  }

  // ---- The `.END` line.

  ghost predicate EndParts(b0: string, rest: string) { Blanks(b0) && Apart(rest) }

  /** `s` is blanks, `.END`, and then nothing or a blank and anything. */
  ghost predicate EndText(s: string)
  {
    exists b0, rest {:trigger EndParts(b0, rest)} :: EndParts(b0, rest) && s == b0 + (".END" + rest)
  }

  /** The `.END` line closing the list of objects. */
  predicate EndLine(s: string)
  {
    Keyword(s, 0, ".END").Some?
  }

  /** `EndLine` accepts exactly the lines spelled as `EndText` says. */
  lemma EndLineSpelling(s: string)
    ensures EndLine(s) <==> EndText(s)
  {
    if EndText(s) {
      var b0, rest :| EndParts(b0, rest) && s == b0 + (".END" + rest);
      assert s[0..] == s;
      KeywordFrom(s, 0, b0, ".END", rest);
    }
    if EndLine(s) {
      KeywordSplit(s, 0, ".END");
      assert s[0..] == s;
      assert EndParts(s[0..SkipBlanks(s, 0)], s[Keyword(s, 0, ".END").value..]);
    }
  }

  // ---- Object headers.

  ghost predicate ObjParts(b0: string, b1: string, c: string, b2: string, l: string, rest: string)
  {
    && Blanks(b0) && Blanks(b1) && |b1| >= 1 && |c| >= 1 && AllIn(c, Digits)
    && Blanks(b2) && |l| >= 1 && AllIn(l, Letters) && Ends(rest, Letters)
  }

  /**
   * `s` is blanks, `.OBJ`, at least one blank, the code `c`, blanks, the
   * localization word `l`, and text that does not continue the word.
   */
  ghost predicate ObjText(s: string, c: string, l: string)
  {
    exists b0, b1, b2, rest {:trigger ObjParts(b0, b1, c, b2, l, rest)} :: ObjParts(b0, b1, c, b2, l, rest) && s == b0 + (".OBJ" + (b1 + (c + (b2 + (l + rest)))))
  }

  /** An ordinary object header: `.OBJ`, the classification code, the localization word. */
  function ObjHeader(s: string): (r: Option<(string, string)>)
    ensures r.Some? ==> |r.value.0| >= 1 && AllDigits(r.value.0)
    ensures r.Some? ==> |r.value.1| >= 1 && AllIn(r.value.1, Letters)
    ensures forall c, l | ObjText(s, c, l) :: r == Some((c, l))
  {
    var r := (match Keyword(s, 0, ".OBJ")
      case None => None
      case Some(e) =>
        match WordOf(s, e, Digits)
        case None => None
        case Some(code) =>
          match WordOf(s, code.end, Letters)
          case None => None
          case Some(loc) => Some((code.text, loc.text)));
    assert forall c, l | ObjText(s, c, l) :: r == Some((c, l)) by {
      forall c, l | ObjText(s, c, l) ensures r == Some((c, l)) {
        var b0, b1, b2, rest :| ObjParts(b0, b1, c, b2, l, rest) && s == b0 + (".OBJ" + (b1 + (c + (b2 + (l + rest)))));
        ObjOfText(s, b0, b1, c, b2, l, rest);
      }
    }
    r
  }

  lemma ObjOfText(s: string, b0: string, b1: string, c: string, b2: string, l: string, rest: string)
    requires ObjParts(b0, b1, c, b2, l, rest) && s == b0 + (".OBJ" + (b1 + (c + (b2 + (l + rest)))))
    ensures Keyword(s, 0, ".OBJ").Some?
    ensures var code := WordOf(s, Keyword(s, 0, ".OBJ").value, Digits);
      && code.Some? && code.value.text == c
      && WordOf(s, code.value.end, Letters).Some? && WordOf(s, code.value.end, Letters).value.text == l
  {
    assert s[0..] == s;
    assert (b1 + (c + (b2 + (l + rest))))[0] == b1[0];
    KeywordFrom(s, 0, b0, ".OBJ", b1 + (c + (b2 + (l + rest))));
    var e := Keyword(s, 0, ".OBJ").value;
    assert (b2 + (l + rest))[0] == if b2 == [] then l[0] else b2[0];
    WordOfFrom(s, e, b1, c, b2 + (l + rest), Digits);
    WordOfFrom(s, WordOf(s, e, Digits).value.end, b2, l, rest, Letters);
  }

  /** Every line `ObjHeader` accepts is spelled as `ObjText` says, with the code and word it yields. */
  lemma ObjHeaderSpelling(s: string)
    requires ObjHeader(s).Some?
    ensures ObjText(s, ObjHeader(s).value.0, ObjHeader(s).value.1)
  {
    ObjIsText(s);
  }

  lemma ObjIsText(s: string)
    requires Keyword(s, 0, ".OBJ").Some?
    requires WordOf(s, Keyword(s, 0, ".OBJ").value, Digits).Some?
    requires WordOf(s, WordOf(s, Keyword(s, 0, ".OBJ").value, Digits).value.end, Letters).Some?
    ensures var code := WordOf(s, Keyword(s, 0, ".OBJ").value, Digits).value;
      ObjText(s, code.text, WordOf(s, code.end, Letters).value.text)
  {
    var e := Keyword(s, 0, ".OBJ").value;
    var code := WordOf(s, e, Digits).value;
    var loc := WordOf(s, code.end, Letters).value;
    var b0 := s[0..SkipBlanks(s, 0)];
    var b1 := s[e..SkipBlanks(s, e)];
    var b2 := s[code.end..SkipBlanks(s, code.end)];
    var rest := s[loc.end..];
    assert Blanks(b0) by {
      KeywordSplit(s, 0, ".OBJ");
    }
    assert Blanks(b1) && |b1| >= 1 by {
      KeywordSplit(s, 0, ".OBJ");
      WordSplit(s, e, Digits, Digits);
      assert s[e..][0] == s[e];
    }
    assert Blanks(b2) && Ends(rest, Letters) by {
      WordSplit(s, code.end, Letters, Letters);
    }
    assert ObjParts(b0, b1, code.text, b2, loc.text, rest);
    assert s == b0 + (".OBJ" + s[e..]) by {
      KeywordSplit(s, 0, ".OBJ");
      assert s[0..] == s;
    }
    assert s[e..] == b1 + (code.text + s[code.end..]) by {
      WordSplit(s, e, Digits, Digits);
    }
    assert s[code.end..] == b2 + (loc.text + rest) by {
      WordSplit(s, code.end, Letters, Letters);
    }
    ObjTextIntro(s, b0, b1, code.text, b2, loc.text, rest);
  }

  lemma ObjTextIntro(s: string, b0: string, b1: string, c: string, b2: string, l: string, rest: string)
    requires ObjParts(b0, b1, c, b2, l, rest) && s == b0 + (".OBJ" + (b1 + (c + (b2 + (l + rest)))))
    ensures ObjText(s, c, l)
  {
  }

  ghost predicate TitParts(b0: string, b1: string, c: string, b2: string, rest: string)
  {
    Blanks(b0) && Blanks(b1) && |b1| >= 1 && |c| >= 1 && AllIn(c, Digits) && Blanks(b2) && Apart(rest)
  }

  /** `s` is blanks, `.OBJ`, at least one blank, the code `c`, blanks, and the keyword `TIT`. */
  ghost predicate TitText(s: string, c: string)
  {
    exists b0, b1, b2, rest {:trigger TitParts(b0, b1, c, b2, rest)} :: TitParts(b0, b1, c, b2, rest) && s == b0 + (".OBJ" + (b1 + (c + (b2 + ("TIT" + rest)))))
  }

  /** A title object header: `.OBJ`, the classification code, the keyword `TIT`. */
  function TitHeader(s: string): (r: Option<string>)
    ensures r.Some? ==> |r.value| >= 1 && AllDigits(r.value)
    ensures forall c | TitText(s, c) :: r == Some(c)
  {
    var r := (match Keyword(s, 0, ".OBJ")
      case None => None
      case Some(e) =>
        match WordOf(s, e, Digits)
        case None => None
        case Some(code) =>
          match Keyword(s, code.end, "TIT")
          case None => None
          case Some(_) => Some(code.text));
    assert forall c | TitText(s, c) :: r == Some(c) by {
      forall c | TitText(s, c) ensures r == Some(c) {
        var b0, b1, b2, rest :| TitParts(b0, b1, c, b2, rest) && s == b0 + (".OBJ" + (b1 + (c + (b2 + ("TIT" + rest)))));
        TitOfText(s, b0, b1, c, b2, rest);
      }
    }
    r
  }

  lemma TitOfText(s: string, b0: string, b1: string, c: string, b2: string, rest: string)
    requires TitParts(b0, b1, c, b2, rest) && s == b0 + (".OBJ" + (b1 + (c + (b2 + ("TIT" + rest)))))
    ensures Keyword(s, 0, ".OBJ").Some?
    ensures var code := WordOf(s, Keyword(s, 0, ".OBJ").value, Digits);
      code.Some? && code.value.text == c && Keyword(s, code.value.end, "TIT").Some?
  {
    assert s[0..] == s;
    assert (b1 + (c + (b2 + ("TIT" + rest))))[0] == b1[0];
    KeywordFrom(s, 0, b0, ".OBJ", b1 + (c + (b2 + ("TIT" + rest))));
    var e := Keyword(s, 0, ".OBJ").value;
    assert (b2 + ("TIT" + rest))[0] == if b2 == [] then 'T' else b2[0];
    WordOfFrom(s, e, b1, c, b2 + ("TIT" + rest), Digits);
    KeywordFrom(s, WordOf(s, e, Digits).value.end, b2, "TIT", rest);
  }

  /** Every line `TitHeader` accepts is spelled as `TitText` says, with the code it yields. */
  lemma TitHeaderSpelling(s: string)
    requires TitHeader(s).Some?
    ensures TitText(s, TitHeader(s).value)
  {
    TitIsText(s);
  }

  lemma TitIsText(s: string)
    requires Keyword(s, 0, ".OBJ").Some?
    requires WordOf(s, Keyword(s, 0, ".OBJ").value, Digits).Some?
    requires Keyword(s, WordOf(s, Keyword(s, 0, ".OBJ").value, Digits).value.end, "TIT").Some?
    ensures TitText(s, WordOf(s, Keyword(s, 0, ".OBJ").value, Digits).value.text)
  {
    var e := Keyword(s, 0, ".OBJ").value;
    var code := WordOf(s, e, Digits).value;
    var t := Keyword(s, code.end, "TIT").value;
    var b0 := s[0..SkipBlanks(s, 0)];
    var b1 := s[e..SkipBlanks(s, e)];
    var b2 := s[code.end..SkipBlanks(s, code.end)];
    var rest := s[t..];
    assert TitParts(b0, b1, code.text, b2, rest) by {
      KeywordSplit(s, 0, ".OBJ");
      WordSplit(s, e, Digits, Digits);
      KeywordSplit(s, code.end, "TIT");
      assert s[e..][0] == s[e];
    }
    assert s == b0 + (".OBJ" + s[e..]) by {
      KeywordSplit(s, 0, ".OBJ");
      assert s[0..] == s;
    }
    assert s[e..] == b1 + (code.text + s[code.end..]) by {
      WordSplit(s, e, Digits, Digits);
    }
    assert s[code.end..] == b2 + ("TIT" + rest) by {
      KeywordSplit(s, code.end, "TIT");
    }
    TitTextIntro(s, b0, b1, code.text, b2, rest);
  }

  lemma TitTextIntro(s: string, b0: string, b1: string, c: string, b2: string, rest: string)
    requires TitParts(b0, b1, c, b2, rest) && s == b0 + (".OBJ" + (b1 + (c + (b2 + ("TIT" + rest)))))
    ensures TitText(s, c)
  {
  }

  // ---- A name, blanks, and the rest of the line: passports, fields, semantic codes.

  ghost predicate NamedParts(b0: string, name: string, b1: string, v: string, init: CharClass, body: CharClass)
  {
    && Blanks(b0) && |name| >= 1 && !IsBlank(name[0]) && In(name[0], init)
    && (forall k :: 1 <= k < |name| ==> In(name[k], body))
    && Blanks(b1) && |b1| >= 1 && (v == [] || !IsBlank(v[0]))
  }

  /**
   * `s` is blanks, a name (one `init` character, then `body` characters), at
   * least one blank, and the value `v`, which is the rest of the line.
   */
  ghost predicate NamedText(s: string, init: CharClass, body: CharClass, name: string, v: string)
  {
    exists b0, b1 {:trigger NamedParts(b0, name, b1, v, init, body)} :: NamedParts(b0, name, b1, v, init, body) && s == b0 + (name + (b1 + v))
  }

  /** `Word(init, body) + White() + restOfLine`: a name and the rest of the line as its value. */
  function NamedValue(s: string, init: CharClass, body: CharClass): (r: Option<(string, string)>)
    requires Solid(body)
    ensures r.Some? ==> |r.value.0| >= 1 && In(r.value.0[0], init) && (forall k :: 1 <= k < |r.value.0| ==> In(r.value.0[k], body))
    ensures r.Some? ==> r.value.1 == [] || !IsBlank(r.value.1[0])
    ensures forall name, v | NamedText(s, init, body, name, v) :: r == Some((name, v))
  {
    var r := (match Word(s, 0, init, body)
      case None => None
      case Some(name) =>
        match White(s, name.end)
        case None => None
        case Some(e) => Some((name.text, RestOfLine(s, e))));
    assert forall name, v | NamedText(s, init, body, name, v) :: r == Some((name, v)) by {
      forall name, v | NamedText(s, init, body, name, v) ensures r == Some((name, v)) {
        var b0, b1 :| NamedParts(b0, name, b1, v, init, body) && s == b0 + (name + (b1 + v));
        NamedOfText(s, init, body, b0, name, b1, v);
      }
    }
    r
  }

  lemma NamedOfText(s: string, init: CharClass, body: CharClass, b0: string, name: string, b1: string, v: string)
    requires Solid(body) && NamedParts(b0, name, b1, v, init, body) && s == b0 + (name + (b1 + v))
    ensures var w := Word(s, 0, init, body);
      && w.Some? && w.value.text == name && White(s, w.value.end).Some?
      && RestOfLine(s, White(s, w.value.end).value) == v
  {
    assert s[0..] == s;
    assert (b1 + v)[0] == b1[0];
    WordFrom(s, 0, b0, name, b1 + v, init, body);
    var p := Word(s, 0, init, body).value.end;
    WhiteFrom(s, p, b1, v);
    assert RestOfLine(s, White(s, p).value) == s[White(s, p).value..];
  }

  /** Every line `NamedValue` accepts is spelled as `NamedText` says, with the name and value it yields. */
  lemma NamedValueSpelling(s: string, init: CharClass, body: CharClass)
    requires Solid(body) && NamedValue(s, init, body).Some?
    ensures NamedText(s, init, body, NamedValue(s, init, body).value.0, NamedValue(s, init, body).value.1)
  {
    var name := Word(s, 0, init, body).value;
    var e := White(s, name.end).value;
    var k := SkipBlanks(s, 0);
    assert s == s[0..k] + (name.text + s[name.end..]) && Blanks(s[0..k]) by {
      WordSplit(s, 0, init, body);
      assert s[0..] == s;
    }
    assert s[name.end..] == s[name.end..e] + s[e..] by {
      WhiteSplit(s, name.end);
    }
    assert NamedParts(s[0..k], name.text, s[name.end..e], s[e..], init, body) by {
      WhiteSplit(s, name.end);
      assert name.text[0] == s[k];
    }
    assert RestOfLine(s, e) == s[e..];
  }

  /** A passport line: a tag `P` followed by digits, blanks, and the rest of the line as value. */
  function PassportLine(s: string): (r: Option<(string, string)>)
    ensures r.Some? ==> |r.value.0| >= 1 && r.value.0[0] == 'P' && AllDigits(r.value.0[1..])
    ensures r.Some? ==> r.value.1 == [] || !IsBlank(r.value.1[0])
    ensures forall tag, v | NamedText(s, Only('P'), Digits, tag, v) :: r == Some((tag, v))
  {
    var r := NamedValue(s, Only('P'), Digits);
    assert r.Some? ==> AllDigits(r.value.0[1..]) by {
      if r.Some? {
        assert forall k :: 0 <= k < |r.value.0| - 1 ==> r.value.0[1..][k] == r.value.0[k + 1];
      }
    }
    r
  }

  /** Every line `PassportLine` accepts is spelled as `NamedText` says, with the name and value it yields. */
  lemma PassportLineSpelling(s: string)
    requires PassportLine(s).Some?
    ensures NamedText(s, Only('P'), Digits, PassportLine(s).value.0, PassportLine(s).value.1)
  {
    NamedValueSpelling(s, Only('P'), Digits);
  }

  /** A field line: a name `.` followed by letters, blanks, and the rest of the line as value. */
  function FieldLine(s: string): (r: Option<(string, string)>)
    ensures r.Some? ==> |r.value.0| >= 1 && r.value.0[0] == '.' && AllIn(r.value.0[1..], Letters)
    ensures r.Some? ==> r.value.1 == [] || !IsBlank(r.value.1[0])
    ensures forall name, v | NamedText(s, Only('.'), Letters, name, v) :: r == Some((name, v))
  {
    var r := NamedValue(s, Only('.'), Letters);
    assert r.Some? ==> AllIn(r.value.0[1..], Letters) by {
      if r.Some? {
        assert forall k :: 0 <= k < |r.value.0| - 1 ==> r.value.0[1..][k] == r.value.0[k + 1];
      }
    }
    r
  }

  /** Every line `FieldLine` accepts is spelled as `NamedText` says, with the name and value it yields. */
  lemma FieldLineSpelling(s: string)
    requires FieldLine(s).Some?
    ensures NamedText(s, Only('.'), Letters, FieldLine(s).value.0, FieldLine(s).value.1)
  {
    NamedValueSpelling(s, Only('.'), Letters);
  }

  /** A semantic line: a numeric code, blanks, and the rest of the line as value. */
  function SemLine(s: string): (r: Option<(string, string)>)
    ensures r.Some? ==> |r.value.0| >= 1 && AllDigits(r.value.0)
    ensures r.Some? ==> r.value.1 == [] || !IsBlank(r.value.1[0])
    ensures forall code, v | NamedText(s, Digits, Digits, code, v) :: r == Some((code, v))
  {
    NamedValue(s, Digits, Digits)
  }

  /** Every line `SemLine` accepts is spelled as `NamedText` says, with the name and value it yields. */
  lemma SemLineSpelling(s: string)
    requires SemLine(s).Some?
    ensures NamedText(s, Digits, Digits, SemLine(s).value.0, SemLine(s).value.1)
  {
    NamedValueSpelling(s, Digits, Digits);
  }

  // ---- Numbers on their own: counts and coordinates.

  ghost predicate CountParts(b0: string, n: string, rest: string)
  {
    Blanks(b0) && |n| >= 1 && AllIn(n, Digits) && Ends(rest, Digits)
  }

  /** `s` is blanks, the digits `n`, and text that does not start with a digit. */
  ghost predicate CountText(s: string, n: string)
  {
    exists b0, rest {:trigger CountParts(b0, n, rest)} :: CountParts(b0, n, rest) && s == b0 + (n + rest)
  }

  /** The line before the coordinates: the declared number of coordinate lines. */
  function CountLine(s: string): (r: Option<string>)
    ensures r.Some? ==> |r.value| >= 1 && AllDigits(r.value)
    ensures forall n | CountText(s, n) :: r == Some(n)
  {
    var r := (match WordOf(s, 0, Digits)
      case None => None
      case Some(n) => Some(n.text));
    assert forall n | CountText(s, n) :: r == Some(n) by {
      forall n | CountText(s, n) ensures r == Some(n) {
        var b0, rest :| CountParts(b0, n, rest) && s == b0 + (n + rest);
        assert s[0..] == s;
        WordOfFrom(s, 0, b0, n, rest, Digits);
      }
    }
    r
  }

  /** Every line `CountLine` accepts is spelled as `CountText` says, with the digits it yields. */
  lemma CountLineSpelling(s: string)
    requires CountLine(s).Some?
    ensures CountText(s, CountLine(s).value)
  {
    WordSplit(s, 0, Digits, Digits);
    assert s[0..] == s;
    assert CountParts(s[0..SkipBlanks(s, 0)], CountLine(s).value, s[WordOf(s, 0, Digits).value.end..]);
  }

  ghost predicate CoordParts(b0: string, x: string, b1: string, y: string, rest: string)
  {
    && Blanks(b0) && |x| >= 1 && AllIn(x, DotNumber) && Blanks(b1) && |b1| >= 1
    && |y| >= 1 && AllIn(y, DotNumber) && Ends(rest, DotNumber)
  }

  /** `s` is blanks, the number `x`, at least one blank, the number `y`, and text that does not continue `y`. */
  ghost predicate CoordText(s: string, x: string, y: string)
  {
    exists b0, b1, rest {:trigger CoordParts(b0, x, b1, y, rest)} :: CoordParts(b0, x, b1, y, rest) && s == b0 + (x + (b1 + (y + rest)))
  }

  /** A coordinate line: two raw numeric tokens x and y. */
  function CoordLine(s: string): (r: Option<(string, string)>)
    ensures r.Some? ==> |r.value.0| >= 1 && AllIn(r.value.0, DotNumber)
    ensures r.Some? ==> |r.value.1| >= 1 && AllIn(r.value.1, DotNumber)
    ensures forall x, y | CoordText(s, x, y) :: r == Some((x, y))
  {
    var r := (match WordOf(s, 0, DotNumber)
      case None => None
      case Some(x) =>
        match WordOf(s, x.end, DotNumber)
        case None => None
        case Some(y) => Some((x.text, y.text)));
    assert forall x, y | CoordText(s, x, y) :: r == Some((x, y)) by {
      forall x, y | CoordText(s, x, y) ensures r == Some((x, y)) {
        var b0, b1, rest :| CoordParts(b0, x, b1, y, rest) && s == b0 + (x + (b1 + (y + rest)));
        CoordOfText(s, b0, x, b1, y, rest);
      }
    }
    r
  }

  lemma CoordOfText(s: string, b0: string, x: string, b1: string, y: string, rest: string)
    requires CoordParts(b0, x, b1, y, rest) && s == b0 + (x + (b1 + (y + rest)))
    ensures var w := WordOf(s, 0, DotNumber);
      && w.Some? && w.value.text == x
      && WordOf(s, w.value.end, DotNumber).Some? && WordOf(s, w.value.end, DotNumber).value.text == y
  {
    assert s[0..] == s;
    assert (b1 + (y + rest))[0] == b1[0];
    WordOfFrom(s, 0, b0, x, b1 + (y + rest), DotNumber);
    WordOfFrom(s, WordOf(s, 0, DotNumber).value.end, b1, y, rest, DotNumber);
  }

  /** Every line `CoordLine` accepts is spelled as `CoordText` says, with the numbers it yields. */
  lemma CoordLineSpelling(s: string)
    requires CoordLine(s).Some?
    ensures CoordText(s, CoordLine(s).value.0, CoordLine(s).value.1)
  {
    CoordIsText(s);
  }

  lemma CoordIsText(s: string)
    requires WordOf(s, 0, DotNumber).Some? && WordOf(s, WordOf(s, 0, DotNumber).value.end, DotNumber).Some?
    ensures var x := WordOf(s, 0, DotNumber).value; CoordText(s, x.text, WordOf(s, x.end, DotNumber).value.text)
  {
    var x := WordOf(s, 0, DotNumber).value;
    var y := WordOf(s, x.end, DotNumber).value;
    var b0 := s[0..SkipBlanks(s, 0)];
    var b1 := s[x.end..SkipBlanks(s, x.end)];
    var rest := s[y.end..];
    assert s == b0 + (x.text + s[x.end..]) && Blanks(b0) by {
      WordSplit(s, 0, DotNumber, DotNumber);
      assert s[0..] == s;
    }
    assert s[x.end..] == b1 + (y.text + rest) && Blanks(b1) && Ends(rest, DotNumber) by {
      WordSplit(s, x.end, DotNumber, DotNumber);
    }
    assert |b1| >= 1;
    CoordTextIntro(s, b0, x.text, b1, y.text, rest);
  }

  lemma CoordTextIntro(s: string, b0: string, x: string, b1: string, y: string, rest: string)
    requires CoordParts(b0, x, b1, y, rest) && s == b0 + (x + (b1 + (y + rest)))
    ensures CoordText(s, x, y)
  {
  }

  // ---- Title lines.

  /** `s` is blanks, `>`, and the title `t`, which is the rest of the line. */
  ghost predicate TitleText(s: string, t: string)
  {
    exists b0 {:trigger Blanks(b0)} :: Blanks(b0) && s == b0 + (['>'] + t)
  }

  /** A title line: `>` and the rest of the line, blanks after `>` included. */
  function TitleLine(s: string): (r: Option<string>)
    ensures r.Some? ==> |r.value| < |s| && r.value == s[|s| - |r.value|..] && s[|s| - |r.value| - 1] == '>'
    ensures forall t | TitleText(s, t) :: r == Some(t)
  {
    var r := (match Marker(s, 0, '>')
      case None => None
      case Some(e) => Some(RestOfLine(s, e)));
    assert forall t | TitleText(s, t) :: r == Some(t) by {
      forall t | TitleText(s, t) ensures r == Some(t) {
        var b0 :| Blanks(b0) && s == b0 + (['>'] + t);
        assert s[0..] == s;
        MarkerFrom(s, 0, b0, '>', t);
        assert RestOfLine(s, Marker(s, 0, '>').value) == s[Marker(s, 0, '>').value..];
      }
    }
    r
  }

  /** Every line `TitleLine` accepts is spelled as `TitleText` says: only blanks before the `>`. */
  lemma TitleLineSpelling(s: string)
    requires TitleLine(s).Some?
    ensures TitleText(s, TitleLine(s).value)
  {
    var k := SkipBlanks(s, 0);
    MarkerSplit(s, 0, '>');
    assert s[0..] == s;
    assert RestOfLine(s, k + 1) == s[k + 1..];
    assert Blanks(s[0..k]);
  }

  /**
   * One entry of an object's field block: the `.KEY <number>` form is tried
   * first and yields the name `.KEY` and the digits; otherwise a field line.
   */
  function FieldEntry(s: string): (r: Option<(string, string)>)
    ensures KeyLine(s).Some? ==> r == Some((".KEY", KeyLine(s).value))
    ensures KeyLine(s).None? ==> r == FieldLine(s)
  {
    match KeyLine(s)
    case Some(n) => Some((".KEY", n))
    case None => FieldLine(s)
  }

  /**
   * Every `.KEY <number>` line is also a field line named `.KEY`, whose value
   * is the whole rest of the line; so the order of the two forms matters.
   */
  lemma KeyLineIsFieldLine(s: string)
    requires KeyLine(s).Some?
    ensures FieldLine(s).Some? && FieldLine(s).value.0 == ".KEY"
    ensures |KeyLine(s).value| <= |FieldLine(s).value.1| && FieldLine(s).value.1[..|KeyLine(s).value|] == KeyLine(s).value
  {
    KeyLineSpelling(s);
    KeyLineField(s, KeyLine(s).value);
  }

  lemma KeyLineField(s: string, n: string)
    requires KeywordWordText(s, ".KEY", Digits, n)
    ensures FieldLine(s).Some? && FieldLine(s).value.0 == ".KEY"
    ensures |n| <= |FieldLine(s).value.1| && FieldLine(s).value.1[..|n|] == n
  {
    KeyNamed(s, n);
    var rest :| NamedText(s, Only('.'), Letters, ".KEY", n + rest);
    assert FieldLine(s) == Some((".KEY", n + rest));
    assert (n + rest)[..|n|] == n;
  }

  lemma KeyNamed(s: string, n: string)
    requires KeywordWordText(s, ".KEY", Digits, n)
    ensures exists rest :: NamedText(s, Only('.'), Letters, ".KEY", n + rest)
  {
    var b0, b1, rest :| KeywordWordParts(b0, b1, n, rest, Digits) && s == b0 + (".KEY" + (b1 + (n + rest)));
    assert (n + rest)[0] == n[0];
    assert NamedParts(b0, ".KEY", b1, n + rest, Only('.'), Letters);
    NamedTextIntro(s, Only('.'), Letters, b0, ".KEY", b1, n + rest);
  }

  lemma NamedTextIntro(s: string, init: CharClass, body: CharClass, b0: string, name: string, b1: string, v: string)
    requires NamedParts(b0, name, b1, v, init, body) && s == b0 + (name + (b1 + v))
    ensures NamedText(s, init, body, name, v)
  {
  }

  /**
   * Every title header `.OBJ <code> TIT` is also an ordinary header with the
   * localization word `TIT`; so the order of the two object forms matters.
   */
  lemma TitHeaderIsObjHeader(s: string)
    requires TitHeader(s).Some?
    ensures ObjHeader(s) == Some((TitHeader(s).value, "TIT"))
  {
    TitHeaderSpelling(s);
    TitObj(s, TitHeader(s).value);
  }

  lemma TitObj(s: string, c: string)
    requires TitText(s, c)
    ensures ObjText(s, c, "TIT")
  {
    var b0, b1, b2, rest :| TitParts(b0, b1, c, b2, rest) && s == b0 + (".OBJ" + (b1 + (c + (b2 + ("TIT" + rest)))));
    ObjTextIntro(s, b0, b1, c, b2, "TIT", rest);
  }

  /** A title line never opens a semantics block: one starts with `>`, the other with `.`. */
  lemma TitleLineIsNotSemHeader(s: string)
    requires TitleLine(s).Some?
    ensures SemHeader(s).None?
  {
    assert s[SkipBlanks(s, 0)] == '>' != ".SEM"[0];
  }
}
