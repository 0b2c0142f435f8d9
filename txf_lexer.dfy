/**
 * The lexical layer of the grammar, on one line of text: skipping blanks
 * between tokens, `Word(init, body)` tokens (a maximal run of characters),
 * keyword literals, the `White()` separator and `restOfLine`.
 */
module TxfLexer {
  import opened TxfBase
  import opened TxfText

  /** The character sets the grammar builds its words from. */
  datatype CharClass =
    | Digits      // `nums`
    | Letters     // `alphas`
    | DotNumber   // `nums + '.-'`
    | Only(c: char)

  predicate In(c: char, cls: CharClass)
  {
    match cls
    case Digits => IsDigit(c)
    case Letters => IsAlpha(c)
    case DotNumber => IsDigit(c) || c == '.' || c == '-'
    case Only(d) => c == d
  }

  /** The position of the first non-blank character at or after `i`. */
  function SkipBlanks(s: string, i: nat): (j: nat)
    requires i <= |s|
    ensures i <= j <= |s|
    ensures forall k :: i <= k < j ==> IsBlank(s[k])
    ensures j == |s| || !IsBlank(s[j])
    decreases |s| - i
  {
    if i < |s| && IsBlank(s[i]) then SkipBlanks(s, i + 1) else i
  }

  /** The end of the longest run of `cls` characters starting at `i`. */
  function RunEnd(s: string, i: nat, cls: CharClass): (j: nat)
    requires i <= |s|
    ensures i <= j <= |s|
    ensures forall k :: i <= k < j ==> In(s[k], cls)
    ensures j == |s| || !In(s[j], cls)
    decreases |s| - i
  {
    if i < |s| && In(s[i], cls) then RunEnd(s, i + 1, cls) else i
  }

  datatype Token = Token(text: string, end: nat)

  /**
   * `Word(init, body)`: after the blanks at `i`, one `init` character followed
   * by as many `body` characters as there are; no match when the first
   * non-blank character is not an `init` character.
   */
  function Word(s: string, i: nat, init: CharClass, body: CharClass): (r: Option<Token>)
    requires i <= |s|
    ensures r.None? <==> SkipBlanks(s, i) == |s| || !In(s[SkipBlanks(s, i)], init)
    ensures r.Some? ==>
      var k := SkipBlanks(s, i);
      && k < r.value.end <= |s|
      && r.value.text == s[k..r.value.end]
      && In(r.value.text[0], init)
      && (forall m :: 1 <= m < |r.value.text| ==> In(r.value.text[m], body))
      && (r.value.end == |s| || !In(s[r.value.end], body))
  {
    var k := SkipBlanks(s, i);
    if k < |s| && In(s[k], init) then
      var e := RunEnd(s, k + 1, body);
      Some(Token(s[k..e], e))
    else
      None
  }

  /** `Word(c)`: a run of one or more characters of one class. */
  function WordOf(s: string, i: nat, cls: CharClass): (r: Option<Token>)
    requires i <= |s|
    ensures r.None? <==> SkipBlanks(s, i) == |s| || !In(s[SkipBlanks(s, i)], cls)
    ensures r.Some? ==> |r.value.text| >= 1 && (forall m :: 0 <= m < |r.value.text| ==> In(r.value.text[m], cls))
    ensures r.Some? ==> SkipBlanks(s, i) < r.value.end <= |s| && r.value.text == s[SkipBlanks(s, i)..r.value.end]
    ensures r.Some? ==> r.value.end == |s| || !In(s[r.value.end], cls)
  {
    Word(s, i, cls, cls)
  }

  /**
   * A keyword literal after the blanks at `i`, matched as a whole token: it
   * must be followed by a blank or the end of the line. Yields the position
   * after the keyword.
   */
  function Keyword(s: string, i: nat, kw: string): (r: Option<nat>)
    requires i <= |s|
    ensures r.Some? ==>
      var k := SkipBlanks(s, i);
      && r.value == k + |kw| <= |s|
      && s[k..r.value] == kw
      && (r.value == |s| || IsBlank(s[r.value]))
    ensures r.None? ==>
      var k := SkipBlanks(s, i);
      k + |kw| > |s| || s[k..k + |kw|] != kw || (k + |kw| < |s| && !IsBlank(s[k + |kw|]))
  {
    var k := SkipBlanks(s, i);
    if k + |kw| <= |s| && s[k..k + |kw|] == kw && (k + |kw| == |s| || IsBlank(s[k + |kw|])) then
      Some(k + |kw|)
    else
      None
  }

  /** A one-character marker after the blanks at `i`, whatever follows it. */
  function Marker(s: string, i: nat, c: char): (r: Option<nat>)
    requires i <= |s|
    ensures r.Some? <==> SkipBlanks(s, i) < |s| && s[SkipBlanks(s, i)] == c
    ensures r.Some? ==> r.value == SkipBlanks(s, i) + 1
  {
    var k := SkipBlanks(s, i);
    if k < |s| && s[k] == c then Some(k + 1) else None
  }

  /** `White()`: one or more blanks starting exactly at `i` (it skips nothing before itself). */
  function White(s: string, i: nat): (r: Option<nat>)
    requires i <= |s|
    ensures r.Some? <==> i < |s| && IsBlank(s[i])
    ensures r.Some? ==> i < r.value <= |s| && (forall k :: i <= k < r.value ==> IsBlank(s[k]))
    ensures r.Some? ==> r.value == |s| || !IsBlank(s[r.value])
  {
    if i < |s| && IsBlank(s[i]) then Some(SkipBlanks(s, i)) else None
  }

  /** `restOfLine`: everything from `i` to the end of the line, blanks included. */
  function RestOfLine(s: string, i: nat): (r: string)
    requires i <= |s|
    ensures |r| == |s| - i && forall k :: 0 <= k < |r| ==> r[k] == s[i + k]
  {
    s[i..]
  }

  // ---- Reading spelled-out text, and splitting matched text into its pieces.

  predicate Blanks(b: string) { forall k :: 0 <= k < |b| ==> IsBlank(b[k]) }

  predicate AllIn(t: string, cls: CharClass) { forall k :: 0 <= k < |t| ==> In(t[k], cls) }

  /** What may follow a word of `cls`: the end of the line or a character that does not continue it. */
  predicate Ends(rest: string, cls: CharClass) { rest == [] || !In(rest[0], cls) }

  /** What may follow a keyword: the end of the line or a blank. */
  predicate Apart(rest: string) { rest == [] || IsBlank(rest[0]) }

  /** A class without blanks, so that a word of it stops at the first blank. */
  predicate Solid(cls: CharClass) { !cls.Only? || !IsBlank(cls.c) }

  /** SkipBlanks stops at the first non-blank character and nowhere else. */
  lemma SkipTo(s: string, i: nat, j: nat)
    requires i <= j <= |s| && (forall k :: i <= k < j ==> IsBlank(s[k])) && (j == |s| || !IsBlank(s[j]))
    ensures SkipBlanks(s, i) == j
  {
  }

  lemma RunTo(s: string, i: nat, j: nat, cls: CharClass)
    requires i <= j <= |s| && (forall k :: i <= k < j ==> In(s[k], cls)) && (j == |s| || !In(s[j], cls))
    ensures RunEnd(s, i, cls) == j
  {
  }

  lemma Suffix(s: string, i: nat, a: string, b: string)
    requires i <= |s| && s[i..] == a + b
    ensures i + |a| <= |s| && s[i + |a|..] == b
    ensures forall k :: 0 <= k < |a| ==> s[i + k] == a[k]
  {
    assert forall k :: 0 <= k < |a| ==> s[i + k] == s[i..][k];
    assert forall k | |a| <= k < |a| + |b| :: s[i + k] == s[i..][k];
  }

  /** A word whose first character is at `j` and whose run of `body` characters ends at `e`. */
  lemma WordAt(s: string, i: nat, j: nat, e: nat, init: CharClass, body: CharClass)
    requires i <= j < e <= |s| && (forall k :: i <= k < j ==> IsBlank(s[k]))
    requires !IsBlank(s[j]) && In(s[j], init)
    requires (forall k :: j + 1 <= k < e ==> In(s[k], body)) && (e == |s| || !In(s[e], body))
    ensures Word(s, i, init, body) == Some(Token(s[j..e], e))
  {
    SkipTo(s, i, j);
    RunTo(s, j + 1, e, body);
  }

  lemma WordFrom(s: string, i: nat, b: string, t: string, rest: string, init: CharClass, body: CharClass)
    requires i <= |s| && s[i..] == b + (t + rest)
    requires Blanks(b) && |t| >= 1 && !IsBlank(t[0]) && In(t[0], init)
    requires (forall k :: 1 <= k < |t| ==> In(t[k], body)) && Ends(rest, body)
    ensures var w := Word(s, i, init, body);
      w.Some? && w.value.text == t && w.value.end == i + |b| + |t| && s[w.value.end..] == rest
  {
    var j := i + |b|;
    var e := j + |t|;
    assert s[j..] == t + rest && (forall k :: i <= k < j ==> IsBlank(s[k])) by {
      Suffix(s, i, b, t + rest);
    }
    assert s[e..] == rest && s[j..e] == t && (forall k :: j <= k < e ==> s[k] == t[k - j]) by {
      Suffix(s, j, t, rest);
      assert s[j..e] == t;
    }
    assert e == |s| || s[e] == rest[0];
    WordAt(s, i, j, e, init, body);
  }

  lemma WordOfFrom(s: string, i: nat, b: string, t: string, rest: string, cls: CharClass)
    requires i <= |s| && s[i..] == b + (t + rest) && Solid(cls)
    requires Blanks(b) && |t| >= 1 && AllIn(t, cls) && Ends(rest, cls)
    ensures var w := WordOf(s, i, cls);
      w.Some? && w.value.text == t && w.value.end == i + |b| + |t| && s[w.value.end..] == rest
  {
    assert In(t[0], cls);
    WordFrom(s, i, b, t, rest, cls, cls);
  }

  lemma KeywordFrom(s: string, i: nat, b: string, kw: string, rest: string)
    requires i <= |s| && s[i..] == b + (kw + rest)
    requires Blanks(b) && |kw| >= 1 && !IsBlank(kw[0]) && Apart(rest)
    ensures var e := Keyword(s, i, kw); e.Some? && e.value == i + |b| + |kw| && s[e.value..] == rest
  {
    Suffix(s, i, b, kw + rest);
    var j := i + |b|;
    Suffix(s, j, kw, rest);
    SkipTo(s, i, j);
    assert s[j..j + |kw|] == kw;
    assert j + |kw| < |s| ==> s[j + |kw|] == rest[0];
  }

  lemma WhiteFrom(s: string, i: nat, b: string, rest: string)
    requires i <= |s| && s[i..] == b + rest
    requires |b| >= 1 && Blanks(b) && (rest == [] || !IsBlank(rest[0]))
    ensures var e := White(s, i); e.Some? && e.value == i + |b| && s[e.value..] == rest
  {
    Suffix(s, i, b, rest);
    assert i + |b| < |s| ==> s[i + |b|] == rest[0];
    SkipTo(s, i, i + |b|);
  }

  lemma MarkerFrom(s: string, i: nat, b: string, c: char, rest: string)
    requires i <= |s| && s[i..] == b + ([c] + rest)
    requires Blanks(b) && !IsBlank(c)
    ensures var e := Marker(s, i, c); e.Some? && e.value == i + |b| + 1 && s[e.value..] == rest
  {
    Suffix(s, i, b, [c] + rest);
    Suffix(s, i + |b|, [c], rest);
    SkipTo(s, i, i + |b|);
  }

  lemma Cut(s: string, i: nat, j: nat)
    requires i <= j <= |s|
    ensures s[i..] == s[i..j] + s[j..]
  {
  }

  lemma BlanksBetween(s: string, i: nat, j: nat)
    requires i <= j <= |s| && forall k :: i <= k < j ==> IsBlank(s[k])
    ensures Blanks(s[i..j])
  {
    assert forall k :: 0 <= k < j - i ==> s[i..j][k] == s[i + k];
  }

  lemma WordSplit(s: string, i: nat, init: CharClass, body: CharClass)
    requires i <= |s| && Word(s, i, init, body).Some?
    ensures var k := SkipBlanks(s, i); var w := Word(s, i, init, body).value;
      && Blanks(s[i..k]) && s[i..] == s[i..k] + (w.text + s[w.end..]) && Ends(s[w.end..], body)
  {
    var k := SkipBlanks(s, i);
    var w := Word(s, i, init, body).value;
    BlanksBetween(s, i, k);
    Cut(s, i, k);
    Cut(s, k, w.end);
  }

  lemma KeywordSplit(s: string, i: nat, kw: string)
    requires i <= |s| && Keyword(s, i, kw).Some?
    ensures var k := SkipBlanks(s, i); var e := Keyword(s, i, kw).value;
      && Blanks(s[i..k]) && s[i..] == s[i..k] + (kw + s[e..]) && Apart(s[e..])
  {
    var k := SkipBlanks(s, i);
    var e := Keyword(s, i, kw).value;
    BlanksBetween(s, i, k);
    Cut(s, i, k);
    Cut(s, k, e);
  }

  lemma WhiteSplit(s: string, i: nat)
    requires i <= |s| && White(s, i).Some?
    ensures var e := White(s, i).value;
      && |s[i..e]| >= 1 && Blanks(s[i..e]) && s[i..] == s[i..e] + s[e..]
      && (s[e..] == [] || !IsBlank(s[e..][0]))
  {
    var e := White(s, i).value;
    BlanksBetween(s, i, e);
    Cut(s, i, e);
  }

  lemma MarkerSplit(s: string, i: nat, c: char)
    requires i <= |s| && Marker(s, i, c).Some?
    ensures var k := SkipBlanks(s, i);
      && Blanks(s[i..k]) && s[i..] == s[i..k] + ([c] + s[k + 1..])
  {
    var k := SkipBlanks(s, i);
    BlanksBetween(s, i, k);
    Cut(s, i, k);
    Cut(s, k, k + 1);
    assert s[k..k + 1] == [c];
  }
}
