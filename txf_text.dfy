/**
 * Character classes and the string helpers the parse actions rely on:
 * right-stripping (`str.rstrip`), the digit-string conversion behind `int(...)`
 * on a digits-only token, and `int(...)` on arbitrary field text.
 */
module TxfText {
  import opened TxfBase

  predicate IsDigit(c: char) { '0' <= c <= '9' }

  /** The letters of the grammar's `alphas`: ASCII letters only. */
  predicate IsAlpha(c: char) { 'A' <= c <= 'Z' || 'a' <= c <= 'z' }

  /** The whitespace the grammar skips between tokens on one line (space, tab, carriage return). */
  predicate IsBlank(c: char) { c == ' ' || c == '\t' || c == '\r' }

  /** The characters a unicode string's `isspace` accepts (Unicode 5.2, as in Python 2.7). */
  predicate IsSpace(c: char)
  {
    || c == ' ' || '\t' <= c <= '\r' || '\U{1C}' <= c <= '\U{1F}'
    || c == '\U{85}' || c == '\U{A0}' || c == '\U{1680}' || c == '\U{180E}'
    || '\U{2000}' <= c <= '\U{200A}' || c == '\U{2028}' || c == '\U{2029}'
    || c == '\U{202F}' || c == '\U{205F}' || c == '\U{3000}'
  }

  lemma BlankIsSpace(c: char)
    ensures IsBlank(c) ==> IsSpace(c)
  {
  }

  /** The spaces a tab at column `col` becomes: up to the next multiple of 8. */
  function TabWidth(col: nat): (w: nat)
    ensures 1 <= w <= 8 && (col + w) % 8 == 0
  {
    8 - col % 8
  }

  /** The column after the character `c`, written at column `col`. */
  function NextColumn(c: char, col: nat): nat
  {
    if c == '\t' then col + TabWidth(col)
    else if c == '\n' || c == '\r' then 0
    else col + 1
  }

  /** The column reached after writing `s` from column `col`. */
  function Column(s: string, col: nat): nat
    decreases |s|
  {
    if s == [] then col else Column(s[1..], NextColumn(s[0], col))
  }

  predicate NoTab(s: string) { forall k :: 0 <= k < |s| ==> s[k] != '\t' }

  predicate NoBreak(s: string) { forall k :: 0 <= k < |s| ==> s[k] != '\n' && s[k] != '\r' }

  function Spaces(n: nat): (r: string)
    ensures |r| == n && forall k :: 0 <= k < n ==> r[k] == ' '
  {
    seq(n, k => ' ')
  }

  /**
   * `expandtabs()` from column `col`: every tab becomes the spaces up to the
   * next multiple of 8, every other character stays, and a line feed or a
   * carriage return starts column 0 again.
   */
  function ExpandFrom(s: string, col: nat): (r: string)
    ensures |r| >= |s| && NoTab(r)
    ensures NoTab(s) ==> r == s
    decreases |s|
  {
    if s == [] then []
    else
      var rest := ExpandFrom(s[1..], NextColumn(s[0], col));
      assert NoTab(s) ==> NoTab(s[1..]) by {
        if NoTab(s) {
          forall k | 0 <= k < |s[1..]| ensures s[1..][k] != '\t' { assert s[1..][k] == s[k + 1]; }
        }
      }
      var head := if s[0] == '\t' then Spaces(TabWidth(col)) else [s[0]];
      assert NoTab(head + rest) by {
        forall k | 0 <= k < |head + rest| ensures (head + rest)[k] != '\t' {
          if k >= |head| { assert (head + rest)[k] == rest[k - |head|]; }
        }
      }
      head + rest
  }

  /** `s.expandtabs()` on a text that starts at column 0. */
  function ExpandTabs(s: string): (r: string)
    ensures NoTab(r) && (NoTab(s) ==> r == s)
  {
    ExpandFrom(s, 0)
  }

  lemma {:induction false} ColumnAppend(a: string, b: string, col: nat)
    ensures Column(a + b, col) == Column(b, Column(a, col))
    decreases |a|
  {
    if a == [] {
      assert a + b == b;
    } else {
      assert (a + b)[0] == a[0] && (a + b)[1..] == a[1..] + b;
      ColumnAppend(a[1..], b, NextColumn(a[0], col));
    }
  }

  /** Expansion goes piece by piece: the second piece starts at the column the first one reaches. */
  lemma {:induction false} ExpandAppend(a: string, b: string, col: nat)
    ensures ExpandFrom(a + b, col) == ExpandFrom(a, col) + ExpandFrom(b, Column(a, col))
    decreases |a|
  {
    if a == [] {
      assert a + b == b;
    } else {
      assert (a + b)[0] == a[0] && (a + b)[1..] == a[1..] + b;
      ExpandAppend(a[1..], b, NextColumn(a[0], col));
    }
  }

  /** On one line, the column reached is the width of what the expansion wrote. */
  lemma {:induction false} ColumnIsWidth(s: string, col: nat)
    requires NoBreak(s)
    ensures Column(s, col) == col + |ExpandFrom(s, col)|
    decreases |s|
  {
    if s != [] {
      assert NoBreak(s[1..]) by {
        forall k | 0 <= k < |s[1..]| ensures s[1..][k] != '\n' && s[1..][k] != '\r' { assert s[1..][k] == s[k + 1]; }
      }
      ColumnIsWidth(s[1..], NextColumn(s[0], col));
    }
  }

  /** Tab stops every 8 columns: on one line, what a tab ends reaches a multiple of 8. */
  lemma TabStop(s: string)
    requires NoBreak(s)
    ensures |ExpandTabs(s + "\t")| % 8 == 0
  {
    ColumnAppend(s, "\t", 0);
    assert Column("\t", Column(s, 0)) == NextColumn('\t', Column(s, 0));
    assert NoBreak(s + "\t") by {
      forall k | 0 <= k < |s + "\t"| ensures (s + "\t")[k] != '\n' && (s + "\t")[k] != '\r' {
        if k < |s| { assert (s + "\t")[k] == s[k]; }
      }
    }
    ColumnIsWidth(s + "\t", 0);
  }

  /** A line break starts a fresh column, so a text expands as its lines do, each on its own. */
  lemma ExpandLinesApart(a: string, b: string)
    ensures ExpandTabs(a + "\n" + b) == ExpandTabs(a) + "\n" + ExpandTabs(b)
  {
    assert a + "\n" + b == a + ("\n" + b);
    ExpandAppend(a, "\n" + b, 0);
    ExpandAppend("\n", b, Column(a, 0));
    assert Column("\n", Column(a, 0)) == 0;
    assert ExpandFrom("\n", Column(a, 0)) == "\n";
  }

  predicate AllDigits(s: string) { forall k :: 0 <= k < |s| ==> IsDigit(s[k]) }

  /** `s.rstrip()`: the longest prefix of `s` that does not end in whitespace. */
  function RStrip(s: string): (r: string)
    ensures |r| <= |s| && r == s[..|r|]
    ensures forall k :: |r| <= k < |s| ==> IsSpace(s[k])
    ensures r == [] || !IsSpace(r[|r| - 1])
  {
    if s == [] || !IsSpace(s[|s| - 1]) then s else RStrip(s[..|s| - 1])
  }

  /** The three properties in RStrip's contract determine its result. */
  lemma RStripUnique(s: string, t: string)
    requires |t| <= |s| && t == s[..|t|]
    requires forall k :: |t| <= k < |s| ==> IsSpace(s[k])
    requires t == [] || !IsSpace(t[|t| - 1])
    ensures t == RStrip(s)
  {
  }

  lemma RStripIdempotent(s: string)
    ensures RStrip(RStrip(s)) == RStrip(s)
  {
    var r := RStrip(s);
    RStripUnique(r, r);
  }

  /** Strips leading whitespace, as `int(...)` does before reading a number. */
  function LStrip(s: string): (r: string)
    ensures |r| <= |s| && r == s[|s| - |r|..]
    ensures forall k :: 0 <= k < |s| - |r| ==> IsSpace(s[k])
    ensures r == [] || !IsSpace(r[0])
  {
    if s == [] || !IsSpace(s[0]) then s else LStrip(s[1..])
  }

  /** The value of a decimal digit string, most significant digit first. */
  function DigitsToNat(s: string): nat
    requires AllDigits(s)
  {
    if s == [] then 0 else DigitsToNat(s[..|s| - 1]) * 10 + (s[|s| - 1] as int - '0' as int)
  }

  function DigitChar(d: nat): (c: char)
    requires d < 10
    ensures IsDigit(c) && c as int - '0' as int == d
  {
    ('0' as int + d) as char
  }

  /** `str(n)` for a natural number: its shortest decimal spelling. */
  function NatToDigits(n: nat): (s: string)
    ensures |s| >= 1 && AllDigits(s)
    ensures |s| > 1 ==> s[0] != '0'
  {
    if n < 10 then [DigitChar(n)] else NatToDigits(n / 10) + [DigitChar(n % 10)]
  }

  lemma {:induction false} DigitsOfNat(n: nat)
    ensures DigitsToNat(NatToDigits(n)) == n
  {
    if n >= 10 {
      var s := NatToDigits(n);
      assert s[..|s| - 1] == NatToDigits(n / 10);
      DigitsOfNat(n / 10);
    }
  }

  lemma {:induction false} NonZeroLead(s: string)
    requires AllDigits(s) && |s| >= 1 && s[0] != '0'
    ensures DigitsToNat(s) >= 1
    ensures |s| > 1 ==> DigitsToNat(s) >= 10
  {
    if |s| > 1 {
      NonZeroLead(s[..|s| - 1]);
    }
  }

  /** A digit string without a leading zero spells its own value: `str(int(s)) == s`. */
  lemma {:induction false} NatOfDigits(s: string)
    requires AllDigits(s) && |s| >= 1 && (|s| > 1 ==> s[0] != '0')
    ensures NatToDigits(DigitsToNat(s)) == s
  {
    if |s| > 1 {
      var p := s[..|s| - 1];
      NonZeroLead(s);
      NonZeroLead(p);
      NatOfDigits(p);
      assert DigitsToNat(s) / 10 == DigitsToNat(p);
      assert s == p + [s[|s| - 1]];
    }
  }

  /** A leading zero does not change the value, so `str(int(s)) != s` for `s == "05"`. */
  lemma {:induction false} LeadingZero(s: string)
    requires AllDigits(s)
    ensures AllDigits("0" + s) && DigitsToNat("0" + s) == DigitsToNat(s)
  {
    if s != [] {
      assert ("0" + s)[..|"0" + s| - 1] == "0" + s[..|s| - 1];
      LeadingZero(s[..|s| - 1]);
    }
  }

  /**
   * `int(text)` on a unicode string: whitespace around the number is ignored,
   * then an optional sign, more whitespace, and one or more ASCII digits;
   * anything else is an error.
   */
  function ParseInt(text: string): Option<int>
  {
    SignedDigits(RStrip(LStrip(text)))
  }

  /** `int` ignores whitespace around the number: it reads only what lies from the first to the last other character. */
  lemma ParseIntTrims(w1: string, m: string, w2: string)
    requires |m| >= 1 && !IsSpace(m[0]) && !IsSpace(m[|m| - 1])
    requires forall k :: 0 <= k < |w1| ==> IsSpace(w1[k])
    requires forall k :: 0 <= k < |w2| ==> IsSpace(w2[k])
    ensures ParseInt(w1 + m + w2) == SignedDigits(m)
  {
    var x := w1 + m + w2;
    var l := LStrip(x);
    var p := |x| - |l|;
    assert p == |w1| by {
      assert x[|w1|] == m[0];
      assert forall k :: 0 <= k < |w1| ==> x[k] == w1[k];
      assert |l| >= 1 && l[0] == x[p];
    }
    assert l == m + w2;
    assert (m + w2)[..|m|] == m;
    RStripUnique(m + w2, m);
  }

  /** An optional sign, whitespace after it, then one or more digits, and nothing else. */
  function SignedDigits(t: string): Option<int>
  {
    if |t| >= 1 && (t[0] == '-' || t[0] == '+') then
      var body := t[SpacesEnd(t, 1)..];
      if |body| >= 1 && AllDigits(body) then
        Option<int>.Some(if t[0] == '-' then -(DigitsToNat(body) as int) else DigitsToNat(body))
      else
        None
    else if |t| >= 1 && AllDigits(t) then
      Some(DigitsToNat(t))
    else
      None
  }

  /** The position of the first non-whitespace character at or after `i`. */
  function SpacesEnd(s: string, i: nat): (j: nat)
    requires i <= |s|
    ensures i <= j <= |s|
    ensures forall k :: i <= k < j ==> IsSpace(s[k])
    ensures j == |s| || !IsSpace(s[j])
    decreases |s| - i
  {
    if i < |s| && IsSpace(s[i]) then SpacesEnd(s, i + 1) else i
  }

  /** `int` reads a sign followed by whitespace and digits: `int(u"- 5") == -5`. */
  lemma SpacedSign(w: string, s: string, sign: char)
    requires AllDigits(s) && |s| >= 1 && (sign == '-' || sign == '+')
    requires forall k :: 0 <= k < |w| ==> IsSpace(w[k])
    ensures ParseInt([sign] + w + s) == Option<int>.Some(if sign == '-' then -(DigitsToNat(s) as int) else DigitsToNat(s))
  {
    var m := [sign] + w + s;
    assert RStrip(LStrip(m)) == m by {
      assert m[0] == sign && m[|m| - 1] == s[|s| - 1];
      NoSurroundingSpace(m);
    }
    SignedSpaces(w, s, sign);
  }

  lemma SignedSpaces(w: string, s: string, sign: char)
    requires AllDigits(s) && |s| >= 1 && (sign == '-' || sign == '+')
    requires forall k :: 0 <= k < |w| ==> IsSpace(w[k])
    ensures SignedDigits([sign] + w + s) == Option<int>.Some(if sign == '-' then -(DigitsToNat(s) as int) else DigitsToNat(s))
  {
    SkipSpaces(w, s, sign);
    SignThenDigits([sign] + w + s, s);
  }

  lemma SkipSpaces(w: string, s: string, sign: char)
    requires |s| >= 1 && !IsSpace(s[0])
    requires forall k :: 0 <= k < |w| ==> IsSpace(w[k])
    ensures var m := [sign] + w + s; m[0] == sign && m[SpacesEnd(m, 1)..] == s
  {
    var m := [sign] + w + s;
    assert forall k :: 1 <= k < 1 + |w| ==> m[k] == w[k - 1];
    assert 1 + |w| < |m| && m[1 + |w|] == s[0];
    assert SpacesEnd(m, 1) == 1 + |w|;
    assert m[1 + |w|..] == s;
  }

  lemma SignThenDigits(t: string, s: string)
    requires AllDigits(s) && |s| >= 1 && |t| >= 1 && (t[0] == '-' || t[0] == '+') && t[SpacesEnd(t, 1)..] == s
    ensures SignedDigits(t) == Option<int>.Some(if t[0] == '-' then -(DigitsToNat(s) as int) else DigitsToNat(s))
  {
  }

  /** `int` reads back every spelling `str` gives a natural number, and that spelling with a sign. */
  lemma ParseIntOfDigits(s: string)
    requires AllDigits(s) && |s| >= 1
    ensures ParseInt(s) == Some(DigitsToNat(s))
    ensures ParseInt("-" + s) == Option<int>.Some(-(DigitsToNat(s) as int))
    ensures ParseInt("+" + s) == Some(DigitsToNat(s))
  {
    Unsigned(s);
    Signed(s, '-');
    Signed(s, '+');
  }

  lemma Unsigned(s: string)
    requires AllDigits(s) && |s| >= 1
    ensures ParseInt(s) == Some(DigitsToNat(s))
  {
    NoSurroundingSpace(s);
  }

  lemma Signed(s: string, sign: char)
    requires AllDigits(s) && |s| >= 1 && (sign == '-' || sign == '+')
    ensures ParseInt([sign] + s) == Option<int>.Some(if sign == '-' then -(DigitsToNat(s) as int) else DigitsToNat(s))
  {
    assert [sign] + s == [sign] + [] + s;
    SpacedSign([], s, sign);
  }

  lemma NoSurroundingSpace(s: string)
    requires |s| >= 1 && !IsSpace(s[0]) && !IsSpace(s[|s| - 1])
    ensures RStrip(LStrip(s)) == s
  {
  }

  /**
   * `t` spells `v` the way `int` reads it: whitespace up to `a`; when `b > a`,
   * a sign at `a` and whitespace up to `b`; one or more ASCII digits from `b`
   * up to `c`; whitespace to the end. The value is the digits', negated
   * after a minus sign.
   */
  predicate IntAt(t: string, a: nat, b: nat, c: nat, v: int)
  {
    && a <= b < c <= |t|
    && (forall k :: 0 <= k < a ==> IsSpace(t[k]))
    && (b == a || ((t[a] == '-' || t[a] == '+') && forall k :: a < k < b ==> IsSpace(t[k])))
    && AllDigits(t[b..c])
    && (forall k :: c <= k < |t| ==> IsSpace(t[k]))
    && v == if b > a && t[a] == '-' then -(DigitsToNat(t[b..c]) as int) else DigitsToNat(t[b..c])
  }

  /** `int(text)` succeeds exactly on the spellings of an integer, with their value. */
  lemma ParseIntSpelling(t: string, v: int)
    ensures ParseInt(t) == Some(v) <==> exists a: nat, b: nat, c: nat :: IntAt(t, a, b, c, v)
  {
    if ParseInt(t) == Some(v) {
      ParseIntHasSpelling(t, v);
    }
    if exists a: nat, b: nat, c: nat :: IntAt(t, a, b, c, v) {
      var a: nat, b: nat, c: nat :| IntAt(t, a, b, c, v);
      SpellingParses(t, a, b, c, v);
    }
  }

  lemma SpellingParses(t: string, a: nat, b: nat, c: nat, v: int)
    requires IntAt(t, a, b, c, v)
    ensures ParseInt(t) == Some(v)
  {
    SpellingTrims(t, a, b, c, v);
    SpellingValue(t, a, b, c, v);
  }

  lemma SpellingTrims(t: string, a: nat, b: nat, c: nat, v: int)
    requires IntAt(t, a, b, c, v)
    ensures ParseInt(t) == SignedDigits(t[a..c])
  {
    var m := t[a..c];
    assert t == t[..a] + m + t[c..];
    assert m[|m| - 1] == t[c - 1] == t[b..c][c - 1 - b];
    assert !IsSpace(m[0]) by {
      if b == a { assert m[0] == t[b..c][0]; }
    }
    assert forall k :: 0 <= k < |t[c..]| ==> IsSpace(t[c..][k]) by {
      forall k | 0 <= k < |t[c..]| ensures IsSpace(t[c..][k]) { assert t[c..][k] == t[c + k]; }
    }
    ParseIntTrims(t[..a], m, t[c..]);
  }

  lemma SpellingValue(t: string, a: nat, b: nat, c: nat, v: int)
    requires IntAt(t, a, b, c, v)
    ensures SignedDigits(t[a..c]) == Some(v)
  {
    if b == a {
      assert t[a..c] == t[b..c];
      assert t[b..c][0] == t[a];
    } else {
      var w := t[a + 1..b];
      SliceSplit(t, a, b, c);
      assert t[a..b] == [t[a]] + w;
      assert forall k :: 0 <= k < |w| ==> IsSpace(w[k]) by {
        forall k | 0 <= k < |w| ensures IsSpace(w[k]) { assert w[k] == t[a + 1 + k]; }
      }
      SignedSpaces(w, t[b..c], t[a]);
    }
  }

  lemma SliceSplit(t: string, i: nat, j: nat, k: nat)
    requires i <= j <= k <= |t|
    ensures t[i..k] == t[i..j] + t[j..k]
  {
  }

  lemma ParseIntHasSpelling(t: string, v: int)
    requires ParseInt(t) == Some(v)
    ensures exists a: nat, b: nat, c: nat :: IntAt(t, a, b, c, v)
  {
    var a, c := Trimmed(t);
    var b := SignedSpelling(t[a..c], v);
    Padded(t, a, b, c, v);
    assert IntAt(t, a, a + b, c, v);
  }

  /** Where the text `int` reads lies: between the surrounding whitespace. */
  lemma Trimmed(t: string) returns (a: nat, c: nat)
    ensures a <= c <= |t| && t[a..c] == RStrip(LStrip(t))
    ensures forall k :: 0 <= k < a ==> IsSpace(t[k])
    ensures forall k :: c <= k < |t| ==> IsSpace(t[k])
  {
    var l := LStrip(t);
    var m := RStrip(l);
    a := |t| - |l|;
    c := a + |m|;
    forall k | c <= k < |t| ensures IsSpace(t[k]) {
      assert t[k] == l[k - a];
    }
    assert t[a..c] == l[..|m|];
  }

  lemma SignedSpelling(m: string, v: int) returns (b: nat)
    requires SignedDigits(m) == Some(v)
    ensures IntAt(m, 0, b, |m|, v)
  {
    if m[0] == '-' || m[0] == '+' {
      b := SpacesEnd(m, 1);
      assert m[b..|m|] == m[b..];
    } else {
      b := 0;
      assert m[b..|m|] == m;
    }
  }

  lemma Padded(t: string, a: nat, b: nat, c: nat, v: int)
    requires a <= c <= |t| && IntAt(t[a..c], 0, b, |t[a..c]|, v)
    requires forall k :: 0 <= k < a ==> IsSpace(t[k])
    requires forall k :: c <= k < |t| ==> IsSpace(t[k])
    ensures IntAt(t, a, a + b, c, v)
  {
    var m := t[a..c];
    assert t[a + b..c] == m[b..c - a];
    assert t[a] == m[0];
    forall k | a < k < a + b ensures IsSpace(t[k]) {
      assert t[k] == m[k - a];
    }
  }

  /** Text that holds a character other than a digit, a sign or whitespace is never an integer. */
  lemma ParseIntRejects(text: string, k: nat)
    requires k < |text| && !IsDigit(text[k]) && !IsSpace(text[k]) && text[k] != '-' && text[k] != '+'
    ensures ParseInt(text) == None
  {
    var l := LStrip(text);
    var t := RStrip(l);
    var j := k - (|text| - |l|);
    assert 0 <= j < |l| && l[j] == text[k];
    if |t| >= 1 && (t[0] == '-' || t[0] == '+') {
      assert j != 0;
      var e := SpacesEnd(t, 1);
      assert t[j] == l[j];
      assert e <= j;
      assert t[e..][j - e] == t[j];
    } else {
      assert t[j] == l[j];
    }
  }
}
