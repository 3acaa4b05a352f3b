/** The functions of `JsonScan` accept exactly the documents of `JsonGrammar`: what they find is spelled at
    that place and well-formed, and every well-formed tree is found where it is spelled. */
module JsonPieces {
  import opened Basics
  import opened Unicode
  import opened JsonGrammar
  import opened JsonScan

  /** The text `w` stands at `pos`. */
  predicate At(s: Bytes, pos: nat, w: Bytes)
    decreases |w|
  {
    if w == [] then pos <= |s| else pos < |s| && s[pos] == w[0] && At(s, pos + 1, w[1..])
  }

  lemma {:induction false} AtMeansSlice(s: Bytes, pos: nat, w: Bytes)
    ensures At(s, pos, w) <==> pos + |w| <= |s| && s[pos..pos + |w|] == w
    decreases |w|
  {
    if w != [] {
      AtMeansSlice(s, pos + 1, w[1..]);
      if pos + |w| <= |s| {
        var t := s[pos..pos + |w|];
        assert t == [s[pos]] + s[pos + 1..pos + |w|];
        assert w == [w[0]] + w[1..];
        assert t == w ==> t[0] == w[0] && t[1..] == w[1..];
      }
    }
  }

  lemma {:induction false} AtJoin(s: Bytes, pos: nat, a: Bytes, b: Bytes)
    ensures At(s, pos, a + b) <==> At(s, pos, a) && At(s, pos + |a|, b)
    decreases |a|
  {
    if a == [] {
      assert a + b == b;
      AtFits(s, pos, b);
    } else {
      AtJoin(s, pos + 1, a[1..], b);
      assert (a + b)[1..] == a[1..] + b;
    }
  }

  lemma {:induction false} AtFits(s: Bytes, pos: nat, w: Bytes)
    ensures At(s, pos, w) ==> pos + |w| <= |s|
    decreases |w|
  {
    if w != [] { AtFits(s, pos + 1, w[1..]); }
  }

  lemma AtByte(s: Bytes, pos: nat, b: Byte)
    ensures At(s, pos, [b]) <==> Is(s, pos, b)
  {
    assert [b][1..] == [];
  }

  lemma AtSlice(s: Bytes, a: nat, b: nat)
    requires a <= b <= |s|
    ensures At(s, a, s[a..b]) && |s[a..b]| == b - a
  {
    AtMeansSlice(s, a, s[a..b]);
  }

  lemma SliceOf(s: Bytes, pos: nat, w: Bytes)
    requires At(s, pos, w)
    ensures pos + |w| <= |s| && s[pos..pos + |w|] == w
  {
    AtMeansSlice(s, pos, w);
  }

  lemma AtIndex(s: Bytes, pos: nat, w: Bytes, i: nat)
    requires At(s, pos, w) && i < |w|
    ensures pos + i < |s| && s[pos + i] == w[i]
  {
    AtMeansSlice(s, pos, w);
    assert s[pos..pos + |w|][i] == w[i];
  }

  // ----- runs of spaces and digits are taken whole

  lemma {:induction false} SkipSpaceSound(s: Bytes, pos: nat)
    requires pos <= |s|
    ensures Spaces(s[pos..SkipSpace(s, pos)])
    decreases |s| - pos
  {
    if pos < |s| && IsSpace(s[pos]) {
      SkipSpaceSound(s, pos + 1);
      assert s[pos..SkipSpace(s, pos)][1..] == s[pos + 1..SkipSpace(s, pos)];
    }
  }

  lemma {:induction false} SkipDigitsSound(s: Bytes, pos: nat)
    requires pos <= |s|
    ensures Digits(s[pos..SkipDigits(s, pos)])
    decreases |s| - pos
  {
    if pos < |s| && IsDigit(s[pos]) {
      SkipDigitsSound(s, pos + 1);
      assert s[pos..SkipDigits(s, pos)][1..] == s[pos + 1..SkipDigits(s, pos)];
    }
  }

  /** The byte at `pos`, if any, is one that can follow a value: a space, a comma or a closing bracket. */
  predicate Delimited(s: Bytes, pos: nat) {
    pos < |s| ==> IsSpace(s[pos]) || s[pos] == COMMA || s[pos] == RBRACE || s[pos] == RBRACKET
  }

  lemma {:induction false} SkipExact(s: Bytes, pos: nat, w: Bytes)
    requires At(s, pos, w) && Spaces(w)
    requires pos + |w| < |s| ==> !IsSpace(s[pos + |w|])
    ensures SkipSpace(s, pos) == pos + |w|
    decreases |w|
  {
    if w != [] {
      AtIndex(s, pos, w, 0);
      assert w == [w[0]] + w[1..];
      AtJoin(s, pos, [w[0]], w[1..]);
      SkipExact(s, pos + 1, w[1..]);
    }
  }

  lemma {:induction false} SkipDigitsExact(s: Bytes, pos: nat, w: Bytes)
    requires At(s, pos, w) && Digits(w)
    requires pos + |w| < |s| ==> !IsDigit(s[pos + |w|])
    ensures SkipDigits(s, pos) == pos + |w|
    decreases |w|
  {
    if w != [] {
      AtIndex(s, pos, w, 0);
      assert w == [w[0]] + w[1..];
      AtJoin(s, pos, [w[0]], w[1..]);
      SkipDigitsExact(s, pos + 1, w[1..]);
    }
  }

  // ----- characters

  lemma ShortSound(s: Bytes, pos: nat, letter: Byte)
    requires Is(s, pos, BACKSLASH) && ScanEscape(s, pos + 1).Got? && ScanEscape(s, pos + 1).tree == Short(letter)
    ensures ShortValue(letter).Some? && At(s, pos, [BACKSLASH, letter]) && ScanEscape(s, pos + 1).end == pos + 2
  {
    assert s[pos..pos + 2] == [BACKSLASH, letter];
    AtMeansSlice(s, pos, [BACKSLASH, letter]);
  }

  lemma UnitSound(s: Bytes, pos: nat, d: Bytes)
    requires Is(s, pos, BACKSLASH) && Is(s, pos + 1, LOWER_U) && ScanHex4(s, pos + 2) == Got(d, pos + 6)
    ensures At(s, pos, [BACKSLASH, LOWER_U] + d)
  {
    assert s[pos..pos + 2] == [BACKSLASH, LOWER_U];
    AtMeansSlice(s, pos, [BACKSLASH, LOWER_U]);
    AtMeansSlice(s, pos + 2, d);
    AtJoin(s, pos, [BACKSLASH, LOWER_U], d);
  }

  lemma PairSound(s: Bytes, pos: nat, hi: Bytes, lo: Bytes)
    requires |hi| == 4
    requires At(s, pos, [BACKSLASH, LOWER_U] + hi) && At(s, pos + 6, [BACKSLASH, LOWER_U] + lo)
    ensures At(s, pos, PrintChar(Pair(hi, lo)))
  {
    var a := [BACKSLASH, LOWER_U] + hi;
    var b := [BACKSLASH, LOWER_U] + lo;
    AtJoin(s, pos, a, b);
    assert a + b == PrintChar(Pair(hi, lo));
  }

  lemma EscapeSound(s: Bytes, pos: nat)
    requires Is(s, pos, BACKSLASH) && ScanEscape(s, pos + 1).Got?
    ensures
      var Got(c, p) := ScanEscape(s, pos + 1);
      CharOk(c) && At(s, pos, PrintChar(c)) && p == pos + |PrintChar(c)|
  {
    var Got(c, p) := ScanEscape(s, pos + 1);
    match c
    case Short(letter) => ShortSound(s, pos, letter);
    case CodeUnit(d) => UnitSound(s, pos, d);
    case Pair(hi, lo) =>
      UnitSound(s, pos, hi);
      UnitSound(s, pos + 6, lo);
      PairSound(s, pos, hi, lo);
  }

  lemma CharSound(s: Bytes, pos: nat)
    requires pos < |s| && s[pos] != QUOTE && ScanChar(s, pos).Got?
    ensures
      var Got(c, p) := ScanChar(s, pos);
      CharOk(c) && At(s, pos, PrintChar(c)) && p == pos + |PrintChar(c)|
  {
    if s[pos] == BACKSLASH {
      EscapeSound(s, pos);
    } else {
      AtByte(s, pos, s[pos]);
    }
  }

  lemma UnitComplete(s: Bytes, pos: nat, d: Bytes)
    requires IsHex4(d) && At(s, pos, [BACKSLASH, LOWER_U] + d)
    ensures Is(s, pos, BACKSLASH) && Is(s, pos + 1, LOWER_U) && ScanHex4(s, pos + 2) == Got(d, pos + 6)
  {
    AtJoin(s, pos, [BACKSLASH, LOWER_U], d);
    AtIndex(s, pos, [BACKSLASH, LOWER_U], 0);
    AtIndex(s, pos, [BACKSLASH, LOWER_U], 1);
    SliceOf(s, pos + 2, d);
  }

  lemma PairSplit(s: Bytes, pos: nat, hi: Bytes, lo: Bytes)
    requires |hi| == 4 && At(s, pos, PrintChar(Pair(hi, lo)))
    ensures At(s, pos, [BACKSLASH, LOWER_U] + hi) && At(s, pos + 6, [BACKSLASH, LOWER_U] + lo)
  {
    var a := [BACKSLASH, LOWER_U] + hi;
    var b := [BACKSLASH, LOWER_U] + lo;
    assert a + b == PrintChar(Pair(hi, lo));
    AtJoin(s, pos, a, b);
  }

  lemma EscapeComplete(s: Bytes, pos: nat, c: Char)
    requires CharOk(c) && !c.Plain? && At(s, pos, PrintChar(c))
    ensures Is(s, pos, BACKSLASH) && ScanEscape(s, pos + 1) == Got(c, pos + |PrintChar(c)|)
  {
    match c
    case Short(letter) =>
      AtIndex(s, pos, [BACKSLASH, letter], 0);
      AtIndex(s, pos, [BACKSLASH, letter], 1);
    case CodeUnit(d) => UnitComplete(s, pos, d);
    case Pair(hi, lo) =>
      PairSplit(s, pos, hi, lo);
      UnitComplete(s, pos, hi);
      UnitComplete(s, pos + 6, lo);
  }

  lemma CharComplete(s: Bytes, pos: nat, c: Char)
    requires CharOk(c) && At(s, pos, PrintChar(c))
    ensures pos < |s| && s[pos] != QUOTE && ScanChar(s, pos) == Got(c, pos + |PrintChar(c)|)
  {
    AtIndex(s, pos, PrintChar(c), 0);
    if !c.Plain? { EscapeComplete(s, pos, c); }
  }

  // ----- strings

  lemma {:induction false} CharsSound(s: Bytes, pos: nat)
    requires pos <= |s| && ScanChars(s, pos).Got?
    ensures
      var Got(cs, p) := ScanChars(s, pos);
      CharsOk(cs) && At(s, pos, PrintChars(cs) + [QUOTE]) && p == pos + |PrintChars(cs)| + 1
    decreases |s| - pos
  {
    if s[pos] == QUOTE {
      AtByte(s, pos, QUOTE);
      assert [] + [QUOTE] == [QUOTE];
    } else {
      var Got(c, p) := ScanChar(s, pos);
      CharSound(s, pos);
      CharsSound(s, p);
      var cs := ScanChars(s, p).tree;
      AtJoin(s, pos, PrintChar(c), PrintChars(cs) + [QUOTE]);
      Regroup(PrintChar(c), PrintChars(cs), [QUOTE]);
      assert ([c] + cs)[1..] == cs;
    }
  }

  /** The first character, the others, and where those begin and end. */
  lemma CharsSplit(s: Bytes, pos: nat, cs: seq<Char>) returns (c: Char, rest: seq<Char>, p: nat, q: nat)
    requires cs != [] && CharsOk(cs) && At(s, pos, PrintChars(cs) + [QUOTE])
    ensures cs == [c] + rest && CharOk(c) && CharsOk(rest)
    ensures p == pos + |PrintChar(c)| && q == p + |PrintChars(rest)| == pos + |PrintChars(cs)|
    ensures At(s, pos, PrintChar(c)) && At(s, p, PrintChars(rest) + [QUOTE])
  {
    c, rest := cs[0], cs[1..];
    p := pos + |PrintChar(c)|;
    q := p + |PrintChars(rest)|;
    Regroup(PrintChar(c), PrintChars(rest), [QUOTE]);
    AtJoin(s, pos, PrintChar(c), PrintChars(rest) + [QUOTE]);
  }

  lemma OneCharMore(s: Bytes, pos: nat, c: Char, p: nat, rest: seq<Char>, cs: seq<Char>, q: nat)
    requires pos < |s| && s[pos] != QUOTE && ScanChar(s, pos) == Got(c, p)
    requires ScanChars(s, p) == Got(rest, q) && cs == [c] + rest
    ensures ScanChars(s, pos) == Got(cs, q)
  {
  }

  lemma NoCharsComplete(s: Bytes, pos: nat)
    requires At(s, pos, PrintChars([]) + [QUOTE])
    ensures pos <= |s| && ScanChars(s, pos) == Got([], pos + 1)
  {
    assert PrintChars([]) + [QUOTE] == [QUOTE];
    AtByte(s, pos, QUOTE);
  }

  lemma {:induction false} CharsComplete(s: Bytes, pos: nat, cs: seq<Char>)
    requires CharsOk(cs) && At(s, pos, PrintChars(cs) + [QUOTE])
    ensures pos <= |s| && ScanChars(s, pos) == Got(cs, pos + |PrintChars(cs)| + 1)
    decreases |cs|
  {
    if cs == [] {
      NoCharsComplete(s, pos);
    } else {
      var c, rest, p, q := CharsSplit(s, pos, cs);
      CharComplete(s, pos, c);
      CharsComplete(s, p, rest);
      OneCharMore(s, pos, c, p, rest, cs, q + 1);
    }
  }

  lemma StringSound(s: Bytes, pos: nat)
    requires ScanString(s, pos).Got?
    ensures
      var Got(cs, p) := ScanString(s, pos);
      StringOk(cs) && At(s, pos, Quoted(cs)) && p == pos + |Quoted(cs)|
  {
    CharsSound(s, pos + 1);
    AtByte(s, pos, QUOTE);
    AtJoin(s, pos, [QUOTE], PrintChars(ScanString(s, pos).tree) + [QUOTE]);
  }

  lemma StringComplete(s: Bytes, pos: nat, cs: seq<Char>)
    requires StringOk(cs) && At(s, pos, Quoted(cs))
    ensures ScanString(s, pos) == Got(cs, pos + |Quoted(cs)|) && Is(s, pos, QUOTE)
  {
    AtJoin(s, pos, [QUOTE], PrintChars(cs) + [QUOTE]);
    AtByte(s, pos, QUOTE);
    CharsComplete(s, pos + 1, cs);
    assert |Quoted(cs)| == |PrintChars(cs)| + 2;
  }

  // ----- numbers

  lemma ExponentSound(s: Bytes, pos: nat)
    requires pos <= |s| && ScanExponent(s, pos).Got?
    ensures
      var Got(e, p) := ScanExponent(s, pos);
      ExponentOk(e) && At(s, pos, PrintExponent(e)) && p == pos + |PrintExponent(e)|
  {
    var Got(e, p) := ScanExponent(s, pos);
    if e.Exponent? {
      var d := ScanSign(s, pos + 1);
      AtByte(s, pos, s[pos]);
      AtSlice(s, pos + 1, d);
      AtSlice(s, d, p);
      SkipDigitsSound(s, d);
      AtJoin(s, pos + 1, e.sign, e.digits);
      AtJoin(s, pos, [e.letter], e.sign + e.digits);
    }
  }

  lemma FractionSound(s: Bytes, pos: nat)
    requires pos <= |s| && ScanFraction(s, pos).Some?
    ensures FractionOk(s[pos..ScanFraction(s, pos).value])
  {
    var f := ScanFraction(s, pos).value;
    if f != pos {
      SkipDigitsSound(s, pos + 1);
      assert s[pos..f][1..] == s[pos + 1..f];
    }
  }

  lemma WholeSound(s: Bytes, pos: nat)
    requires ScanWhole(s, pos).Some?
    ensures WholeOk(s[pos..ScanWhole(s, pos).value])
  {
    SkipDigitsSound(s, pos);
    if s[pos] == ZERO { assert s[pos..pos + 1] == [ZERO]; }
  }

  lemma NumberSound(s: Bytes, pos: nat)
    requires pos <= |s| && ScanNumber(s, pos).Got?
    ensures
      var Got(n, p) := ScanNumber(s, pos);
      NumberOk(n) && At(s, pos, PrintNumber(n)) && p == pos + |PrintNumber(n)|
  {
    var Got(n, p) := ScanNumber(s, pos);
    var m := ScanMinus(s, pos);
    var w := ScanWhole(s, m).value;
    var f := ScanFraction(s, w).value;
    WholeSound(s, m);
    FractionSound(s, w);
    ExponentSound(s, f);
    AtSlice(s, pos, m);
    AtSlice(s, m, w);
    AtSlice(s, w, f);
    AtJoin(s, w, n.fraction, PrintExponent(n.exponent));
    AtJoin(s, m, n.whole, n.fraction + PrintExponent(n.exponent));
    AtJoin(s, pos, n.minus, n.whole + (n.fraction + PrintExponent(n.exponent)));
  }

  lemma ExponentComplete(s: Bytes, pos: nat, e: Exponent)
    requires ExponentOk(e) && At(s, pos, PrintExponent(e)) && pos <= |s| && Delimited(s, pos + |PrintExponent(e)|)
    ensures ScanExponent(s, pos) == Got(e, pos + |PrintExponent(e)|)
  {
    if e.Exponent? {
      AtJoin(s, pos, [e.letter], e.sign + e.digits);
      AtByte(s, pos, e.letter);
      AtJoin(s, pos + 1, e.sign, e.digits);
      var d := pos + 1 + |e.sign|;
      if e.sign != [] { AtIndex(s, pos + 1, e.sign, 0); }
      AtIndex(s, d, e.digits, 0);
      SkipDigitsExact(s, d, e.digits);
      SliceOf(s, pos + 1, e.sign);
      SliceOf(s, d, e.digits);
    }
  }

  /** Where a fraction may end: at an exponent or a delimiter. */
  predicate EndsFraction(s: Bytes, pos: nat) { Delimited(s, pos) || IsExponentMark(s, pos) }

  lemma FractionComplete(s: Bytes, pos: nat, f: Bytes)
    requires FractionOk(f) && At(s, pos, f) && EndsFraction(s, pos + |f|)
    ensures ScanFraction(s, pos) == Some(pos + |f|)
  {
    if f != [] {
      AtIndex(s, pos, f, 0);
      assert f == [DOT] + f[1..];
      AtJoin(s, pos, [DOT], f[1..]);
      SkipDigitsExact(s, pos + 1, f[1..]);
    }
  }

  lemma WholeComplete(s: Bytes, pos: nat, w: Bytes)
    requires WholeOk(w) && At(s, pos, w) && (EndsFraction(s, pos + |w|) || Is(s, pos + |w|, DOT))
    ensures ScanWhole(s, pos) == Some(pos + |w|)
  {
    AtIndex(s, pos, w, 0);
    if w != [ZERO] { SkipDigitsExact(s, pos, w); }
  }

  lemma NumberSplit(s: Bytes, pos: nat, n: Number) returns (m: nat, w: nat, f: nat)
    requires At(s, pos, PrintNumber(n))
    ensures m == pos + |n.minus| && w == m + |n.whole| && f == w + |n.fraction| <= |s|
    ensures At(s, pos, n.minus) && At(s, m, n.whole) && At(s, w, n.fraction) && At(s, f, PrintExponent(n.exponent))
    ensures f + |PrintExponent(n.exponent)| == pos + |PrintNumber(n)|
  {
    var tail := PrintExponent(n.exponent);
    m := pos + |n.minus|;
    w := m + |n.whole|;
    f := w + |n.fraction|;
    AtJoin(s, pos, n.minus, n.whole + (n.fraction + tail));
    AtJoin(s, m, n.whole, n.fraction + tail);
    AtJoin(s, w, n.fraction, tail);
    AtFits(s, f, tail);
    NumberLength(n);
  }

  lemma NumberComplete(s: Bytes, pos: nat, n: Number)
    requires NumberOk(n) && At(s, pos, PrintNumber(n)) && Delimited(s, pos + |PrintNumber(n)|)
    ensures pos < |s| && (s[pos] == MINUS || IsDigit(s[pos]))
    ensures ScanNumber(s, pos) == Got(n, pos + |PrintNumber(n)|)
  {
    var m, w, f := NumberSplit(s, pos, n);
    TailComplete(s, w, f, n);
    HeadComplete(s, pos, m, n);
    Assemble(s, pos, m, w, f, n);
  }

  lemma NumberLength(n: Number)
    ensures |PrintNumber(n)| == |n.minus| + |n.whole| + |n.fraction| + |PrintExponent(n.exponent)|
  {
  }

  lemma Assemble(s: Bytes, pos: nat, m: nat, w: nat, f: nat, n: Number)
    requires m == pos + |n.minus| && w == m + |n.whole| && f == w + |n.fraction| <= |s|
    requires At(s, pos, n.minus) && At(s, m, n.whole) && At(s, w, n.fraction)
    requires ScanMinus(s, pos) == m && ScanWhole(s, m) == Some(w) && ScanFraction(s, w) == Some(f)
    requires ScanExponent(s, f) == Got(n.exponent, f + |PrintExponent(n.exponent)|)
    ensures ScanNumber(s, pos) == Got(n, f + |PrintExponent(n.exponent)|)
  {
    SliceOf(s, pos, n.minus);
    SliceOf(s, m, n.whole);
    SliceOf(s, w, n.fraction);
  }

  lemma TailComplete(s: Bytes, w: nat, f: nat, n: Number)
    requires NumberOk(n) && f == w + |n.fraction| <= |s|
    requires At(s, w, n.fraction) && At(s, f, PrintExponent(n.exponent))
    requires Delimited(s, f + |PrintExponent(n.exponent)|)
    ensures ScanExponent(s, f) == Got(n.exponent, f + |PrintExponent(n.exponent)|)
    ensures ScanFraction(s, w) == Some(f)
    ensures EndsFraction(s, w) || Is(s, w, DOT)
  {
    ExponentComplete(s, f, n.exponent);
    if n.exponent.Exponent? { AtIndex(s, f, PrintExponent(n.exponent), 0); }
    FractionComplete(s, w, n.fraction);
    if n.fraction != [] { AtIndex(s, w, n.fraction, 0); }
  }

  lemma HeadComplete(s: Bytes, pos: nat, m: nat, n: Number)
    requires NumberOk(n) && m == pos + |n.minus| && At(s, pos, n.minus) && At(s, m, n.whole)
    requires EndsFraction(s, m + |n.whole|) || Is(s, m + |n.whole|, DOT)
    ensures ScanMinus(s, pos) == m && ScanWhole(s, m) == Some(m + |n.whole|)
    ensures pos < |s| && (s[pos] == MINUS || IsDigit(s[pos]))
  {
    WholeComplete(s, m, n.whole);
    AtIndex(s, m, n.whole, 0);
    if n.minus != [] { AtIndex(s, pos, n.minus, 0); }
  }
}

module JsonCorrectness {
  import opened Basics
  import opened Unicode
  import opened JsonGrammar
  import opened JsonScan
  import opened JsonPieces

  /** The text `w` stands from `pos` up to `end`. */
  predicate Spelled(s: Bytes, pos: nat, w: Bytes, end: nat) { At(s, pos, w) && end == pos + |w| }

  lemma Join(s: Bytes, pos: nat, a: Bytes, mid: nat, b: Bytes, end: nat)
    requires Spelled(s, pos, a, mid) && Spelled(s, mid, b, end)
    ensures Spelled(s, pos, a + b, end)
  {
    AtJoin(s, pos, a, b);
  }

  lemma Split(s: Bytes, pos: nat, a: Bytes, b: Bytes, end: nat)
    requires Spelled(s, pos, a + b, end)
    ensures Spelled(s, pos, a, pos + |a|) && Spelled(s, pos + |a|, b, end) && pos + |a| <= end <= |s|
  {
    AtJoin(s, pos, a, b);
    AtFits(s, pos + |a|, b);
  }

  lemma SpelledByte(s: Bytes, pos: nat, b: Byte)
    ensures Is(s, pos, b) <==> Spelled(s, pos, [b], pos + 1)
  {
    AtByte(s, pos, b);
  }

  lemma SpelledSlice(s: Bytes, a: nat, b: nat)
    requires a <= b <= |s|
    ensures Spelled(s, a, s[a..b], b)
  {
    AtSlice(s, a, b);
  }

  /** The white space skipped is white space, spelled as it is. */
  lemma SkippedSpace(s: Bytes, a: nat)
    requires a <= |s|
    ensures Spelled(s, a, s[a..SkipSpace(s, a)], SkipSpace(s, a)) && Spaces(s[a..SkipSpace(s, a)])
  {
    SkipSpaceSound(s, a);
    AtSlice(s, a, SkipSpace(s, a));
  }

  // ----- soundness

  predicate TokenFound(s: Bytes, pos: nat, depth: nat, t: Token, p: nat) {
    TokenOk(t, depth) && Spelled(s, pos, PrintToken(t), p)
  }

  lemma TextSound(s: Bytes, pos: nat, depth: nat)
    requires Is(s, pos, QUOTE) && ScanToken(s, pos, depth).Got?
    ensures TokenFound(s, pos, depth, ScanToken(s, pos, depth).tree, ScanToken(s, pos, depth).end)
  {
    StringSound(s, pos);
  }

  lemma NumeralSound(s: Bytes, pos: nat, depth: nat)
    requires pos < |s| && ScanToken(s, pos, depth).Got? && ScanToken(s, pos, depth).tree.Numeral?
    ensures TokenFound(s, pos, depth, ScanToken(s, pos, depth).tree, ScanToken(s, pos, depth).end)
  {
    NumberSound(s, pos);
  }

  lemma {:induction false} TokenSound(s: Bytes, pos: nat, depth: nat)
    requires pos < |s| && ScanToken(s, pos, depth).Got?
    ensures TokenFound(s, pos, depth, ScanToken(s, pos, depth).tree, ScanToken(s, pos, depth).end)
    decreases |s| - pos, 0
  {
    var Got(t, p) := ScanToken(s, pos, depth);
    match t
    case Text(_) => TextSound(s, pos, depth);
    case Numeral(_) => NumeralSound(s, pos, depth);
    case Object(b) =>
      BodySound(s, pos + 1, depth);
      SpelledByte(s, pos, LBRACE);
      Join(s, pos, [LBRACE], pos + 1, PrintBody(b), p);
    case Array(l) =>
      ListSound(s, pos + 1, depth);
      SpelledByte(s, pos, LBRACKET);
      Join(s, pos, [LBRACKET], pos + 1, PrintList(l), p);
    case True => AtMeansSlice(s, pos, TRUE);
    case False => AtMeansSlice(s, pos, FALSE);
    case Null => AtMeansSlice(s, pos, NULL);
  }

  lemma {:induction false} ValueSound(s: Bytes, pos: nat, depth: nat)
    requires pos <= |s| && ScanValue(s, pos, depth).Got?
    ensures
      var Got(v, p) := ScanValue(s, pos, depth);
      ValueOk(v, depth) && Spelled(s, pos, PrintValue(v), p)
    decreases |s| - pos, 1
  {
    var k := SkipSpace(s, pos);
    var Got(t, p) := ScanToken(s, k, depth);
    TokenSound(s, k, depth);
    SkippedSpace(s, pos);
    Join(s, pos, s[pos..k], k, PrintToken(t), p);
  }

  lemma {:induction false} ItemSound(s: Bytes, pos: nat, depth: nat)
    requires pos <= |s| && ScanItem(s, pos, depth).Got?
    ensures
      var Got(i, p) := ScanItem(s, pos, depth);
      ItemOk(i, depth) && Spelled(s, pos, PrintItem(i), p)
    decreases |s| - pos, 2
  {
    var Got(v, e) := ScanValue(s, pos, depth);
    ValueSound(s, pos, depth);
    SkippedSpace(s, e);
    Join(s, pos, PrintValue(v), e, s[e..SkipSpace(s, e)], SkipSpace(s, e));
  }

  lemma NameSound(s: Bytes, pos: nat)
    requires pos <= |s| && ScanName(s, pos).Got?
    ensures
      var Got(n, p) := ScanName(s, pos);
      NameOk(n) && Spelled(s, pos, PrintName(n), p)
  {
    var k := SkipSpace(s, pos);
    var Got(key, c) := ScanString(s, k);
    var colon := SkipSpace(s, c);
    StringSound(s, k);
    SkippedSpace(s, pos);
    SkippedSpace(s, c);
    SpelledByte(s, colon, COLON);
    Join(s, c, s[c..colon], colon, [COLON], colon + 1);
    Join(s, k, Quoted(key), c, s[c..colon] + [COLON], colon + 1);
    Join(s, pos, s[pos..k], k, Quoted(key) + (s[c..colon] + [COLON]), colon + 1);
  }

  lemma {:induction false} BodySound(s: Bytes, pos: nat, depth: nat)
    requires pos <= |s| && ScanBody(s, pos, depth).Got?
    ensures
      var Got(b, p) := ScanBody(s, pos, depth);
      BodyOk(b, depth) && Spelled(s, pos, PrintBody(b), p)
    decreases |s| - pos, 5
  {
    var k := SkipSpace(s, pos);
    if Is(s, k, RBRACE) {
      SkippedSpace(s, pos);
      SpelledByte(s, k, RBRACE);
      Join(s, pos, s[pos..k], k, [RBRACE], k + 1);
    } else {
      MembersSound(s, pos, depth, {});
    }
  }

  lemma MembersJoin(s: Bytes, pos: nat, v: nat, end: nat, p: nat, ms: Members)
    requires Spelled(s, pos, PrintName(ms.name), v) && Spelled(s, v, PrintItem(ms.item), end)
    requires ms.Last? ==> Is(s, end, RBRACE) && p == end + 1
    requires ms.More? ==> Is(s, end, COMMA) && Spelled(s, end + 1, PrintMembers(ms.rest), p)
    ensures Spelled(s, pos, PrintMembers(ms), p)
  {
    SpelledByte(s, end, RBRACE);
    SpelledByte(s, end, COMMA);
    if ms.More? { Join(s, end, [COMMA], end + 1, PrintMembers(ms.rest), p); }
    Join(s, v, PrintItem(ms.item), end, PrintEnd(ms), p);
    Join(s, pos, PrintName(ms.name), v, PrintItem(ms.item) + PrintEnd(ms), p);
  }

  lemma MembersFit(ms: Members, depth: nat, seen: set<Bytes>)
    requires NameOk(ms.name) && Decoded(ms.name.key) !in seen && ItemOk(ms.item, depth + 1)
    requires ms.More? ==> MembersOk(ms.rest, depth, seen + {Decoded(ms.name.key)})
    ensures MembersOk(ms, depth, seen)
  {
  }

  lemma {:induction false} MemberSound(s: Bytes, pos: nat, depth: nat, seen: set<Bytes>) returns (v: nat)
    requires pos <= |s| && ScanMember(s, pos, depth, seen).OneMember?
    ensures
      var h := ScanMember(s, pos, depth, seen);
      && NameOk(h.name) && Spelled(s, pos, PrintName(h.name), v) && Decoded(h.name.key) == h.key
      && ItemOk(h.item, depth + 1) && Spelled(s, v, PrintItem(h.item), h.end)
    decreases |s| - pos, 3
  {
    v := ScanName(s, pos).end;
    NameSound(s, pos);
    ItemSound(s, v, depth + 1);
  }

  lemma {:induction false} MembersSound(s: Bytes, pos: nat, depth: nat, seen: set<Bytes>)
    requires pos <= |s| && ScanMembers(s, pos, depth, seen).Got?
    ensures
      var Got(ms, p) := ScanMembers(s, pos, depth, seen);
      MembersOk(ms, depth, seen) && Spelled(s, pos, PrintMembers(ms), p)
    decreases |s| - pos, 4
  {
    var h := ScanMember(s, pos, depth, seen);
    var v := MemberSound(s, pos, depth, seen);
    if s[h.end] == RBRACE {
      MembersJoin(s, pos, v, h.end, h.end + 1, Last(h.name, h.item));
      MembersFit(Last(h.name, h.item), depth, seen);
    } else {
      MembersSound(s, h.end + 1, depth, seen + {h.key});
      var Got(rest, p) := ScanMembers(s, h.end + 1, depth, seen + {h.key});
      MembersJoin(s, pos, v, h.end, p, More(h.name, h.item, rest));
      MembersFit(More(h.name, h.item, rest), depth, seen);
    }
  }

  lemma {:induction false} ListSound(s: Bytes, pos: nat, depth: nat)
    requires pos <= |s| && ScanList(s, pos, depth).Got?
    ensures
      var Got(l, p) := ScanList(s, pos, depth);
      ListOk(l, depth) && Spelled(s, pos, PrintList(l), p)
    decreases |s| - pos, 4
  {
    var k := SkipSpace(s, pos);
    if Is(s, k, RBRACKET) {
      SkippedSpace(s, pos);
      SpelledByte(s, k, RBRACKET);
      Join(s, pos, s[pos..k], k, [RBRACKET], k + 1);
    } else {
      ItemsSound(s, pos, depth);
    }
  }

  lemma ItemsJoin(s: Bytes, pos: nat, end: nat, p: nat, its: Items)
    requires Spelled(s, pos, PrintItem(its.item), end)
    requires its.LastItem? ==> Is(s, end, RBRACKET) && p == end + 1
    requires its.MoreItems? ==> Is(s, end, COMMA) && Spelled(s, end + 1, PrintItems(its.rest), p)
    ensures Spelled(s, pos, PrintItems(its), p)
  {
    SpelledByte(s, end, RBRACKET);
    SpelledByte(s, end, COMMA);
    if its.MoreItems? { Join(s, end, [COMMA], end + 1, PrintItems(its.rest), p); }
    Join(s, pos, PrintItem(its.item), end, PrintItemsEnd(its), p);
  }

  lemma {:induction false} ItemsSound(s: Bytes, pos: nat, depth: nat)
    requires pos <= |s| && ScanItems(s, pos, depth).Got?
    ensures
      var Got(its, p) := ScanItems(s, pos, depth);
      ItemsOk(its, depth) && Spelled(s, pos, PrintItems(its), p)
    decreases |s| - pos, 3
  {
    var Got(its, p) := ScanItems(s, pos, depth);
    var Got(item, end) := ScanItem(s, pos, depth + 1);
    ItemSound(s, pos, depth + 1);
    if its.MoreItems? { ItemsSound(s, end + 1, depth); }
    ItemsJoin(s, pos, end, p, its);
  }

  // ----- completeness

  predicate StartsValue(s: Bytes, pos: nat) { pos < |s| && !IsSpace(s[pos]) && s[pos] != RBRACE && s[pos] != RBRACKET }

  /** A run of white space before something else is found. */
  lemma SpaceComplete(s: Bytes, pos: nat, w: Bytes, end: nat)
    requires Spelled(s, pos, w, end) && Spaces(w) && (end < |s| ==> !IsSpace(s[end]))
    ensures pos <= end <= |s| && SkipSpace(s, pos) == end && s[pos..end] == w
  {
    SliceOf(s, pos, w);
    SkipExact(s, pos, w);
  }

  lemma LiteralComplete(s: Bytes, pos: nat, word: Bytes)
    requires At(s, pos, word) && word != []
    ensures IsLiteral(s, pos, word) && Is(s, pos, word[0])
  {
    SliceOf(s, pos, word);
    AtIndex(s, pos, word, 0);
  }

  lemma WordComplete(s: Bytes, pos: nat, t: Token, depth: nat)
    requires (t.True? || t.False? || t.Null?) && At(s, pos, PrintToken(t))
    ensures StartsValue(s, pos) && ScanToken(s, pos, depth) == Got(t, pos + |PrintToken(t)|)
  {
    LiteralComplete(s, pos, PrintToken(t));
  }

  lemma LeafComplete(s: Bytes, pos: nat, t: Token, depth: nat)
    requires t.Text? || t.Numeral?
    requires TokenOk(t, depth) && At(s, pos, PrintToken(t)) && Delimited(s, pos + |PrintToken(t)|)
    ensures StartsValue(s, pos) && ScanToken(s, pos, depth) == Got(t, pos + |PrintToken(t)|)
  {
    if t.Text? { StringComplete(s, pos, t.chars); } else { NumberComplete(s, pos, t.number); }
  }

  lemma {:induction false} TokenComplete(s: Bytes, pos: nat, t: Token, depth: nat, p: nat)
    requires TokenOk(t, depth) && Spelled(s, pos, PrintToken(t), p) && Delimited(s, p)
    ensures StartsValue(s, pos) && ScanToken(s, pos, depth) == Got(t, p)
    decreases t
  {
    match t
    case Text(_) => LeafComplete(s, pos, t, depth);
    case Numeral(_) => LeafComplete(s, pos, t, depth);
    case Object(b) =>
      Split(s, pos, [LBRACE], PrintBody(b), p);
      SpelledByte(s, pos, LBRACE);
      BodyComplete(s, pos + 1, b, depth, p);
    case Array(l) =>
      Split(s, pos, [LBRACKET], PrintList(l), p);
      SpelledByte(s, pos, LBRACKET);
      ListComplete(s, pos + 1, l, depth, p);
    case _ => WordComplete(s, pos, t, depth);
  }

  lemma {:induction false} ValueComplete(s: Bytes, pos: nat, v: Value, depth: nat, p: nat)
    requires ValueOk(v, depth) && Spelled(s, pos, PrintValue(v), p) && Delimited(s, p)
    ensures pos <= |s| && StartsValue(s, SkipSpace(s, pos)) && ScanValue(s, pos, depth) == Got(v, p)
    decreases v
  {
    Split(s, pos, v.space, PrintToken(v.token), p);
    TokenComplete(s, pos + |v.space|, v.token, depth, p);
    SpaceComplete(s, pos, v.space, pos + |v.space|);
  }

  /** The byte at `pos` may follow a value and its white space. */
  predicate Closes(s: Bytes, pos: nat) { Is(s, pos, COMMA) || Is(s, pos, RBRACE) || Is(s, pos, RBRACKET) }

  lemma {:induction false} ItemComplete(s: Bytes, pos: nat, i: Item, depth: nat, p: nat)
    requires ItemOk(i, depth) && Spelled(s, pos, PrintItem(i), p) && Closes(s, p)
    ensures pos <= |s| && StartsValue(s, SkipSpace(s, pos)) && ScanItem(s, pos, depth) == Got(i, p)
    decreases i
  {
    var e := pos + |PrintValue(i.value)|;
    Split(s, pos, PrintValue(i.value), i.endSpace, p);
    SpaceComplete(s, e, i.endSpace, p);
    assert e < p ==> s[e..p][0] == s[e];
    ValueComplete(s, pos, i.value, depth, e);
  }

  lemma NameSplit(s: Bytes, pos: nat, n: Name, p: nat) returns (k: nat, c: nat, colon: nat)
    requires Spelled(s, pos, PrintName(n), p)
    ensures Spelled(s, pos, n.space, k) && Spelled(s, k, Quoted(n.key), c) && Spelled(s, c, n.colonSpace, colon)
    ensures Is(s, colon, COLON) && p == colon + 1
  {
    k := pos + |n.space|;
    c := k + |Quoted(n.key)|;
    colon := c + |n.colonSpace|;
    Split(s, pos, n.space, Quoted(n.key) + (n.colonSpace + [COLON]), p);
    Split(s, k, Quoted(n.key), n.colonSpace + [COLON], p);
    Split(s, c, n.colonSpace, [COLON], p);
    SpelledByte(s, colon, COLON);
  }

  lemma NameComplete(s: Bytes, pos: nat, n: Name, p: nat)
    requires NameOk(n) && Spelled(s, pos, PrintName(n), p)
    ensures pos <= |s| && Is(s, SkipSpace(s, pos), QUOTE) && ScanName(s, pos) == Got(n, p)
  {
    var k, c, colon := NameSplit(s, pos, n, p);
    StringComplete(s, k, n.key);
    SpaceComplete(s, pos, n.space, k);
    SpaceComplete(s, c, n.colonSpace, colon);
  }

  lemma {:induction false} BodyComplete(s: Bytes, pos: nat, b: Body, depth: nat, p: nat)
    requires BodyOk(b, depth) && Spelled(s, pos, PrintBody(b), p)
    ensures pos <= |s| && ScanBody(s, pos, depth) == Got(b, p)
    decreases b
  {
    match b
    case NoMembers(space) =>
      Split(s, pos, space, [RBRACE], p);
      SpelledByte(s, pos + |space|, RBRACE);
      SpaceComplete(s, pos, space, pos + |space|);
    case Members(ms) =>
      MembersComplete(s, pos, ms, depth, {}, p);
  }

  lemma MembersSplit(s: Bytes, pos: nat, ms: Members, p: nat) returns (v: nat, end: nat)
    requires Spelled(s, pos, PrintMembers(ms), p)
    ensures Spelled(s, pos, PrintName(ms.name), v) && Spelled(s, v, PrintItem(ms.item), end)
    ensures ms.Last? ==> Is(s, end, RBRACE) && p == end + 1
    ensures ms.More? ==> Is(s, end, COMMA) && Spelled(s, end + 1, PrintMembers(ms.rest), p)
  {
    v := pos + |PrintName(ms.name)|;
    end := v + |PrintItem(ms.item)|;
    Split(s, pos, PrintName(ms.name), PrintItem(ms.item) + PrintEnd(ms), p);
    Split(s, v, PrintItem(ms.item), PrintEnd(ms), p);
    if ms.More? { Split(s, end, [COMMA], PrintMembers(ms.rest), p); }
    SpelledByte(s, end, COMMA);
    SpelledByte(s, end, RBRACE);
  }

  lemma MemberScanned(s: Bytes, pos: nat, name: Name, v: nat, item: Item, end: nat, depth: nat, seen: set<Bytes>)
    requires pos <= |s| && ScanName(s, pos) == Got(name, v) && ScanItem(s, v, depth + 1) == Got(item, end)
    requires Decoded(name.key) !in seen && (Is(s, end, RBRACE) || Is(s, end, COMMA))
    ensures ScanMember(s, pos, depth, seen) == OneMember(name, item, Decoded(name.key), TextOf(item.value), end)
  {
  }

  lemma LastScanned(s: Bytes, pos: nat, name: Name, item: Item, end: nat, depth: nat, seen: set<Bytes>)
    requires pos <= |s| && Is(s, end, RBRACE)
    requires ScanMember(s, pos, depth, seen) == OneMember(name, item, Decoded(name.key), TextOf(item.value), end)
    ensures ScanMembers(s, pos, depth, seen) == Got(Last(name, item), end + 1)
  {
  }

  lemma MoreScanned(s: Bytes, pos: nat, name: Name, item: Item, end: nat, rest: Members, depth: nat, seen: set<Bytes>,
                    p: nat)
    requires pos <= |s| && Is(s, end, COMMA)
    requires ScanMember(s, pos, depth, seen) == OneMember(name, item, Decoded(name.key), TextOf(item.value), end)
    requires ScanMembers(s, end + 1, depth, seen + {Decoded(name.key)}) == Got(rest, p)
    ensures ScanMembers(s, pos, depth, seen) == Got(More(name, item, rest), p)
  {
  }

  lemma {:induction false} MembersComplete(s: Bytes, pos: nat, ms: Members, depth: nat, seen: set<Bytes>, p: nat)
    requires MembersOk(ms, depth, seen) && Spelled(s, pos, PrintMembers(ms), p)
    ensures pos <= |s| && Is(s, SkipSpace(s, pos), QUOTE) && ScanMembers(s, pos, depth, seen) == Got(ms, p)
    decreases ms
  {
    var v, end := MembersSplit(s, pos, ms, p);
    NameComplete(s, pos, ms.name, v);
    ItemComplete(s, v, ms.item, depth + 1, end);
    MemberScanned(s, pos, ms.name, v, ms.item, end, depth, seen);
    match ms
    case Last(name, item) => LastScanned(s, pos, name, item, end, depth, seen);
    case More(name, item, rest) =>
      MembersComplete(s, end + 1, rest, depth, seen + {Decoded(name.key)}, p);
      MoreScanned(s, pos, name, item, end, rest, depth, seen, p);
  }

  lemma {:induction false} ListComplete(s: Bytes, pos: nat, l: List, depth: nat, p: nat)
    requires ListOk(l, depth) && Spelled(s, pos, PrintList(l), p)
    ensures pos <= |s| && ScanList(s, pos, depth) == Got(l, p)
    decreases l
  {
    match l
    case NoItems(space) =>
      Split(s, pos, space, [RBRACKET], p);
      SpelledByte(s, pos + |space|, RBRACKET);
      SpaceComplete(s, pos, space, pos + |space|);
    case Items(its) =>
      ItemsComplete(s, pos, its, depth, p);
  }

  lemma ItemsSplit(s: Bytes, pos: nat, its: Items, p: nat) returns (end: nat)
    requires Spelled(s, pos, PrintItems(its), p)
    ensures Spelled(s, pos, PrintItem(its.item), end)
    ensures its.LastItem? ==> Is(s, end, RBRACKET) && p == end + 1
    ensures its.MoreItems? ==> Is(s, end, COMMA) && Spelled(s, end + 1, PrintItems(its.rest), p)
  {
    end := pos + |PrintItem(its.item)|;
    Split(s, pos, PrintItem(its.item), PrintItemsEnd(its), p);
    if its.MoreItems? { Split(s, end, [COMMA], PrintItems(its.rest), p); }
    SpelledByte(s, end, COMMA);
    SpelledByte(s, end, RBRACKET);
  }

  lemma {:induction false} ItemsComplete(s: Bytes, pos: nat, its: Items, depth: nat, p: nat)
    requires ItemsOk(its, depth) && Spelled(s, pos, PrintItems(its), p)
    ensures pos <= |s| && StartsValue(s, SkipSpace(s, pos)) && ScanItems(s, pos, depth) == Got(its, p)
    decreases its
  {
    var end := ItemsSplit(s, pos, its, p);
    ItemComplete(s, pos, its.item, depth + 1, end);
    if its.MoreItems? { ItemsComplete(s, end + 1, its.rest, depth, p); }
  }

  // ----- whole documents

  /** What is found is a document, and is spelled exactly so. */
  lemma DocumentSound(s: Bytes)
    requires ScanDocument(s).Some?
    ensures DocumentOk(ScanDocument(s).value) && PrintDocument(ScanDocument(s).value) == s
  {
    var p := SkipSpace(s, 0);
    var Got(body, e) := ScanBody(s, p + 1, 0);
    BodySound(s, p + 1, 0);
    DocumentJoin(s, p, body, e);
    DocumentFound(s, p, body, e);
  }

  lemma DocumentFound(s: Bytes, p: nat, body: Body, e: nat)
    requires |s| <= MAX_INPUT && p < e <= |s| && SkipSpace(s, 0) == p && SkipSpace(s, e) == |s| && BodyOk(body, 0)
    requires PrintDocument(Document(s[..p], body, s[e..])) == s
    ensures DocumentOk(Document(s[..p], body, s[e..]))
  {
    SkippedSpace(s, 0);
    SkippedSpace(s, e);
    assert s[0..p] == s[..p] && s[e..|s|] == s[e..];
  }

  lemma DocumentJoin(s: Bytes, p: nat, body: Body, e: nat)
    requires p < e <= |s| && Is(s, p, LBRACE) && Spelled(s, p + 1, PrintBody(body), e)
    ensures PrintDocument(Document(s[..p], body, s[e..])) == s
  {
    var d := Document(s[..p], body, s[e..]);
    assert s[0..p] == s[..p] && s[e..|s|] == s[e..];
    SpelledSlice(s, 0, p);
    SpelledSlice(s, e, |s|);
    SpelledByte(s, p, LBRACE);
    Join(s, p + 1, PrintBody(body), e, s[e..], |s|);
    Join(s, p, [LBRACE], p + 1, PrintBody(body) + s[e..], |s|);
    Join(s, 0, s[..p], p, [LBRACE] + (PrintBody(body) + s[e..]), |s|);
    SliceOf(s, 0, PrintDocument(d));
    assert s[0..|s|] == s;
  }

  /** Every document is found, as it is spelled. */
  lemma DocumentComplete(d: Document)
    requires DocumentOk(d)
    ensures ScanDocument(PrintDocument(d)) == Some(d)
  {
    var s, p := PrintDocument(d), |d.space|;
    var e := p + 1 + |PrintBody(d.body)|;
    DocumentSplit(d, s);
    PartsComplete(s, p, d, e);
    DocumentScanned(s, p, d, e);
  }

  lemma PartsComplete(s: Bytes, p: nat, d: Document, e: nat)
    requires Spaces(d.space) && BodyOk(d.body, 0) && Spaces(d.endSpace)
    requires Spelled(s, 0, d.space, p) && Is(s, p, LBRACE) && Spelled(s, p + 1, PrintBody(d.body), e)
    requires Spelled(s, e, d.endSpace, |s|)
    ensures SkipSpace(s, 0) == p && s[0..p] == d.space && ScanBody(s, p + 1, 0) == Got(d.body, e)
    ensures e <= |s| && SkipSpace(s, e) == |s| && s[e..|s|] == d.endSpace
  {
    SpaceComplete(s, 0, d.space, p);
    BodyComplete(s, p + 1, d.body, 0, e);
    SpaceComplete(s, e, d.endSpace, |s|);
  }

  lemma DocumentScanned(s: Bytes, p: nat, d: Document, e: nat)
    requires |s| <= MAX_INPUT && SkipSpace(s, 0) == p && Is(s, p, LBRACE) && ScanBody(s, p + 1, 0) == Got(d.body, e)
    requires SkipSpace(s, e) == |s| && s[0..p] == d.space && s[e..|s|] == d.endSpace
    ensures ScanDocument(s) == Some(d)
  {
    assert s[..p] == s[0..p] && s[e..] == s[e..|s|];
  }

  lemma DocumentSplit(d: Document, s: Bytes)
    requires s == PrintDocument(d)
    ensures
      var p := |d.space|;
      var e := p + 1 + |PrintBody(d.body)|;
      && Spelled(s, 0, d.space, p) && Is(s, p, LBRACE) && Spelled(s, p + 1, PrintBody(d.body), e)
      && Spelled(s, e, d.endSpace, |s|)
  {
    var p := |d.space|;
    AtMeansSlice(s, 0, s);
    assert s[0..|s|] == s;
    Split(s, 0, d.space, [LBRACE] + (PrintBody(d.body) + d.endSpace), |s|);
    Split(s, p, [LBRACE], PrintBody(d.body) + d.endSpace, |s|);
    SpelledByte(s, p, LBRACE);
    Split(s, p + 1, PrintBody(d.body), d.endSpace, |s|);
  }

  /** A text is accepted exactly if it spells a document, and a field is read exactly if the document it
      spells has it. */
  lemma GetStringExact(s: Bytes, key: Bytes, v: Bytes)
    ensures GetString(s, key) == Some(v) <==>
      exists d: Document :: DocumentOk(d) && PrintDocument(d) == s && Field(d, key) == Some(v)
  {
    if GetString(s, key) == Some(v) {
      DocumentSound(s);
      var d := ScanDocument(s).value;
      assert DocumentOk(d) && PrintDocument(d) == s && Field(d, key) == Some(v);
    }
    forall d: Document | DocumentOk(d) && PrintDocument(d) == s && Field(d, key) == Some(v)
      ensures GetString(s, key) == Some(v)
    {
      DocumentComplete(d);
    }
  }

  /** One of the members has this key and carries this text. */
  predicate Carries(ms: Members, key: Bytes, v: Bytes) {
    || (Decoded(ms.name.key) == key && TextOf(ms.item.value) == Some(v))
    || (ms.More? && Carries(ms.rest, key, v))
  }

  lemma {:induction false} SeenNotCarried(ms: Members, depth: nat, seen: set<Bytes>, key: Bytes, v: Bytes)
    requires MembersOk(ms, depth, seen) && key in seen
    ensures !Carries(ms, key, v)
  {
    if ms.More? { SeenNotCarried(ms.rest, depth, seen + {Decoded(ms.name.key)}, key, v); }
  }

  /** Keys being distinct, what is looked up is what some member carries. */
  lemma {:induction false} LookupExact(ms: Members, depth: nat, seen: set<Bytes>, key: Bytes, v: Bytes)
    requires MembersOk(ms, depth, seen)
    ensures Lookup(ms, key) == Some(v) <==> Carries(ms, key, v)
  {
    if ms.More? {
      if Decoded(ms.name.key) == key {
        SeenNotCarried(ms.rest, depth, seen + {Decoded(ms.name.key)}, key, v);
      } else {
        LookupExact(ms.rest, depth, seen + {Decoded(ms.name.key)}, key, v);
      }
    }
  }

  /** The grammar is unambiguous: a text spells at most one document. */
  lemma OneReading(d: Document, d': Document)
    requires DocumentOk(d) && DocumentOk(d') && PrintDocument(d) == PrintDocument(d')
    ensures d == d'
  {
    DocumentComplete(d);
    DocumentComplete(d');
  }
}
