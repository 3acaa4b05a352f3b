/** Wide text written by `JsonEscape`, encoded as UTF-8 and read by the JSON reader comes back as its own UTF-8
    form, an unpaired surrogate as U+FFFD, unless that form is longer than a string may be. */
module EscapeRoundTrip {
  import opened Basics
  import opened Unicode
  import opened JsonGrammar
  import opened JsonLexicon
  import opened JsonScan
  import opened JsonPieces
  import JsonParsers
  import S = Serialization

  type Text = S.Text

  // ----- the escapes as characters of the grammar

  function Plains(bs: Bytes): seq<Char> { if bs == [] then [] else [Plain(bs[0])] + Plains(bs[1..]) }

  function ControlDigits(u: Unit): Bytes
    requires u < 0x20
  {
    [ZERO, ZERO, S.HexDigit(u / 16), S.HexDigit(u % 16)]
  }

  function UnitChars(u: Unit): seq<Char>
    requires !IsSurrogate(u)
  {
    if S.EscapeLetter(u).Some? then [Short(S.EscapeLetter(u).value)]
    else if u < 0x20 then [CodeUnit(ControlDigits(u))]
    else Plains(Utf8(u))
  }

  const REPLACEMENT_DIGITS: Bytes := [102, 102, 102, 100]

  function FirstChars(w: Text): seq<Char>
    requires w != []
  {
    if IsHigh(w[0]) && |w| >= 2 && IsLow(w[1]) then Plains(Utf8(Combine(w[0], w[1])))
    else if IsSurrogate(w[0]) then [CodeUnit(REPLACEMENT_DIGITS)]
    else UnitChars(w[0])
  }

  function EscapedChars(w: Text): seq<Char> {
    if w == [] then [] else FirstChars(w) + EscapedChars(w[S.First(w).taken..])
  }

  /** The code point of the first unit or pair. */
  function FirstScalar(w: Text): Scalar
    requires w != []
  {
    if IsHigh(w[0]) && |w| >= 2 && IsLow(w[1]) then Combine(w[0], w[1])
    else if IsSurrogate(w[0]) then REPLACEMENT
    else w[0]
  }

  // ----- everything distributes over concatenation

  lemma {:induction false} CharsOkJoin(a: seq<Char>, b: seq<Char>)
    requires CharsOk(a) && CharsOk(b)
    ensures CharsOk(a + b)
  {
    if a == [] {
      assert a + b == b;
    } else {
      assert (a + b)[1..] == a[1..] + b;
      CharsOkJoin(a[1..], b);
    }
  }

  lemma {:induction false} PrintCharsJoin(a: seq<Char>, b: seq<Char>)
    ensures PrintChars(a + b) == PrintChars(a) + PrintChars(b)
  {
    if a == [] {
      assert a + b == b;
    } else {
      assert (a + b)[1..] == a[1..] + b;
      PrintCharsJoin(a[1..], b);
      Regroup(PrintChar(a[0]), PrintChars(a[1..]), PrintChars(b));
    }
  }

  lemma {:induction false} DecodedJoin(a: seq<Char>, b: seq<Char>)
    ensures Decoded(a + b) == Decoded(a) + Decoded(b)
  {
    if a == [] {
      assert a + b == b;
    } else {
      assert (a + b)[1..] == a[1..] + b;
      DecodedJoin(a[1..], b);
      Regroup(Meaning(a[0]), Decoded(a[1..]), Decoded(b));
    }
  }

  lemma {:induction false} Utf8AllJoin(a: seq<Scalar>, b: seq<Scalar>)
    ensures Utf8All(a + b) == Utf8All(a) + Utf8All(b)
  {
    if a == [] {
      assert a + b == b;
    } else {
      assert (a + b)[1..] == a[1..] + b;
      Utf8AllJoin(a[1..], b);
      Regroup(Utf8(a[0]), Utf8All(a[1..]), Utf8All(b));
    }
  }

  /** Units below the surrogates stand for themselves. */
  lemma {:induction false} LowScalars(a: Text, b: Text)
    requires forall i | 0 <= i < |a| :: a[i] < 0x80
    ensures Scalars(a + b) == Scalars(a) + Scalars(b)
    ensures Utf8All(Scalars(a)) == a
  {
    if a == [] {
      assert a + b == b;
    } else {
      assert (a + b)[1..] == a[1..] + b;
      LowScalars(a[1..], b);
      assert [a[0]] + (Scalars(a[1..]) + Scalars(b)) == ([a[0]] + Scalars(a[1..])) + Scalars(b);
      OneScalar(a);
      assert [a[0]] + a[1..] == a;
    }
  }

  lemma OneScalar(a: Text)
    requires a != [] && a[0] < 0x80
    ensures Scalars(a) == [a[0]] + Scalars(a[1..]) && Utf8All(Scalars(a)) == [a[0]] + Utf8All(Scalars(a[1..]))
  {
    assert ([a[0]] + Scalars(a[1..]))[1..] == Scalars(a[1..]);
  }

  // ----- one step

  /** What stands in the text for the first unit or pair is read by itself. */
  lemma FirstSeparates(w: Text, rest: Text)
    requires w != []
    ensures Scalars(S.First(w).written + rest) == Scalars(S.First(w).written) + Scalars(rest)
  {
    var a := S.First(w).written;
    if IsHigh(w[0]) && |w| >= 2 && IsLow(w[1]) {
      assert (a + rest)[2..] == rest && a[2..] == [];
    } else if IsSurrogate(w[0]) || S.EscapeLetter(w[0]).Some? || w[0] < 0x20 {
      LowScalars(a, rest);
    } else {
      assert (a + rest)[1..] == rest && a[1..] == [];
    }
  }

  /** The code points of a text are that of its first unit or pair and those of the others. */
  lemma ScalarsFirst(w: Text)
    requires w != []
    ensures Scalars(w) == [FirstScalar(w)] + Scalars(w[S.First(w).taken..])
  {
  }

  lemma {:induction false} PlainsMean(bs: Bytes)
    requires forall i | 0 <= i < |bs| :: 0x20 <= bs[i] && bs[i] != JsonGrammar.QUOTE && bs[i] != JsonGrammar.BACKSLASH
    ensures CharsOk(Plains(bs)) && PrintChars(Plains(bs)) == bs && Decoded(Plains(bs)) == bs
  {
    if bs != [] {
      PlainsMean(bs[1..]);
      assert Plains(bs)[1..] == Plains(bs[1..]);
      assert [bs[0]] + bs[1..] == bs;
    }
  }

  lemma Utf8IsPlain(cp: Scalar)
    requires cp >= 0x20 && cp != 34 && cp != 92
    ensures forall i | 0 <= i < |Utf8(cp)| ::
              0x20 <= Utf8(cp)[i] && Utf8(cp)[i] != JsonGrammar.QUOTE && Utf8(cp)[i] != JsonGrammar.BACKSLASH
  {
  }

  lemma OneChar(c: Char)
    ensures PrintChars([c]) == PrintChar(c) && Decoded([c]) == Meaning(c) && (CharsOk([c]) <==> CharOk(c))
  {
    assert [c][1..] == [];
    assert PrintChar(c) + [] == PrintChar(c) && Meaning(c) + [] == Meaning(c);
  }

  lemma OneUtf8(cp: Scalar)
    ensures Utf8All([cp]) == Utf8(cp)
  {
    assert [cp][1..] == [];
    assert Utf8(cp) + [] == Utf8(cp);
  }

  /** What stands for the first unit or pair is spelled as `cs` and means the code point `cp`. */
  ghost predicate Spells(written: Text, cs: seq<Char>, cp: Scalar) {
    CharsOk(cs) && PrintChars(cs) == Utf8All(Scalars(written)) && Decoded(cs) == Utf8(cp)
  }

  lemma LowSpells(written: Text, c: Char, cp: Scalar)
    requires forall i | 0 <= i < |written| :: written[i] < 0x80
    requires CharOk(c) && PrintChar(c) == written && Meaning(c) == Utf8(cp)
    ensures Spells(written, [c], cp)
  {
    OneChar(c);
    LowScalars(written, []);
  }

  lemma PlainSpells(written: Text, cp: Scalar)
    requires cp >= 0x20 && cp != 34 && cp != 92 && Scalars(written) == [cp]
    ensures Spells(written, Plains(Utf8(cp)), cp)
  {
    Utf8IsPlain(cp);
    PlainsMean(Utf8(cp));
    OneUtf8(cp);
  }

  lemma ControlSpells(u: Unit)
    requires u < 0x20
    ensures Spells([92, 117, 48, 48, S.HexDigit(u / 16), S.HexDigit(u % 16)], [CodeUnit(ControlDigits(u))], u)
  {
    var x, y := S.HexDigit(u / 16), S.HexDigit(u % 16);
    HexOfFour(48, 48, x, y);
    assert HexValue(x) == u / 16 && HexValue(y) == u % 16;
    LowSpells([92, 117, 48, 48, x, y], CodeUnit(ControlDigits(u)), u);
  }

  lemma ReplacementSpells()
    ensures Spells(S.REPLACEMENT_ESCAPE, [CodeUnit(REPLACEMENT_DIGITS)], REPLACEMENT)
  {
    HexOfFour(102, 102, 102, 100);
    assert Hex(REPLACEMENT_DIGITS) == 0xfffd;
    LowSpells(S.REPLACEMENT_ESCAPE, CodeUnit(REPLACEMENT_DIGITS), REPLACEMENT);
  }

  lemma FirstSpells(w: Text)
    requires w != []
    ensures Spells(S.First(w).written, FirstChars(w), FirstScalar(w))
  {
    var u, written := w[0], S.First(w).written;
    if IsHigh(u) && |w| >= 2 && IsLow(w[1]) {
      assert written[2..] == [];
      PlainSpells(written, Combine(u, w[1]));
    } else if IsSurrogate(u) {
      ReplacementSpells();
    } else if S.EscapeLetter(u).Some? {
      LowSpells(written, Short(S.EscapeLetter(u).value), u);
    } else if u < 0x20 {
      ControlSpells(u);
    } else {
      assert written[1..] == [];
      PlainSpells(written, u);
    }
  }

  // ----- the whole text

  lemma {:induction false} EscapedSpells(w: Text)
    ensures CharsOk(EscapedChars(w))
    ensures PrintChars(EscapedChars(w)) == Utf8All(Scalars(S.Escaped(w)))
    ensures Decoded(EscapedChars(w)) == Utf8All(Scalars(w))
    decreases |w|
  {
    if w != [] {
      var rest := w[S.First(w).taken..];
      EscapedSpells(rest);
      FirstSpells(w);
      SpellsJoin(w, S.First(w).written, FirstChars(w), FirstScalar(w), rest);
    }
  }

  lemma SpellsJoin(w: Text, written: Text, cs: seq<Char>, cp: Scalar, rest: Text)
    requires w != [] && written == S.First(w).written && cs == FirstChars(w) && cp == FirstScalar(w)
    requires rest == w[S.First(w).taken..] && Spells(written, cs, cp)
    requires CharsOk(EscapedChars(rest)) && PrintChars(EscapedChars(rest)) == Utf8All(Scalars(S.Escaped(rest)))
    requires Decoded(EscapedChars(rest)) == Utf8All(Scalars(rest))
    ensures CharsOk(EscapedChars(w)) && PrintChars(EscapedChars(w)) == Utf8All(Scalars(S.Escaped(w)))
    ensures Decoded(EscapedChars(w)) == Utf8All(Scalars(w))
  {
    var tail := EscapedChars(rest);
    CharsOkJoin(cs, tail);
    PrintCharsJoin(cs, tail);
    DecodedJoin(cs, tail);
    FirstSeparates(w, S.Escaped(rest));
    Utf8AllJoin(Scalars(written), Scalars(S.Escaped(rest)));
    ScalarsFirst(w);
    Utf8AllJoin([cp], Scalars(rest));
    OneUtf8(cp);
  }

  /** The UTF-8 form of the escaped text between quotes. */
  function Written(w: Text): Bytes { [JsonGrammar.QUOTE] + (Utf8All(Scalars(S.Escaped(w))) + [JsonGrammar.QUOTE]) }

  /** Wherever it stands in a document it is read back: as the text's UTF-8 form if that is short enough, and
      not at all otherwise. */
  lemma WrittenIsReadBack(s: Bytes, pos: nat, w: Text)
    requires At(s, pos, Written(w))
    ensures
      var read, text := ScanString(s, pos), Utf8All(Scalars(w));
      && (read.Got? <==> |text| <= MAX_STRING)
      && (read.Got? ==> Decoded(read.tree) == text && read.end == pos + |Written(w)|)
  {
    var cs := EscapedChars(w);
    EscapedSpells(w);
    assert Written(w) == Quoted(cs);
    AtJoin(s, pos, [JsonGrammar.QUOTE], PrintChars(cs) + [JsonGrammar.QUOTE]);
    AtByte(s, pos, JsonGrammar.QUOTE);
    CharsComplete(s, pos + 1, cs);
  }

  /** One letter too many, and what was written is not read back. */
  lemma LongTextIsLost(w: Text, written: Bytes)
    requires w == seq(MAX_STRING + 1, _ => 97) && written == Written(w)
    ensures ScanString(written, 0).Fail?
  {
    LowScalars(w, []);
    AtMeansSlice(written, 0, written);
    assert written[0..|written|] == written;
    WrittenIsReadBack(written, 0, w);
  }

  /** What is read back has lost nothing but unpaired surrogates. */
  lemma ReadBackIsExact(w: Text)
    ensures ReadAllUtf8(Utf8All(Scalars(w))) == Some(Scalars(w))
  {
    Utf8AllRoundTrip(Scalars(w));
  }

  /** Well-formed text comes back as the very code points it was made of. */
  lemma WellFormedSurvives(s: Bytes, pos: nat, cps: seq<Scalar>)
    requires At(s, pos, Written(Utf16All(cps))) && |Utf8All(cps)| <= MAX_STRING
    ensures
      var read := ScanString(s, pos);
      read.Got? && ReadAllUtf8(Decoded(read.tree)) == Some(cps)
  {
    Utf16AllRoundTrip(cps);
    WrittenIsReadBack(s, pos, Utf16All(cps));
    Utf8AllRoundTrip(cps);
  }

  /** Writing and reading, as the program does them. */
  method WriteAndRead(w: Text) returns (text: Option<Bytes>)
    ensures text == if |Utf8All(Scalars(w))| <= MAX_STRING then Some(Utf8All(Scalars(w))) else None
  {
    var escaped := S.JsonEscape(w);
    var json := [JsonGrammar.QUOTE] + (Utf8All(Scalars(escaped)) + [JsonGrammar.QUOTE]);
    AtMeansSlice(json, 0, json);
    assert json[0..|json|] == json;
    WrittenIsReadBack(json, 0, w);
    var parser := new JsonParsers.StringFieldParser(json, []);
    text := parser.ParseString();
  }
}
