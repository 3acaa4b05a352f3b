/** The characters the reader knows, told by the characters and not by their codes: digits in either case, the
    letters of the short escapes, white space. */
module JsonLexicon {
  import opened Unicode
  import opened JsonGrammar

  // ----- hexadecimal digits

  /** The digit for `n`, in upper or lower case. */
  function DigitFor(n: nat, upper: bool): (c: char)
    requires n < 16
    ensures c < 128 as char
  {
    (if upper then "0123456789ABCDEF" else "0123456789abcdef")[n]
  }

  function DigitByte(n: nat, upper: bool): Byte
    requires n < 16
  {
    DigitFor(n, upper) as int
  }

  /** Reading a digit undoes writing it, in either case, and nothing else reads as a digit. */
  lemma DigitsAreRead(b: Byte)
    ensures forall n: nat, upper: bool | n < 16 :: HexValue(DigitByte(n, upper)) == n
    ensures HexValue(b) >= 0 ==>
      HexValue(b) < 16 && (b == DigitByte(HexValue(b), false) || b == DigitByte(HexValue(b), true))
  {
  }

  /** Four digits are worth what they show. */
  lemma HexOfFour(a: Byte, b: Byte, c: Byte, d: Byte)
    requires HexValue(a) >= 0 && HexValue(b) >= 0 && HexValue(c) >= 0 && HexValue(d) >= 0
    ensures IsHex4([a, b, c, d])
    ensures Hex([a, b, c, d]) == ((HexValue(a) * 16 + HexValue(b)) * 16 + HexValue(c)) * 16 + HexValue(d)
  {
    var w := [a, b, c, d];
    assert w[..3] == [a, b, c] && [a, b, c][..2] == [a, b] && [a, b][..1] == [a] && [a][..0] == [];
    assert w[1..] == [b, c, d] && [b, c, d][1..] == [c, d] && [c, d][1..] == [d] && [d][1..] == [];
    assert Hex([a]) == HexValue(a);
    assert Hex([a, b]) == HexValue(a) * 16 + HexValue(b);
    assert Hex([a, b, c]) == (HexValue(a) * 16 + HexValue(b)) * 16 + HexValue(c);
    assert AllHex([d]) && AllHex([c, d]) && AllHex([b, c, d]);
  }

  /** The four digits of `u`, each in the case that is asked for. */
  function Spelled(u: Unit, a: bool, b: bool, c: bool, d: bool): Bytes {
    [DigitByte(u / 0x1000, a), DigitByte(u / 0x100 % 16, b), DigitByte(u / 16 % 16, c), DigitByte(u % 16, d)]
  }

  lemma FourAreRead(w: Bytes, n0: nat, n1: nat, n2: nat, n3: nat, a: bool, b: bool, c: bool, d: bool)
    requires n0 < 16 && n1 < 16 && n2 < 16 && n3 < 16
    requires w == [DigitByte(n0, a), DigitByte(n1, b), DigitByte(n2, c), DigitByte(n3, d)]
    ensures IsHex4(w) && Hex(w) == ((n0 * 16 + n1) * 16 + n2) * 16 + n3
  {
    DigitsAreRead(0);
    HexOfFour(w[0], w[1], w[2], w[3]);
  }

  lemma Quarters(u: Unit)
    ensures ((u / 0x1000 * 16 + u / 0x100 % 16) * 16 + u / 16 % 16) * 16 + u % 16 == u && u / 0x1000 < 16
  {
  }

  lemma SpelledIsRead(u: Unit, a: bool, b: bool, c: bool, d: bool)
    ensures IsHex4(Spelled(u, a, b, c, d)) && Hex(Spelled(u, a, b, c, d)) == u
  {
    Quarters(u);
    FourAreRead(Spelled(u, a, b, c, d), u / 0x1000, u / 0x100 % 16, u / 16 % 16, u % 16, a, b, c, d);
  }

  /** Every spelling of a unit, whatever the case of its digits, is a character just if the unit is no surrogate, and
      then it means the UTF-8 form of that code point. */
  lemma UnitIsRead(u: Unit, a: bool, b: bool, c: bool, d: bool)
    ensures CharOk(CodeUnit(Spelled(u, a, b, c, d))) <==> !(0xd800 <= u <= 0xdfff)
    ensures !(0xd800 <= u <= 0xdfff) ==> Meaning(CodeUnit(Spelled(u, a, b, c, d))) == Utf8(u)
  {
    SpelledIsRead(u, a, b, c, d);
  }

  lemma HalvesMean(hi: Bytes, lo: Bytes, cp: Scalar)
    requires IsHex4(hi) && IsHex4(lo) && cp >= 0x1_0000 && [Hex(hi), Hex(lo)] == Utf16(cp)
    ensures CharOk(Pair(hi, lo)) && Meaning(Pair(hi, lo)) == Utf8(cp)
  {
    assert Combine(Utf16(cp)[0], Utf16(cp)[1]) == cp;
  }

  /** And the spellings of the two halves of a code point past the first 65536, in whatever case, mean its UTF-8
      form. */
  lemma PairIsRead(cp: Scalar, a: bool, b: bool, c: bool, d: bool, e: bool, f: bool, g: bool, h: bool)
    requires cp >= 0x1_0000
    ensures
      var pair := Pair(Spelled(Utf16(cp)[0], a, b, c, d), Spelled(Utf16(cp)[1], e, f, g, h));
      CharOk(pair) && Meaning(pair) == Utf8(cp)
  {
    var hi, lo := Utf16(cp)[0], Utf16(cp)[1];
    SpelledIsRead(hi, a, b, c, d);
    SpelledIsRead(lo, e, f, g, h);
    HalvesMean(Spelled(hi, a, b, c, d), Spelled(lo, e, f, g, h), cp);
  }

  /** Nothing but such spellings is taken for four digits. */
  lemma FourDigitsAreSpelled(w: Bytes) returns (a: bool, b: bool, c: bool, d: bool)
    requires IsHex4(w)
    ensures 0 <= Hex(w) < 0x1_0000 && w == Spelled(Hex(w), a, b, c, d)
  {
    var n0, n1, n2, n3;
    EachIsDigit(w);
    n0, a := ReadDigit(w[0]);
    n1, b := ReadDigit(w[1]);
    n2, c := ReadDigit(w[2]);
    n3, d := ReadDigit(w[3]);
    FourAreRead(w, n0, n1, n2, n3, a, b, c, d);
    Quartered(n0, n1, n2, n3);
  }

  lemma {:induction false} EachIsDigit(w: Bytes)
    requires AllHex(w)
    ensures forall i | 0 <= i < |w| :: HexValue(w[i]) >= 0
  {
    if w == [] {
    } else {
      EachIsDigit(w[1..]);
      assert forall i | 0 < i < |w| :: w[i] == w[1..][i - 1];
    }
  }

  lemma Quartered(n0: nat, n1: nat, n2: nat, n3: nat)
    requires n0 < 16 && n1 < 16 && n2 < 16 && n3 < 16
    ensures
      var u := ((n0 * 16 + n1) * 16 + n2) * 16 + n3;
      u < 0x1_0000 && u / 0x1000 == n0 && u / 0x100 % 16 == n1 && u / 16 % 16 == n2 && u % 16 == n3
  {
  }

  lemma ReadDigit(b: Byte) returns (n: nat, upper: bool)
    requires HexValue(b) >= 0
    ensures n < 16 && b == DigitByte(n, upper)
  {
    DigitsAreRead(b);
    n := HexValue(b);
    upper := b == DigitByte(n, true);
  }

  // ----- short escapes, white space, digits

  /** The letters of the short escapes and what they stand for, in the same order. */
  const SHORT_LETTERS := "\"\\/bfnrt"

  const SHORT_MEANINGS: seq<nat> := [0x22, 0x5c, 0x2f, 0x08, 0x0c, 0x0a, 0x0d, 0x09]

  lemma ShortIsRead(i: nat)
    requires i < |SHORT_LETTERS|
    ensures
      var letter := SHORT_LETTERS[i] as int;
      letter < 256 && CharOk(Short(letter)) && Meaning(Short(letter)) == [SHORT_MEANINGS[i]]
  {
  }

  lemma OnlyShortsAreRead(b: Byte) returns (i: nat)
    requires CharOk(Short(b))
    ensures i < |SHORT_LETTERS| && b == SHORT_LETTERS[i] as int
  {
    i := if b == QUOTE then 0 else if b == BACKSLASH then 1 else if b == SLASH then 2 else if b == LOWER_B then 3
         else if b == LOWER_F then 4 else if b == LOWER_N then 5 else if b == LOWER_R then 6 else 7;
  }

  /** Space, tab, line feed, carriage return, and the two that C adds. */
  const SPACES: seq<nat> := [0x20, 0x09, 0x0a, 0x0d, 0x0b, 0x0c]

  lemma SpacesAreRead(b: Byte)
    ensures IsSpace(b) <==> b in SPACES
    ensures IsDigit(b) <==> exists n: nat :: n < 10 && b == DigitByte(n, false)
  {
    if IsDigit(b) { assert b == DigitByte(b - 48, false); }
  }

  // ----- nesting

  /** A null inside `n` arrays. */
  function Nested(n: nat): Value {
    Value([], if n == 0 then Null else Array(Items(LastItem(Item(Nested(n - 1), [])))))
  }

  /** Values may lie 64 deep, and no deeper. */
  lemma {:induction false} NestedIff(n: nat, depth: nat)
    ensures ValueOk(Nested(n), depth) <==> depth + n <= 64
    decreases n
  {
    var v := Nested(n);
    if n > 0 {
      NestedIff(n - 1, depth + 1);
      var its := v.token.list.items;
      assert its == LastItem(Item(Nested(n - 1), []));
      assert ItemOk(its.item, depth + 1) <==> ValueOk(Nested(n - 1), depth + 1);
      assert TokenOk(v.token, depth) <==> ItemsOk(its, depth);
    }
  }
}
