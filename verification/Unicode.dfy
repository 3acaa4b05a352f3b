/** Code points, their UTF-8 form (section 3 of RFC 3629) and their UTF-16 form. */
module Unicode {
  import opened Basics

  type Byte = b: int | 0 <= b < 256 witness 0

  type Unit = u: int | 0 <= u < 0x1_0000 witness 0

  /** ASCII text as its codes; anything else as a question mark. */
  function Ascii(s: string): seq<Byte> {
    if s == [] then [] else [if s[0] < 128 as char then s[0] as int else 63] + Ascii(s[1..])
  }

  predicate IsHigh(u: int) { 0xd800 <= u <= 0xdbff }

  predicate IsLow(u: int) { 0xdc00 <= u <= 0xdfff }

  predicate IsSurrogate(u: int) { 0xd800 <= u <= 0xdfff }

  type Scalar = cp: int | 0 <= cp <= 0x10ffff && !(0xd800 <= cp <= 0xdfff) witness 0

  const REPLACEMENT: Scalar := 0xfffd

  /** The code point a surrogate pair stands for. */
  function Combine(hi: int, lo: int): (cp: Scalar)
    requires IsHigh(hi) && IsLow(lo)
    ensures cp >= 0x1_0000
  {
    0x1_0000 + (hi - 0xd800) * 0x400 + (lo - 0xdc00)
  }

  // ----- UTF-8

  /** A leading byte: a marker above, the top bits below. */
  function Lead(marker: int, bits: int): (b: Byte)
    requires 0 <= marker < 256 && 0 <= bits < 256 - marker
  {
    marker + bits
  }

  /** A following byte carries six bits. */
  function Trail(bits: int): (b: Byte) { 0x80 + bits % 0x40 }

  /** One to four bytes, the first telling how many follow. */
  function Utf8(cp: Scalar): (s: seq<Byte>)
    ensures 1 <= |s| <= 4
  {
    if cp <= 0x7f then [Lead(0, cp)]
    else if cp <= 0x7ff then [Lead(0xc0, cp / 0x40), Trail(cp)]
    else if cp <= 0xffff then [Lead(0xe0, cp / 0x1000), Trail(cp / 0x40), Trail(cp)]
    else [Lead(0xf0, cp / 0x4_0000), Trail(cp / 0x1000), Trail(cp / 0x40), Trail(cp)]
  }

  function Utf8All(cps: seq<Scalar>): seq<Byte> {
    if cps == [] then [] else Utf8(cps[0]) + Utf8All(cps[1..])
  }

  predicate IsTrail(b: Byte) { 0x80 <= b < 0xc0 }

  /** Reading one code point back, rejecting overlong forms, surrogates and stray bytes. */
  function ReadUtf8(s: seq<Byte>): Option<(Scalar, nat)> {
    if s == [] then None
    else if s[0] < 0x80 then Some((s[0], 1))
    else if 0xc0 <= s[0] < 0xe0 && |s| >= 2 && IsTrail(s[1]) then
      var cp: int := (s[0] as int - 0xc0) * 0x40 + (s[1] as int - 0x80);
      if cp < 0x80 then None else Some((cp, 2))
    else if 0xe0 <= s[0] < 0xf0 && |s| >= 3 && IsTrail(s[1]) && IsTrail(s[2]) then
      var cp: int := (s[0] as int - 0xe0) * 0x1000 + (s[1] as int - 0x80) * 0x40 + (s[2] as int - 0x80);
      if cp < 0x800 || IsSurrogate(cp) then None else Some((cp, 3))
    else if 0xf0 <= s[0] < 0xf8 && |s| >= 4 && IsTrail(s[1]) && IsTrail(s[2]) && IsTrail(s[3]) then
      var cp: int := (s[0] as int - 0xf0) * 0x4_0000 + (s[1] as int - 0x80) * 0x1000
                   + (s[2] as int - 0x80) * 0x40 + (s[3] as int - 0x80);
      if cp < 0x1_0000 || cp > 0x10ffff then None else Some((cp, 4))
    else None
  }

  function ReadAllUtf8(s: seq<Byte>): Option<seq<Scalar>> {
    if s == [] then Some([])
    else match ReadUtf8(s)
      case None => None
      case Some((cp, n)) =>
        if n > |s| then None else
        match ReadAllUtf8(s[n..])
        case None => None
        case Some(rest) => Some([cp] + rest)
  }

  lemma SixBits(cp: int)
    requires 0 <= cp
    ensures Trail(cp) as int - 0x80 == cp - cp / 0x40 * 0x40
  {
  }

  lemma Quotients(cp: int)
    requires 0 <= cp
    ensures cp / 0x40 / 0x40 == cp / 0x1000 && cp / 0x1000 / 0x40 == cp / 0x4_0000
  {
  }

  /** What was written is read back, whatever follows. */
  lemma Utf8RoundTrip(cp: Scalar, rest: seq<Byte>)
    ensures ReadUtf8(Utf8(cp) + rest) == Some((cp, |Utf8(cp)|))
  {
    var s := Utf8(cp) + rest;
    SixBits(cp);
    SixBits(cp / 0x40);
    SixBits(cp / 0x1000);
    Quotients(cp);
    if 0x7f < cp <= 0x7ff {
      assert s[0] == Lead(0xc0, cp / 0x40) && s[1] == Trail(cp);
    } else if 0x7ff < cp <= 0xffff {
      assert s[0] == Lead(0xe0, cp / 0x1000) && s[1] == Trail(cp / 0x40) && s[2] == Trail(cp);
    } else if 0xffff < cp {
      assert s[0] == Lead(0xf0, cp / 0x4_0000) && s[1] == Trail(cp / 0x1000) && s[2] == Trail(cp / 0x40)
          && s[3] == Trail(cp);
    }
  }

  lemma {:induction false} Utf8AllRoundTrip(cps: seq<Scalar>)
    ensures ReadAllUtf8(Utf8All(cps)) == Some(cps)
  {
    if cps == [] {
    } else {
      var s := Utf8All(cps);
      Utf8RoundTrip(cps[0], Utf8All(cps[1..]));
      Utf8AllRoundTrip(cps[1..]);
      assert s[|Utf8(cps[0])|..] == Utf8All(cps[1..]);
      assert [cps[0]] + cps[1..] == cps;
    }
  }

  // ----- UTF-16

  /** The code points of a text of 16-bit units; an unpaired surrogate reads as U+FFFD. */
  function Scalars(w: seq<Unit>): seq<Scalar> {
    if w == [] then []
    else if IsHigh(w[0]) && |w| >= 2 && IsLow(w[1]) then [Combine(w[0], w[1])] + Scalars(w[2..])
    else if IsSurrogate(w[0]) then [REPLACEMENT] + Scalars(w[1..])
    else [w[0]] + Scalars(w[1..])
  }

  /** The UTF-16 form of a code point: one unit, or a surrogate pair. */
  function Utf16(cp: Scalar): seq<Unit> {
    if cp < 0x1_0000 then [cp] else [0xd800 + (cp - 0x1_0000) / 0x400, 0xdc00 + (cp - 0x1_0000) % 0x400]
  }

  function Utf16All(cps: seq<Scalar>): seq<Unit> {
    if cps == [] then [] else Utf16(cps[0]) + Utf16All(cps[1..])
  }

  lemma Utf16RoundTrip(cp: Scalar, rest: seq<Unit>)
    ensures Scalars(Utf16(cp) + rest) == [cp] + Scalars(rest)
  {
    var w := Utf16(cp) + rest;
    if cp < 0x1_0000 {
      assert w[0] == cp && w[1..] == rest;
    } else {
      var hi, lo := Utf16(cp)[0], Utf16(cp)[1];
      assert w[0] == hi && w[1] == lo && w[2..] == rest;
      assert Combine(hi, lo) == cp;
    }
  }

  /** Well-formed UTF-16 text is read as the code points it was written from. */
  lemma {:induction false} Utf16AllRoundTrip(cps: seq<Scalar>)
    ensures Scalars(Utf16All(cps)) == cps
  {
    if cps != [] {
      Utf16RoundTrip(cps[0], Utf16All(cps[1..]));
      Utf16AllRoundTrip(cps[1..]);
      assert [cps[0]] + cps[1..] == cps;
    }
  }
}
