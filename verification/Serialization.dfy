/** Writing wide text for JSON and CSV: the escapes, the quotes, the guard against formulas. */
module Serialization {
  import opened Basics
  import opened Unicode

  type Text = seq<Unit>

  const QUOTE: Unit := 34
  const PLUS: Unit := 43
  const APOSTROPHE: Unit := 39
  const COMMA: Unit := 44
  const MINUS: Unit := 45
  const EQUALS: Unit := 61
  const AT: Unit := 64
  const BACKSLASH: Unit := 92
  const CR: Unit := 13
  const LF: Unit := 10

  /** "\ufffd" */
  const REPLACEMENT_ESCAPE: Text := [92, 117, 102, 102, 102, 100]

  // ----- JSON

  /** A hexadecimal digit, in lower case. */
  function HexDigit(n: int): Unit
    requires 0 <= n < 16
  {
    if n < 10 then 48 + n else 87 + n
  }

  /** The letter that escapes a unit, if there is one. */
  function EscapeLetter(u: Unit): Option<Unit> {
    if u == QUOTE || u == BACKSLASH then Some(u)
    else if u == 8 then Some(98)
    else if u == 12 then Some(102)
    else if u == LF then Some(110)
    else if u == CR then Some(114)
    else if u == 9 then Some(116)
    else None
  }

  /** One unit that is no surrogate, escaped where it must be. */
  function EscapedUnit(u: Unit): Text {
    if EscapeLetter(u).Some? then [BACKSLASH, EscapeLetter(u).value]
    else if u < 0x20 then [BACKSLASH, 117, 48, 48, HexDigit(u / 16), HexDigit(u % 16)]
    else [u]
  }

  /** Only quotes, backslashes and control characters are escaped. */
  lemma EscapedIff(u: Unit)
    ensures EscapedUnit(u) != [u] <==> u < 0x20 || u in {QUOTE, BACKSLASH}
    ensures EscapedUnit(u) != [u] ==> EscapedUnit(u)[0] == BACKSLASH
  {
    if u == QUOTE || u == BACKSLASH { assert |EscapedUnit(u)| == 2; }
  }

  /** What is written for the first unit, or for the first two if they are a surrogate pair, and how many
      units that is. Pairs stay; other surrogates become the escape of U+FFFD. */
  datatype Step = Step(written: Text, taken: nat)

  function First(w: Text): (b: Step)
    requires w != []
    ensures 1 <= b.taken <= |w|
  {
    if IsHigh(w[0]) && |w| >= 2 && IsLow(w[1]) then Step([w[0], w[1]], 2)
    else if IsSurrogate(w[0]) then Step(REPLACEMENT_ESCAPE, 1)
    else Step(EscapedUnit(w[0]), 1)
  }

  function Escaped(w: Text): Text {
    if w == [] then [] else First(w).written + Escaped(w[First(w).taken..])
  }

  method JsonEscape(value: Text) returns (result: Text)
    ensures result == Escaped(value)
  {
    result := [];
    var index := 0;
    while index < |value|
      invariant index <= |value| && result + Escaped(value[index..]) == Escaped(value)
    {
      ghost var was, step := result, First(value[index..]);
      EscapedFirst(value, index);
      Regroup(was, step.written, Escaped(value[index + step.taken..]));
      result, index := EscapeNext(value, index, result);
    }
  }

  /** The units at `index`, written after `result`. */
  method EscapeNext(value: Text, index: nat, result: Text) returns (longer: Text, next: nat)
    requires index < |value|
    ensures longer == result + First(value[index..]).written && next == index + First(value[index..]).taken
  {
    var ch := value[index];
    next := index;
    if 0xd800 <= ch <= 0xdbff {
      if index + 1 < |value| && 0xdc00 <= value[index + 1] <= 0xdfff {
        longer := result + [ch, value[index + 1]];
        next := next + 1;
      } else {
        longer := result + REPLACEMENT_ESCAPE;
      }
    } else if 0xdc00 <= ch <= 0xdfff {
      longer := result + REPLACEMENT_ESCAPE;
    } else {
      longer := AppendUnit(result, ch);
    }
    next := next + 1;
  }

  lemma EscapedFirst(value: Text, start: nat)
    requires start < |value|
    ensures
      var b := First(value[start..]);
      Escaped(value[start..]) == b.written + Escaped(value[start + b.taken..])
  {
    var taken := First(value[start..]).taken;
    assert value[start..][taken..] == value[start + taken..];
  }

  method AppendUnit(result: Text, ch: Unit) returns (longer: Text)
    ensures longer == result + EscapedUnit(ch)
  {
    if ch == QUOTE { longer := result + [BACKSLASH, QUOTE]; }
    else if ch == BACKSLASH { longer := result + [BACKSLASH, BACKSLASH]; }
    else if ch == 8 { longer := result + [BACKSLASH, 98]; }
    else if ch == 12 { longer := result + [BACKSLASH, 102]; }
    else if ch == LF { longer := result + [BACKSLASH, 110]; }
    else if ch == CR { longer := result + [BACKSLASH, 114]; }
    else if ch == 9 { longer := result + [BACKSLASH, 116]; }
    else if ch < 0x20 { longer := result + [BACKSLASH, 117, 48, 48, HexDigit(ch / 16), HexDigit(ch % 16)]; }
    else { longer := result + [ch]; }
  }

  // ----- CSV

  /** A cell that a spreadsheet would take for a formula gets an apostrophe in front. */
  function Protected(value: Text, protect: bool): Text {
    if protect && value != [] && (value[0] == EQUALS || value[0] == PLUS || value[0] == MINUS || value[0] == AT)
    then [APOSTROPHE] + value else value
  }

  predicate IsSpecial(u: Unit) { u == COMMA || u == QUOTE || u == CR || u == LF }

  predicate Plain(value: Text) { value == [] || (!IsSpecial(value[0]) && Plain(value[1..])) }

  /** Every quote twice. */
  function Doubled(value: Text): Text {
    if value == [] then []
    else (if value[0] == QUOTE then [QUOTE, QUOTE] else [value[0]]) + Doubled(value[1..])
  }

  /** A value as a cell: in quotes if it has something special. */
  function Quoted(v: Text): Text { if Plain(v) then v else [QUOTE] + Doubled(v) + [QUOTE] }

  function Cell(value: Text, protect: bool): Text { Quoted(Protected(value, protect)) }

  lemma {:induction false} PlainAt(value: Text, i: nat)
    requires i <= |value| && Plain(value[i..])
    ensures forall k | i <= k < |value| :: !IsSpecial(value[k])
    decreases |value| - i
  {
    if i < |value| {
      assert value[i..][1..] == value[i + 1..];
      PlainAt(value, i + 1);
      forall k | i <= k < |value| ensures !IsSpecial(value[k]) {
        if k == i { assert value[i..][0] == value[i]; }
      }
    }
  }

  lemma {:induction false} PlainFrom(value: Text)
    requires forall k | 0 <= k < |value| :: !IsSpecial(value[k])
    ensures Plain(value)
  {
    if value != [] { PlainFrom(value[1..]); }
  }

  /** Whether `value` has a comma, a quote or a line-break unit. */
  method HasSpecial(value: Text) returns (found: bool)
    ensures found == !Plain(value)
  {
    for i := 0 to |value|
      invariant forall k | 0 <= k < i :: !IsSpecial(value[k])
    {
      if IsSpecial(value[i]) {
        if Plain(value) { PlainAt(value, 0); }
        return true;
      }
    }
    PlainFrom(value);
    return false;
  }

  lemma DoubledOneMore(written: Text, v: Text, i: nat)
    requires i < |v|
    ensures written + Doubled(v[i..])
         == (written + (if v[i] == QUOTE then [QUOTE, QUOTE] else [v[i]])) + Doubled(v[i + 1..])
  {
    assert v[i..][1..] == v[i + 1..];
    Regroup(written, if v[i] == QUOTE then [QUOTE, QUOTE] else [v[i]], Doubled(v[i + 1..]));
  }

  method CsvCell(value: Text, protectFormula: bool := true) returns (result: Text)
    ensures result == Cell(value, protectFormula)
  {
    var v := value;
    if protectFormula && v != [] && (v[0] == EQUALS || v[0] == PLUS || v[0] == MINUS || v[0] == AT) {
      v := [APOSTROPHE] + v;
    }
    var special := HasSpecial(v);
    if !special { return v; }
    result := [QUOTE];
    for i := 0 to |v|
      invariant result + Doubled(v[i..]) == [QUOTE] + Doubled(v)
    {
      DoubledOneMore(result, v, i);
      if v[i] == QUOTE { result := result + [QUOTE, QUOTE]; } else { result := result + [v[i]]; }
    }
    assert result + Doubled(v[|v|..]) == result;
    result := result + [QUOTE];
  }
}
