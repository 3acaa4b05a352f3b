/** The documents the reader accepts, as syntax trees with their exact spelling: every space, every choice
    of escape. Sections 2 to 7 of RFC 8259, with the wider white space of C, distinct keys in each object,
    and bounds on depth, strings and size. Raw bytes from 0x80 up are taken as they are. */
module JsonGrammar {
  import opened Basics
  import opened Unicode

  type Bytes = seq<Byte>

  /** What reading from some position comes to: nothing, or a tree and the position after it. */
  datatype Read<+T> = Fail | Got(tree: T, end: nat)

  /** A member read: its parts, the key and the text they mean, and the place of the byte after it. */
  datatype MemberRead = NoMember | OneMember(name: Name, item: Item, key: Bytes, text: Option<Bytes>, end: nat)

  const QUOTE: Byte := 34
  const PLUS: Byte := 43
  const COMMA: Byte := 44
  const MINUS: Byte := 45
  const DOT: Byte := 46
  const SLASH: Byte := 47
  const ZERO: Byte := 48
  const NINE: Byte := 57
  const COLON: Byte := 58
  const UPPER_E: Byte := 69
  const LBRACKET: Byte := 91
  const BACKSLASH: Byte := 92
  const RBRACKET: Byte := 93
  const LOWER_B: Byte := 98
  const LOWER_E: Byte := 101
  const LOWER_F: Byte := 102
  const LOWER_N: Byte := 110
  const LOWER_R: Byte := 114
  const LOWER_T: Byte := 116
  const LOWER_U: Byte := 117
  const LBRACE: Byte := 123
  const RBRACE: Byte := 125

  const TRUE: Bytes := [116, 114, 117, 101]
  const FALSE: Bytes := [102, 97, 108, 115, 101]
  const NULL: Bytes := [110, 117, 108, 108]

  const MAX_INPUT := 1024 * 1024
  const MAX_STRING := 4096
  const MAX_DEPTH := 64

  // ----- lexical classes

  predicate IsSpace(b: Byte) { b == 32 || 9 <= b <= 13 }

  predicate IsDigit(b: Byte) { ZERO <= b <= NINE }

  predicate Spaces(w: Bytes) { w == [] || (IsSpace(w[0]) && Spaces(w[1..])) }

  predicate Digits(w: Bytes) { w == [] || (IsDigit(w[0]) && Digits(w[1..])) }

  function HexValue(b: Byte): int {
    if ZERO <= b <= NINE then b - ZERO
    else if 97 <= b <= 102 then b - 97 + 10
    else if 65 <= b <= 70 then b - 65 + 10
    else -1
  }

  /** The value of a run of hexadecimal digits. */
  function Hex(d: Bytes): int {
    if d == [] then 0 else Hex(d[..|d| - 1]) * 16 + HexValue(d[|d| - 1])
  }

  predicate AllHex(d: Bytes) { d == [] || (HexValue(d[0]) >= 0 && AllHex(d[1..])) }

  predicate IsHex4(d: Bytes) { |d| == 4 && AllHex(d) }

  // ----- strings

  datatype Char =
    | Plain(b: Byte)
    | Short(letter: Byte)
    | CodeUnit(digits: Bytes)
    | Pair(hi: Bytes, lo: Bytes)

  /** What a one-letter escape stands for; None for a letter that is none. */
  function ShortValue(letter: Byte): Option<Byte> {
    if letter == QUOTE || letter == BACKSLASH || letter == SLASH then Some(letter)
    else if letter == LOWER_B then Some(8)
    else if letter == LOWER_F then Some(12)
    else if letter == LOWER_N then Some(10)
    else if letter == LOWER_R then Some(13)
    else if letter == LOWER_T then Some(9)
    else None
  }

  predicate CharOk(c: Char) {
    match c
    case Plain(b) => 0x20 <= b && b != QUOTE && b != BACKSLASH
    case Short(letter) => ShortValue(letter).Some?
    case CodeUnit(d) => IsHex4(d) && !IsSurrogate(Hex(d))
    case Pair(hi, lo) => IsHex4(hi) && IsHex4(lo) && IsHigh(Hex(hi)) && IsLow(Hex(lo))
  }

  function PrintChar(c: Char): Bytes {
    match c
    case Plain(b) => [b]
    case Short(letter) => [BACKSLASH, letter]
    case CodeUnit(d) => [BACKSLASH, LOWER_U] + d
    case Pair(hi, lo) => [BACKSLASH, LOWER_U] + hi + [BACKSLASH, LOWER_U] + lo
  }

  /** The bytes a character stands for. */
  function Meaning(c: Char): Bytes {
    match c
    case Plain(b) => [b]
    case Short(letter) => if ShortValue(letter).Some? then [ShortValue(letter).value] else []
    case CodeUnit(d) => UnitText(Hex(d))
    case Pair(hi, lo) => PairText(Hex(hi), Hex(lo))
  }

  function UnitText(u: int): Bytes { if 0 <= u < 0x1_0000 && !IsSurrogate(u) then Utf8(u) else [] }

  function PairText(hi: int, lo: int): Bytes { if IsHigh(hi) && IsLow(lo) then Utf8(Combine(hi, lo)) else [] }

  predicate CharsOk(cs: seq<Char>) { cs == [] || (CharOk(cs[0]) && CharsOk(cs[1..])) }

  function PrintChars(cs: seq<Char>): Bytes {
    if cs == [] then [] else PrintChar(cs[0]) + PrintChars(cs[1..])
  }

  function Decoded(cs: seq<Char>): Bytes {
    if cs == [] then [] else Meaning(cs[0]) + Decoded(cs[1..])
  }

  predicate StringOk(cs: seq<Char>) { CharsOk(cs) && |Decoded(cs)| <= MAX_STRING }

  function Quoted(cs: seq<Char>): Bytes { [QUOTE] + (PrintChars(cs) + [QUOTE]) }

  // ----- numbers

  datatype Exponent = NoExponent | Exponent(letter: Byte, sign: Bytes, digits: Bytes)

  datatype Number = Number(minus: Bytes, whole: Bytes, fraction: Bytes, exponent: Exponent)

  predicate WholeOk(w: Bytes) { w == [ZERO] || (w != [] && Digits(w) && w[0] != ZERO) }

  predicate FractionOk(f: Bytes) { f == [] || (|f| >= 2 && f[0] == DOT && Digits(f[1..])) }

  predicate ExponentOk(e: Exponent) {
    e.Exponent? ==>
      && (e.letter == LOWER_E || e.letter == UPPER_E)
      && (e.sign == [] || e.sign == [PLUS] || e.sign == [MINUS])
      && e.digits != [] && Digits(e.digits)
  }

  predicate NumberOk(n: Number) {
    && (n.minus == [] || n.minus == [MINUS])
    && WholeOk(n.whole) && FractionOk(n.fraction) && ExponentOk(n.exponent)
  }

  function PrintExponent(e: Exponent): Bytes {
    if e.NoExponent? then [] else [e.letter] + (e.sign + e.digits)
  }

  function PrintNumber(n: Number): Bytes { n.minus + (n.whole + (n.fraction + PrintExponent(n.exponent))) }

  // ----- values

  datatype Value = Value(space: Bytes, token: Token)

  datatype Token =
    | Text(chars: seq<Char>) | Numeral(number: Number) | True | False | Null
    | Object(body: Body) | Array(list: List)

  datatype Body = NoMembers(space: Bytes) | Members(members: Members)

  datatype Name = Name(space: Bytes, key: seq<Char>, colonSpace: Bytes)

  datatype Item = Item(value: Value, endSpace: Bytes)

  datatype Members = Last(name: Name, item: Item) | More(name: Name, item: Item, rest: Members)

  datatype List = NoItems(space: Bytes) | Items(items: Items)

  datatype Items = LastItem(item: Item) | MoreItems(item: Item, rest: Items)

  datatype Document = Document(space: Bytes, body: Body, endSpace: Bytes)

  function PrintValue(v: Value): Bytes { v.space + PrintToken(v.token) }

  function PrintToken(t: Token): Bytes {
    match t
    case Text(cs) => Quoted(cs)
    case Numeral(n) => PrintNumber(n)
    case True => TRUE
    case False => FALSE
    case Null => NULL
    case Object(b) => [LBRACE] + PrintBody(b)
    case Array(l) => [LBRACKET] + PrintList(l)
  }

  function PrintBody(b: Body): Bytes {
    match b
    case NoMembers(space) => space + [RBRACE]
    case Members(ms) => PrintMembers(ms)
  }

  function PrintName(n: Name): Bytes { n.space + (Quoted(n.key) + (n.colonSpace + [COLON])) }

  function PrintItem(i: Item): Bytes { PrintValue(i.value) + i.endSpace }

  function PrintMembers(ms: Members): Bytes { PrintName(ms.name) + (PrintItem(ms.item) + PrintEnd(ms)) }

  function PrintEnd(ms: Members): Bytes
    decreases ms, 0
  {
    if ms.Last? then [RBRACE] else [COMMA] + PrintMembers(ms.rest)
  }

  function PrintList(l: List): Bytes {
    match l
    case NoItems(space) => space + [RBRACKET]
    case Items(its) => PrintItems(its)
  }

  function PrintItems(its: Items): Bytes { PrintItem(its.item) + PrintItemsEnd(its) }

  function PrintItemsEnd(its: Items): Bytes
    decreases its, 0
  {
    if its.LastItem? then [RBRACKET] else [COMMA] + PrintItems(its.rest)
  }

  function PrintDocument(d: Document): Bytes { d.space + ([LBRACE] + (PrintBody(d.body) + d.endSpace)) }

  predicate ValueOk(v: Value, depth: nat) {
    depth <= MAX_DEPTH && Spaces(v.space) && TokenOk(v.token, depth)
  }

  predicate TokenOk(t: Token, depth: nat) {
    match t
    case Text(cs) => StringOk(cs)
    case Numeral(n) => NumberOk(n)
    case Object(b) => BodyOk(b, depth)
    case Array(l) => ListOk(l, depth)
    case _ => true
  }

  predicate BodyOk(b: Body, depth: nat) {
    match b
    case NoMembers(space) => Spaces(space)
    case Members(ms) => MembersOk(ms, depth, {})
  }

  predicate NameOk(n: Name) { Spaces(n.space) && StringOk(n.key) && Spaces(n.colonSpace) }

  predicate ItemOk(i: Item, depth: nat) { ValueOk(i.value, depth) && Spaces(i.endSpace) }

  /** Well-formed members whose keys are distinct from one another and from those in `seen`. */
  predicate MembersOk(ms: Members, depth: nat, seen: set<Bytes>) {
    && NameOk(ms.name) && Decoded(ms.name.key) !in seen
    && ItemOk(ms.item, depth + 1)
    && (ms.More? ==> MembersOk(ms.rest, depth, seen + {Decoded(ms.name.key)}))
  }

  predicate ListOk(l: List, depth: nat) {
    match l
    case NoItems(space) => Spaces(space)
    case Items(its) => ItemsOk(its, depth)
  }

  predicate ItemsOk(its: Items, depth: nat) {
    ItemOk(its.item, depth + 1) && (its.MoreItems? ==> ItemsOk(its.rest, depth))
  }

  predicate DocumentOk(d: Document) {
    Spaces(d.space) && Spaces(d.endSpace) && BodyOk(d.body, 0) && |PrintDocument(d)| <= MAX_INPUT
  }

  // ----- what a document says

  function TextOf(v: Value): Option<Bytes> {
    if v.token.Text? then Some(Decoded(v.token.chars)) else None
  }

  /** The string that the member `key` carries, if there is such a member and it carries one. */
  function Lookup(ms: Members, key: Bytes): Option<Bytes> {
    if Decoded(ms.name.key) == key then TextOf(ms.item.value)
    else if ms.More? then Lookup(ms.rest, key) else None
  }

  function FieldOf(b: Body, key: Bytes): Option<Bytes> {
    match b
    case NoMembers(_) => None
    case Members(ms) => Lookup(ms, key)
  }

  function Field(d: Document, key: Bytes): Option<Bytes> { FieldOf(d.body, key) }
}

/** Reading as functions: from a position, the syntax tree found there and the position after it. */
module JsonScan {
  import opened Basics
  import opened Unicode
  import opened JsonGrammar

  /** The end of the white space at `pos`. */
  function SkipSpace(s: Bytes, pos: nat): (p: nat)
    requires pos <= |s|
    ensures pos <= p <= |s| && (p < |s| ==> !IsSpace(s[p]))
    decreases |s| - pos
  {
    if pos < |s| && IsSpace(s[pos]) then SkipSpace(s, pos + 1) else pos
  }

  function SkipDigits(s: Bytes, pos: nat): (p: nat)
    requires pos <= |s|
    ensures pos <= p <= |s| && (p < |s| ==> !IsDigit(s[p]))
    decreases |s| - pos
  {
    if pos < |s| && IsDigit(s[pos]) then SkipDigits(s, pos + 1) else pos
  }

  predicate Is(s: Bytes, pos: nat, b: Byte) { pos < |s| && s[pos] == b }

  // ----- strings

  function ScanHex4(s: Bytes, pos: nat): (r: Read<Bytes>)
    ensures r.Got? ==> r.end == pos + 4 <= |s| && IsHex4(r.tree)
  {
    if pos + 4 <= |s| && IsHex4(s[pos..pos + 4]) then Got(s[pos..pos + 4], pos + 4) else Fail
  }

  function ScanEscape(s: Bytes, pos: nat): (r: Read<Char>)
    ensures r.Got? ==> pos < r.end <= |s|
  {
    if pos >= |s| then Fail
    else if ShortValue(s[pos]).Some? then Got(Short(s[pos]), pos + 1)
    else if s[pos] != LOWER_U then Fail
    else match ScanHex4(s, pos + 1)
      case Fail => Fail
      case Got(d, p) =>
        if IsHigh(Hex(d)) then
          if !Is(s, p, BACKSLASH) || !Is(s, p + 1, LOWER_U) then Fail
          else match ScanHex4(s, p + 2)
            case Fail => Fail
            case Got(e, q) => if IsLow(Hex(e)) then Got(Pair(d, e), q) else Fail
        else if IsLow(Hex(d)) then Fail
        else Got(CodeUnit(d), p)
  }

  /** One character at `pos`, where there is no closing quote. */
  function ScanChar(s: Bytes, pos: nat): (r: Read<Char>)
    requires pos < |s| && s[pos] != QUOTE
    ensures r.Got? ==> pos < r.end <= |s|
  {
    if s[pos] < 0x20 then Fail
    else if s[pos] != BACKSLASH then Got(Plain(s[pos]), pos + 1)
    else ScanEscape(s, pos + 1)
  }

  /** The characters up to the closing quote. */
  function ScanChars(s: Bytes, pos: nat): (r: Read<seq<Char>>)
    requires pos <= |s|
    ensures r.Got? ==> pos < r.end <= |s|
    decreases |s| - pos
  {
    if pos >= |s| then Fail
    else if s[pos] == QUOTE then Got([], pos + 1)
    else match ScanChar(s, pos)
      case Fail => Fail
      case Got(c, p) =>
        match ScanChars(s, p)
        case Fail => Fail
        case Got(cs, q) => Got([c] + cs, q)
  }

  /** A quoted string at `pos`, not too long. */
  function ScanString(s: Bytes, pos: nat): (r: Read<seq<Char>>)
    ensures r.Got? ==> pos < r.end <= |s|
  {
    if !Is(s, pos, QUOTE) then Fail
    else match ScanChars(s, pos + 1)
      case Fail => Fail
      case Got(cs, p) => if |Decoded(cs)| <= MAX_STRING then Got(cs, p) else Fail
  }

  // ----- numbers

  function ScanMinus(s: Bytes, pos: nat): nat { if Is(s, pos, MINUS) then pos + 1 else pos }

  function ScanWhole(s: Bytes, pos: nat): (r: Option<nat>)
    ensures r.Some? ==> pos < r.value <= |s|
  {
    if pos >= |s| || !IsDigit(s[pos]) then None
    else if s[pos] == ZERO then Some(pos + 1)
    else Some(SkipDigits(s, pos))
  }

  function ScanFraction(s: Bytes, pos: nat): (r: Option<nat>)
    requires pos <= |s|
    ensures r.Some? ==> pos <= r.value <= |s|
  {
    if !Is(s, pos, DOT) then Some(pos)
    else if SkipDigits(s, pos + 1) == pos + 1 then None
    else Some(SkipDigits(s, pos + 1))
  }

  predicate IsExponentMark(s: Bytes, pos: nat) { Is(s, pos, LOWER_E) || Is(s, pos, UPPER_E) }

  function ScanSign(s: Bytes, pos: nat): nat {
    if Is(s, pos, PLUS) || Is(s, pos, MINUS) then pos + 1 else pos
  }

  function ScanExponent(s: Bytes, pos: nat): (r: Read<Exponent>)
    requires pos <= |s|
    ensures r.Got? ==> pos <= r.end <= |s|
  {
    if !IsExponentMark(s, pos) then Got(NoExponent, pos) else
    var d := ScanSign(s, pos + 1);
    var p := SkipDigits(s, d);
    if p == d then Fail else Got(Exponent(s[pos], s[pos + 1..d], s[d..p]), p)
  }

  function ScanNumber(s: Bytes, pos: nat): (r: Read<Number>)
    requires pos <= |s|
    ensures r.Got? ==> pos < r.end <= |s|
  {
    var m := ScanMinus(s, pos);
    match ScanWhole(s, m)
    case None => Fail
    case Some(w) =>
      match ScanFraction(s, w)
      case None => Fail
      case Some(f) =>
        match ScanExponent(s, f)
        case Fail => Fail
        case Got(e, p) => Got(Number(s[pos..m], s[m..w], s[w..f], e), p)
  }

  // ----- values

  predicate IsLiteral(s: Bytes, pos: nat, word: Bytes) { pos + |word| <= |s| && s[pos..pos + |word|] == word }

  function ScanToken(s: Bytes, pos: nat, depth: nat): (r: Read<Token>)
    requires pos < |s|
    ensures r.Got? ==> pos < r.end <= |s|
    decreases |s| - pos, 0
  {
    var b := s[pos];
    if b == QUOTE then
      match ScanString(s, pos)
      case Fail => Fail
      case Got(cs, p) => Got(Text(cs), p)
    else if b == LBRACE then
      match ScanBody(s, pos + 1, depth)
      case Fail => Fail
      case Got(body, p) => Got(Object(body), p)
    else if b == LBRACKET then
      match ScanList(s, pos + 1, depth)
      case Fail => Fail
      case Got(list, p) => Got(Array(list), p)
    else if b == LOWER_T then if IsLiteral(s, pos, TRUE) then Got(True, pos + |TRUE|) else Fail
    else if b == LOWER_F then if IsLiteral(s, pos, FALSE) then Got(False, pos + |FALSE|) else Fail
    else if b == LOWER_N then if IsLiteral(s, pos, NULL) then Got(Null, pos + |NULL|) else Fail
    else
      match ScanNumber(s, pos)
      case Fail => Fail
      case Got(n, p) => Got(Numeral(n), p)
  }

  function ScanValue(s: Bytes, pos: nat, depth: nat): (r: Read<Value>)
    requires pos <= |s|
    ensures r.Got? ==> pos < r.end <= |s|
    decreases |s| - pos, 1
  {
    var p := SkipSpace(s, pos);
    if depth > MAX_DEPTH || p >= |s| then Fail
    else match ScanToken(s, p, depth)
      case Fail => Fail
      case Got(t, q) => Got(Value(s[pos..p], t), q)
  }

  /** A value and the space after it. */
  function ScanItem(s: Bytes, pos: nat, depth: nat): (r: Read<Item>)
    requires pos <= |s|
    ensures r.Got? ==> pos < r.end <= |s|
    decreases |s| - pos, 2
  {
    match ScanValue(s, pos, depth)
    case Fail => Fail
    case Got(v, e) => Got(Item(v, s[e..SkipSpace(s, e)]), SkipSpace(s, e))
  }

  /** A key with its colon and the space around it. */
  function ScanName(s: Bytes, pos: nat): (r: Read<Name>)
    requires pos <= |s|
    ensures r.Got? ==> pos < r.end <= |s|
  {
    var k := SkipSpace(s, pos);
    match ScanString(s, k)
    case Fail => Fail
    case Got(key, c) =>
      var colon := SkipSpace(s, c);
      if Is(s, colon, COLON) then Got(Name(s[pos..k], key, s[c..colon]), colon + 1) else Fail
  }

  /** An object after its opening brace. */
  function ScanBody(s: Bytes, pos: nat, depth: nat): (r: Read<Body>)
    requires pos <= |s|
    ensures r.Got? ==> pos < r.end <= |s|
    decreases |s| - pos, 5
  {
    var p := SkipSpace(s, pos);
    if Is(s, p, RBRACE) then Got(NoMembers(s[pos..p]), p + 1)
    else match ScanMembers(s, pos, depth, {})
      case Fail => Fail
      case Got(ms, q) => Got(Members(ms), q)
  }

  /** One member whose key is not in `seen`, up to the comma or brace after it. */
  function ScanMember(s: Bytes, pos: nat, depth: nat, seen: set<Bytes>): (r: MemberRead)
    requires pos <= |s|
    ensures r.OneMember? ==> pos < r.end < |s| && r.key !in seen && (s[r.end] == RBRACE || s[r.end] == COMMA)
    decreases |s| - pos, 3
  {
    match ScanName(s, pos)
    case Fail => NoMember
    case Got(name, v) =>
      match ScanItem(s, v, depth + 1)
      case Fail => NoMember
      case Got(item, end) =>
        if Decoded(name.key) in seen || !(Is(s, end, RBRACE) || Is(s, end, COMMA)) then NoMember
        else OneMember(name, item, Decoded(name.key), TextOf(item.value), end)
  }

  function ScanMembers(s: Bytes, pos: nat, depth: nat, seen: set<Bytes>): (r: Read<Members>)
    requires pos <= |s|
    ensures r.Got? ==> pos < r.end <= |s|
    decreases |s| - pos, 4
  {
    var h := ScanMember(s, pos, depth, seen);
    if h.NoMember? then Fail
    else if s[h.end] == RBRACE then Got(Last(h.name, h.item), h.end + 1)
    else match ScanMembers(s, h.end + 1, depth, seen + {h.key})
      case Fail => Fail
      case Got(rest, q) => Got(More(h.name, h.item, rest), q)
  }

  /** An array after its opening bracket. */
  function ScanList(s: Bytes, pos: nat, depth: nat): (r: Read<List>)
    requires pos <= |s|
    ensures r.Got? ==> pos < r.end <= |s|
    decreases |s| - pos, 4
  {
    var p := SkipSpace(s, pos);
    if Is(s, p, RBRACKET) then Got(NoItems(s[pos..p]), p + 1)
    else match ScanItems(s, pos, depth)
      case Fail => Fail
      case Got(its, q) => Got(Items(its), q)
  }

  function ScanItems(s: Bytes, pos: nat, depth: nat): (r: Read<Items>)
    requires pos <= |s|
    ensures r.Got? ==> pos < r.end <= |s|
    decreases |s| - pos, 3
  {
    match ScanItem(s, pos, depth + 1)
    case Fail => Fail
    case Got(item, end) =>
      if Is(s, end, RBRACKET) then Got(LastItem(item), end + 1)
      else if !Is(s, end, COMMA) then Fail
      else match ScanItems(s, end + 1, depth)
        case Fail => Fail
        case Got(rest, q) => Got(MoreItems(item, rest), q)
  }

  /** A whole document. */
  function ScanDocument(s: Bytes): Option<Document> {
    if |s| > MAX_INPUT then None else
    var p := SkipSpace(s, 0);
    if !Is(s, p, LBRACE) then None
    else match ScanBody(s, p + 1, 0)
      case Fail => None
      case Got(body, e) =>
        if SkipSpace(s, e) == |s| then Some(Document(s[..p], body, s[e..])) else None
  }

  /** The string member `key` of the document `s`, if `s` is one. */
  function GetString(s: Bytes, key: Bytes): Option<Bytes> {
    match ScanDocument(s)
    case None => None
    case Some(d) => Field(d, key)
  }
}
