/** The reader itself: a cursor over the input, moved by methods that follow one another's recursion, each
    proved to find what the functions of `JsonScan` find. */
module JsonParsers {
  import opened Basics
  import opened Unicode
  import opened JsonGrammar
  import Scan = JsonScan

  // ----- what the loops keep

  /** The text that `output` becomes when the characters at `pos` are added, and where it ends. */
  ghost function Completed(s: Bytes, pos: nat, output: Bytes): Read<Bytes>
    requires pos <= |s|
  {
    match Scan.ScanChars(s, pos)
    case Fail => Fail
    case Got(cs, q) => Got(output + Decoded(cs), q)
  }

  lemma CompletedEmpty(s: Bytes, pos: nat)
    requires pos <= |s|
    ensures
      var cs := Scan.ScanChars(s, pos);
      Completed(s, pos, []) == if cs.Fail? then Fail else Got(Decoded(cs.tree), cs.end)
  {
    var cs := Scan.ScanChars(s, pos);
    if cs.Got? { assert [] + Decoded(cs.tree) == Decoded(cs.tree); }
  }

  lemma CompletedEnds(s: Bytes, pos: nat, output: Bytes)
    requires Scan.Is(s, pos, QUOTE)
    ensures Completed(s, pos, output) == Got(output, pos + 1)
  {
    assert output + [] == output;
  }

  lemma CompletedStep(s: Bytes, pos: nat, output: Bytes)
    requires pos < |s| && s[pos] != QUOTE
    ensures
      var read := Scan.ScanChar(s, pos);
      Completed(s, pos, output) == if read.Fail? then Fail else Completed(s, read.end, output + Meaning(read.tree))
  {
    var read := Scan.ScanChar(s, pos);
    if read.Got? {
      var rest := Scan.ScanChars(s, read.end);
      if rest.Got? {
        CompletedMore(read.tree, rest.tree, output);
      }
    }
  }

  lemma CompletedMore(c: Char, cs: seq<Char>, output: Bytes)
    ensures output + Decoded([c] + cs) == (output + Meaning(c)) + Decoded(cs)
  {
    assert ([c] + cs)[1..] == cs;
    assert output + (Meaning(c) + Decoded(cs)) == (output + Meaning(c)) + Decoded(cs);
  }

  ghost predicate Means(h: MemberRead) {
    h.OneMember? && Decoded(h.name.key) == h.key && TextOf(h.item.value) == h.text
  }

  /** Members that start with `h`: nothing follows it, or what `rest` found does. */
  ghost function Extended(s: Bytes, h: MemberRead, rest: Read<Members>): Read<Members>
    requires h.OneMember? && h.end < |s|
  {
    if s[h.end] == RBRACE then Got(Last(h.name, h.item), h.end + 1)
    else if rest.Fail? then Fail
    else Got(More(h.name, h.item, rest.tree), rest.end)
  }

  /** Reading members is reading one and, after a comma, the others. */
  lemma MembersByOne(s: Bytes, pos: nat, depth: nat, keys: set<Bytes>)
    requires pos <= |s|
    ensures
      var h := Scan.ScanMember(s, pos, depth, keys);
      if h.NoMember? then Scan.ScanMembers(s, pos, depth, keys).Fail?
      else
        && Means(h)
        && Scan.ScanMembers(s, pos, depth, keys)
           == Extended(s, h, Scan.ScanMembers(s, h.end + 1, depth, keys + {h.key}))
  {
  }

  /** What the wanted key carries, once `h` has been read. */
  ghost function NowFound(found: Option<Bytes>, target: Bytes, h: MemberRead): Option<Bytes>
    requires h.OneMember?
  {
    if h.key == target then h.text else found
  }

  /** What is known of the wanted key once `read` follows the members with keys `keys`. */
  ghost function Answer(read: Read<Members>, keys: set<Bytes>, target: Bytes, found: Option<Bytes>):
    Read<Option<Bytes>>
  {
    if read.Fail? then Fail else Got(if target in keys then found else Lookup(read.tree, target), read.end)
  }

  lemma AnswerStep(s: Bytes, h: MemberRead, rest: Read<Members>, keys: set<Bytes>, target: Bytes, found: Option<Bytes>)
    requires Means(h) && h.end < |s| && h.key !in keys && (target !in keys ==> found == None)
    ensures
      Answer(Extended(s, h, rest), keys, target, found)
      == if s[h.end] == RBRACE then Got(NowFound(found, target, h), h.end + 1)
         else Answer(rest, keys + {h.key}, target, NowFound(found, target, h))
  {
  }

  /** One member more leaves the answer the same. */
  lemma AnswerKept(s: Bytes, pos: nat, depth: nat, keys: set<Bytes>, target: Bytes, found: Option<Bytes>, h: MemberRead)
    requires pos <= |s| && (target !in keys ==> found == None) && h == Scan.ScanMember(s, pos, depth, keys)
    ensures
      Answer(Scan.ScanMembers(s, pos, depth, keys), keys, target, found)
      == if h.NoMember? then Fail
         else if s[h.end] == RBRACE then Got(NowFound(found, target, h), h.end + 1)
         else
           var keys' := keys + {h.key};
           Answer(Scan.ScanMembers(s, h.end + 1, depth, keys'), keys', target, NowFound(found, target, h))
  {
    MembersByOne(s, pos, depth, keys);
    if h.OneMember? {
      AnswerStep(s, h, Scan.ScanMembers(s, h.end + 1, depth, keys + {h.key}), keys, target, found);
    }
  }

  lemma AnswerGoesOn(s: Bytes, pos: nat, depth: nat, keys: set<Bytes>, target: Bytes, found: Option<Bytes>,
                     h: MemberRead, p: nat, keys': set<Bytes>, found': Option<Bytes>)
    requires pos <= |s| && (target !in keys ==> found == None) && h == Scan.ScanMember(s, pos, depth, keys)
    requires h.OneMember? ==> p == h.end + 1 && keys' == keys + {h.key} && found' == NowFound(found, target, h)
    ensures
      Answer(Scan.ScanMembers(s, pos, depth, keys), keys, target, found)
      == if h.NoMember? then Fail
         else if s[h.end] == RBRACE then Got(found', p)
         else Answer(Scan.ScanMembers(s, p, depth, keys'), keys', target, found')
  {
    AnswerKept(s, pos, depth, keys, target, found, h);
  }

  /** Two readings that fail together or end together. */
  ghost predicate ItemsFollow(all: Read<Items>, rest: Read<Items>) {
    (all.Got? <==> rest.Got?) && (all.Got? ==> all.end == rest.end)
  }

  /** One digit more: the value of a longer run, and what makes the whole run hexadecimal. */
  lemma HexGoesOn(s: Bytes, a: nat, b: nat, c: nat)
    requires a <= b < c <= |s| && AllHex(s[a..b])
    ensures Hex(s[a..b + 1]) == Hex(s[a..b]) * 16 + HexValue(s[b])
    ensures AllHex(s[a..b + 1]) <==> HexValue(s[b]) >= 0
    ensures HexValue(s[b]) < 0 ==> !AllHex(s[a..c])
  {
    assert s[a..b + 1][..b - a] == s[a..b];
    AllHexJoin(s[a..b], [s[b]]);
    assert s[a..b] + [s[b]] == s[a..b + 1];
    AllHexJoin(s[a..b + 1], s[b + 1..c]);
    assert s[a..b + 1] + s[b + 1..c] == s[a..c];
  }

  lemma {:induction false} AllHexJoin(d: Bytes, e: Bytes)
    ensures AllHex(d + e) <==> AllHex(d) && AllHex(e)
  {
    if d == [] {
      assert d + e == e;
    } else {
      AllHexJoin(d[1..], e);
      assert (d + e)[1..] == d[1..] + e;
    }
  }

  lemma SkipTwice(s: Bytes, pos: nat)
    requires pos <= |s|
    ensures Scan.SkipSpace(s, Scan.SkipSpace(s, pos)) == Scan.SkipSpace(s, pos)
  {
  }

  /** After an item there is no more white space. */
  lemma AtEnd(s: Bytes, pos: nat, depth: nat, item: Item, end: nat)
    requires pos <= |s| && Scan.ScanItem(s, pos, depth) == Got(item, end)
    ensures end <= |s| && Scan.SkipSpace(s, end) == end
  {
    var e := Scan.ScanValue(s, pos, depth).end;
    SkipTwice(s, e);
  }

  /** Where a value starts matters only up to white space. */
  lemma SameValue(s: Bytes, a: nat, b: nat, depth: nat)
    requires a <= |s| && b <= |s| && Scan.SkipSpace(s, a) == Scan.SkipSpace(s, b)
    ensures
      var v, w := Scan.ScanValue(s, a, depth), Scan.ScanValue(s, b, depth);
      v.Got? == w.Got? && (v.Got? ==> v.end == w.end && v.tree.token == w.tree.token)
  {
  }

  /** A value is a text exactly if it starts with a quote, and then it is that string. */
  lemma TextValue(s: Bytes, pos: nat, depth: nat)
    requires pos <= |s| && depth <= MAX_DEPTH
    ensures
      var p := Scan.SkipSpace(s, pos);
      var v := Scan.ScanValue(s, pos, depth);
      if Scan.Is(s, p, QUOTE) then
        var read := Scan.ScanString(s, p);
        && v.Got? == read.Got?
        && (v.Got? ==> v.end == read.end && TextOf(v.tree) == Some(Decoded(read.tree)))
      else v.Got? ==> TextOf(v.tree) == None
  {
  }

  // ----- the parser

  class StringFieldParser {
    const input: Bytes
    const target: Bytes
    var position: nat
    var result: Option<Bytes>

    constructor (input: Bytes, target: Bytes)
      ensures this.input == input && this.target == target && position == 0 && result == None
    {
      this.input := input;
      this.target := target;
      position := 0;
      result := None;
    }

    predicate Valid()
      reads this
    {
      position <= |input|
    }

    method SkipSpace()
      requires Valid()
      modifies `position
      ensures Valid() && position == Scan.SkipSpace(input, old(position))
    {
      while position < |input| && IsSpace(input[position])
        invariant Valid() && Scan.SkipSpace(input, position) == Scan.SkipSpace(input, old(position))
      {
        position := position + 1;
      }
    }

    method SkipDigits()
      requires Valid()
      modifies `position
      ensures Valid() && position == Scan.SkipDigits(input, old(position))
    {
      while position < |input| && IsDigit(input[position])
        invariant Valid() && Scan.SkipDigits(input, position) == Scan.SkipDigits(input, old(position))
      {
        position := position + 1;
      }
    }

    method Consume(expected: Byte) returns (ok: bool)
      requires Valid()
      modifies `position
      ensures Valid() && ok == Scan.Is(input, Scan.SkipSpace(input, old(position)), expected)
      ensures position == Scan.SkipSpace(input, old(position)) + (if ok then 1 else 0)
    {
      SkipSpace();
      if position >= |input| || input[position] != expected { return false; }
      position := position + 1;
      return true;
    }

    /** Four hexadecimal digits. */
    method UnicodeEscape() returns (ok: bool, value: int)
      requires Valid()
      modifies `position
      ensures old(position) <= position <= |input| && ok == Scan.ScanHex4(input, old(position)).Got?
      ensures ok ==> position == old(position) + 4 && 0 <= value < 0x1_0000
      ensures ok ==> value == Hex(input[old(position)..position])
    {
      value := 0;
      if position + 4 > |input| { return false, value; }
      ghost var start, bound := position, 1;
      for index := 0 to 4
        invariant position == start + index && AllHex(input[start..position])
        invariant value == Hex(input[start..position]) && 0 <= value < bound
        invariant bound == [1, 0x10, 0x100, 0x1000, 0x1_0000][index]
      {
        HexGoesOn(input, start, position, start + 4);
        var digit := HexValue(input[position]);
        position := position + 1;
        if digit < 0 { return false, value; }
        value := value * 16 + digit;
        bound := bound * 16;
      }
      return true, value;
    }

    static method AppendUtf8(output: Bytes, codePoint: Scalar) returns (longer: Bytes)
      ensures longer == output + Utf8(codePoint)
    {
      longer := output;
      if codePoint <= 0x7f {
        longer := longer + [codePoint];
      } else if codePoint <= 0x7ff {
        longer := longer + [0xc0 + codePoint / 0x40];
        longer := longer + [0x80 + codePoint % 0x40];
      } else if codePoint <= 0xffff {
        longer := longer + [0xe0 + codePoint / 0x1000];
        longer := longer + [0x80 + codePoint / 0x40 % 0x40];
        longer := longer + [0x80 + codePoint % 0x40];
      } else {
        longer := longer + [0xf0 + codePoint / 0x4_0000];
        longer := longer + [0x80 + codePoint / 0x1000 % 0x40];
        longer := longer + [0x80 + codePoint / 0x40 % 0x40];
        longer := longer + [0x80 + codePoint % 0x40];
      }
    }

    /** One escape sequence after its backslash, added to `output`. */
    method ParseEscape(output: Bytes) returns (ok: bool, longer: Bytes)
      requires Valid()
      modifies `position
      ensures old(position) <= position <= |input| && ok == Scan.ScanEscape(input, old(position)).Got?
      ensures ok ==>
        var Got(c, p) := Scan.ScanEscape(input, old(position));
        longer == output + Meaning(c) && position == p
    {
      longer := output;
      if position >= |input| { return false, longer; }
      var letter := input[position];
      position := position + 1;
      if letter == LOWER_U {
        ok, longer := ParseCodePoint(output);
      } else {
        var short := ShortValue(letter);
        if short.None? { return false, longer; }
        return true, output + [short.value];
      }
    }

    /** The code point of one escaped unit or of a pair of them. */
    method ParseCodePoint(output: Bytes) returns (ok: bool, longer: Bytes)
      requires 1 <= position <= |input| && input[position - 1] == LOWER_U
      modifies `position
      ensures old(position) <= position <= |input| && ok == Scan.ScanEscape(input, old(position) - 1).Got?
      ensures ok ==>
        var Got(c, p) := Scan.ScanEscape(input, old(position) - 1);
        longer == output + Meaning(c) && position == p
    {
      longer := output;
      var first, codePoint;
      ok, first := UnicodeEscape();
      if !ok { return false, longer; }
      codePoint := first;
      if IsHigh(first) {
        ok, codePoint := ParseLow(first);
        if !ok { return false, longer; }
      } else if IsLow(first) {
        return false, longer;
      }
      longer := AppendUtf8(output, codePoint);
      return true, longer;
    }

    /** The low half after the high half `first`, and what the pair stands for. */
    method ParseLow(first: int) returns (ok: bool, codePoint: int)
      requires Valid() && IsHigh(first)
      modifies `position
      ensures old(position) <= position <= |input|
      ensures
        var low := Scan.ScanHex4(input, old(position) + 2);
        && ok == (Scan.Is(input, old(position), BACKSLASH) && Scan.Is(input, old(position) + 1, LOWER_U)
                  && low.Got? && IsLow(Hex(low.tree)))
        && (ok ==> codePoint == Combine(first, Hex(low.tree)) && position == old(position) + 6)
    {
      codePoint := 0;
      if position + 2 > |input| || input[position] != BACKSLASH || input[position + 1] != LOWER_U { return false, 0; }
      position := position + 2;
      var second;
      ok, second := UnicodeEscape();
      if !ok || !IsLow(second) { return false, 0; }
      codePoint := 0x1_0000 + (first - 0xd800) * 0x400 + (second - 0xdc00);
    }

    /** A quoted string after white space: its meaning. */
    method ParseString() returns (text: Option<Bytes>)
      requires Valid()
      modifies `position
      ensures Valid() && position >= old(position)
      ensures
        var read := Scan.ScanString(input, Scan.SkipSpace(input, old(position)));
        && text.Some? == read.Got?
        && (read.Got? ==> text.value == Decoded(read.tree) && position == read.end)
    {
      SkipSpace();
      if position >= |input| { return None; }
      position := position + 1;
      if input[position - 1] != QUOTE { return None; }
      ghost var start := position;
      var output: Bytes := [];
      CompletedEmpty(input, start);
      while position < |input|
        invariant old(position) <= position <= |input| && |output| <= MAX_STRING
        invariant Completed(input, position, output) == Completed(input, start, [])
      {
        var value := input[position];
        if value == QUOTE {
          CompletedEnds(input, position, output);
          position := position + 1;
          return Some(output);
        }
        CompletedStep(input, position, output);
        var ok;
        ok, output := ParseChar(output);
        if !ok || |output| > MAX_STRING { return None; }
      }
      return None;
    }

    /** One character inside a string, added to `output`. */
    method ParseChar(output: Bytes) returns (ok: bool, longer: Bytes)
      requires Valid() && position < |input| && input[position] != QUOTE
      modifies `position
      ensures Valid() && ok == Scan.ScanChar(input, old(position)).Got?
      ensures position >= old(position)
      ensures ok ==>
        var Got(c, p) := Scan.ScanChar(input, old(position));
        longer == output + Meaning(c) && position == p
    {
      longer := output;
      var value := input[position];
      position := position + 1;
      if value < 0x20 { return false, longer; }
      if value != BACKSLASH { return true, output + [value]; }
      ok, longer := ParseEscape(output);
    }

    // ----- numbers and words

    method ParseNumber() returns (ok: bool)
      requires Valid()
      modifies `position
      ensures old(position) <= position <= |input| && ok == Scan.ScanNumber(input, old(position)).Got?
      ensures ok ==> position == Scan.ScanNumber(input, old(position)).end
    {
      if position < |input| && input[position] == MINUS { position := position + 1; }
      if position >= |input| { return false; }
      if input[position] == ZERO {
        position := position + 1;
      } else {
        if input[position] < ZERO + 1 || input[position] > NINE { return false; }
        SkipDigits();
      }
      ok := ParseFraction();
      if !ok { return false; }
      ok := ParseExponent();
    }

    method ParseFraction() returns (ok: bool)
      requires Valid()
      modifies `position
      ensures old(position) <= position <= |input| && ok == Scan.ScanFraction(input, old(position)).Some?
      ensures ok ==> position == Scan.ScanFraction(input, old(position)).value
    {
      if position < |input| && input[position] == DOT {
        position := position + 1;
        var fraction := position;
        SkipDigits();
        if fraction == position { return false; }
      }
      return true;
    }

    method ParseExponent() returns (ok: bool)
      requires Valid()
      modifies `position
      ensures old(position) <= position <= |input| && ok == Scan.ScanExponent(input, old(position)).Got?
      ensures ok ==> position == Scan.ScanExponent(input, old(position)).end
    {
      if position < |input| && (input[position] == LOWER_E || input[position] == UPPER_E) {
        position := position + 1;
        if position < |input| && (input[position] == PLUS || input[position] == MINUS) { position := position + 1; }
        var exponent := position;
        SkipDigits();
        if exponent == position { return false; }
      }
      return true;
    }

    method Literal(word: Bytes) returns (ok: bool)
      requires Valid()
      modifies `position
      ensures Valid() && ok == Scan.IsLiteral(input, old(position), word)
      ensures position == old(position) + (if ok then |word| else 0)
    {
      if position + |word| > |input| || input[position..position + |word|] != word { return false; }
      position := position + |word|;
      return true;
    }

    // ----- values

    /** Any value; the result stays as it was. */
    method ParseValue(depth: nat) returns (ok: bool)
      requires Valid()
      modifies this
      ensures Valid() && position >= old(position) && result == old(result)
      ensures ok == Scan.ScanValue(input, old(position), depth).Got?
      ensures ok ==> position == Scan.ScanValue(input, old(position), depth).end
      decreases |input| - position, 2
    {
      if depth > MAX_DEPTH { return false; }
      SkipSpace();
      if position >= |input| { return false; }
      ok := ParseToken(depth);
    }

    method ParseToken(depth: nat) returns (ok: bool)
      requires Valid() && position < |input| && !IsSpace(input[position]) && depth <= MAX_DEPTH
      modifies this
      ensures Valid() && position >= old(position) && result == old(result)
      ensures ok == Scan.ScanToken(input, old(position), depth).Got?
      ensures ok ==> position == Scan.ScanToken(input, old(position), depth).end
      decreases |input| - position, 1
    {
      var b := input[position];
      if b == QUOTE {
        var text := ParseString();
        return text.Some?;
      } else if b == LBRACE {
        ok := ParseObject(depth, false);
      } else if b == LBRACKET {
        ok := ParseArray(depth);
      } else if b == LOWER_T {
        ok := Literal(TRUE);
      } else if b == LOWER_F {
        ok := Literal(FALSE);
      } else if b == LOWER_N {
        ok := Literal(NULL);
      } else {
        ok := ParseNumber();
      }
    }

    /** An object; the outermost one leaves the string its member `target` carries in `result`. */
    method ParseObject(depth: nat, root: bool) returns (ok: bool)
      requires Valid() && (root ==> depth == 0 && result == None)
      modifies this
      ensures Valid() && position >= old(position) && (!root ==> result == old(result))
      ensures
        var start := Scan.SkipSpace(input, old(position));
        if depth > MAX_DEPTH || !Scan.Is(input, start, LBRACE) then !ok
        else
          var read := Scan.ScanBody(input, start + 1, depth);
          && ok == read.Got?
          && (ok ==> position == read.end)
          && (ok && root ==> result == FieldOf(read.tree, target))
      decreases |input| - position, 0
    {
      if depth > MAX_DEPTH { return false; }
      ok := Consume(LBRACE);
      if !ok { return false; }
      ghost var start := position;
      SkipTwice(input, start);
      SkipSpace();
      if position < |input| && input[position] == RBRACE {
        position := position + 1;
        return true;
      }
      ok := ParseMembers(depth, root, start);
    }

    /** The members of an object that has some. Reading started at `from`, before white space. */
    method ParseMembers(depth: nat, root: bool, ghost from: nat) returns (ok: bool)
      requires Valid() && (root ==> depth == 0 && result == None)
      requires from <= position && Scan.SkipSpace(input, from) == Scan.SkipSpace(input, position)
      modifies this
      ensures Valid() && position >= old(position) && (!root ==> result == old(result))
      ensures
        var read := Answer(Scan.ScanMembers(input, from, depth, {}), {}, target, None);
        && ok == read.Got?
        && (ok ==> position == read.end)
        && (ok && root ==> result == read.tree)
      decreases |input| - position, 7
    {
      var keys: set<Bytes> := {};
      ghost var found: Option<Bytes>, at: nat := None, from;
      ghost var goal := Answer(Scan.ScanMembers(input, from, depth, {}), {}, target, None);
      while true
        invariant Valid() && old(position) <= position
        invariant at <= position && Scan.SkipSpace(input, at) == Scan.SkipSpace(input, position)
        invariant Answer(Scan.ScanMembers(input, at, depth, keys), keys, target, found) == goal
        invariant target !in keys ==> found == None
        invariant result == (if root then found else old(result))
        decreases |input| - position
      {
        var last, key;
        ok, last, key, found := NextMember(keys, depth, root, at, found);
        if !ok || last { return ok; }
        keys := keys + {key};
        at := position;
      }
    }

    /** One member and the byte after it, which tells whether it is the last. */
    method NextMember(keys: set<Bytes>, depth: nat, root: bool, ghost from: nat, ghost found: Option<Bytes>)
      returns (ok: bool, last: bool, key: Bytes, ghost found': Option<Bytes>)
      requires Valid() && (root ==> depth == 0 && result == found) && (target !in keys ==> found == None)
      requires from <= position && Scan.SkipSpace(input, from) == Scan.SkipSpace(input, position)
      modifies this
      ensures Valid() && position >= old(position) && (!root ==> result == old(result))
      ensures ok ==> position > old(position) && (root ==> result == found')
      ensures ok && target !in keys + {key} ==> found' == None
      ensures
        Answer(Scan.ScanMembers(input, from, depth, keys), keys, target, found)
        == if !ok then Fail
           else if last then Got(found', position)
           else Answer(Scan.ScanMembers(input, position, depth, keys + {key}), keys + {key}, target, found')
      decreases |input| - position, 6
    {
      last, found' := false, found;
      ghost var h := Scan.ScanMember(input, from, depth, keys);
      ok, last, key := OneMember(keys, depth, root, from);
      if ok { found' := NowFound(found, target, h); }
      AnswerGoesOn(input, from, depth, keys, target, found, h, position, keys + {key}, found');
    }

    method OneMember(keys: set<Bytes>, depth: nat, root: bool, ghost from: nat)
      returns (ok: bool, last: bool, key: Bytes)
      requires Valid() && (root ==> depth == 0)
      requires from <= position && Scan.SkipSpace(input, from) == Scan.SkipSpace(input, position)
      modifies this
      ensures Valid() && position >= old(position) && (!root ==> result == old(result))
      ensures ok == Scan.ScanMember(input, from, depth, keys).OneMember?
      ensures ok ==>
        var h := Scan.ScanMember(input, from, depth, keys);
        && position == h.end + 1 > old(position) && last == (input[h.end] == RBRACE) && key == h.key
        && result == (if root && key == target && h.text.Some? then h.text else old(result))
      decreases |input| - position, 5
    {
      last := false;
      ok, key := ParseMember(keys, depth, root, from);
      if !ok { return; }
      if position < |input| && input[position] == RBRACE {
        position := position + 1;
        last := true;
        return;
      }
      ghost var Got(name, v) := Scan.ScanName(input, from);
      AtEnd(input, v, depth + 1, Scan.ScanItem(input, v, depth + 1).tree, position);
      ok := Consume(COMMA);
    }

    /** A key not in `keys`, a colon, a value and white space. */
    method ParseMember(keys: set<Bytes>, depth: nat, root: bool, ghost from: nat) returns (ok: bool, key: Bytes)
      requires Valid() && (root ==> depth == 0)
      requires from <= position && Scan.SkipSpace(input, from) == Scan.SkipSpace(input, position)
      modifies this
      ensures Valid() && position >= old(position) && (!root ==> result == old(result))
      ensures ok ==> position > old(position)
      ensures
        var name := Scan.ScanName(input, from);
        ok <==> name.Got? && Decoded(name.tree.key) !in keys && Scan.ScanItem(input, name.end, depth + 1).Got?
      ensures ok ==>
        var Got(name, v) := Scan.ScanName(input, from);
        var Got(item, end) := Scan.ScanItem(input, v, depth + 1);
        && key == Decoded(name.key) && position == end
        && result == (if root && key == target && TextOf(item.value).Some? then TextOf(item.value) else old(result))
      decreases |input| - position, 4
    {
      ok, key := ParseName(keys, from);
      if !ok { return false, key; }
      ok := ParseMemberValue(root && key == target, depth);
      if !ok { return false, key; }
      SkipSpace();
    }

    /** A key not in `keys` and a colon. */
    method ParseName(keys: set<Bytes>, ghost from: nat) returns (ok: bool, key: Bytes)
      requires Valid()
      requires from <= position && Scan.SkipSpace(input, from) == Scan.SkipSpace(input, position)
      modifies `position
      ensures Valid() && position >= old(position) && (ok ==> position > old(position))
      ensures
        var read := Scan.ScanName(input, from);
        && ok == (read.Got? && Decoded(read.tree.key) !in keys)
        && (ok ==> key == Decoded(read.tree.key) && position == read.end)
    {
      key := [];
      var text := ParseString();
      if text.None? || text.value in keys { return false, key; }
      key := text.value;
      ok := Consume(COLON);
    }

    /** The value of a member, kept in `result` if it is wanted and a string. */
    method ParseMemberValue(wanted: bool, depth: nat) returns (ok: bool)
      requires Valid() && (wanted ==> depth == 0)
      modifies this
      ensures Valid() && position >= old(position) && (!wanted ==> result == old(result))
      ensures ok == Scan.ScanValue(input, old(position), depth + 1).Got?
      ensures ok ==>
        var Got(v, p) := Scan.ScanValue(input, old(position), depth + 1);
        position == p && result == (if wanted && TextOf(v).Some? then TextOf(v) else old(result))
      decreases |input| - position, 3
    {
      if wanted {
        ghost var start := position;
        TextValue(input, start, depth + 1);
        SkipSpace();
        SkipTwice(input, start);
        if position < |input| && input[position] == QUOTE {
          result := ParseString();
          return result.Some?;
        }
        SameValue(input, start, position, depth + 1);
      }
      ok := ParseValue(depth + 1);
    }

    method ParseArray(depth: nat) returns (ok: bool)
      requires Valid()
      modifies this
      ensures Valid() && position >= old(position) && result == old(result)
      ensures
        var start := Scan.SkipSpace(input, old(position));
        if depth > MAX_DEPTH || !Scan.Is(input, start, LBRACKET) then !ok
        else
          var read := Scan.ScanList(input, start + 1, depth);
          ok == read.Got? && (ok ==> position == read.end)
      decreases |input| - position, 0
    {
      if depth > MAX_DEPTH { return false; }
      ok := Consume(LBRACKET);
      if !ok { return false; }
      ghost var start := position;
      SkipTwice(input, start);
      SkipSpace();
      if position < |input| && input[position] == RBRACKET {
        position := position + 1;
        return true;
      }
      ok := ParseItems(depth, start);
    }

    /** The items of an array that has some. Reading started at `from`, before white space. */
    method ParseItems(depth: nat, ghost from: nat) returns (ok: bool)
      requires Valid() && from <= position && Scan.SkipSpace(input, from) == Scan.SkipSpace(input, position)
      modifies this
      ensures Valid() && position >= old(position) && result == old(result)
      ensures
        var read := Scan.ScanItems(input, from, depth);
        ok == read.Got? && (ok ==> position == read.end)
      decreases |input| - position, 6
    {
      ghost var at: nat := from;
      ghost var all := Scan.ScanItems(input, from, depth);
      while true
        invariant Valid() && old(position) <= position && result == old(result)
        invariant at <= position && Scan.SkipSpace(input, at) == Scan.SkipSpace(input, position)
        invariant ItemsFollow(all, Scan.ScanItems(input, at, depth))
        decreases |input| - position
      {
        var last;
        ok, last := NextItem(depth, at);
        if !ok || last { return ok; }
        at := position;
      }
    }

    /** One item and the byte after it, which tells whether it is the last. */
    method NextItem(depth: nat, ghost from: nat) returns (ok: bool, last: bool)
      requires Valid() && from <= position && Scan.SkipSpace(input, from) == Scan.SkipSpace(input, position)
      modifies this
      ensures Valid() && position >= old(position) && result == old(result)
      ensures
        var read := Scan.ScanItems(input, from, depth);
        && (!ok ==> read.Fail?)
        && (ok && last ==> read.Got? && read.end == position)
        && (ok && !last ==> position > old(position) && ItemsFollow(read, Scan.ScanItems(input, position, depth)))
      decreases |input| - position, 5
    {
      last := false;
      ok := ParseItem(depth, from);
      if !ok { return; }
      if position < |input| && input[position] == RBRACKET {
        position := position + 1;
        last := true;
        return;
      }
      ok := Consume(COMMA);
    }

    /** A value and the white space after it. */
    method ParseItem(depth: nat, ghost from: nat) returns (ok: bool)
      requires Valid() && from <= position && Scan.SkipSpace(input, from) == Scan.SkipSpace(input, position)
      modifies this
      ensures Valid() && position >= old(position) && result == old(result)
      ensures
        var read := Scan.ScanItem(input, from, depth + 1);
        && ok == read.Got?
        && (ok ==> position == read.end && position > old(position) && Scan.SkipSpace(input, position) == position)
      decreases |input| - position, 4
    {
      SameValue(input, from, position, depth + 1);
      ok := ParseValue(depth + 1);
      if !ok { return; }
      SkipTwice(input, position);
      SkipSpace();
    }

    /** The whole input: the string its root member `target` carries. */
    method Parse() returns (field: Option<Bytes>)
      requires position == 0 && result == None
      modifies this
      ensures field == Scan.GetString(input, target)
    {
      if |input| > MAX_INPUT { return None; }
      var ok := ParseObject(0, true);
      if !ok { return None; }
      SkipSpace();
      return if position == |input| then result else None;
    }
  }

  /** The string the root member `key` of a document carries; None for anything but a document with one. */
  method GetString(json: Bytes, key: Bytes) returns (field: Option<Bytes>)
    ensures field == Scan.GetString(json, key)
  {
    var parser := new StringFieldParser(json, key);
    field := parser.Parse();
  }
}
