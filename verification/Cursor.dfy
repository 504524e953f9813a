/** Page cursors: a last evaluated key as a JSON object of strings (section 7 of RFC 8259),
    in UTF-8, in unpadded base64url (section 5 of RFC 4648). */
module Cursor {
  import opened Text
  import opened Store

  // ----- JSON strings -----

  function HexDigit(n: nat): char
    requires n < 16
  {
    if n < 10 then ('0' as int + n) as char else ('a' as int + (n - 10)) as char
  }

  function HexValue(c: char): Option<nat> {
    if '0' <= c <= '9' then Some(c as int - '0' as int)
    else if 'a' <= c <= 'f' then Some(c as int - 'a' as int + 10)
    else if 'A' <= c <= 'F' then Some(c as int - 'A' as int + 10)
    else None
  }

  /** The two-character escape the encoder uses, if there is one. */
  function ShortEscape(c: char): Option<char> {
    if c == '"' || c == '\\' then Some(c)
    else if c == '\U{0008}' then Some('b')
    else if c == '\U{000C}' then Some('f')
    else if c == '\n' then Some('n')
    else if c == '\r' then Some('r')
    else if c == '\t' then Some('t')
    else None
  }

  /** Control characters, the HTML characters and the two line separators are escaped by
      code point. */
  predicate LongEscape(c: char) {
    c < ' ' || c == '<' || c == '>' || c == '&' || c == '\U{2028}' || c == '\U{2029}'
  }

  function Quad(n: nat): string
    requires n < 0x10000
  {
    [HexDigit(n / 16 / 16 / 16), HexDigit(n / 16 / 16 % 16), HexDigit(n / 16 % 16), HexDigit(n % 16)]
  }

  function Escape(c: char): string {
    if ShortEscape(c).Some? then ['\\', ShortEscape(c).value]
    else if LongEscape(c) then ['\\', 'u'] + Quad(c as int)
    else [c]
  }

  function EscapeAll(s: string): string {
    if s == "" then "" else Escape(s[0]) + EscapeAll(s[1..])
  }

  /** The code unit of four hexadecimal digits. */
  function Hex4(s: string): Option<nat> {
    if |s| < 4 then None
    else
      var a, b, c, d := HexValue(s[0]), HexValue(s[1]), HexValue(s[2]), HexValue(s[3]);
      if a.None? || b.None? || c.None? || d.None? then None
      else Some(((a.value * 16 + b.value) * 16 + c.value) * 16 + d.value)
  }

  function ShortValue(c: char): Option<char> {
    if c == '"' || c == '\\' || c == '/' then Some(c)
    else if c == 'b' then Some('\U{0008}')
    else if c == 'f' then Some('\U{000C}')
    else if c == 'n' then Some('\n')
    else if c == 'r' then Some('\r')
    else if c == 't' then Some('\t')
    else None
  }

  const REPLACEMENT := '\U{FFFD}'

  datatype Parsed<T> = Parsed(value: T, rest: string)

  /** The character after \u: a surrogate pair takes both escapes, a lone surrogate is
      replaced. */
  function UnicodeEscape(s: string): (r: Option<Parsed<char>>)
    ensures r.Some? ==> |r.value.rest| < |s|
  {
    var hi := Hex4(s);
    if hi.None? then None
    else if !(0xD800 <= hi.value < 0xE000) then
      if hi.value < 0x10000 then Some(Parsed(hi.value as char, s[4..])) else None
    else
      var lo := if |s| >= 10 && s[4] == '\\' && s[5] == 'u' then Hex4(s[6..]) else None;
      if hi.value < 0xDC00 && lo.Some? && 0xDC00 <= lo.value < 0xE000
      then Some(Parsed((0x10000 + (hi.value - 0xD800) * 1024 + (lo.value - 0xDC00)) as char, s[10..]))
      else Some(Parsed(REPLACEMENT, s[4..]))
  }

  /** The next character of a string literal. */
  function NextChar(s: string): (r: Option<Parsed<char>>)
    ensures r.Some? ==> |r.value.rest| < |s|
  {
    if s == "" || s[0] < ' ' || s[0] == '"' then None
    else if s[0] != '\\' then Some(Parsed(s[0], s[1..]))
    else if |s| < 2 then None
    else if s[1] == 'u' then UnicodeEscape(s[2..])
    else if ShortValue(s[1]).Some? then Some(Parsed(ShortValue(s[1]).value, s[2..]))
    else None
  }

  /** A string literal after its opening quote. */
  function ParseChars(s: string): (r: Option<Parsed<string>>)
    ensures r.Some? ==> |r.value.rest| < |s|
    decreases |s|
  {
    if s != "" && s[0] == '"' then Some(Parsed("", s[1..]))
    else
      var c := NextChar(s);
      if c.None? then None
      else
        var more := ParseChars(c.value.rest);
        if more.None? then None else Some(Parsed([c.value.value] + more.value.value, more.value.rest))
  }

  lemma HexBack(n: nat)
    requires n < 16
    ensures HexValue(HexDigit(n)) == Some(n)
  {}

  lemma HexDigits(a: nat, b: nat, c: nat, d: nat, tail: string)
    requires a < 16 && b < 16 && c < 16 && d < 16
    ensures Hex4([HexDigit(a), HexDigit(b), HexDigit(c), HexDigit(d)] + tail) == Some(((a * 16 + b) * 16 + c) * 16 + d)
  {
    HexBack(a);
    HexBack(b);
    HexBack(c);
    HexBack(d);
  }

  lemma HexOf(n: nat, tail: string)
    requires n < 0x10000
    ensures Hex4(Quad(n) + tail) == Some(n)
  {
    var hi, mid := n / 16 / 16, n / 16;
    HexDigits(hi / 16, hi % 16, mid % 16, n % 16, tail);
  }

  lemma NextOfEscape(c: char, tail: string)
    ensures NextChar(Escape(c) + tail) == Some(Parsed(c, tail))
    ensures Escape(c) + tail != "" && (Escape(c) + tail)[0] != '"'
  {
    var s := Escape(c) + tail;
    if ShortEscape(c).Some? {
      assert s[0] == '\\' && s[1] == ShortEscape(c).value && s[2..] == tail;
    } else if LongEscape(c) {
      var n := c as int;
      assert s[0] == '\\' && s[1] == 'u' && s[2..] == Quad(n) + tail;
      HexOf(n, tail);
      assert (Quad(n) + tail)[4..] == tail;
    } else {
      assert s[0] == c && s[1..] == tail;
    }
  }

  lemma ParseStep(c: char, after: string)
    requires ParseChars(after).Some?
    ensures ParseChars(Escape(c) + after)
            == Some(Parsed([c] + ParseChars(after).value.value, ParseChars(after).value.rest))
  {
    NextOfEscape(c, after);
  }

  lemma EscapeStep(text: string, tail: string)
    requires text != ""
    ensures EscapeAll(text) + ['"'] + tail == Escape(text[0]) + (EscapeAll(text[1..]) + ['"'] + tail)
    ensures text == [text[0]] + text[1..]
  {}

  lemma {:induction false} ParseOfEscape(text: string, tail: string)
    ensures ParseChars(EscapeAll(text) + ['"'] + tail) == Some(Parsed(text, tail))
  {
    if text == "" {
      assert EscapeAll(text) + ['"'] + tail == ['"'] + tail;
      assert (['"'] + tail)[1..] == tail;
    } else {
      var after := EscapeAll(text[1..]) + ['"'] + tail;
      ParseOfEscape(text[1..], tail);
      ParseStep(text[0], after);
      EscapeStep(text, tail);
    }
  }

  // ----- JSON objects of strings -----

  function SkipSpace(s: string): (r: string)
    ensures |r| <= |s|
  {
    if s != "" && (s[0] == ' ' || s[0] == '\t' || s[0] == '\n' || s[0] == '\r') then SkipSpace(s[1..]) else s
  }

  /** What follows a given character, white space before and after it skipped. */
  function Expect(s: string, c: char): (r: Option<string>)
    ensures r.Some? ==> |r.value| < |s|
  {
    var t := SkipSpace(s);
    if t != "" && t[0] == c then Some(SkipSpace(t[1..])) else None
  }

  /** A string literal, white space after it skipped. */
  function ParseText(s: string): (r: Option<Parsed<string>>)
    ensures r.Some? ==> |r.value.rest| < |s|
  {
    if s == "" || s[0] != '"' then None
    else
      var p := ParseChars(s[1..]);
      if p.None? then None else Some(Parsed(p.value.value, SkipSpace(p.value.rest)))
  }

  /** "key": "value" */
  function ParseMember(s: string): (r: Option<Parsed<(string, string)>>)
    ensures r.Some? ==> |r.value.rest| < |s|
  {
    var k := ParseText(s);
    if k.None? || Expect(k.value.rest, ':').None? then None
    else
      var v := ParseText(Expect(k.value.rest, ':').value);
      if v.None? then None else Some(Parsed((k.value.value, v.value.value), v.value.rest))
  }

  /** The members after the opening brace, added to those already read; of two equal names
      the later one counts. */
  function ParseMembers(s: string, m: map<string, string>): Option<map<string, string>>
    decreases |s|
  {
    var p := ParseMember(s);
    if p.None? then None
    else
      var next := m[p.value.value.0 := p.value.value.1];
      var comma, end := Expect(p.value.rest, ','), Expect(p.value.rest, '}');
      if comma.Some? then ParseMembers(comma.value, next)
      else if end == Some("") then Some(next)
      else None
  }

  function ParseObject(s: string): Option<map<string, string>> {
    var body := Expect(s, '{');
    if body.None? then None
    else if Expect(body.value, '}') == Some("") then Some(map[])
    else ParseMembers(body.value, map[])
  }

  function Quoted(s: string): string {
    ['"'] + EscapeAll(s) + ['"']
  }

  function RenderMembers(ks: seq<string>, m: map<string, string>): string
    requires forall k <- ks :: k in m
  {
    if ks == [] then ""
    else
      Quoted(ks[0]) + [':'] + Quoted(m[ks[0]]) + if |ks| == 1 then "" else [','] + RenderMembers(ks[1..], m)
  }

  /** The least of a set of names, in the order the encoder writes them. */
  predicate IsLeast(s: set<string>, k: string) {
    k in s && forall x <- s :: x == k || Less(k, x)
  }

  lemma {:induction false} LeastExists(s: set<string>) returns (k: string)
    requires s != {}
    ensures IsLeast(s, k)
  {
    var x :| x in s;
    if s == {x} {
      k := x;
    } else {
      var y := LeastExists(s - {x});
      LessTotal(x, y);
      k := if Less(x, y) then x else y;
      forall z <- s ensures z == k || Less(k, z) {
        if z != x && k == x && z != y { LessTransitive(x, y, z); }
      }
    }
  }

  lemma LeastUnique(s: set<string>, j: string, k: string)
    requires IsLeast(s, j) && IsLeast(s, k)
    ensures j == k
  {
    if j != k {
      LessTransitive(j, k, j);
      LessIrreflexive(j);
    }
  }

  function Least(s: set<string>): (k: string)
    requires s != {}
    ensures IsLeast(s, k)
  {
    assert exists k :: IsLeast(s, k) by { var k := LeastExists(s); }
    assert forall j, k | IsLeast(s, j) && IsLeast(s, k) :: j == k by {
      forall j, k | IsLeast(s, j) && IsLeast(s, k) ensures j == k { LeastUnique(s, j, k); }
    }
    var k :| k in s && IsLeast(s, k);
    k
  }

  function Sorted(s: set<string>): (ks: seq<string>)
    ensures forall k :: k in ks <==> k in s
    decreases |s|
  {
    if s == {} then []
    else
      var k := Least(s);
      [k] + Sorted(s - {k})
  }

  function RenderObject(m: map<string, string>): string {
    ['{'] + RenderMembers(Sorted(m.Keys), m) + ['}']
  }

  lemma SkipNothing(c: char, tail: string)
    requires c != ' ' && c != '\t' && c != '\n' && c != '\r'
    ensures SkipSpace([c] + tail) == [c] + tail
  {}

  /** A rendered string and the mark after it are read back. */
  lemma TextOfQuoted(text: string, c: char, tail: string)
    requires c != ' ' && c != '\t' && c != '\n' && c != '\r'
    ensures ParseText(Quoted(text) + [c] + tail) == Some(Parsed(text, [c] + tail))
  {
    var s := Quoted(text) + [c] + tail;
    assert s[1..] == EscapeAll(text) + ['"'] + ([c] + tail);
    ParseOfEscape(text, [c] + tail);
    SkipNothing(c, tail);
  }

  lemma ExpectMark(c: char, tail: string)
    requires c != ' ' && c != '\t' && c != '\n' && c != '\r'
    requires tail == "" || SkipSpace(tail) == tail
    ensures Expect([c] + tail, c) == Some(tail)
    ensures forall d | d != c :: Expect([c] + tail, d) == None
  {
    SkipNothing(c, tail);
    assert ([c] + tail)[1..] == tail;
  }

  lemma QuotedStart(text: string, tail: string)
    ensures SkipSpace(Quoted(text) + tail) == Quoted(text) + tail
  {
    assert (Quoted(text) + tail)[0] == '"';
  }

  lemma MemberOfRendered(k: string, v: string, c: char, tail: string)
    requires c == ',' || c == '}'
    ensures ParseMember(Quoted(k) + [':'] + Quoted(v) + [c] + tail) == Some(Parsed((k, v), [c] + tail))
  {
    var value := Quoted(v) + [c] + tail;
    assert Quoted(k) + [':'] + Quoted(v) + [c] + tail == Quoted(k) + [':'] + value;
    TextOfQuoted(k, ':', value);
    QuotedStart(v, [c] + tail);
    assert value == Quoted(v) + ([c] + tail);
    ExpectMark(':', value);
    TextOfQuoted(v, c, tail);
  }

  lemma MembersStart(ks: seq<string>, m: map<string, string>, tail: string)
    requires ks != [] && forall k <- ks :: k in m
    ensures var s := RenderMembers(ks, m) + tail; s != "" && s[0] == '"' && SkipSpace(s) == s
  {}

  lemma LastMember(k: string, v: string, acc: map<string, string>)
    ensures ParseMembers(Quoted(k) + [':'] + Quoted(v) + ['}'], acc) == Some(acc[k := v])
  {
    assert Quoted(k) + [':'] + Quoted(v) + ['}'] == Quoted(k) + [':'] + Quoted(v) + ['}'] + "";
    MemberOfRendered(k, v, '}', "");
    ExpectMark('}', "");
  }

  lemma NextMember(k: string, v: string, more: string, acc: map<string, string>)
    requires SkipSpace(more) == more
    ensures ParseMembers(Quoted(k) + [':'] + Quoted(v) + [','] + more, acc) == ParseMembers(more, acc[k := v])
  {
    MemberOfRendered(k, v, ',', more);
    ExpectMark(',', more);
  }

  function Restrict(ks: seq<string>, m: map<string, string>): map<string, string>
    requires forall k <- ks :: k in m
  {
    map k | k in ks :: m[k]
  }

  lemma RestrictStep(ks: seq<string>, m: map<string, string>, acc: map<string, string>)
    requires ks != [] && forall k <- ks :: k in m
    ensures acc + Restrict(ks, m) == acc[ks[0] := m[ks[0]]] + Restrict(ks[1..], m)
  {
    assert ks == [ks[0]] + ks[1..];
  }

  lemma RenderStep(ks: seq<string>, m: map<string, string>)
    requires ks != [] && forall k <- ks :: k in m
    ensures var s := RenderMembers(ks, m) + ['}']; var (k, v) := (ks[0], m[ks[0]]);
            s == if |ks| == 1 then Quoted(k) + [':'] + Quoted(v) + ['}']
                 else Quoted(k) + [':'] + Quoted(v) + [','] + (RenderMembers(ks[1..], m) + ['}'])
  {}

  lemma {:induction false} MembersBack(ks: seq<string>, m: map<string, string>, acc: map<string, string>)
    requires ks != [] && forall k <- ks :: k in m
    ensures ParseMembers(RenderMembers(ks, m) + ['}'], acc) == Some(acc + Restrict(ks, m))
    decreases |ks|
  {
    var k, v := ks[0], m[ks[0]];
    RestrictStep(ks, m, acc);
    RenderStep(ks, m);
    if |ks| == 1 {
      LastMember(k, v, acc);
      RestrictNone(ks[1..], m, acc[k := v]);
    } else {
      MembersStart(ks[1..], m, ['}']);
      NextMember(k, v, RenderMembers(ks[1..], m) + ['}'], acc);
      MembersBack(ks[1..], m, acc[k := v]);
    }
  }

  lemma RestrictNone(ks: seq<string>, m: map<string, string>, acc: map<string, string>)
    requires ks == []
    ensures acc + Restrict(ks, m) == acc
  {}

  lemma EmptyBack()
    ensures ParseObject("{}") == Some(map[])
  {
    assert ['{'] + "}" == "{}" && ['}'] + "" == "}";
    ExpectMark('{', "}");
    ExpectMark('}', "");
  }

  lemma FilledBack(ks: seq<string>, m: map<string, string>)
    requires ks != [] && forall k <- ks :: k in m
    ensures ParseObject(['{'] + (RenderMembers(ks, m) + ['}'])) == Some(Restrict(ks, m))
  {
    var body := RenderMembers(ks, m) + ['}'];
    MembersStart(ks, m, ['}']);
    ExpectMark('{', body);
    MembersBack(ks, m, map[]);
    assert map[] + Restrict(ks, m) == Restrict(ks, m);
  }

  /** Reading back a written object of strings gives the same map. */
  lemma ObjectBack(m: map<string, string>)
    ensures ParseObject(RenderObject(m)) == Some(m)
  {
    var ks := Sorted(m.Keys);
    assert RenderObject(m) == ['{'] + (RenderMembers(ks, m) + ['}']);
    if ks == [] {
      assert RenderObject(m) == "{}" && forall k <- m :: k in ks;
      EmptyBack();
    } else {
      FilledBack(ks, m);
      assert Restrict(ks, m) == m;
    }
  }

  // ----- UTF-8 -----

  predicate Continuation(b: Byte) {
    0x80 <= b < 0xC0
  }

  function Tail(n: nat): Byte {
    (0x80 + n % 64) as Byte
  }

  function EncodeRune(c: char): (bs: seq<Byte>)
    ensures bs != []
  {
    var n := c as int;
    if n < 0x80 then [n as Byte]
    else if n < 0x800 then [(0xC0 + n / 64) as Byte, Tail(n)]
    else if n < 0x10000 then [(0xE0 + n / 64 / 64) as Byte, Tail(n / 64), Tail(n)]
    else [(0xF0 + n / 64 / 64 / 64) as Byte, Tail(n / 64 / 64), Tail(n / 64), Tail(n)]
  }

  datatype Rune = Rune(c: char, rest: seq<Byte>)

  const BAD_RUNE := 0x110000

  function Add(high: int, b: Byte): int {
    high * 64 + (b as int - 0x80)
  }

  /** The code point at the start and its width; BAD_RUNE when the bytes are malformed. */
  function CodeOf(bs: seq<Byte>): (int, nat)
    requires bs != []
    ensures 1 <= CodeOf(bs).1 <= |bs|
  {
    var b := bs[0] as int;
    if b < 0x80 then (b, 1)
    else if 0xC0 <= b < 0xE0 && |bs| >= 2 && Continuation(bs[1]) then (Add(b - 0xC0, bs[1]), 2)
    else if 0xE0 <= b < 0xF0 && |bs| >= 3 && Continuation(bs[1]) && Continuation(bs[2]) then
      (Add(Add(b - 0xE0, bs[1]), bs[2]), 3)
    else if 0xF0 <= b < 0xF8 && |bs| >= 4 && Continuation(bs[1]) && Continuation(bs[2]) && Continuation(bs[3]) then
      (Add(Add(Add(b - 0xF0, bs[1]), bs[2]), bs[3]), 4)
    else (BAD_RUNE, 1)
  }

  function LeastOf(width: nat): int {
    if width == 1 then 0 else if width == 2 then 0x80 else if width == 3 then 0x800 else 0x10000
  }

  /** The first rune; a malformed, overlong or surrogate sequence yields the replacement
      character for one byte. */
  function DecodeRune(bs: seq<Byte>): (r: Rune)
    requires bs != []
    ensures |r.rest| < |bs|
  {
    var (n, width) := CodeOf(bs);
    if LeastOf(width) <= n < 0x110000 && !(0xD800 <= n < 0xE000) then Rune(n as char, bs[width..])
    else Rune(REPLACEMENT, bs[1..])
  }

  function EncodeUtf8(s: string): seq<Byte> {
    if s == "" then [] else EncodeRune(s[0]) + EncodeUtf8(s[1..])
  }

  function DecodeUtf8(bs: seq<Byte>): string
    decreases |bs|
  {
    if bs == [] then "" else [DecodeRune(bs).c] + DecodeUtf8(DecodeRune(bs).rest)
  }

  lemma AddTail(n: nat)
    ensures Continuation(Tail(n)) && Add(n / 64, Tail(n)) == n
  {}

  lemma CodeBack(c: char, tail: seq<Byte>)
    ensures CodeOf(EncodeRune(c) + tail) == (c as int, |EncodeRune(c)|)
  {
    var n := c as int;
    AddTail(n);
    AddTail(n / 64);
    AddTail(n / 64 / 64);
    var bs := EncodeRune(c) + tail;
    assert forall i | 0 <= i < |EncodeRune(c)| :: bs[i] == EncodeRune(c)[i];
    if 0x10000 <= n {
      assert n / 64 / 64 / 64 < 8;
    }
  }

  lemma RuneBack(c: char, tail: seq<Byte>)
    ensures DecodeRune(EncodeRune(c) + tail) == Rune(c, tail)
  {
    CodeBack(c, tail);
    assert (EncodeRune(c) + tail)[|EncodeRune(c)|..] == tail;
  }

  lemma {:induction false} Utf8Back(s: string)
    ensures DecodeUtf8(EncodeUtf8(s)) == s
  {
    if s == "" {
    } else {
      RuneBack(s[0], EncodeUtf8(s[1..]));
      Utf8Back(s[1..]);
      assert s == [s[0]] + s[1..];
    }
  }

  // ----- base64url without padding -----

  type Sextet = n: int | 0 <= n < 64

  function Symbol(n: Sextet): char {
    if n < 26 then ('A' as int + n) as char
    else if n < 52 then ('a' as int + (n - 26)) as char
    else if n < 62 then ('0' as int + (n - 52)) as char
    else if n == 62 then '-'
    else '_'
  }

  function SymbolValue(c: char): Option<Sextet> {
    if 'A' <= c <= 'Z' then Some(c as int - 'A' as int)
    else if 'a' <= c <= 'z' then Some(c as int - 'a' as int + 26)
    else if '0' <= c <= '9' then Some(c as int - '0' as int + 52)
    else if c == '-' then Some(62)
    else if c == '_' then Some(63)
    else None
  }

  // The sextets of three bytes, and the bytes of four sextets.

  function Sext1(x: Byte): Sextet { x / 4 }
  function Sext2(x: Byte, y: Byte): Sextet { x % 4 * 16 + y / 16 }
  function Sext3(y: Byte, z: Byte): Sextet { y % 16 * 4 + z / 64 }
  function Sext4(z: Byte): Sextet { z % 64 }

  function Byte1(a: Sextet, b: Sextet): Byte { a * 4 + b / 16 }
  function Byte2(b: Sextet, c: Sextet): Byte { b % 16 * 16 + c / 4 }
  function Byte3(c: Sextet, d: Sextet): Byte { c % 4 * 64 + d }

  lemma BytesOfSextets(x: Byte, y: Byte, z: Byte)
    ensures Byte1(Sext1(x), Sext2(x, y)) == x
    ensures Byte2(Sext2(x, y), Sext3(y, z)) == y
    ensures Byte3(Sext3(y, z), Sext4(z)) == z
  {}

  function Sextets(bs: seq<Byte>): seq<Sextet> {
    if bs == [] then []
    else if |bs| == 1 then [Sext1(bs[0]), Sext2(bs[0], 0)]
    else if |bs| == 2 then [Sext1(bs[0]), Sext2(bs[0], bs[1]), Sext3(bs[1], 0)]
    else [Sext1(bs[0]), Sext2(bs[0], bs[1]), Sext3(bs[1], bs[2]), Sext4(bs[2])] + Sextets(bs[3..])
  }

  /** Spare bits of the last group are ignored, and a single spare sextet is an error. */
  function Bytes(vs: seq<Sextet>): Option<seq<Byte>> {
    if vs == [] then Some([])
    else if |vs| == 1 then None
    else if |vs| == 2 then Some([Byte1(vs[0], vs[1])])
    else if |vs| == 3 then Some([Byte1(vs[0], vs[1]), Byte2(vs[1], vs[2])])
    else
      var more := Bytes(vs[4..]);
      if more.None? then None
      else Some([Byte1(vs[0], vs[1]), Byte2(vs[1], vs[2]), Byte3(vs[2], vs[3])] + more.value)
  }

  function Symbols(vs: seq<Sextet>): string {
    seq(|vs|, i requires 0 <= i < |vs| => Symbol(vs[i]))
  }

  /** The values of the symbols. The decoder skips line breaks. */
  function Values(s: string): Option<seq<Sextet>> {
    if s == "" then Some([])
    else
      var more := Values(s[1..]);
      if s[0] == '\n' || s[0] == '\r' then more
      else if more.None? || SymbolValue(s[0]).None? then None
      else Some([SymbolValue(s[0]).value] + more.value)
  }

  function Encode64(bs: seq<Byte>): string {
    Symbols(Sextets(bs))
  }

  function Decode64(s: string): Option<seq<Byte>> {
    var vs := Values(s);
    if vs.None? then None else Bytes(vs.value)
  }

  lemma GroupBytes(a: Sextet, b: Sextet, c: Sextet, d: Sextet, more: seq<Sextet>)
    requires Bytes(more).Some?
    ensures Bytes([a, b, c, d] + more) == Some([Byte1(a, b), Byte2(b, c), Byte3(c, d)] + Bytes(more).value)
  {
    assert ([a, b, c, d] + more)[4..] == more;
  }

  lemma PairBytes(a: Sextet, b: Sextet)
    ensures Bytes([a, b]) == Some([Byte1(a, b)])
  {}

  lemma TripleBytes(a: Sextet, b: Sextet, c: Sextet)
    ensures Bytes([a, b, c]) == Some([Byte1(a, b), Byte2(b, c)])
  {}

  lemma OneBack(x: Byte)
    ensures Bytes(Sextets([x])) == Some([x])
  {
    PairBytes(Sext1(x), Sext2(x, 0));
    BytesOfSextets(x, 0, 0);
  }

  lemma TwoBack(x: Byte, y: Byte)
    ensures Bytes(Sextets([x, y])) == Some([x, y])
  {
    TripleBytes(Sext1(x), Sext2(x, y), Sext3(y, 0));
    BytesOfSextets(x, y, 0);
  }

  lemma ThreeBack(x: Byte, y: Byte, z: Byte, more: seq<Byte>)
    requires Bytes(Sextets(more)) == Some(more)
    ensures Bytes(Sextets([x, y, z] + more)) == Some([x, y, z] + more)
  {
    assert ([x, y, z] + more)[3..] == more;
    GroupBytes(Sext1(x), Sext2(x, y), Sext3(y, z), Sext4(z), Sextets(more));
    BytesOfSextets(x, y, z);
  }

  lemma ByLength(bs: seq<Byte>)
    ensures |bs| == 1 ==> bs == [bs[0]]
    ensures |bs| == 2 ==> bs == [bs[0], bs[1]]
    ensures |bs| >= 3 ==> bs == [bs[0], bs[1], bs[2]] + bs[3..]
  {}

  lemma {:induction false} SextetsBack(bs: seq<Byte>)
    ensures Bytes(Sextets(bs)) == Some(bs)
  {
    ByLength(bs);
    if |bs| == 1 {
      OneBack(bs[0]);
    } else if |bs| == 2 {
      TwoBack(bs[0], bs[1]);
    } else if |bs| >= 3 {
      SextetsBack(bs[3..]);
      ThreeBack(bs[0], bs[1], bs[2], bs[3..]);
    }
  }

  lemma SymbolBack(n: Sextet)
    ensures SymbolValue(Symbol(n)) == Some(n) && Symbol(n) != '\n' && Symbol(n) != '\r'
  {}

  lemma {:induction false} SymbolsBack(vs: seq<Sextet>)
    ensures Values(Symbols(vs)) == Some(vs)
  {
    if vs == [] {
    } else {
      SymbolBack(vs[0]);
      SymbolsBack(vs[1..]);
      assert Symbols(vs)[1..] == Symbols(vs[1..]);
      assert vs == [vs[0]] + vs[1..];
    }
  }

  /** base64url round trip. */
  lemma Base64Back(bs: seq<Byte>)
    ensures Decode64(Encode64(bs)) == Some(bs)
  {
    SextetsBack(bs);
    SymbolsBack(Sextets(bs));
  }

  // ----- Cursors -----

  /** encodeCursor, for a key whose attributes are all strings. */
  function EncodeCursor(key: map<string, string>): string {
    Encode64(EncodeUtf8(RenderObject(key)))
  }

  /** decodeCursor: a key or an error, for every text. */
  function DecodeCursor(cursor: string): Option<map<string, string>> {
    var raw := Decode64(cursor);
    if raw.None? then None else ParseObject(DecodeUtf8(raw.value))
  }

  /** A key survives the cursor, and no key has the empty cursor. */
  lemma CursorRoundTrip(key: map<string, string>)
    ensures DecodeCursor(EncodeCursor(key)) == Some(key)
    ensures EncodeCursor(key) != ""
  {
    ObjectBack(key);
    Utf8Back(RenderObject(key));
    Base64Back(EncodeUtf8(RenderObject(key)));
    assert EncodeUtf8(RenderObject(key)) != [];
  }

  /** The characters of a cursor: none of them has a meaning in a URL. */
  predicate UrlSafe(s: string) {
    forall c <- s :: 'A' <= c <= 'Z' || 'a' <= c <= 'z' || '0' <= c <= '9' || c == '-' || c == '_'
  }

  lemma SymbolsSafe(vs: seq<Sextet>)
    ensures UrlSafe(Symbols(vs))
  {}

  /** A cursor can go into a URL as it is. */
  lemma CursorUrlSafe(key: map<string, string>)
    ensures UrlSafe(EncodeCursor(key))
  {
    SymbolsSafe(Sextets(EncodeUtf8(RenderObject(key))));
  }
}
