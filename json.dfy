/** Option, used wherever the source answers `None` or a key may be absent. */
module Wrappers {

  datatype Option<+T> = None | Some(value: T) {
    function GetOr(default: T): T
    {
      match this
      case Some(v) => v
      case None => default
    }
  }
}

/**
  JSON values as the three services see them after `json.loads`, Python's
  notions of truthiness and `int(...)` on them, and the text `json.dumps`
  produces for flat objects (default `ensure_ascii=True`).
 */
module Json {
  import opened Wrappers

  datatype Json =
    | Null
    | Bool(b: bool)
    | Int(i: int)
    | Str(s: string)
    | Arr(items: seq<Json>)
    | Obj(fields: map<string, Json>)

  predicate IsScalar(j: Json)
  {
    j.Null? || j.Bool? || j.Int? || j.Str?
  }

  /** The values a flat scanner payload carries. */
  type Scalar = j: Json | IsScalar(j) witness Null

  newtype byte = x: int | 0 <= x < 256

  /** Python's `bool(x)` for a decoded JSON value. */
  predicate Truthy(j: Json)
  {
    match j
    case Null => false
    case Bool(b) => b
    case Int(i) => i != 0
    case Str(s) => s != ""
    case Arr(a) => a != []
    case Obj(m) => m != map[]
  }

  /** `d.get(k)` on a value that must be a dict: `None` stands for the
      AttributeError Python raises when `d` is not one. */
  function Lookup(d: Json, k: string): (r: Option<Json>)
    ensures r.None? <==> !d.Obj?
    ensures d.Obj? && k in d.fields ==> r == Some(d.fields[k])
    ensures d.Obj? && k !in d.fields ==> r == Some(Null)
  {
    match d
    case Obj(m) => Some(if k in m then m[k] else Null)
    case _ => None
  }

  /** Python's `==` between two scalars: `True == 1` and `False == 0` hold. */
  function PyEquals(a: Scalar, b: Scalar): (r: bool)
    ensures a == b ==> r
    ensures a.Str? || b.Str? || a.Null? || b.Null? ==> (r <==> a == b)
  {
    if IsNumber(a) && IsNumber(b) then NumberOf(a) == NumberOf(b) else a == b
  }

  predicate IsNumber(j: Json) { j.Bool? || j.Int? }

  function NumberOf(j: Json): int
    requires IsNumber(j)
  {
    if j.Int? then j.i else if j.b then 1 else 0
  }

  // ---------------------------------------------------------------------
  // Decimal integers: `str(n)` and `int(s)`
  // ---------------------------------------------------------------------

  predicate IsDigit(c: char) { '0' <= c <= '9' }

  predicate AllDigits(s: string)
  {
    forall i :: 0 <= i < |s| ==> IsDigit(s[i])
  }

  function DigitChar(d: nat): (c: char)
    requires d < 10
    ensures IsDigit(c) && c as int - '0' as int == d
  {
    (d + '0' as int) as char
  }

  /** The digits of `n`, most significant first, without leading zeros. */
  function Digits(n: nat): (r: string)
    ensures |r| >= 1 && AllDigits(r)
    ensures r[0] == '0' ==> n == 0
    decreases n
  {
    if n < 10 then [DigitChar(n)] else Digits(n / 10) + [DigitChar(n % 10)]
  }

  /** `str(n)` for a Python int. */
  function Decimal(n: int): (r: string)
    ensures |r| >= 1 && (IsDigit(r[0]) || r[0] == '-')
    ensures n >= 0 <==> AllDigits(r)
  {
    if n < 0 then "-" + Digits(-n) else Digits(n)
  }

  function DigitsValue(s: string): nat
    requires AllDigits(s)
  {
    if s == [] then 0 else DigitsValue(s[..|s| - 1]) * 10 + (s[|s| - 1] as int - '0' as int)
  }

  /** `int(s)` on a string: an optional sign followed by decimal digits;
      anything else is the ValueError Python raises, here `None`. */
  function ParseInt(s: string): (r: Option<int>)
    ensures r.Some? ==> |s| >= 1
  {
    if |s| >= 2 && s[0] == '-' && AllDigits(s[1..]) then Some(0 - DigitsValue(s[1..]))
    else if |s| >= 2 && s[0] == '+' && AllDigits(s[1..]) then Some(DigitsValue(s[1..]))
    else if |s| >= 1 && AllDigits(s) then Some(DigitsValue(s))
    else None
  }

  lemma {:induction false} DigitsRoundTrip(n: nat)
    ensures DigitsValue(Digits(n)) == n
    decreases n
  {
    var r := Digits(n);
    if n >= 10 {
      DigitsRoundTrip(n / 10);
      assert r[..|r| - 1] == Digits(n / 10);
    }
  }

  /** `int(str(n)) == n`: the decimal rendering is read back exactly. */
  lemma DecimalRoundTrip(n: int)
    ensures ParseInt(Decimal(n)) == Some(n)
  {
    if n < 0 {
      var d := Digits(-n);
      DigitsRoundTrip(-n);
      var s := "-" + d;
      assert s[1..] == d;
      assert ParseInt(s) == Some(0 - DigitsValue(d));
    } else {
      var d := Digits(n);
      DigitsRoundTrip(n);
      assert IsDigit(d[0]);
      assert ParseInt(d) == Some(DigitsValue(d));
    }
  }

  /** Distinct integers have distinct renderings. */
  lemma DecimalInjective(m: int, n: int)
    requires Decimal(m) == Decimal(n)
    ensures m == n
  {
    DecimalRoundTrip(m);
    DecimalRoundTrip(n);
  }

  /** Python's `int(v)` on a decoded scalar; `None` is the TypeError or
      ValueError it raises. */
  function ToInt(v: Scalar): (r: Option<int>)
    ensures v.Int? ==> r == Some(v.i)
    ensures v.Null? ==> r.None?
    ensures v.Str? ==> r == ParseInt(v.s)
  {
    match v
    case Int(i) => Some(i)
    case Bool(b) => Some(if b then 1 else 0)
    case Str(s) => ParseInt(s)
    case Null => None
  }

  // ---------------------------------------------------------------------
  // json.dumps with ensure_ascii=True
  // ---------------------------------------------------------------------

  predicate IsPrintableAscii(s: string)
  {
    forall i :: 0 <= i < |s| ==> ' ' <= s[i] <= '~'
  }

  /** A character `json.dumps` copies unchanged into a string literal. */
  predicate Plain(c: char)
  {
    ' ' <= c <= '~' && c != '"' && c != '\\'
  }

  function HexChar(d: nat): (c: char)
    requires d < 16
    ensures ' ' <= c <= '~'
    ensures d < 10 ==> c as int == '0' as int + d
    ensures d >= 10 ==> c as int == 'a' as int + d - 10
  {
    "0123456789abcdef"[d]
  }

  /** `'\\u{0:04x}'.format(n)` */
  function UnicodeEscape(n: nat): (r: string)
    requires n < 0x10000
    ensures |r| == 6 && r[0] == '\\' && r[1] == 'u' && IsPrintableAscii(r)
  {
    ['\\', 'u', HexChar(n / 0x1000), HexChar(n / 0x100 % 16), HexChar(n / 0x10 % 16), HexChar(n % 16)]
  }

  /** The escape of one character, as in CPython's `ascii_escape_unichar`. */
  function EscapeChar(c: char): (r: string)
    ensures |r| >= 1 && IsPrintableAscii(r)
    ensures |r| == 1 <==> Plain(c)
    ensures Plain(c) ==> r == [c]
    ensures !Plain(c) ==> r[0] == '\\'
  {
    if Plain(c) then [c]
    else if c == '\\' then "\\\\"
    else if c == '"' then "\\\""
    else if c as int == 8 then "\\b"
    else if c as int == 12 then "\\f"
    else if c == '\n' then "\\n"
    else if c == '\r' then "\\r"
    else if c == '\t' then "\\t"
    else if c as int >= 0x10000 then
      var v := c as int - 0x10000;
      UnicodeEscape(0xd800 + v / 0x400) + UnicodeEscape(0xdc00 + v % 0x400)
    else UnicodeEscape(c as int)
  }

  function Escape(s: string): (r: string)
    ensures IsPrintableAscii(r)
    ensures |r| >= |s|
  {
    if s == [] then [] else EscapeChar(s[0]) + Escape(s[1..])
  }

  /** A JSON string literal. */
  function Quote(s: string): (r: string)
    ensures |r| >= 2 && r[0] == '"' && r[|r| - 1] == '"' && IsPrintableAscii(r)
  {
    "\"" + Escape(s) + "\""
  }

  function EncodeScalar(v: Scalar): (r: string)
    ensures |r| >= 1 && IsPrintableAscii(r)
  {
    match v
    case Null => "null"
    case Bool(b) => if b then "true" else "false"
    case Int(i) => Decimal(i)
    case Str(s) => Quote(s)
  }

  function EncodeMembers(fields: seq<(string, Scalar)>, itemSep: string, keySep: string): (r: string)
    requires IsPrintableAscii(itemSep) && IsPrintableAscii(keySep)
    ensures IsPrintableAscii(r)
    ensures fields == [] <==> r == []
  {
    if fields == [] then []
    else
      var head := Quote(fields[0].0) + keySep + EncodeScalar(fields[0].1);
      if |fields| == 1 then head else head + itemSep + EncodeMembers(fields[1..], itemSep, keySep)
  }

  /** `json.dumps(obj, separators=(itemSep, keySep))` of a flat object whose
      items come in the order `fields` lists them. The text is printable
      ASCII, so its UTF-8 encoding is the text itself. */
  function EncodeObject(fields: seq<(string, Scalar)>, itemSep: string, keySep: string): (r: string)
    requires IsPrintableAscii(itemSep) && IsPrintableAscii(keySep)
    ensures |r| >= 2 && r[0] == '{' && r[|r| - 1] == '}' && IsPrintableAscii(r)
  {
    "{" + EncodeMembers(fields, itemSep, keySep) + "}"
  }

  /** `hexdigest()`: two lower-case hex digits per byte. */
  function HexDigest(d: seq<byte>): (r: string)
    ensures |r| == 2 * |d|
    ensures forall i :: 0 <= i < |r| ==> r[i] in "0123456789abcdef"
  {
    if d == [] then [] else [HexChar(d[0] as nat / 16), HexChar(d[0] as nat % 16)] + HexDigest(d[1..])
  }

  // ---------------------------------------------------------------------
  // Reading the compact text back
  // ---------------------------------------------------------------------

  /** The value of a lower-case hex digit. */
  function HexValue(c: char): int
  {
    if c <= '9' then c as int - '0' as int else c as int - 'a' as int + 10
  }

  /** The number four hex digits spell, most significant first. */
  function HexValue4(t: string): int
    requires |t| >= 4
  {
    0x1000 * HexValue(t[0]) + 0x100 * HexValue(t[1]) + 0x10 * HexValue(t[2]) + HexValue(t[3])
  }

  lemma HexValueOfChar(d: nat)
    requires d < 16
    ensures HexValue(HexChar(d)) == d
  {
  }

  /** The four hex digits of a number below 0x10000 spell it. */
  lemma HexDigitsSpell(n: nat)
    requires n < 0x10000
    ensures n == 0x1000 * (n / 0x1000) + 0x100 * (n / 0x100 % 16) + 0x10 * (n / 0x10 % 16) + n % 16
  {
    var q1 := n / 16;
    var q2 := q1 / 16;
    var q3 := q2 / 16;
    assert n == 16 * q1 + n % 16;
    assert q1 == 16 * q2 + q1 % 16;
    assert q2 == 16 * q3 + q2 % 16;
    assert 256 * q2 <= n < 256 * q2 + 256;
    assert q2 == n / 0x100;
    assert 4096 * q3 <= n < 4096 * q3 + 4096;
    assert q3 == n / 0x1000;
  }

  lemma HexValue4OfEscape(n: nat)
    requires n < 0x10000
    ensures HexValue4(UnicodeEscape(n)[2..6]) == n
  {
    var a, b, c, d := n / 0x1000, n / 0x100 % 16, n / 0x10 % 16, n % 16;
    var e := UnicodeEscape(n);
    assert e[2..6] == [HexChar(a), HexChar(b), HexChar(c), HexChar(d)];
    HexValueOfChar(a);
    HexValueOfChar(b);
    HexValueOfChar(c);
    HexValueOfChar(d);
    HexDigitsSpell(n);
  }

  /** The character with code point `n`, when there is one. */
  function CharOf(n: int): (r: Option<char>)
    ensures r.Some? ==> r.value as int == n
  {
    if 0 <= n < 0xD800 || 0xE000 <= n < 0x110000 then Some(n as char) else None
  }

  /** Reads the escape at the head of `t`: the character it stands for and
      how many characters of `t` it takes. */
  function UnescapeChar(t: string): (r: Option<(char, nat)>)
    ensures r.Some? ==> 1 <= r.value.1 <= |t|
  {
    if t == [] then None
    else if t[0] != '\\' then Some((t[0], 1))
    else if |t| < 2 then None
    else if t[1] == '\\' then Some(('\\', 2))
    else if t[1] == '"' then Some(('"', 2))
    else if t[1] == 'b' then Some((8 as char, 2))
    else if t[1] == 'f' then Some((12 as char, 2))
    else if t[1] == 'n' then Some(('\n', 2))
    else if t[1] == 'r' then Some(('\r', 2))
    else if t[1] == 't' then Some(('\t', 2))
    else if t[1] != 'u' || |t| < 6 then None
    else
      var n := HexValue4(t[2..6]);
      if 0xD800 <= n < 0xDC00 then
        if |t| < 12 then None
        else
          var c := CharOf(0x10000 + (n - 0xD800) * 0x400 + (HexValue4(t[8..12]) - 0xDC00));
          if c.Some? then Some((c.value, 12)) else None
      else
        var c := CharOf(n);
        if c.Some? then Some((c.value, 6)) else None
  }

  /** A `\\uXXXX` escape of a character of the basic plane reads back as
      that character. */
  lemma UnescapeBasic(c: char, rest: string)
    requires c as int < 0x10000
    ensures UnescapeChar(UnicodeEscape(c as int) + rest) == Some((c, 6))
  {
    var t := UnicodeEscape(c as int) + rest;
    assert t[2..6] == UnicodeEscape(c as int)[2..6];
    HexValue4OfEscape(c as int);
  }

  /** Reading a `\\u` escape whose value is a high surrogate takes the low
      surrogate six characters on and combines the two. */
  lemma UnescapePairSteps(t: string, hi: int, lo: int, c: char)
    requires |t| >= 12 && t[0] == '\\' && t[1] == 'u'
    requires HexValue4(t[2..6]) == hi && 0xD800 <= hi < 0xDC00
    requires HexValue4(t[8..12]) == lo
    requires 0x10000 + (hi - 0xD800) * 0x400 + (lo - 0xDC00) == c as int
    ensures UnescapeChar(t) == Some((c, 12))
  {
    assert CharOf(c as int) == Some(c);
  }

  /** A surrogate pair reads back as the character above the basic plane
      it encodes. */
  lemma UnescapePair(c: char, rest: string)
    requires c as int >= 0x10000
    ensures var v := c as int - 0x10000;
      UnescapeChar(UnicodeEscape(0xd800 + v / 0x400) + UnicodeEscape(0xdc00 + v % 0x400) + rest) == Some((c, 12))
  {
    var v := c as int - 0x10000;
    var hi := 0xd800 + v / 0x400;
    var lo := 0xdc00 + v % 0x400;
    var e1, e2 := UnicodeEscape(hi), UnicodeEscape(lo);
    var t := e1 + e2 + rest;
    assert t[0] == e1[0] && t[1] == e1[1];
    assert t[2..6] == e1[2..6];
    assert t[8..12] == e2[2..6];
    HexValue4OfEscape(hi);
    HexValue4OfEscape(lo);
    UnescapePairSteps(t, hi, lo, c);
  }

  /** Each escape reads back as the character it came from, whatever
      follows it. */
  lemma UnescapeEscapeChar(c: char, rest: string)
    ensures UnescapeChar(EscapeChar(c) + rest) == Some((c, |EscapeChar(c)|))
  {
    if Plain(c) || c == '\\' || c == '"' || c as int == 8 || c as int == 12 || c == '\n' || c == '\r' || c == '\t' {
      var t := EscapeChar(c) + rest;
      assert t[0] == EscapeChar(c)[0];
      assert |EscapeChar(c)| == 2 ==> t[1] == EscapeChar(c)[1];
    } else if c as int >= 0x10000 {
      UnescapePair(c, rest);
    } else {
      UnescapeBasic(c, rest);
    }
  }

  /** Reads the body of a string literal up to its closing quote: the
      string it spells and the text after the quote. */
  function UnescapeUntilQuote(t: string): (r: Option<(string, string)>)
    ensures r.Some? ==> |r.value.1| < |t|
    decreases |t|
  {
    if t == [] then None
    else if t[0] == '"' then Some(([], t[1..]))
    else
      var head := UnescapeChar(t);
      if head.None? then None
      else
        var tail := UnescapeUntilQuote(t[head.value.1..]);
        if tail.None? then None
        else Some(([head.value.0] + tail.value.0, tail.value.1))
  }

  /** Reading a literal body is reading its first escape, then the rest. */
  lemma UnescapeSteps(t: string, c: char, k: nat, s: string, rest: string)
    requires t != [] && t[0] != '"' && UnescapeChar(t) == Some((c, k))
    requires UnescapeUntilQuote(t[k..]) == Some((s, rest))
    ensures UnescapeUntilQuote(t) == Some(([c] + s, rest))
  {
  }

  lemma Concatenation(a: string, b: string)
    requires a != []
    ensures (a + b)[0] == a[0] && (a + b)[|a|..] == b
  {
  }

  /** A string literal reads back as the string it was made from, and
      the reading stops at its closing quote. */
  lemma {:induction false} UnescapeRoundTrip(s: string, rest: string)
    ensures UnescapeUntilQuote(Escape(s) + "\"" + rest) == Some((s, rest))
    decreases |s|
  {
    if s == [] {
      ConsParts('"', rest);
    } else {
      var e := EscapeChar(s[0]);
      var after := Escape(s[1..]) + "\"" + rest;
      Reassociate(e, Escape(s[1..]), "\"");
      Reassociate(e, Escape(s[1..]) + "\"", rest);
      Concatenation(e, after);
      UnescapeEscapeChar(s[0], after);
      UnescapeRoundTrip(s[1..], rest);
      UnescapeSteps(e + after, s[0], |e|, s[1..], rest);
      HeadAndTail(s);
    }
  }

  predicate NumberChar(c: char) { IsDigit(c) || c == '-' }

  /** The length of the run of sign and digit characters `t` starts with. */
  function NumberLength(t: string): (k: nat)
    ensures k <= |t|
    ensures forall i :: 0 <= i < k ==> NumberChar(t[i])
    ensures k < |t| ==> !NumberChar(t[k])
  {
    if t != [] && NumberChar(t[0]) then 1 + NumberLength(t[1..]) else 0
  }

  lemma {:induction false} NumberLengthStops(d: string, rest: string)
    requires forall i :: 0 <= i < |d| ==> NumberChar(d[i])
    requires rest == [] || !NumberChar(rest[0])
    ensures NumberLength(d + rest) == |d|
  {
    if d != [] {
      assert (d + rest)[1..] == d[1..] + rest;
      NumberLengthStops(d[1..], rest);
    }
  }

  /** Reads one scalar at the head of `t`, and the text after it. */
  function ParseScalar(t: string): (r: Option<(Scalar, string)>)
    ensures r.Some? ==> |r.value.1| <= |t|
  {
    if |t| >= 4 && t[..4] == "null" then Some((Null, t[4..]))
    else if |t| >= 4 && t[..4] == "true" then Some((Bool(true), t[4..]))
    else if |t| >= 5 && t[..5] == "false" then Some((Bool(false), t[5..]))
    else if t != [] && t[0] == '"' then
      var lit := UnescapeUntilQuote(t[1..]);
      if lit.None? then None else Some((Str(lit.value.0), lit.value.1))
    else
      var k := NumberLength(t);
      var n := ParseInt(t[..k]);
      if n.None? then None else Some((Int(n.value), t[k..]))
  }

  /** Text that starts with neither `n`, `t` nor `f` starts with no
      keyword. */
  lemma NoKeyword(t: string)
    requires t != [] && t[0] != 'n' && t[0] != 't' && t[0] != 'f'
    ensures !(|t| >= 4 && t[..4] == "null") && !(|t| >= 4 && t[..4] == "true") && !(|t| >= 5 && t[..5] == "false")
  {
    if |t| >= 4 {
      assert t[..4][0] == t[0];
    }
    if |t| >= 5 {
      assert t[..5][0] == t[0];
    }
  }

  lemma ParseEncodeString(s: string, rest: string)
    ensures ParseScalar(Quote(s) + rest) == Some((Str(s), rest))
  {
    var t := Quote(s) + rest;
    assert t[0] == '"';
    NoKeyword(t);
    assert t[1..] == Escape(s) + "\"" + rest;
    UnescapeRoundTrip(s, rest);
  }

  lemma ParseEncodeInt(i: int, rest: string)
    requires rest == [] || rest[0] == ','
    ensures ParseScalar(Decimal(i) + rest) == Some((Int(i), rest))
  {
    var e := Decimal(i);
    var t := e + rest;
    assert forall j :: 0 <= j < |e| ==> NumberChar(e[j]) by {
      if i < 0 {
        assert e == "-" + Digits(-i);
      }
    }
    assert t[0] == e[0];
    NoKeyword(t);
    NumberLengthStops(e, rest);
    assert t[..|e|] == e && t[|e|..] == rest;
    DecimalRoundTrip(i);
  }

  /** A scalar followed by the end of the text or by `,` reads back as
      itself. */
  lemma ParseEncodeScalar(v: Scalar, rest: string)
    requires rest == [] || rest[0] == ','
    ensures ParseScalar(EncodeScalar(v) + rest) == Some((v, rest))
  {
    var e := EncodeScalar(v);
    var t := e + rest;
    match v
    case Null =>
      assert t[..4] == "null";
    case Bool(b) =>
      if b {
        assert t[..4] == "true" && t[0] == 't';
      } else {
        assert t[..5] == "false" && t[..4] != "null" && t[..4] != "true" by { assert t[0] == 'f'; }
      }
    case Str(s) =>
      ParseEncodeString(s, rest);
    case Int(i) =>
      ParseEncodeInt(i, rest);
  }

  /** Separators a rendered object can be read back with: printable, and
      the item separator starts with `,`, so it cannot be mistaken for the
      end of a scalar. Both `(',', ':')` and the default `(', ', ': ')`
      qualify. */
  predicate ReadableSeparators(itemSep: string, keySep: string)
  {
    IsPrintableAscii(itemSep) && IsPrintableAscii(keySep) && itemSep != [] && itemSep[0] == ','
  }

  /** The default separators of `json.dumps` can be read back. */
  lemma DefaultSeparatorsReadable()
    ensures ReadableSeparators(", ", ": ")
  {
    assert IsPrintableAscii(", ") by {
      forall i | 0 <= i < 2 ensures ' ' <= ", "[i] <= '~' {
        assert i == 0 || i == 1;
      }
    }
    assert IsPrintableAscii(": ") by {
      forall i | 0 <= i < 2 ensures ' ' <= ": "[i] <= '~' {
        assert i == 0 || i == 1;
      }
    }
  }

  /** Whether `t` starts with `prefix`. */
  predicate StartsWith(t: string, prefix: string)
  {
    |prefix| <= |t| && t[..|prefix|] == prefix
  }

  /** Reads one `"key"<keySep>value` member at the head of `t`, and the
      text after it. */
  function ParseMember(t: string, keySep: string): (r: Option<((string, Scalar), string)>)
    ensures r.Some? ==> |r.value.1| < |t|
  {
    if t == [] || t[0] != '"' then None
    else
      var key := UnescapeUntilQuote(t[1..]);
      if key.None? || !StartsWith(key.value.1, keySep) then None
      else
        var item := ParseScalar(key.value.1[|keySep|..]);
        if item.None? then None else Some(((key.value.0, item.value.0), item.value.1))
  }

  lemma ConsParts(c: char, x: string)
    ensures ([c] + x)[0] == c && ([c] + x)[1..] == x
  {
  }

  lemma PrefixParts(a: string, b: string)
    ensures StartsWith(a + b, a) && (a + b)[|a|..] == b
  {
    assert (a + b)[..|a|] == a;
  }

  /** Reading a member is reading its key literal, the key separator, then
      a scalar. */
  lemma ParseMemberSteps(body: string, key: string, keySep: string, after: string, v: Scalar, rest: string)
    requires UnescapeUntilQuote(body) == Some((key, keySep + after))
    requires ParseScalar(after) == Some((v, rest))
    ensures ParseMember("\"" + body, keySep) == Some(((key, v), rest))
  {
    ConsParts('"', body);
    PrefixParts(keySep, after);
  }

  lemma MemberText(esc: string, keySep: string, enc: string, rest: string)
    ensures "\"" + esc + "\"" + keySep + enc + rest == "\"" + (esc + "\"" + (keySep + (enc + rest)))
  {
  }

  lemma ParseEncodeMember(k: string, v: Scalar, keySep: string, rest: string)
    requires rest == [] || rest[0] == ','
    ensures ParseMember(Quote(k) + keySep + EncodeScalar(v) + rest, keySep) == Some(((k, v), rest))
  {
    var esc, enc := Escape(k), EncodeScalar(v);
    UnescapeRoundTrip(k, keySep + (enc + rest));
    ParseEncodeScalar(v, rest);
    ParseMemberSteps(esc + "\"" + (keySep + (enc + rest)), k, keySep, enc + rest, v, rest);
    MemberText(esc, keySep, enc, rest);
  }

  /** Reads the members of a flat object, `itemSep` between items and
      `keySep` after each key. */
  function ParseMembers(t: string, itemSep: string, keySep: string): (r: Option<seq<(string, Scalar)>>)
    decreases |t|
  {
    if t == [] then Some([])
    else
      var member := ParseMember(t, keySep);
      if member.None? then None
      else
        var after := member.value.1;
        if after == [] then Some([member.value.0])
        else if !StartsWith(after, itemSep) then None
        else
          var more := ParseMembers(after[|itemSep|..], itemSep, keySep);
          if more.None? then None else Some([member.value.0] + more.value)
  }

  /** Reading members is reading one member, then either the end of the
      text or the item separator and the remaining members. */
  lemma ParseMembersLast(t: string, itemSep: string, keySep: string, m: (string, Scalar))
    requires t != [] && ParseMember(t, keySep) == Some((m, []))
    ensures ParseMembers(t, itemSep, keySep) == Some([m])
  {
  }

  lemma ParseMembersCons(t: string, itemSep: string, keySep: string, m: (string, Scalar), more: string, ms: seq<(string, Scalar)>)
    requires itemSep != []
    requires t != [] && ParseMember(t, keySep) == Some((m, itemSep + more))
    requires ParseMembers(more, itemSep, keySep) == Some(ms)
    ensures ParseMembers(t, itemSep, keySep) == Some([m] + ms)
  {
    PrefixParts(itemSep, more);
  }

  lemma HeadAndTail<T>(s: seq<T>)
    requires s != []
    ensures [s[0]] + s[1..] == s
    ensures |s| == 1 ==> s == [s[0]]
  {
  }

  lemma Reassociate(a: string, b: string, c: string)
    ensures a + b + c == a + (b + c)
  {
  }

  /** The members are the first member, then either nothing or the item
      separator and the members after it. */
  lemma EncodeMembersHead(fields: seq<(string, Scalar)>, itemSep: string, keySep: string)
    requires fields != [] && IsPrintableAscii(itemSep) && IsPrintableAscii(keySep)
    ensures EncodeMembers(fields, itemSep, keySep) ==
      Quote(fields[0].0) + keySep + EncodeScalar(fields[0].1) +
      (if |fields| == 1 then [] else itemSep + EncodeMembers(fields[1..], itemSep, keySep))
  {
    var head := Quote(fields[0].0) + keySep + EncodeScalar(fields[0].1);
    if |fields| == 1 {
      assert head + [] == head;
    } else {
      Reassociate(head, itemSep, EncodeMembers(fields[1..], itemSep, keySep));
    }
  }

  lemma {:induction false} ParseEncodeMembers(fields: seq<(string, Scalar)>, itemSep: string, keySep: string)
    requires ReadableSeparators(itemSep, keySep)
    ensures ParseMembers(EncodeMembers(fields, itemSep, keySep), itemSep, keySep) == Some(fields)
  {
    if fields != [] {
      var t := EncodeMembers(fields, itemSep, keySep);
      var more := EncodeMembers(fields[1..], itemSep, keySep);
      var tail := if |fields| == 1 then [] else itemSep + more;
      EncodeMembersHead(fields, itemSep, keySep);
      assert tail == [] || tail[0] == ',';
      ParseEncodeMember(fields[0].0, fields[0].1, keySep, tail);
      HeadAndTail(fields);
      if |fields| == 1 {
        ParseMembersLast(t, itemSep, keySep, fields[0]);
      } else {
        ParseEncodeMembers(fields[1..], itemSep, keySep);
        ParseMembersCons(t, itemSep, keySep, fields[0], more, fields[1..]);
      }
    }
  }

  /** `json.loads` on a flat object rendered with these separators. */
  function ParseObject(t: string, itemSep: string, keySep: string): Option<seq<(string, Scalar)>>
  {
    if |t| >= 2 && t[0] == '{' && t[|t| - 1] == '}' then ParseMembers(t[1..|t| - 1], itemSep, keySep) else None
  }

  /** The rendering of a flat object reads back as the same items in the
      same order: it loses nothing. */
  lemma ParseEncodeObject(fields: seq<(string, Scalar)>, itemSep: string, keySep: string)
    requires ReadableSeparators(itemSep, keySep)
    ensures ParseObject(EncodeObject(fields, itemSep, keySep), itemSep, keySep) == Some(fields)
  {
    var t := EncodeObject(fields, itemSep, keySep);
    assert t[1..|t| - 1] == EncodeMembers(fields, itemSep, keySep);
    ParseEncodeMembers(fields, itemSep, keySep);
  }

  /** Distinct item sequences have distinct renderings. */
  lemma EncodeObjectInjective(f1: seq<(string, Scalar)>, f2: seq<(string, Scalar)>, itemSep: string, keySep: string)
    requires ReadableSeparators(itemSep, keySep)
    requires EncodeObject(f1, itemSep, keySep) == EncodeObject(f2, itemSep, keySep)
    ensures f1 == f2
  {
    ParseEncodeObject(f1, itemSep, keySep);
    ParseEncodeObject(f2, itemSep, keySep);
  }
}
