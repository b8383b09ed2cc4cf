/**
 * List links: the query string a link carries, in the application/x-www-form-urlencoded format of
 * section 5 of the WHATWG URL Standard, and the list parameters a page reads back from it.
 */
module Links {
  import opened Common
  import Utf16

  // ---------------------------------------------------------------- UTF-8

  function EncodeChar(c: char): Bytes {
    var n := c as int;
    if n < 0x80 then [n as byte]
    else if n < 0x800 then [(0xC0 + n / 64) as byte, (0x80 + n % 64) as byte]
    else if n < 0x10000 then
      [(0xE0 + n / 4096) as byte, (0x80 + n / 64 % 64) as byte, (0x80 + n % 64) as byte]
    else
      [(0xF0 + n / 262144) as byte, (0x80 + n / 4096 % 64) as byte,
       (0x80 + n / 64 % 64) as byte, (0x80 + n % 64) as byte]
  }

  function Encode(s: string): Bytes {
    if s == [] then [] else EncodeChar(s[0]) + Encode(s[1..])
  }

  predicate Continues(b: byte) {
    0x80 <= b < 0xC0
  }

  predicate Scalar(n: int) {
    0 <= n < 0xD800 || 0xE000 <= n < 0x11_0000
  }

  /** The code point at the front of the bytes and its length; U+FFFD for one byte if malformed. */
  function Front(b: Bytes): (int, nat)
    requires b != []
    ensures Scalar(Front(b).0) && 1 <= Front(b).1 <= |b|
  {
    var b0 := b[0] as int;
    if b0 < 0x80 then (b0, 1)
    else if 0xC2 <= b0 < 0xE0 && |b| >= 2 && Continues(b[1]) then
      ((b0 - 0xC0) * 64 + (b[1] as int - 0x80), 2)
    else if 0xE0 <= b0 < 0xF0 && |b| >= 3 && Continues(b[1]) && Continues(b[2]) then
      var n := (b0 - 0xE0) * 4096 + (b[1] as int - 0x80) * 64 + (b[2] as int - 0x80);
      if n >= 0x800 && Scalar(n) then (n, 3) else (0xFFFD, 1)
    else if 0xF0 <= b0 < 0xF5 && |b| >= 4 && Continues(b[1]) && Continues(b[2]) && Continues(b[3]) then
      var n := (b0 - 0xF0) * 262144 + (b[1] as int - 0x80) * 4096 + (b[2] as int - 0x80) * 64 + (b[3] as int - 0x80);
      if n >= 0x10000 && Scalar(n) then (n, 4) else (0xFFFD, 1)
    else (0xFFFD, 1)
  }

  function Decode(b: Bytes): string {
    if b == [] then [] else [Front(b).0 as char] + Decode(b[Front(b).1..])
  }

  /** Base-64 digits of a code point. */
  lemma Digits(n: int)
    requires 0 <= n < 0x11_0000
    ensures n == n / 64 * 64 + n % 64
    ensures n / 64 == n / 4096 * 64 + n / 64 % 64
    ensures n / 4096 == n / 262144 * 64 + n / 4096 % 64
    ensures n / 64 < 0x4400 && n / 4096 < 0x110 && n / 262144 <= 4
  {
  }

  lemma FrontOfTwo(c: char, rest: Bytes)
    requires 0x80 <= c as int < 0x800
    ensures Front(EncodeChar(c) + rest) == (c as int, 2)
  {
  }

  lemma FrontOfThree(c: char, rest: Bytes)
    requires 0x800 <= c as int < 0x10000
    ensures Front(EncodeChar(c) + rest) == (c as int, 3)
  {
  }

  lemma FrontOfFour(c: char, rest: Bytes)
    requires 0x10000 <= c as int
    ensures Front(EncodeChar(c) + rest) == (c as int, 4)
  {
    var n := c as int;
    var b := EncodeChar(c) + rest;
    Digits(n);
    var w, x, y, z := n / 262144, n / 4096 % 64, n / 64 % 64, n % 64;
    assert b[0] as int == 0xF0 + w && b[1] as int == 0x80 + x && b[2] as int == 0x80 + y && b[3] as int == 0x80 + z;
    assert w * 262144 + x * 4096 + y * 64 + z == n;
  }

  /** The bytes of a character, at the front of anything, are read back as that character. */
  lemma FrontOfChar(c: char, rest: Bytes)
    ensures Front(EncodeChar(c) + rest) == (c as int, |EncodeChar(c)|)
  {
    if 0x10000 <= c as int {
      FrontOfFour(c, rest);
    } else if 0x800 <= c as int {
      FrontOfThree(c, rest);
    } else if 0x80 <= c as int {
      FrontOfTwo(c, rest);
    }
  }

  /**
   * What is at the front of any bytes: a character exactly when its bytes are, and otherwise one byte
   * reads as the replacement character.
   */
  lemma FrontExactly(b: Bytes, c: char)
    requires b != []
    ensures EncodeChar(c) <= b <==> Front(b) == (c as int, |EncodeChar(c)|)
    ensures (forall d: char :: !(EncodeChar(d) <= b)) ==> Front(b) == (0xFFFD, 1)
  {
    hide Front, EncodeChar;
    if EncodeChar(c) <= b {
      assert b == EncodeChar(c) + b[|EncodeChar(c)|..];
      FrontOfChar(c, b[|EncodeChar(c)|..]);
    }
    if Front(b) != (0xFFFD, 1) { FrontIsChar(b); }
    NoneIsMalformed(c);
  }

  lemma FrontIsChar(b: Bytes)
    requires b != [] && Front(b) != (0xFFFD, 1)
    ensures EncodeChar(Front(b).0 as char) == b[..Front(b).1]
  {
    if Front(b).1 == 4 {
      FourAreChar(b, Front(b).0);
    } else if Front(b).1 == 3 {
      ThreeAreChar(b, Front(b).0);
    } else {
    }
  }

  lemma FourAreChar(b: Bytes, n: int)
    requires |b| >= 4 && Front(b) == (n, 4)
    ensures EncodeChar(n as char) == b[..4]
  {
    Sextets(b[0] as int - 0xF0, b[1] as int - 0x80, b[2] as int - 0x80, b[3] as int - 0x80);
  }

  lemma ThreeAreChar(b: Bytes, n: int)
    requires |b| >= 3 && Front(b) == (n, 3)
    ensures EncodeChar(n as char) == b[..3]
  {
    Sextets(0, b[0] as int - 0xE0, b[1] as int - 0x80, b[2] as int - 0x80);
  }

  lemma Sextets(w: int, x: int, y: int, z: int)
    requires 0 <= w && 0 <= x < 64 && 0 <= y < 64 && 0 <= z < 64
    ensures var n := w * 262144 + x * 4096 + y * 64 + z;
            && n / 262144 == w && n / 4096 == w * 64 + x && n / 4096 % 64 == x
            && n / 64 == w * 4096 + x * 64 + y && n / 64 % 64 == y && n % 64 == z
  {
  }

  lemma NoneIsMalformed(c: char)
    ensures (c as int, |EncodeChar(c)|) != (0xFFFD, 1)
  {
  }

  /** Every string survives UTF-8. */
  lemma {:induction false} DecodeOfEncode(s: string)
    ensures Decode(Encode(s)) == s
  {
    if s == [] {
    } else {
      var rest := Encode(s[1..]);
      FrontOfChar(s[0], rest);
      assert (EncodeChar(s[0]) + rest)[|EncodeChar(s[0])|..] == rest;
      DecodeOfEncode(s[1..]);
    }
  }

  // ---------------------------------------------------------------- form encoding

  predicate Unreserved(b: byte) {
    (0x30 <= b <= 0x39) || (0x41 <= b <= 0x5A) || (0x61 <= b <= 0x7A)
    || b == 0x2A || b == 0x2D || b == 0x2E || b == 0x5F
  }

  function HexDigit(n: int): char
    requires 0 <= n < 16
  {
    if n < 10 then ('0' as int + n) as char else ('A' as int + n - 10) as char
  }

  function HexValue(c: char): Option<int> {
    if '0' <= c <= '9' then Some(c as int - '0' as int)
    else if 'A' <= c <= 'F' then Some(c as int - 'A' as int + 10)
    else if 'a' <= c <= 'f' then Some(c as int - 'a' as int + 10)
    else None
  }

  function EscapeByte(b: byte): string {
    if b == 0x20 then "+"
    else if Unreserved(b) then [b as int as char]
    else ['%', HexDigit(b as int / 16), HexDigit(b as int % 16)]
  }

  function EscapeBytes(b: Bytes): string {
    if b == [] then "" else EscapeByte(b[0]) + EscapeBytes(b[1..])
  }

  function Escape(s: string): string {
    EscapeBytes(Encode(s))
  }

  predicate IsEscape(s: string) {
    |s| >= 3 && s[0] == '%' && HexValue(s[1]).Some? && HexValue(s[2]).Some?
  }

  function UnescapeBytes(s: string): Bytes
    decreases |s|
  {
    if s == "" then []
    else if s[0] == '+' then [0x20] + UnescapeBytes(s[1..])
    else if IsEscape(s) then
      [(HexValue(s[1]).value * 16 + HexValue(s[2]).value) as byte] + UnescapeBytes(s[3..])
    else EncodeChar(s[0]) + UnescapeBytes(s[1..])
  }

  function Unescape(s: string): string {
    Decode(UnescapeBytes(s))
  }

  lemma UnescapeOfByte(b: byte, rest: string)
    ensures UnescapeBytes(EscapeByte(b) + rest) == [b] + UnescapeBytes(rest)
  {
    var s := EscapeByte(b) + rest;
    if b == 0x20 || Unreserved(b) {
      assert s[1..] == rest;
      assert !IsEscape(s);
    } else {
      assert s[3..] == rest;
      assert s[0] == '%' && s[1] == HexDigit(b as int / 16) && s[2] == HexDigit(b as int % 16);
    }
  }

  lemma {:induction false} UnescapeOfBytes(b: Bytes)
    ensures UnescapeBytes(EscapeBytes(b)) == b
  {
    if b == [] {
    } else {
      UnescapeOfByte(b[0], EscapeBytes(b[1..]));
      UnescapeOfBytes(b[1..]);
    }
  }

  /** Escaping loses nothing, for any string. */
  lemma UnescapeOfEscape(s: string)
    ensures Unescape(Escape(s)) == s
  {
    UnescapeOfBytes(Encode(s));
    DecodeOfEncode(s);
  }

  /**
   * A JavaScript string put into a query and read back is itself exactly when it has no unpaired
   * surrogate; each of those comes back as U+FFFD.
   */
  lemma UnitsSurviveExactly(u: Utf16.Units)
    ensures Utf16.UnitsOf(Unescape(Escape(Utf16.Scalars(u)))) == u <==> Utf16.WellFormed(u)
  {
    UnescapeOfEscape(Utf16.Scalars(u));
    Utf16.UnitsSurviveExactly(u);
  }

  /** An escaped string holds none of the characters that structure a URL's query. */
  lemma {:induction false} EscapedIsPlain(b: Bytes)
    ensures forall c :: c in EscapeBytes(b) ==> c != '&' && c != '=' && c != '?' && c != '#'
  {
    if b == [] {
    } else {
      EscapedIsPlain(b[1..]);
    }
  }

  /**
   * The bytes that stand for themselves are the letters, the digits and four marks; a space is a plus
   * sign; any other byte is a percent sign and two capital hexadecimal digits.
   */
  lemma EscapedByte(b: byte)
    ensures var c := b as int as char;
            EscapeByte(b) ==
            if 'a' <= c <= 'z' || 'A' <= c <= 'Z' || '0' <= c <= '9' || c == '*' || c == '-' || c == '.' || c == '_'
            then [c]
            else if c == ' ' then "+"
            else "%" + ["0123456789ABCDEF"[b as int / 16], "0123456789ABCDEF"[b as int % 16]]
  {
    HexDigits(b as int / 16);
    HexDigits(b as int % 16);
    hide HexDigit;
  }

  lemma HexDigits(n: nat)
    requires n < 16
    ensures HexDigit(n) == "0123456789ABCDEF"[n]
  {
  }

  /** Hexadecimal digits are read in capital and in small letters, and nothing else is one. */
  lemma HexReads(c: char, n: nat)
    requires n < 16
    ensures HexValue(c) == Some(n) <==> c == "0123456789ABCDEF"[n] || c == "0123456789abcdef"[n]
    ensures HexValue(c).Some? ==> 0 <= HexValue(c).value < 16
  {
  }

  /** The lengths and lead bytes of UTF-8 (section 3 of RFC 3629); every further byte continues. */
  lemma EncodedShape(c: char)
    ensures var n, b := c as int, EncodeChar(c);
            && |b| == (if n < 0x80 then 1 else if n < 0x800 then 2 else if n < 0x10000 then 3 else 4)
            && (|b| == 1 ==> b[0] as int == n)
            && (|b| == 2 ==> 0xC2 <= b[0] <= 0xDF) && (|b| == 3 ==> 0xE0 <= b[0] <= 0xEF)
            && (|b| == 4 ==> 0xF0 <= b[0] <= 0xF4)
            && forall k :: 1 <= k < |b| ==> 0x80 <= b[k] <= 0xBF
  {
  }

  // ---------------------------------------------------------------- query strings

  type Pairs = seq<(string, string)>

  function PrintPair(p: (string, string)): string {
    Escape(p.0) + "=" + Escape(p.1)
  }

  function PrintQuery(ps: Pairs): string {
    if ps == [] then ""
    else if |ps| == 1 then PrintPair(ps[0])
    else PrintPair(ps[0]) + "&" + PrintQuery(ps[1..])
  }

  /** The part of a string before the first separator, or all of it. */
  function UpTo(s: string, sep: char): (n: nat)
    ensures n <= |s|
  {
    if s == "" || s[0] == sep then 0 else 1 + UpTo(s[1..], sep)
  }

  function ReadPair(s: string): (string, string) {
    var n := UpTo(s, '=');
    (Unescape(s[..n]), if n < |s| then Unescape(s[n + 1..]) else "")
  }

  function ReadQuery(s: string): Pairs
    decreases |s|
  {
    if s == "" then []
    else
      var n := UpTo(s, '&');
      (if n == 0 then [] else [ReadPair(s[..n])]) + (if n < |s| then ReadQuery(s[n + 1..]) else [])
  }

  /** A query is read part by part, and empty parts are nothing. */
  lemma PartByPart(part: string, rest: string)
    requires '&' !in part
    ensures ReadQuery(part + "&" + rest) == (if part == "" then [] else [ReadPair(part)]) + ReadQuery(rest)
    ensures ReadQuery(part) == if part == "" then [] else [ReadPair(part)]
  {
    UpToFirst(part, '&', rest);
    var s := part + "&" + rest;
    assert s[..|part|] == part && s[|part| + 1..] == rest && part[..|part|] == part;
  }

  lemma {:induction false} UpToFirst(p: string, sep: char, rest: string)
    requires sep !in p
    ensures UpTo(p + [sep] + rest, sep) == |p| && UpTo(p, sep) == |p|
  {
    if p == [] {
    } else {
      assert p[0] in p;
      UpToFirst(p[1..], sep, rest);
      assert (p + [sep] + rest)[1..] == p[1..] + [sep] + rest;
    }
  }

  lemma PairPrinted(p: (string, string))
    ensures ReadPair(PrintPair(p)) == p
    ensures PrintPair(p) != "" && forall c :: c in PrintPair(p) ==> c != '&' && c != '?' && c != '#'
  {
    EscapedIsPlain(Encode(p.0));
    EscapedIsPlain(Encode(p.1));
    UpToFirst(Escape(p.0), '=', Escape(p.1));
    var s := PrintPair(p);
    assert s[..|Escape(p.0)|] == Escape(p.0) && s[|Escape(p.0)| + 1..] == Escape(p.1);
    UnescapeOfEscape(p.0);
    UnescapeOfEscape(p.1);
  }

  /** Reading a printed query gives back its pairs, in order, whatever they contain. */
  lemma {:induction false} QueryRoundTrip(ps: Pairs)
    ensures ReadQuery(PrintQuery(ps)) == ps
  {
    if ps == [] {
    } else {
      var p := PrintPair(ps[0]);
      PairPrinted(ps[0]);
      if |ps| == 1 {
        UpToFirst(p, '&', "");
        assert p[..|p|] == p;
      } else {
        var rest := PrintQuery(ps[1..]);
        var s := p + "&" + rest;
        UpToFirst(p, '&', rest);
        assert s[..|p|] == p && s[|p| + 1..] == rest;
        QueryRoundTrip(ps[1..]);
      }
    }
  }

  lemma {:induction false} QueryIsPlain(ps: Pairs)
    ensures '?' !in PrintQuery(ps) && '#' !in PrintQuery(ps)
  {
    if ps == [] {
    } else {
      PairPrinted(ps[0]);
      QueryIsPlain(ps[1..]);
    }
  }

  // ---------------------------------------------------------------- list links

  /** A value handed to the link printer. */
  datatype Value = Undefined | Text(text: string) | Number(n: nat)

  function Decimal(n: nat): string {
    var d := [(('0' as int) + n % 10) as char];
    if n < 10 then d else Decimal(n / 10) + d
  }

  function Printed(v: Value): string {
    match v
    case Undefined => ""
    case Text(t) => t
    case Number(n) => Decimal(n)
  }

  /** Undefined and empty values are dropped; a number never is. */
  predicate Kept(v: Value) {
    v.Number? || (v.Text? && v.text != "")
  }

  function Keep(params: seq<(string, Value)>): Pairs {
    if params == [] then []
    else
      var last := params[|params| - 1];
      Keep(params[..|params| - 1]) + (if Kept(last.1) then [(last.0, Printed(last.1))] else [])
  }

  function Href(base: string, params: seq<(string, Value)>): string {
    var qs := PrintQuery(Keep(params));
    if qs != "" then base + "?" + qs else base
  }

  /** The kept pairs are, in order, those whose printed value is not empty. */
  lemma {:induction false} KeptInOrder(params: seq<(string, Value)>) returns (at: seq<nat>)
    ensures |at| == |Keep(params)|
    ensures forall k :: 0 <= k < |at| ==>
              at[k] < |params| && Keep(params)[k] == (params[at[k]].0, Printed(params[at[k]].1))
    ensures forall k, l :: 0 <= k < l < |at| ==> at[k] < at[l]
    ensures forall i: nat :: i in at <==> i < |params| && Printed(params[i].1) != ""
  {
    if params == [] {
      at := [];
    } else {
      var last := params[|params| - 1];
      var rest := KeptInOrder(params[..|params| - 1]);
      PrintedNumber(last.1);
      at := rest + if Kept(last.1) then [|params| - 1] else [];
    }
  }

  lemma PrintedNumber(v: Value)
    ensures v.Number? ==> Printed(v) != ""
  {
  }

  /** A link asks no question when it carries nothing. */
  lemma HrefAsks(base: string, params: seq<(string, Value)>)
    requires '?' !in base
    ensures '?' in Href(base, params) <==> exists i :: 0 <= i < |params| && Printed(params[i].1) != ""
    ensures base <= Href(base, params)
  {
    var at := KeptInOrder(params);
    var ps := Keep(params);
    if ps != [] {
      PairPrinted(ps[0]);
      assert at[0] in at;
      assert (base + "?" + PrintQuery(ps))[|base|] == '?';
    }
    if i :| 0 <= i < |params| && Printed(params[i].1) != "" { assert i in at; }
  }

  /** The keys of an object are distinct. */
  predicate DistinctKeys(params: seq<(string, Value)>) {
    forall i, j :: 0 <= i < j < |params| ==> params[i].0 != params[j].0
  }

  /** URLSearchParams.set: replaces the first pair of that name and drops the others, or appends. */
  function SetPair(ps: Pairs, k: string, v: string): Pairs {
    if ps == [] then [(k, v)]
    else if ps[0].0 == k then [(k, v)] + WithoutKey(ps[1..], k)
    else [ps[0]] + SetPair(ps[1..], k, v)
  }

  function WithoutKey(ps: Pairs, k: string): Pairs {
    if ps == [] then [] else (if ps[0].0 == k then [] else [ps[0]]) + WithoutKey(ps[1..], k)
  }

  predicate HasKey(ps: Pairs, k: string) {
    exists j :: 0 <= j < |ps| && ps[j].0 == k
  }

  predicate HasParam(params: seq<(string, Value)>, k: string) {
    exists j :: 0 <= j < |params| && params[j].0 == k
  }

  lemma {:induction false} SetNewPair(ps: Pairs, k: string, v: string)
    requires !HasKey(ps, k)
    ensures SetPair(ps, k, v) == ps + [(k, v)]
  {
    if ps == [] {
    } else {
      forall j | 0 <= j < |ps[1..]| ensures ps[1..][j].0 != k { assert ps[j + 1].0 != k; }
      SetNewPair(ps[1..], k, v);
    }
  }

  method ListHref(base: string, params: seq<(string, Value)>) returns (href: string)
    requires DistinctKeys(params)
    ensures href == Href(base, params)
  {
    var p: Pairs := [];
    for i := 0 to |params|
      invariant p == Keep(params[..i])
    {
      assert params[..i + 1][..i] == params[..i];
      if Kept(params[i].1) {
        if HasKey(p, params[i].0) { KeptKeys(params[..i], params[i].0); }
        SetNewPair(p, params[i].0, Printed(params[i].1));
        p := SetPair(p, params[i].0, Printed(params[i].1));
      }
    }
    assert params[..|params|] == params;
    var qs := PrintQuery(p);
    return if qs != "" then base + "?" + qs else base;
  }

  lemma {:induction false} KeptKeys(params: seq<(string, Value)>, k: string)
    requires HasKey(Keep(params), k)
    ensures HasParam(params, k)
  {
    var front, last := params[..|params| - 1], params[|params| - 1];
    if last.0 == k {
    } else {
      var j :| 0 <= j < |Keep(params)| && Keep(params)[j].0 == k;
      assert Keep(front)[j].0 == k;
      KeptKeys(front, k);
      var i :| 0 <= i < |front| && front[i].0 == k;
      assert params[i].0 == k;
    }
  }

  // ---------------------------------------------------------------- reading a list page's parameters

  /** The query of a URL: what follows the first question mark, up to a fragment. */
  function QueryOf(url: string): string {
    var n := UpTo(url, '?');
    if n < |url| then (var q := url[n + 1..]; q[..UpTo(q, '#')]) else ""
  }

  function First(ps: Pairs, key: string): string {
    if ps == [] then "" else if ps[0].0 == key then ps[0].1 else First(ps[1..], key)
  }

  predicate IsSpace(c: char) {
    c in "\t\n\U{000B}\U{000C}\r \U{00A0}\U{1680}\U{2028}\U{2029}\U{202F}\U{205F}\U{3000}\U{FEFF}"
    || '\U{2000}' <= c <= '\U{200A}'
  }

  function TrimStart(s: string): string {
    if s != "" && IsSpace(s[0]) then TrimStart(s[1..]) else s
  }

  function TrimEnd(s: string): string {
    if s != "" && IsSpace(s[|s| - 1]) then TrimEnd(s[..|s| - 1]) else s
  }

  function Trim(s: string): string {
    TrimEnd(TrimStart(s))
  }

  predicate AllDigits(s: string) {
    forall i :: 0 <= i < |s| ==> '0' <= s[i] <= '9'
  }

  function DigitsValue(s: string): nat
    requires AllDigits(s)
  {
    if s == "" then 0 else DigitsValue(s[..|s| - 1]) * 10 + (s[|s| - 1] as int - '0' as int)
  }

  /** Digits with an optional fraction: what is before and what is after the point. */
  predicate IsDecimal(s: string) {
    var n := UpTo(s, '.');
    && AllDigits(s[..n]) && (n < |s| ==> AllDigits(s[n + 1..]))
    && s != "" && s != "."
  }

  predicate AllZeros(s: string) {
    forall i :: 0 <= i < |s| ==> s[i] == '0'
  }

  /** The floor of a signed decimal: a negative one with a fraction goes down. */
  function FloorOf(s: string, negative: bool): int
    requires IsDecimal(s)
  {
    var n := UpTo(s, '.');
    var whole: int := DigitsValue(s[..n]);
    if !negative then whole
    else if n < |s| && !AllZeros(s[n + 1..]) then -whole - 1
    else -whole
  }

  /** Math.floor(Number(s)) of an optionally signed decimal; None for what is not one. */
  function Integer(s: string): Option<int> {
    var t := Trim(s);
    if t == "" then Some(0)
    else
      var signed := t[0] == '+' || t[0] == '-';
      var body := if signed then t[1..] else t;
      if IsDecimal(body) then Some(FloorOf(body, t[0] == '-')) else None
  }

  datatype Dir = Asc | Desc

  datatype Options = Options(sortable: seq<string>, defaultSort: string, defaultDir: Option<Dir>, pageSize: Option<nat>)

  datatype ListParams = ListParams(page: nat, pageSize: nat, offset: nat, sort: string, dir: Dir, q: string)

  const DEFAULT_PAGE_SIZE: nat := 25

  function DirName(d: Dir): string {
    if d == Asc then "asc" else "desc"
  }

  /** Not a number, zero and negatives all read as the first page. */
  function PageNumber(s: string): (p: nat)
    ensures p >= 1
  {
    match Integer(s)
    case Some(n) => if n < 1 then 1 else n
    case None => 1
  }

  function PageSize(opts: Options): nat {
    if opts.pageSize.Some? then opts.pageSize.value else DEFAULT_PAGE_SIZE
  }

  function Offset(page: nat, pageSize: nat): nat
    requires page >= 1
  {
    (page - 1) * pageSize
  }

  function ParseListParams(ps: Pairs, opts: Options): ListParams {
    var pageSize := PageSize(opts);
    var page := PageNumber(First(ps, "page"));
    var sortRaw, dirRaw := First(ps, "sort"), First(ps, "dir");
    var sort := if sortRaw in opts.sortable then sortRaw else opts.defaultSort;
    var dir := if dirRaw == "asc" then Asc else if dirRaw == "desc" then Desc
               else if opts.defaultDir.Some? then opts.defaultDir.value else Desc;
    ListParams(page, pageSize, Offset(page, pageSize), sort, dir, Trim(First(ps, "q")))
  }

  lemma {:induction false} DecimalReadsBack(n: nat)
    ensures Decimal(n) != "" && AllDigits(Decimal(n)) && DigitsValue(Decimal(n)) == n
    ensures n > 0 ==> Decimal(n)[0] != '0'
  {
    if n < 10 {
    } else {
      DecimalReadsBack(n / 10);
    }
    var s := Decimal(n);
    assert s[..|s| - 1] == if n < 10 then "" else Decimal(n / 10);
  }

  lemma TrimmedDigits(s: string)
    requires AllDigits(s)
    ensures Trim(s) == s
  {
  }

  lemma DigitsAreDecimal(s: string)
    requires AllDigits(s) && s != ""
    ensures UpTo(s, '.') == |s| && IsDecimal(s) && FloorOf(s, false) == DigitsValue(s)
  {
    assert '.' !in s;
    UpToFirst(s, '.', "");
    assert s[..|s|] == s;
  }

  lemma PageReadsBack(n: nat)
    requires n >= 1
    ensures PageNumber(Decimal(n)) == n
  {
    DecimalReadsBack(n);
    TrimmedDigits(Decimal(n));
    DigitsAreDecimal(Decimal(n));
  }

  lemma FloorOfFraction(whole: string, fraction: string)
    requires AllDigits(whole) && AllDigits(fraction) && whole != ""
    ensures var s := whole + "." + fraction; IsDecimal(s) && FloorOf(s, false) == DigitsValue(whole)
  {
    hide DigitsValue;
    var s := whole + "." + fraction;
    assert '.' !in whole;
    UpToFirst(whole, '.', fraction);
    assert s == whole + ['.'] + fraction;
    assert s[..|whole|] == whole && s[|whole| + 1..] == fraction;
  }

  /** A page number with a fraction reads as the whole page before it, or as the first. */
  lemma FractionReadsDown(n: nat, fraction: string)
    requires AllDigits(fraction)
    ensures PageNumber(Decimal(n) + "." + fraction) == Max(1, n)
  {
    DecimalReadsBack(n);
    hide Decimal, Trim, IsDecimal, FloorOf, UpTo, DigitsValue;
    var s := Decimal(n) + "." + fraction;
    FloorOfFraction(Decimal(n), fraction);
    PointedEnds(Decimal(n), fraction);
    TrimmedDecimal(s);
    hide AllDigits, IsSpace;
  }

  lemma PointedEnds(whole: string, fraction: string)
    requires AllDigits(whole) && AllDigits(fraction) && whole != ""
    ensures var s := whole + "." + fraction;
            && '0' <= s[0] <= '9' && ('0' <= s[|s| - 1] <= '9' || s[|s| - 1] == '.')
            && !IsSpace(s[0]) && !IsSpace(s[|s| - 1])
  {
  }

  lemma TrimmedDecimal(s: string)
    requires s != "" && !IsSpace(s[0]) && !IsSpace(s[|s| - 1])
    ensures Trim(s) == s
  {
  }

  // ---------------------------------------------------------------- any query a page is given

  /** What a query says under a key: the value of its first pair of that name, or nothing. */
  ghost predicate QuerySays(ps: Pairs, key: string, v: string) {
    if exists i :: 0 <= i < |ps| && ps[i].0 == key then
      exists i :: 0 <= i < |ps| && ps[i] == (key, v) && forall j :: 0 <= j < i ==> ps[j].0 != key
    else v == ""
  }

  lemma {:induction false} FirstSays(ps: Pairs, key: string, v: string)
    requires QuerySays(ps, key, v)
    ensures First(ps, key) == v
  {
    if ps == [] {
    } else if ps[0].0 == key {
      assert exists i :: 0 <= i < |ps| && ps[i].0 == key;
    } else {
      assert forall i :: 0 <= i < |ps[1..]| ==> ps[1..][i] == ps[i + 1];
      if i :| 0 <= i < |ps| && ps[i].0 == key { assert ps[1..][i - 1].0 == key; }
      FirstSays(ps[1..], key, v);
    }
  }

  /** The white space of section 12.2 of ECMA-262 and its line terminators. */
  lemma WhiteSpace(c: char)
    ensures IsSpace(c) <==>
            || c as int in {9, 10, 11, 12, 13, 32, 160, 5760, 8232, 8233, 8239, 8287, 12288, 65279}
            || 8192 <= c as int <= 8202
  {
    var plain := "\t\n\U{000B}\U{000C}\r \U{00A0}\U{1680}\U{2028}\U{2029}\U{202F}\U{205F}\U{3000}\U{FEFF}";
    assert |plain| == 14;
    forall k | 0 <= k < 14 ensures IsSpace(plain[k]) {}
  }

  predicate Blank(s: string) {
    forall k :: 0 <= k < |s| ==> IsSpace(s[k])
  }

  lemma {:induction false} TrimStartStrips(s: string) returns (a: string)
    ensures Blank(a) && s == a + TrimStart(s) && (TrimStart(s) != "" ==> !IsSpace(TrimStart(s)[0]))
  {
    hide IsSpace;
    if s != "" && IsSpace(s[0]) {
      var rest := TrimStartStrips(s[1..]);
      a := [s[0]] + rest;
      assert s == [s[0]] + (rest + TrimStart(s[1..]));
      forall k | 0 <= k < |a| ensures IsSpace(a[k]) {}
    } else {
      a := "";
      assert s == a + s;
    }
  }

  lemma {:induction false} TrimEndStrips(s: string) returns (b: string)
    ensures Blank(b) && s == TrimEnd(s) + b && TrimEnd(s) <= s
    ensures TrimEnd(s) != "" ==> !IsSpace(TrimEnd(s)[|TrimEnd(s)| - 1])
  {
    hide IsSpace;
    if s != "" && IsSpace(s[|s| - 1]) {
      var front := s[..|s| - 1];
      var rest := TrimEndStrips(front);
      b := rest + [s[|s| - 1]];
      assert s == front + [s[|s| - 1]];
      assert s == TrimEnd(front) + b;
      forall k | 0 <= k < |b| ensures IsSpace(b[k]) {}
    } else {
      b := "";
      assert s == s + b;
    }
  }

  /** Trimming takes white space off both ends, all of it, and nothing else. */
  lemma TrimStrips(s: string)
    ensures exists a, b :: Blank(a) && Blank(b) && s == a + Trim(s) + b
    ensures Trim(s) != "" ==> !IsSpace(Trim(s)[0]) && !IsSpace(Trim(s)[|Trim(s)| - 1])
  {
    hide IsSpace;
    var a := TrimStartStrips(s);
    var b := TrimEndStrips(TrimStart(s));
    assert s == a + Trim(s) + b;
  }

  /** What stands for a number: digits, with a sign or a fraction or both. */
  predicate WrittenIn(s: string, sign: string, whole: string, rest: string) {
    && s == sign + whole + rest && (sign == "" || sign == "+")
    && whole != "" && AllDigits(whole) && (rest == "" || (rest[0] == '.' && AllDigits(rest[1..])))
  }

  ghost predicate Written(s: string, whole: string) {
    exists sign, rest :: WrittenIn(s, sign, whole, rest)
  }

  /** A page beyond the first is read exactly from its digits, with a plus sign or a fraction or neither. */
  lemma PageExactly(s: string, p: nat)
    requires p >= 2
    ensures PageNumber(s) == p
            <==> exists whole :: Written(Trim(s), whole) && AllDigits(whole) && DigitsValue(whole) == p
  {
    hide Trim, DigitsValue, IsDecimal, FloorOf, Written, WrittenIn;
    if PageNumber(s) == p { var whole := ReadIsWritten(Trim(s), p); }
    if whole :| Written(Trim(s), whole) && AllDigits(whole) && DigitsValue(whole) == p {
      WrittenIsRead(Trim(s), whole);
    }
  }

  lemma ReadIsWritten(t: string, p: nat) returns (whole: string)
    requires t != "" && p >= 2
    requires var body := if t[0] == '+' || t[0] == '-' then t[1..] else t;
             IsDecimal(body) && FloorOf(body, t[0] == '-') == p
    ensures Written(t, whole) && AllDigits(whole) && DigitsValue(whole) == p
  {
    hide DigitsValue, AllDigits;
    assert t[0] != '-';
    var sign, body := if t[0] == '+' then "+" else "", if t[0] == '+' || t[0] == '-' then t[1..] else t;
    var n := UpTo(body, '.');
    whole := body[..n];
    UpToSplits(body, '.');
    NoDigits();
    assert n < |body| ==> body[n..][1..] == body[n + 1..];
    assert t == sign + whole + body[n..];
    assert whole != "";
    assert WrittenIn(t, sign, whole, body[n..]);
    assert Written(t, whole);
  }

  lemma NoDigits()
    ensures AllDigits("") && DigitsValue("") == 0
  {
  }

  function Pow10(k: nat): nat {
    if k == 0 then 1 else 10 * Pow10(k - 1)
  }

  lemma {:induction false} DigitsBelow(s: string)
    requires AllDigits(s)
    ensures DigitsValue(s) < Pow10(|s|)
    ensures DigitsValue(s) == 0 <==> AllZeros(s)
  {
    if s == "" {
    } else {
      DigitsBelow(s[..|s| - 1]);
    }
  }

  /** The floor of a signed decimal is the greatest integer that is not above it. */
  lemma FloorIsFloor(s: string, negative: bool)
    requires IsDecimal(s)
    ensures var n := UpTo(s, '.');
            var fraction := if n < |s| then s[n + 1..] else "";
            var unit := Pow10(|fraction|);
            var value := DigitsValue(s[..n]) * unit + DigitsValue(fraction);
            FloorOf(s, negative) * unit <= (if negative then -value else value) < (FloorOf(s, negative) + 1) * unit
  {
    hide DigitsValue, AllDigits, Pow10, AllZeros;
    var n := UpTo(s, '.');
    var fraction := if n < |s| then s[n + 1..] else "";
    DigitsBelow(fraction);
    NothingIsZero();
    Scaled(DigitsValue(s[..n]), Pow10(|fraction|), DigitsValue(fraction));
  }

  lemma NothingIsZero()
    ensures AllDigits("") && DigitsValue("") == 0 && AllZeros("")
  {
  }

  lemma Scaled(whole: int, unit: int, part: int)
    requires 0 <= part < unit
    ensures whole * unit <= whole * unit + part < (whole + 1) * unit
    ensures -whole * unit == -(whole * unit) && (-whole - 1) * unit == -(whole * unit) - unit
    ensures (-whole + 1) * unit == -(whole * unit) + unit
  {
  }

  lemma {:induction false} UpToSplits(s: string, sep: char)
    ensures UpTo(s, sep) < |s| ==> s[UpTo(s, sep)] == sep
  {
    if s == "" || s[0] == sep {
    } else {
      UpToSplits(s[1..], sep);
    }
  }

  lemma BodyIsRead(whole: string, rest: string)
    requires whole != "" && AllDigits(whole) && (rest == "" || (rest[0] == '.' && AllDigits(rest[1..])))
    ensures IsDecimal(whole + rest) && FloorOf(whole + rest, false) == DigitsValue(whole)
  {
    if rest == "" {
      assert whole + rest == whole;
      DigitsAreDecimal(whole);
    } else {
      assert whole + rest == whole + "." + rest[1..];
      FloorOfFraction(whole, rest[1..]);
    }
  }

  lemma WrittenIsRead(t: string, whole: string)
    requires Written(t, whole)
    ensures t != "" && var body := if t[0] == '+' || t[0] == '-' then t[1..] else t;
                       t[0] != '-' && IsDecimal(body) && FloorOf(body, false) == DigitsValue(whole)
  {
    hide DigitsValue, IsDecimal, FloorOf;
    var sign, rest :| WrittenIn(t, sign, whole, rest);
    BodyIsRead(whole, rest);
    if sign == "+" { assert t[1..] == whole + rest; } else { assert t == whole + rest && t[0] == whole[0]; }
  }

  /**
   * Whatever query a page is given, printed by a link or not: the sort is an allowed one or the default,
   * the direction one of two, the search term what stands between white space, and the offset that of
   * the page.
   */
  lemma ReadsAnyQuery(ps: Pairs, opts: Options, sort: string, dir: string, q: string)
    requires QuerySays(ps, "sort", sort) && QuerySays(ps, "dir", dir) && QuerySays(ps, "q", q)
    ensures var r := ParseListParams(ps, opts);
            && (r.sort == if sort in opts.sortable then sort else opts.defaultSort)
            && (dir == "asc" ==> r.dir == Asc) && (dir == "desc" ==> r.dir == Desc)
            && (dir != "asc" && dir != "desc" ==> (r.dir == Asc <==> opts.defaultDir == Some(Asc)))
            && (exists a, b :: Blank(a) && Blank(b) && q == a + r.q + b)
            && (r.q != "" ==> !IsSpace(r.q[0]) && !IsSpace(r.q[|r.q| - 1]))
            && r.page >= 1 && r.offset == (r.page - 1) * r.pageSize
            && (opts.pageSize.Some? ==> r.pageSize == opts.pageSize.value) && (opts.pageSize.None? ==> r.pageSize == 25)
  {
    FirstSays(ps, "sort", sort);
    FirstSays(ps, "dir", dir);
    FirstSays(ps, "q", q);
    TrimStrips(q);
    hide Trim, Blank, IsSpace, First, QuerySays, PageNumber;
  }

  /** The first pair of a key among the kept ones is that key's own value, or nothing if dropped. */
  lemma {:induction false} FirstOfKept(params: seq<(string, Value)>, i: nat)
    requires DistinctKeys(params) && i < |params|
    ensures First(Keep(params), params[i].0) == Printed(params[i].1)
  {
    var front, last, key := params[..|params| - 1], params[|params| - 1], params[i].0;
    FirstAppend(Keep(front), if Kept(last.1) then [(last.0, Printed(last.1))] else [], key);
    if i < |front| {
      FirstOfKept(front, i);
      if !HasKey(Keep(front), key) { FirstAbsent(Keep(front), key); }
    } else if HasKey(Keep(front), key) {
      KeptKeys(front, key);
    }
  }

  lemma {:induction false} FirstAppend(a: Pairs, b: Pairs, key: string)
    ensures First(a + b, key) == if HasKey(a, key) then First(a, key) else First(b, key)
  {
    if a == [] {
      assert a + b == b;
    } else {
      assert (a + b)[1..] == a[1..] + b;
      FirstAppend(a[1..], b, key);
      HasKeyTail(a, key);
    }
  }

  lemma HasKeyTail(a: Pairs, key: string)
    requires a != []
    ensures HasKey(a, key) <==> a[0].0 == key || HasKey(a[1..], key)
  {
  }

  lemma {:induction false} FirstAbsent(ps: Pairs, key: string)
    requires !HasKey(ps, key)
    ensures First(ps, key) == ""
  {
    if ps == [] {
    } else {
      HasKeyTail(ps, key);
      FirstAbsent(ps[1..], key);
    }
  }

  /** A page that receives a link reads back exactly the pairs the link kept. */
  lemma LinkCarriesPairs(base: string, params: seq<(string, Value)>)
    requires '?' !in base && '#' !in base
    ensures ReadQuery(QueryOf(Href(base, params))) == Keep(params)
  {
    var qs := PrintQuery(Keep(params));
    QueryRoundTrip(Keep(params));
    QueryIsPlain(Keep(params));
    if qs != "" {
      var url := base + "?" + qs;
      UpToFirst(base, '?', qs);
      assert url == base + ['?'] + qs;
      assert url[|base| + 1..] == qs;
      UpToFirst(qs, '#', "");
      assert qs[..|qs|] == qs;
    } else {
      UpToFirst(base, '?', "");
    }
  }

  /** The list parameters a page reads from the link it was reached by. */
  function ReadLink(href: string, opts: Options): ListParams {
    ParseListParams(ReadQuery(QueryOf(href)), opts)
  }

  /** What a link was asked to carry under a key. */
  predicate Carries(params: seq<(string, Value)>, key: string, v: Value) {
    exists i :: 0 <= i < |params| && params[i] == (key, v)
  }

  /**
   * Round trip: a link that carries a trimmed search term, an allowed sort, a direction and a page
   * number, among any other parameters, is read back as those values; an empty term is dropped
   * from the link and reads back empty.
   */
  lemma LinkRoundTrip(base: string, params: seq<(string, Value)>, opts: Options,
                      q: string, sort: string, dir: Dir, page: nat)
    requires '?' !in base && '#' !in base && DistinctKeys(params)
    requires Carries(params, "q", Text(q)) && Carries(params, "sort", Text(sort))
    requires Carries(params, "dir", Text(DirName(dir))) && Carries(params, "page", Number(page))
    requires Trim(q) == q && sort in opts.sortable && page >= 1
    ensures var r := ReadLink(Href(base, params), opts);
            && r.page == page && r.sort == sort && r.dir == dir && r.q == q
            && r.pageSize == PageSize(opts) && r.offset == (page - 1) * r.pageSize
  {
    hide Href, ReadQuery, QueryOf, Keep, Trim, Integer, PageNumber, First, Carries, DistinctKeys;
    LinkCarriesPairs(base, params);
    CarriedValue(params, "q", Text(q));
    CarriedValue(params, "sort", Text(sort));
    CarriedValue(params, "dir", Text(DirName(dir)));
    CarriedValue(params, "page", Number(page));
    PageReadsBack(page);
  }

  lemma CarriedValue(params: seq<(string, Value)>, key: string, v: Value)
    requires DistinctKeys(params) && Carries(params, key, v)
    ensures First(Keep(params), key) == Printed(v)
  {
    var i :| 0 <= i < |params| && params[i] == (key, v);
    FirstOfKept(params, i);
  }
}
