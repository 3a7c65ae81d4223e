/** The `application/x-www-form-urlencoded` serialisation the browser's
    `URLSearchParams.toString()` produces, and the decoding the server applies
    to a query string: UTF-8, percent-escapes, '+' for space, '&' and '='
    between and inside pairs. */
module FormEncoding {
  import opened Common

  type Byte = b: nat | b < 256

  // ---------------------------------------------------------------------
  // UTF-8
  // ---------------------------------------------------------------------

  /** The UTF-8 bytes of one character (a Unicode scalar value): the code
      point cut into six-bit groups below a length-marking lead byte. */
  function Utf8(c: char): (bs: seq<Byte>)
    ensures 1 <= |bs| <= 4
    ensures (|bs| == 1) == (c as int < 0x80)
  {
    var n := c as int;
    var q1 := n / 64;
    var q2 := q1 / 64;
    var q3 := q2 / 64;
    if n < 0x80 then [n]
    else if n < 0x800 then [0xC0 + q1, 0x80 + n % 64]
    else if n < 0x10000 then [0xE0 + q2, 0x80 + q1 % 64, 0x80 + n % 64]
    else [0xF0 + q3, 0x80 + q2 % 64, 0x80 + q1 % 64, 0x80 + n % 64]
  }

  function Utf8Encode(s: string): seq<Byte>
  {
    if s == [] then [] else Utf8(s[0]) + Utf8Encode(s[1..])
  }

  predicate IsCont(b: Byte) { 0x80 <= b < 0xC0 }

  function Prepend<T>(x: T, rest: Option<seq<T>>): Option<seq<T>>
  {
    match rest
    case None => None
    case Some(r) => Some([x] + r)
  }

  /** Strict UTF-8 decoding: None for a malformed, overlong or surrogate sequence. */
  function Utf8Decode(bs: seq<Byte>): Option<string>
    decreases |bs|
  {
    if bs == [] then Some([])
    else
      var b0: int := bs[0];
      if b0 < 0x80 then Prepend(b0 as char, Utf8Decode(bs[1..]))
      else if 0xC0 <= b0 < 0xE0 && |bs| >= 2 && IsCont(bs[1]) then
        var n := (b0 - 0xC0) * 64 + (bs[1] as int - 0x80);
        if 0x80 <= n then Prepend(n as char, Utf8Decode(bs[2..])) else None
      else if 0xE0 <= b0 < 0xF0 && |bs| >= 3 && IsCont(bs[1]) && IsCont(bs[2]) then
        var n := (b0 - 0xE0) * 4096 + (bs[1] as int - 0x80) * 64 + (bs[2] as int - 0x80);
        if 0x800 <= n && !(0xD800 <= n < 0xE000) then Prepend(n as char, Utf8Decode(bs[3..])) else None
      else if 0xF0 <= b0 < 0xF5 && |bs| >= 4 && IsCont(bs[1]) && IsCont(bs[2]) && IsCont(bs[3]) then
        var n := (b0 - 0xF0) * 262144 + (bs[1] as int - 0x80) * 4096 + (bs[2] as int - 0x80) * 64 + (bs[3] as int - 0x80);
        if 0x10000 <= n <= 0x10FFFF then Prepend(n as char, Utf8Decode(bs[4..])) else None
      else None
  }

  /** Decoding reads one encoded character back off the front. */
  lemma Utf8DecodeChar(c: char, rest: seq<Byte>)
    ensures Utf8Decode(Utf8(c) + rest) == Prepend(c, Utf8Decode(rest))
  {
    var n := c as int;
    if n < 0x80 {
      assert (Utf8(c) + rest)[1..] == rest;
    } else if n < 0x800 {
      Utf8DecodeTwo(c, rest);
    } else if n < 0x10000 {
      Utf8DecodeThree(c, rest);
    } else {
      Utf8DecodeFour(c, rest);
    }
  }

  lemma Utf8DecodeTwo(c: char, rest: seq<Byte>)
    requires 0x80 <= c as int < 0x800
    ensures Utf8Decode(Utf8(c) + rest) == Prepend(c, Utf8Decode(rest))
  {
    var n := c as int;
    var bs := Utf8(c) + rest;
    assert bs[2..] == rest;
    assert (n / 64) * 64 + n % 64 == n;
  }

  lemma Utf8DecodeThree(c: char, rest: seq<Byte>)
    requires 0x800 <= c as int < 0x10000
    ensures Utf8Decode(Utf8(c) + rest) == Prepend(c, Utf8Decode(rest))
  {
    var n := c as int;
    var q1 := n / 64;
    var bs := Utf8(c) + rest;
    assert bs[3..] == rest;
    assert q1 * 64 + n % 64 == n;
    assert (q1 / 64) * 64 + q1 % 64 == q1;
    assert (q1 / 64) * 4096 + (q1 % 64) * 64 + n % 64 == n;
  }

  lemma Utf8DecodeFour(c: char, rest: seq<Byte>)
    requires 0x10000 <= c as int
    ensures Utf8Decode(Utf8(c) + rest) == Prepend(c, Utf8Decode(rest))
  {
    var n := c as int;
    var q1 := n / 64;
    var q2 := q1 / 64;
    var bs := Utf8(c) + rest;
    assert bs[4..] == rest;
    assert q1 * 64 + n % 64 == n;
    assert q2 * 64 + q1 % 64 == q1;
    assert (q2 / 64) * 64 + q2 % 64 == q2;
    assert (q2 / 64) * 262144 + (q2 % 64) * 4096 + (q1 % 64) * 64 + n % 64 == n;
  }

  /** Every string survives UTF-8 encoding and strict decoding. */
  lemma {:induction false} Utf8RoundTrip(s: string)
    ensures Utf8Decode(Utf8Encode(s)) == Some(s)
  {
    if s != [] {
      Utf8RoundTrip(s[1..]);
      Utf8DecodeChar(s[0], Utf8Encode(s[1..]));
      assert [s[0]] + s[1..] == s;
    }
  }

  // ---------------------------------------------------------------------
  // Percent-escapes
  // ---------------------------------------------------------------------

  /** Upper-case hexadecimal digits, as the form serialiser writes them. */
  function HexUpper(d: nat): char
    requires d < 16
  {
    if d < 10 then ('0' as int + d) as char else ('A' as int + d - 10) as char
  }

  function HexValue(c: char): Option<nat>
  {
    if '0' <= c <= '9' then Some(c as int - '0' as int)
    else if 'A' <= c <= 'F' then Some(c as int - 'A' as int + 10)
    else if 'a' <= c <= 'f' then Some(c as int - 'a' as int + 10)
    else None
  }

  function PercentByte(b: Byte): string
  {
    ['%', HexUpper(b / 16), HexUpper(b % 16)]
  }

  function PercentBytes(bs: seq<Byte>): string
  {
    if bs == [] then [] else PercentByte(bs[0]) + PercentBytes(bs[1..])
  }

  /** The characters the form serialiser leaves as they are. */
  predicate FormSafe(c: char)
  {
    || 'a' <= c <= 'z' || 'A' <= c <= 'Z' || '0' <= c <= '9'
    || c == '*' || c == '-' || c == '.' || c == '_'
  }

  function EncodeChar(c: char): string
  {
    if FormSafe(c) then [c]
    else if c == ' ' then "+"
    else PercentBytes(Utf8(c))
  }

  /** The form serialisation of one name or value. */
  function FormEncode(s: string): string
  {
    if s == [] then [] else EncodeChar(s[0]) + FormEncode(s[1..])
  }

  /** Undoing the escapes: '+' is a space, '%' with two hex digits is a byte,
      anything else stands for its own UTF-8 bytes (a '%' without two digits
      after it included). */
  function Unescape(s: string): seq<Byte>
  {
    if s == [] then []
    else if s[0] == '+' then [0x20] + Unescape(s[1..])
    else if s[0] == '%' && |s| >= 3 && HexValue(s[1]).Some? && HexValue(s[2]).Some? then
      [HexValue(s[1]).value * 16 + HexValue(s[2]).value] + Unescape(s[3..])
    else Utf8(s[0]) + Unescape(s[1..])
  }

  /** The decoding of one name or value; None when the bytes are not UTF-8. */
  function FormDecode(s: string): Option<string>
  {
    Utf8Decode(Unescape(s))
  }

  lemma UnescapeByte(b: Byte, tail: string)
    ensures Unescape(PercentByte(b) + tail) == [b] + Unescape(tail)
  {
    var s := PercentByte(b) + tail;
    assert s[0] == '%' && s[1] == HexUpper(b / 16) && s[2] == HexUpper(b % 16);
    assert s[3..] == tail;
    assert HexValue(HexUpper(b / 16)) == Some(b / 16);
    assert HexValue(HexUpper(b % 16)) == Some(b % 16);
  }

  lemma {:induction false} UnescapePercent(bs: seq<Byte>, rest: string)
    ensures Unescape(PercentBytes(bs) + rest) == bs + Unescape(rest)
  {
    if bs == [] {
      assert PercentBytes(bs) + rest == rest;
    } else {
      assert PercentBytes(bs) + rest == PercentByte(bs[0]) + (PercentBytes(bs[1..]) + rest);
      UnescapeByte(bs[0], PercentBytes(bs[1..]) + rest);
      UnescapePercent(bs[1..], rest);
      assert [bs[0]] + (bs[1..] + Unescape(rest)) == bs + Unescape(rest);
    }
  }

  lemma UnescapeChar(c: char, rest: string)
    ensures Unescape(EncodeChar(c) + rest) == Utf8(c) + Unescape(rest)
  {
    if FormSafe(c) {
      assert (EncodeChar(c) + rest)[1..] == rest;
    } else if c == ' ' {
      assert (EncodeChar(c) + rest)[1..] == rest;
    } else {
      UnescapePercent(Utf8(c), rest);
    }
  }

  lemma {:induction false} UnescapeEncode(s: string)
    ensures Unescape(FormEncode(s)) == Utf8Encode(s)
  {
    if s != [] {
      UnescapeChar(s[0], FormEncode(s[1..]));
      UnescapeEncode(s[1..]);
    }
  }

  /** Every string survives form serialisation and decoding. */
  lemma FormRoundTrip(s: string)
    ensures FormDecode(FormEncode(s)) == Some(s)
  {
    UnescapeEncode(s);
    Utf8RoundTrip(s);
  }

  /** A serialised name or value never contains the pair separators, nor the
      '?' that starts a query. */
  lemma {:induction false} FormEncodeNoSeparators(s: string)
    ensures '&' !in FormEncode(s) && '=' !in FormEncode(s) && '?' !in FormEncode(s)
  {
    if s != [] {
      FormEncodeNoSeparators(s[1..]);
      PercentBytesNoSeparators(Utf8(s[0]));
    }
  }

  lemma {:induction false} PercentBytesNoSeparators(bs: seq<Byte>)
    ensures '&' !in PercentBytes(bs) && '=' !in PercentBytes(bs) && '?' !in PercentBytes(bs)
  {
    if bs != [] {
      PercentBytesNoSeparators(bs[1..]);
    }
  }

  // ---------------------------------------------------------------------
  // Query strings
  // ---------------------------------------------------------------------

  /** `URLSearchParams.toString()`: `name=value` pairs joined by '&'. */
  function Serialize(ps: seq<(string, string)>): string
  {
    if ps == [] then []
    else if |ps| == 1 then FormEncode(ps[0].0) + "=" + FormEncode(ps[0].1)
    else FormEncode(ps[0].0) + "=" + FormEncode(ps[0].1) + "&" + Serialize(ps[1..])
  }

  /** The text up to the first `sep`, and what follows it (None when there is no `sep`). */
  function SplitAt(s: string, sep: char): (r: (string, Option<string>))
    ensures r.1.None? ==> r.0 == s
    ensures r.1.Some? ==> |r.1.value| < |s| && sep !in r.0
    ensures r.1.None? <==> sep !in s
  {
    if sep !in s then (s, None)
    else
      var i := IndexOf(s, sep).value;
      (s[..i], Some(s[i + 1..]))
  }

  lemma SplitAtJoin(a: string, sep: char, b: string)
    requires sep !in a
    ensures SplitAt(a + [sep] + b, sep) == (a, Some(b))
  {
    var s := a + [sep] + b;
    assert s[|a|] == sep;
    var i := IndexOf(s, sep).value;
    assert s[..|a|] == a;
    assert i == |a|;
    assert s[i + 1..] == b;
  }

  /** One `name=value` pair of a query string, decoded; a pair without '='
      has an empty value. */
  function ParsePair(s: string): Option<(string, string)>
  {
    var (name, value) := SplitAt(s, '=');
    match (FormDecode(name), FormDecode(if value.Some? then value.value else ""))
    case (Some(n), Some(v)) => Some((n, v))
    case _ => None
  }

  /** The server's reading of a query string into its pairs, in order;
      empty segments between separators are skipped. */
  function ParseQuery(qs: string): Option<seq<(string, string)>>
    decreases |qs|
  {
    if qs == [] then Some([])
    else
      var (first, rest) := SplitAt(qs, '&');
      if first == [] then
        if rest.None? then Some([]) else ParseQuery(rest.value)
      else
        match ParsePair(first)
        case None => None
        case Some(p) => if rest.None? then Some([p]) else Prepend(p, ParseQuery(rest.value))
  }

  /** The server reads back exactly the pairs the browser serialised. */
  lemma {:induction false} QueryRoundTrip(ps: seq<(string, string)>)
    requires forall i :: 0 <= i < |ps| ==> ps[i].0 != []
    ensures ParseQuery(Serialize(ps)) == Some(ps)
  {
    if ps != [] {
      var name, value := FormEncode(ps[0].0), FormEncode(ps[0].1);
      FormEncodeNoSeparators(ps[0].0);
      FormEncodeNoSeparators(ps[0].1);
      FormRoundTrip(ps[0].0);
      FormRoundTrip(ps[0].1);
      var pair := name + "=" + value;
      assert '&' !in pair;
      SplitAtJoin(name, '=', value);
      assert ParsePair(pair) == Some(ps[0]);
      assert pair != [] by { assert |FormEncode(ps[0].0)| > 0 by { EncodeNonEmpty(ps[0].0); } }
      if |ps| == 1 {
        assert Serialize(ps) == pair;
        assert IndexOf(pair, '&').None?;
        assert ParseQuery(pair) == Some([ps[0]]);
        assert [ps[0]] == ps;
      } else {
        QueryRoundTrip(ps[1..]);
        assert Serialize(ps) == pair + ['&'] + Serialize(ps[1..]);
        SplitAtJoin(pair, '&', Serialize(ps[1..]));
        assert [ps[0]] + ps[1..] == ps;
      }
    }
  }

  lemma EncodeNonEmpty(s: string)
    requires s != []
    ensures |FormEncode(s)| > 0
  {
    assert |EncodeChar(s[0])| > 0 by {
      if !FormSafe(s[0]) && s[0] != ' ' {
        assert PercentBytes(Utf8(s[0])) == PercentByte(Utf8(s[0])[0]) + PercentBytes(Utf8(s[0])[1..]);
      }
    }
  }
}
