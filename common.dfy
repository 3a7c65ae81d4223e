/** Values and text helpers shared by the backend and the browser client:
    optional values, results, JavaScript white space and trimming, ASCII case
    folding, substring search, and digit strings. */
module Common {

  datatype Option<+T> = None | Some(value: T)

  datatype Result<+T, +E> = Ok(value: T) | Err(error: E)

  // ---------------------------------------------------------------------
  // Characters and strings as JavaScript sees them
  // ---------------------------------------------------------------------

  /** The characters matched by the regular-expression class `\s`; they are
      also the characters `String.prototype.trim` strips. */
  predicate IsJsSpace(c: char)
  {
    || c == ' ' || c == '\t' || c == '\n' || c == '\r'
    || c == '\U{000B}' || c == '\U{000C}' || c == '\U{00A0}' || c == '\U{1680}'
    || ('\U{2000}' <= c <= '\U{200A}')
    || c == '\U{2028}' || c == '\U{2029}' || c == '\U{202F}' || c == '\U{205F}'
    || c == '\U{3000}' || c == '\U{FEFF}'
  }

  predicate AllSpace(s: string)
  {
    forall i :: 0 <= i < |s| ==> IsJsSpace(s[i])
  }

  /** Drops the leading white space. */
  function TrimStart(s: string): (r: string)
    ensures |r| <= |s| && r == s[|s| - |r|..]
    ensures AllSpace(s[..|s| - |r|])
    ensures r == [] || !IsJsSpace(r[0])
  {
    if s != [] && IsJsSpace(s[0]) then TrimStart(s[1..]) else s
  }

  /** Drops the trailing white space. */
  function TrimEnd(s: string): (r: string)
    ensures |r| <= |s| && r == s[..|r|]
    ensures AllSpace(s[|r|..])
    ensures r == [] || !IsJsSpace(r[|r| - 1])
  {
    if s != [] && IsJsSpace(s[|s| - 1]) then TrimEnd(s[..|s| - 1]) else s
  }

  /** `s.trim()`: the result is empty exactly when every character is white space. */
  function Trim(s: string): (r: string)
    ensures r == [] <==> AllSpace(s)
  {
    var t := TrimStart(s);
    var r := TrimEnd(t);
    assert t != [] ==> t[0] == s[|s| - |t|];
    assert r == [] ==> t[|r|..] == t;
    assert t == [] ==> s[..|s| - |t|] == s;
    r
  }

  /** `toLowerCase` restricted to the ASCII letters. */
  function LowerChar(c: char): char
  {
    if 'A' <= c <= 'Z' then (c as int + 32) as char else c
  }

  function Lower(s: string): (r: string)
    ensures |r| == |s|
  {
    seq(|s|, i requires 0 <= i < |s| => LowerChar(s[i]))
  }

  /** `hay.includes(needle)`, scanning from the left. */
  predicate Includes(hay: string, needle: string)
  {
    |needle| <= |hay| && (hay[..|needle|] == needle || Includes(hay[1..], needle))
  }

  /** `needle` occurs in `hay` starting at index `i`. */
  predicate OccursAt(hay: string, needle: string, i: nat)
  {
    i + |needle| <= |hay| && hay[i..i + |needle|] == needle
  }

  /** An occurrence in the tail is an occurrence one place further in the whole. */
  lemma OccursAtShift(hay: string, needle: string, i: nat)
    requires hay != []
    ensures OccursAt(hay[1..], needle, i) <==> OccursAt(hay, needle, i + 1)
  {
    var n := |needle|;
    if i + n <= |hay| - 1 {
      assert hay[1..][i..i + n] == hay[i + 1..i + 1 + n];
    }
  }

  /** Includes agrees with the textbook definition of "is a substring of". */
  lemma {:induction false} IncludesIff(hay: string, needle: string)
    ensures Includes(hay, needle) <==> exists i: nat :: OccursAt(hay, needle, i)
  {
    var n := |needle|;
    if n <= |hay| {
      if hay[..n] == needle {
        assert OccursAt(hay, needle, 0);
      } else {
        var tail := hay[1..];
        IncludesIff(tail, needle);
        forall i: nat ensures OccursAt(tail, needle, i) <==> OccursAt(hay, needle, i + 1) {
          OccursAtShift(hay, needle, i);
        }
        assert !OccursAt(hay, needle, 0);
        assert (exists i: nat :: OccursAt(hay, needle, i)) ==> exists i: nat :: OccursAt(tail, needle, i) by {
          forall i: nat | OccursAt(hay, needle, i) ensures OccursAt(tail, needle, i - 1) {
            OccursAtShift(hay, needle, i - 1);
          }
        }
      }
    }
  }

  predicate NoSpace(s: string)
  {
    forall i :: 0 <= i < |s| ==> !IsJsSpace(s[i])
  }

  /** The index of the first occurrence of `c`, if any. */
  function IndexOf(s: string, c: char): (r: Option<nat>)
    ensures r.Some? ==> r.value < |s| && s[r.value] == c && c !in s[..r.value]
    ensures r.None? ==> c !in s
  {
    if s == [] then None
    else if s[0] == c then Some(0)
    else match IndexOf(s[1..], c)
      case None => None
      case Some(i) => Some(i + 1)
  }

  /** `a` lists some of the elements of `b`, in the order `b` has them. */
  predicate IsSubsequence<T(==)>(a: seq<T>, b: seq<T>)
  {
    if a == [] then true
    else if b == [] then false
    else if a[0] == b[0] then IsSubsequence(a[1..], b[1..])
    else IsSubsequence(a, b[1..])
  }

  /** `Array.prototype.filter`: the elements that pass, in their order. */
  function Filter<T(==,!new)>(s: seq<T>, keep: T -> bool): (r: seq<T>)
    ensures forall x :: x in r <==> x in s && keep(x)
    ensures |r| <= |s|
  {
    if s == [] then []
    else if keep(s[0]) then [s[0]] + Filter(s[1..], keep)
    else Filter(s[1..], keep)
  }

  /** The filter keeps the survivors in their original order. */
  lemma {:induction false} FilterKeepsOrder<T(!new)>(s: seq<T>, keep: T -> bool)
    ensures IsSubsequence(Filter(s, keep), s)
  {
    if s != [] {
      var rest := Filter(s[1..], keep);
      FilterKeepsOrder(s[1..], keep);
      if !keep(s[0]) && rest != [] {
        assert rest[0] in rest;
        assert rest[0] != s[0];
      }
    }
  }

  /** When every element passes, the filter changes nothing. */
  lemma {:induction false} FilterKeepsAll<T(!new)>(s: seq<T>, keep: T -> bool)
    requires forall x :: x in s ==> keep(x)
    ensures Filter(s, keep) == s
  {
    if s != [] {
      FilterKeepsAll(s[1..], keep);
    }
  }

  /** Two filters can be applied in either order. */
  lemma {:induction false} FilterCommutes<T(!new)>(s: seq<T>, p: T -> bool, q: T -> bool)
    ensures Filter(Filter(s, p), q) == Filter(Filter(s, q), p)
  {
    if s != [] {
      FilterCommutes(s[1..], p, q);
    }
  }


  // ---------------------------------------------------------------------
  // Digit strings
  // ---------------------------------------------------------------------

  function Pow(b: nat, e: nat): (r: nat)
    ensures b >= 1 ==> r >= 1
  {
    if e == 0 then 1 else b * Pow(b, e - 1)
  }

  /** Lower-case digit characters, as Python's hex() and str() print them. */
  function DigitChar(d: nat): char
    requires d < 16
  {
    if d < 10 then ('0' as int + d) as char else ('a' as int + d - 10) as char
  }

  /** The value of a digit character in either case, if it is one. */
  function DigitValue(c: char): Option<nat>
  {
    if '0' <= c <= '9' then Some(c as int - '0' as int)
    else if 'a' <= c <= 'f' then Some(c as int - 'a' as int + 10)
    else if 'A' <= c <= 'F' then Some(c as int - 'A' as int + 10)
    else None
  }

  lemma DigitValueOfChar(d: nat)
    requires d < 16
    ensures DigitValue(DigitChar(d)) == Some(d)
  {
  }

  /** A decimal digit is printed back as the character it was read from. */
  lemma DigitCharOfValue(c: char, d: nat)
    requires DigitValue(c) == Some(d) && d < 10
    ensures DigitChar(d) == c
  {
  }

  /** Exactly `width` digits of `n` in the given base, most significant first,
      zero-padded on the left. */
  function FixedDigits(n: nat, base: nat, width: nat): (s: string)
    requires 2 <= base <= 16
    ensures |s| == width
  {
    if width == 0 then [] else FixedDigits(n / base, base, width - 1) + [DigitChar(n % base)]
  }

  /** The shortest digit string of `n` in base ten, as `str(n)` or a template
      literal prints it. */
  function NatToString(n: nat): (s: string)
    ensures |s| >= 1
  {
    if n < 10 then [DigitChar(n)] else NatToString(n / 10) + [DigitChar(n % 10)]
  }

  lemma {:induction false} MulMono(a: nat, b: nat, c: nat)
    requires a <= b
    ensures a * c <= b * c
  {
    if c > 0 {
      MulMono(a, b, c - 1);
      assert a * c == a * (c - 1) + a;
      assert b * c == b * (c - 1) + b;
    }
  }

  lemma MulBound(high: nat, d: nat, base: nat, p: nat)
    requires high < p && d < base
    ensures high * base + d < p * base
  {
    MulMono(high + 1, p, base);
    assert (high + 1) * base == high * base + base;
  }

  lemma DivBound(n: nat, base: nat, p: nat)
    requires base > 0 && n < base * p
    ensures n / base < p
  {
    var q := n / base;
    assert q * base <= n;
    if p <= q {
      MulMono(p, q, base);
    }
  }

  /** The number a digit string denotes, or None if one of its characters is
      not a digit of that base. */
  function ParseDigits(s: string, base: nat): (r: Option<nat>)
  {
    if s == [] then Some(0)
    else
      match (ParseDigits(s[..|s| - 1], base), DigitValue(s[|s| - 1]))
      case (Some(high), Some(d)) => if d < base then Some(high * base + d) else None
      case _ => None
  }

  /** A parsed digit string of length k denotes a number below base^k. */
  lemma {:induction false} ParseDigitsBound(s: string, base: nat)
    ensures ParseDigits(s, base).Some? ==> ParseDigits(s, base).value < Pow(base, |s|)
  {
    if s != [] {
      ParseDigitsBound(s[..|s| - 1], base);
      match (ParseDigits(s[..|s| - 1], base), DigitValue(s[|s| - 1]))
      case (Some(high), Some(d)) =>
        if d < base {
          MulBound(high, d, base, Pow(base, |s| - 1));
        }
      case _ =>
    }
  }

  /** One step of ParseDigits: a parsed prefix followed by one more digit. */
  lemma ParseDigitsSnoc(s: string, base: nat, high: nat, d: nat)
    requires 2 <= base <= 16 && d < base
    requires ParseDigits(s, base) == Some(high)
    ensures ParseDigits(s + [DigitChar(d)], base) == Some(high * base + d)
  {
    var t := s + [DigitChar(d)];
    assert t[..|t| - 1] == s;
    DigitValueOfChar(d);
  }

  /** FixedDigits peels off the last digit: the quotient's digits, then the remainder's. */
  lemma FixedDigitsSplit(n: nat, base: nat, width: nat) returns (q: nat, d: nat)
    requires 2 <= base <= 16 && width > 0 && n < Pow(base, width)
    ensures d < base && q * base + d == n && q < Pow(base, width - 1)
    ensures FixedDigits(n, base, width) == FixedDigits(q, base, width - 1) + [DigitChar(d)]
  {
    q, d := n / base, n % base;
    DivMod(n, base);
    DivBound(n, base, Pow(base, width - 1));
  }

  lemma DivMod(n: nat, base: nat)
    requires base > 0
    ensures (n / base) * base + n % base == n
  {
  }

  lemma {:induction false} FixedDigitsRoundTrip(n: nat, base: nat, width: nat)
    requires 2 <= base <= 16
    requires n < Pow(base, width)
    ensures ParseDigits(FixedDigits(n, base, width), base) == Some(n)
    decreases width
  {
    if width > 0 {
      var q, d := FixedDigitsSplit(n, base, width);
      FixedDigitsRoundTrip(q, base, width - 1);
      ParseDigitsSnoc(FixedDigits(q, base, width - 1), base, q, d);
    }
  }

  lemma DivModUnique(h: nat, d: nat, base: nat)
    requires d < base
    ensures (h * base + d) / base == h && (h * base + d) % base == d
  {
    var n := h * base + d;
    var q := n / base;
    DivMod(n, base);
    if q > h {
      MulMono(h + 1, q, base);
    } else if q < h {
      MulMono(q + 1, h, base);
    }
    assert q == h;
  }

  /** A digit string of base at most ten is exactly the fixed-width print of
      the number it denotes: parsing loses nothing, not even leading zeros. */
  lemma {:induction false} ParseDigitsInverse(s: string, base: nat, n: nat)
    requires 2 <= base <= 10
    requires ParseDigits(s, base) == Some(n)
    ensures FixedDigits(n, base, |s|) == s
    decreases |s|
  {
    if s != [] {
      var pre, c := s[..|s| - 1], s[|s| - 1];
      var high := ParseDigits(pre, base).value;
      var d := DigitValue(c).value;
      ParseDigitsInverse(pre, base, high);
      DivModUnique(high, d, base);
      DigitCharOfValue(c, d);
      assert s == pre + [c];
    }
  }

  lemma {:induction false} NatToStringRoundTrip(n: nat)
    ensures ParseDigits(NatToString(n), 10) == Some(n)
  {
    if n >= 10 {
      NatToStringRoundTrip(n / 10);
      ParseDigitsSnoc(NatToString(n / 10), 10, n / 10, n % 10);
    } else {
      ParseDigitsSnoc([], 10, 0, n);
      assert [] + [DigitChar(n)] == NatToString(n);
    }
  }
}
