/** Calendar dates as Python's `datetime.date` holds them, and their ISO 8601
    text `YYYY-MM-DD` (what `date.isoformat()` prints, what the attendance
    collection stores and what the browser's date input produces). */
module IsoDate {
  import opened Common

  datatype Date = Date(year: nat, month: nat, day: nat)

  predicate IsLeapYear(year: nat)
  {
    year % 4 == 0 && (year % 100 != 0 || year % 400 == 0)
  }

  function DaysInMonth(year: nat, month: nat): nat
  {
    if month == 2 then (if IsLeapYear(year) then 29 else 28)
    else if month == 4 || month == 6 || month == 9 || month == 11 then 30
    else 31
  }

  /** The dates `datetime.date` can represent (MINYEAR 1 to MAXYEAR 9999). */
  predicate ValidDate(d: Date)
  {
    1 <= d.year <= 9999 && 1 <= d.month <= 12 && 1 <= d.day <= DaysInMonth(d.year, d.month)
  }

  /** `date.isoformat()`: four-digit year, two-digit month and day. */
  function IsoFormat(d: Date): (s: string)
    ensures |s| == 10 && s[4] == '-' && s[7] == '-'
  {
    FixedDigits(d.year, 10, 4) + "-" + FixedDigits(d.month, 10, 2) + "-" + FixedDigits(d.day, 10, 2)
  }

  /** Parsing of a `YYYY-MM-DD` text into a date; None for anything that is
      not exactly that shape or does not name a calendar day. */
  function ParseIso(s: string): (r: Option<Date>)
    ensures r.Some? ==> ValidDate(r.value)
  {
    if |s| == 10 && s[4] == '-' && s[7] == '-' then
      match (ParseDigits(s[..4], 10), ParseDigits(s[5..7], 10), ParseDigits(s[8..], 10))
      case (Some(y), Some(m), Some(d)) =>
        if ValidDate(Date(y, m, d)) then Some(Date(y, m, d)) else None
      case _ => None
    else None
  }

  /** Printing a valid date and reading it back gives the same date. */
  lemma IsoRoundTrip(d: Date)
    requires ValidDate(d)
    ensures ParseIso(IsoFormat(d)) == Some(d)
  {
    var s := IsoFormat(d);
    assert s[..4] == FixedDigits(d.year, 10, 4);
    assert s[5..7] == FixedDigits(d.month, 10, 2);
    assert s[8..] == FixedDigits(d.day, 10, 2);
    assert Pow(10, 2) == 100 && Pow(10, 4) == 10000 by {
      assert Pow(10, 1) == 10;
      assert Pow(10, 3) == 1000;
    }
    FixedDigitsRoundTrip(d.year, 10, 4);
    FixedDigitsRoundTrip(d.month, 10, 2);
    FixedDigitsRoundTrip(d.day, 10, 2);
  }

  /** Only the printed form of a date parses to it: the text is canonical. */
  lemma ParseIsoFormat(s: string)
    requires ParseIso(s).Some?
    ensures IsoFormat(ParseIso(s).value) == s
  {
    var d := ParseIso(s).value;
    ParseDigitsInverse(s[..4], 10, d.year);
    ParseDigitsInverse(s[5..7], 10, d.month);
    ParseDigitsInverse(s[8..], 10, d.day);
    assert s == s[..4] + "-" + s[5..7] + "-" + s[8..];
  }

  /** Two valid dates print alike only if they are the same date, so an
      equality test on the stored ISO text is an equality test on dates. */
  lemma IsoFormatInjective(a: Date, b: Date)
    requires ValidDate(a) && ValidDate(b)
    ensures IsoFormat(a) == IsoFormat(b) <==> a == b
  {
    if IsoFormat(a) == IsoFormat(b) {
      IsoRoundTrip(a);
      IsoRoundTrip(b);
    }
  }

  /** The position of a date on the calendar; sorting on the ISO text sorts
      on this (IsoOrderIsDateOrder). */
  function DateKey(d: Date): int
  {
    d.year * 10000 + d.month * 100 + d.day
  }

  /** Python's `<` on strings: the first differing character decides, and a
      proper prefix comes first. */
  predicate LexLess(a: string, b: string)
  {
    if a == [] then b != []
    else if b == [] then false
    else if a[0] != b[0] then a[0] < b[0]
    else LexLess(a[1..], b[1..])
  }

  /** Comparing texts that start with parts of equal length compares those
      parts first, and the rest only when they agree. */
  lemma {:induction false} LexAppend(a1: string, a2: string, b1: string, b2: string)
    requires |a1| == |b1|
    ensures LexLess(a1 + a2, b1 + b2) <==> LexLess(a1, b1) || (a1 == b1 && LexLess(a2, b2))
  {
    if a1 != [] {
      assert (a1 + a2)[0] == a1[0] && (b1 + b2)[0] == b1[0];
      assert (a1 + a2)[1..] == a1[1..] + a2 && (b1 + b2)[1..] == b1[1..] + b2;
      LexAppend(a1[1..], a2, b1[1..], b2);
      if a1[0] == b1[0] {
        assert a1 == b1 <==> a1[1..] == b1[1..] by {
          assert a1 == [a1[0]] + a1[1..] && b1 == [b1[0]] + b1[1..];
        }
      }
    } else {
      assert a1 + a2 == a2 && b1 + b2 == b2;
    }
  }

  /** Zero-padded decimal texts of one width sort as their numbers do. */
  lemma {:induction false} FixedDigitsLex(x: nat, y: nat, width: nat)
    requires x < Pow(10, width) && y < Pow(10, width)
    ensures LexLess(FixedDigits(x, 10, width), FixedDigits(y, 10, width)) <==> x < y
    decreases width
  {
    if width > 0 {
      var qx, dx := FixedDigitsSplit(x, 10, width);
      var qy, dy := FixedDigitsSplit(y, 10, width);
      FixedDigitsLex(qx, qy, width - 1);
      FixedDigitsEq(qx, qy, width - 1);
      LexAppend(FixedDigits(qx, 10, width - 1), [DigitChar(dx)], FixedDigits(qy, 10, width - 1), [DigitChar(dy)]);
      DigitCharLex(dx, dy);
      PlaceValueOrder(qx, dx, qy, dy);
    }
  }

  /** One-digit texts sort as their digits do. */
  lemma DigitCharLex(dx: nat, dy: nat)
    requires dx < 10 && dy < 10
    ensures LexLess([DigitChar(dx)], [DigitChar(dy)]) <==> dx < dy
  {
  }

  /** A number with a lower leading part is lower, whatever its last digit. */
  lemma PlaceValueOrder(qx: nat, dx: nat, qy: nat, dy: nat)
    requires dx < 10 && dy < 10
    ensures qx * 10 + dx < qy * 10 + dy <==> qx < qy || (qx == qy && dx < dy)
  {
    if qx < qy {
      MulBound(qx, dx, 10, qy);
    } else if qy < qx {
      MulBound(qy, dy, 10, qx);
    }
  }

  /** Texts made of three dash-separated parts, the first two of equal
      lengths, compare part by part. */
  lemma DashedLex(ya: string, ma: string, da: string, yb: string, mb: string, db: string)
    requires |ya| == |yb| && |ma| == |mb|
    ensures LexLess(ya + "-" + ma + "-" + da, yb + "-" + mb + "-" + db)
        <==> LexLess(ya, yb) || (ya == yb && (LexLess(ma, mb) || (ma == mb && LexLess(da, db))))
  {
    assert ya + "-" + ma + "-" + da == ya + ("-" + (ma + ("-" + da)));
    assert yb + "-" + mb + "-" + db == yb + ("-" + (mb + ("-" + db)));
    assert !LexLess("-", "-");
    LexAppend(ya, "-" + (ma + ("-" + da)), yb, "-" + (mb + ("-" + db)));
    LexAppend("-", ma + ("-" + da), "-", mb + ("-" + db));
    LexAppend(ma, "-" + da, mb, "-" + db);
    LexAppend("-", da, "-", db);
  }

  /** DateKey orders dates by year, then month, then day. */
  lemma DateKeyOrder(a: Date, b: Date)
    requires ValidDate(a) && ValidDate(b)
    ensures DateKey(a) < DateKey(b)
        <==> a.year < b.year || (a.year == b.year && (a.month < b.month || (a.month == b.month && a.day < b.day)))
  {
  }

  /** Zero-padded texts of one width are equal only for equal numbers. */
  lemma FixedDigitsEq(x: nat, y: nat, width: nat)
    requires x < Pow(10, width) && y < Pow(10, width)
    ensures FixedDigits(x, 10, width) == FixedDigits(y, 10, width) <==> x == y
  {
    FixedDigitsRoundTrip(x, 10, width);
    FixedDigitsRoundTrip(y, 10, width);
  }

  /** For valid dates the ISO texts sort exactly as DateKey does, so the
      store's sort on the date text is the sort on DateKey. */
  lemma IsoOrderIsDateOrder(a: Date, b: Date)
    requires ValidDate(a) && ValidDate(b)
    ensures LexLess(IsoFormat(a), IsoFormat(b)) <==> DateKey(a) < DateKey(b)
  {
    assert Pow(10, 2) == 100 && Pow(10, 4) == 10000 by {
      assert Pow(10, 1) == 10;
      assert Pow(10, 3) == 1000;
    }
    FixedDigitsLex(a.year, b.year, 4);
    FixedDigitsLex(a.month, b.month, 2);
    FixedDigitsLex(a.day, b.day, 2);
    FixedDigitsEq(a.year, b.year, 4);
    FixedDigitsEq(a.month, b.month, 2);
    DashedLex(FixedDigits(a.year, 10, 4), FixedDigits(a.month, 10, 2), FixedDigits(a.day, 10, 2),
              FixedDigits(b.year, 10, 4), FixedDigits(b.month, 10, 2), FixedDigits(b.day, 10, 2));
    DateKeyOrder(a, b);
  }
}
