/**
 * Python's `datetime.date` as far as the cache needs it: proleptic
 * Gregorian calendar dates, `date.fromisoformat` for the "YYYY-MM-DD" form
 * and `date.isoformat`, and the chronological order used to sort
 * transactions.
 */
module Dates {
  import opened Wrappers
  import opened Decimals

  datatype Date = Date(year: int, month: int, day: int)

  const MinYear := 1
  const MaxYear := 9999

  predicate IsLeap(year: int) {
    year % 4 == 0 && (year % 100 != 0 || year % 400 == 0)
  }

  function DaysInMonth(year: int, month: int): (n: int)
    requires 1 <= month <= 12
    ensures 28 <= n <= 31
    ensures n == 29 <==> month == 2 && IsLeap(year)
  {
    if month == 2 then (if IsLeap(year) then 29 else 28)
    else if month == 4 || month == 6 || month == 9 || month == 11 then 30
    else 31
  }

  /** The dates `datetime.date` can represent. */
  predicate Valid(d: Date) {
    MinYear <= d.year <= MaxYear && 1 <= d.month <= 12 && 1 <= d.day <= DaysInMonth(d.year, d.month)
  }

  /** `n` written with exactly `w` digits, keeping its last `w` digits. */
  function FixedDigits(n: nat, w: nat): (s: string)
    ensures |s| == w && AllDigits(s)
  {
    if w == 0 then [] else FixedDigits(n / 10, w - 1) + [DigitChar(n % 10)]
  }

  /** `date.isoformat()`: "YYYY-MM-DD", zero-padded. */
  function IsoFormat(d: Date): (s: string)
    requires Valid(d)
    ensures |s| == 10 && s[4] == '-' && s[7] == '-'
  {
    FixedDigits(d.year, 4) + "-" + FixedDigits(d.month, 2) + "-" + FixedDigits(d.day, 2)
  }

  /** The shape "DDDD-DD-DD" with ASCII digits. */
  predicate IsoShaped(s: string) {
    |s| == 10 && s[4] == '-' && s[7] == '-' && AllDigits(s[..4]) && AllDigits(s[5..7]) && AllDigits(s[8..])
  }

  /** `date.fromisoformat(s)` for the "YYYY-MM-DD" form: `None` where Python
      raises `ValueError`, for a malformed string or a date that does not
      exist. */
  function FromIsoFormat(s: string): (r: Option<Date>)
    ensures r.Some? ==> Valid(r.value) && IsoShaped(s)
  {
    if !IsoShaped(s) then None
    else
      var d := Date(DigitsValue(s[..4]), DigitsValue(s[5..7]), DigitsValue(s[8..]));
      if Valid(d) then Some(d) else None
  }

  /** Chronological order: `a` falls strictly before `b`. */
  predicate Before(a: Date, b: Date) {
    a.year < b.year || (a.year == b.year && (a.month < b.month || (a.month == b.month && a.day < b.day)))
  }

  lemma BeforeIsStrictTotalOrder(a: Date, b: Date, c: Date)
    ensures !Before(a, a)
    ensures Before(a, b) && Before(b, c) ==> Before(a, c)
    ensures a == b || Before(a, b) || Before(b, a)
    ensures !(Before(a, b) && Before(b, a))
  {
  }

  lemma {:induction false} FixedDigitsValue(n: nat, w: nat)
    requires n < Pow10(w)
    ensures DigitsValue(FixedDigits(n, w)) == n
  {
    if w > 0 {
      var s := FixedDigits(n, w);
      FixedDigitsValue(n / 10, w - 1);
      assert s[..|s| - 1] == FixedDigits(n / 10, w - 1);
    }
  }

  lemma {:induction false} FixedDigitsOfValue(s: string)
    requires AllDigits(s)
    ensures FixedDigits(DigitsValue(s), |s|) == s
  {
    if s != [] {
      var init := s[..|s| - 1];
      assert AllDigits(init);
      FixedDigitsOfValue(init);
      var n := DigitsValue(s);
      assert n / 10 == DigitsValue(init) && n % 10 == DigitValue(s[|s| - 1]);
      assert s == init + [s[|s| - 1]];
    }
  }

  lemma IsoFormatParts(d: Date)
    requires Valid(d)
    ensures IsoShaped(IsoFormat(d))
    ensures IsoFormat(d)[..4] == FixedDigits(d.year, 4)
    ensures IsoFormat(d)[5..7] == FixedDigits(d.month, 2)
    ensures IsoFormat(d)[8..] == FixedDigits(d.day, 2)
  {
    var y, m, dd := FixedDigits(d.year, 4), FixedDigits(d.month, 2), FixedDigits(d.day, 2);
    var s := IsoFormat(d);
    assert s == y + ("-" + (m + ("-" + dd)));
    assert s[..4] == y;
    assert s[5..7] == m;
    assert s[8..] == dd;
  }

  /** Every date `date.isoformat` writes, `date.fromisoformat` reads back. */
  lemma ParseIsoFormat(d: Date)
    requires Valid(d)
    ensures FromIsoFormat(IsoFormat(d)) == Some(d)
  {
    IsoFormatParts(d);
    FixedDigitsValue(d.year, 4);
    FixedDigitsValue(d.month, 2);
    FixedDigitsValue(d.day, 2);
  }

  /** A string `date.fromisoformat` accepts is the canonical writing of the
      date it yields. */
  lemma IsoFormatOfParse(s: string)
    requires FromIsoFormat(s).Some?
    ensures IsoFormat(FromIsoFormat(s).value) == s
  {
    var d := FromIsoFormat(s).value;
    FixedDigitsOfValue(s[..4]);
    FixedDigitsOfValue(s[5..7]);
    FixedDigitsOfValue(s[8..]);
    IsoFormatParts(d);
    Pieces(IsoFormat(d));
    Pieces(s);
  }

  /** A ten-character string is its "YYYY-MM-DD" fields and separators. */
  lemma Pieces(s: string)
    requires |s| == 10
    ensures s == s[..4] + [s[4]] + s[5..7] + [s[7]] + s[8..]
  {
  }

  /** February 29 exists only in leap years. */
  lemma LeapDay(year: int)
    requires MinYear <= year <= MaxYear
    ensures Valid(Date(year, 2, 29)) <==> IsLeap(year)
  {
  }
}
