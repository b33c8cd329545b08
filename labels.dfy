/**
 * Bucket labelling: the playlist a track belongs to, from the year and month
 * it was saved and the configured granularity ("year", "quarter" or "month").
 */
module Labels {
  import opened Wrappers
  import opened Tracks

  datatype Granularity = Year | Quarter | Month

  predicate IsDigit(c: char) { '0' <= c <= '9' }

  predicate AllDigits(s: string) {
    forall i :: 0 <= i < |s| ==> IsDigit(s[i])
  }

  function DigitChar(d: nat): (c: char)
    requires d < 10
    ensures IsDigit(c)
  {
    ('0' as int + d) as char
  }

  function DigitValue(c: char): nat
    requires IsDigit(c)
  {
    c as int - '0' as int
  }

  /** Python's `str(n)` for a non-negative integer: decimal, no leading zeros. */
  function Decimal(n: nat): (s: string)
    ensures |s| > 0 && AllDigits(s)
    ensures n >= 10 ==> s[0] != '0'
  {
    if n < 10 then [DigitChar(n)] else Decimal(n / 10) + [DigitChar(n % 10)]
  }

  /** Reads a string of decimal digits back as a number. */
  function ParseDecimal(s: string): nat
    requires |s| > 0 && AllDigits(s)
  {
    if |s| == 1 then DigitValue(s[0])
    else 10 * ParseDecimal(s[..|s| - 1]) + DigitValue(s[|s| - 1])
  }

  lemma {:induction false} DecimalRoundTrip(n: nat)
    ensures ParseDecimal(Decimal(n)) == n
  {
    if n >= 10 {
      var s := Decimal(n);
      assert s[..|s| - 1] == Decimal(n / 10);
      DecimalRoundTrip(n / 10);
    }
  }

  lemma DecimalInjective(a: nat, b: nat)
    requires Decimal(a) == Decimal(b)
    ensures a == b
  {
    DecimalRoundTrip(a);
    DecimalRoundTrip(b);
  }

  /** The lambda `get_q`: months grouped in fours, not calendar quarters. */
  function QuarterName(m: nat): string {
    if m < 5 then "Q1" else if m > 8 then "Q3" else "Q2"
  }

  /** `year_subgroup`: empty for "year", a leading blank otherwise. */
  function Subgroup(t: Timestamp, g: Granularity): string {
    match g
    case Year => ""
    case Quarter => " " + QuarterName(t.month)
    case Month => " " + Decimal(t.month)
  }

  /**
   * The playlist name of a track saved at `t`. For "month" this is the
   * evidently intended `year + " " + str(month)`; see LabelAsWritten.
   */
  function Label(t: Timestamp, g: Granularity): (l: string)
  {
    Decimal(t.year) + Subgroup(t, g)
  }

  /** Which bucket of its year a valid timestamp falls in: 0 for "year", 1..3 for "quarter", the month for "month". */
  function BucketOf(t: Timestamp, g: Granularity): nat
    requires t.Valid()
  {
    match g
    case Year => 0
    case Quarter => (t.month - 1) / 4 + 1
    case Month => t.month
  }

  /**
   * The shape of every label: the year in decimal, then nothing ("year"),
   * " Q1" for months 1-4, " Q2" for 5-8, " Q3" for 9-12 ("quarter"), or a
   * blank and the month in decimal ("month").
   */
  lemma LabelShape(t: Timestamp, g: Granularity)
    requires t.Valid()
    ensures g == Year ==> Label(t, g) == Decimal(t.year)
    ensures g == Quarter && t.month <= 4 ==> Label(t, g) == Decimal(t.year) + " Q1"
    ensures g == Quarter && 5 <= t.month <= 8 ==> Label(t, g) == Decimal(t.year) + " Q2"
    ensures g == Quarter && 9 <= t.month ==> Label(t, g) == Decimal(t.year) + " Q3"
    ensures g == Quarter ==> Label(t, g) == Decimal(t.year) + " Q" + [DigitChar(BucketOf(t, g))]
    ensures g == Month ==> Label(t, g) == Decimal(t.year) + " " + Decimal(t.month)
  {
  }

  /** A year's digits followed by a suffix that is empty or starts with a blank splits back uniquely. */
  lemma SplitAtBlank(a: string, sa: string, b: string, sb: string)
    requires AllDigits(a) && AllDigits(b)
    requires sa == [] || sa[0] == ' '
    requires sb == [] || sb[0] == ' '
    requires a + sa == b + sb
    ensures a == b && sa == sb
  {
    assert a == (a + sa)[..|a|];
    assert b == (b + sb)[..|b|];
    assert sa == (a + sa)[|a|..];
    assert sb == (b + sb)[|b|..];
  }

  /**
   * Labels are exclusive: two valid timestamps get the same label exactly
   * when they share the year and the bucket within that year.
   */
  lemma LabelInjective(s: Timestamp, t: Timestamp, g: Granularity)
    requires s.Valid() && t.Valid()
    ensures Label(s, g) == Label(t, g) <==> s.year == t.year && BucketOf(s, g) == BucketOf(t, g)
  {
    if Label(s, g) == Label(t, g) {
      SplitAtBlank(Decimal(s.year), Subgroup(s, g), Decimal(t.year), Subgroup(t, g));
      DecimalInjective(s.year, t.year);
      match g
      case Year =>
      case Quarter =>
        assert QuarterName(s.month)[1] == Subgroup(s, g)[2];
      case Month =>
        assert Decimal(s.month) == Subgroup(s, g)[1..];
        assert Decimal(t.month) == Subgroup(t, g)[1..];
        DecimalInjective(s.month, t.month);
    }
  }

  /** The error Python raises for `" " + added_at.month` (a str plus an int). */
  datatype LabelError = TypeError

  /**
   * `map_add_time_to_playlist` as written: the "month" branch concatenates a
   * string and an integer, which raises before any label is produced.
   */
  function LabelAsWritten(t: Timestamp, g: Granularity): (r: Result<string, LabelError>)
    ensures r.Ok? ==> g != Month && Decimal(t.year) <= r.value
  {
    match g
    case Month => Err(TypeError)
    case _ => Ok(Decimal(t.year) + Subgroup(t, g))
  }

  /** As written, "month" granularity never yields a label; the other two agree with Label. */
  lemma AsWrittenMonthFails(t: Timestamp, g: Granularity)
    ensures LabelAsWritten(t, g).Err? <==> g == Month
    ensures g != Month ==> LabelAsWritten(t, g) == Ok(Label(t, g))
  {
  }
}
