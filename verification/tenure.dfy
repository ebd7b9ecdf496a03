/** Tenure ("kepengurusan") period labels. The forms derive the label from the
    start date: the start year, a dash, and the year of the date one calendar
    year later. Only the year arithmetic is modelled; how the browser parses
    the date string is represented by `StartDate`. */
module Tenure {
  import opened Records
  import opened Text

  datatype Date = Date(year: int, month: int, day: int)

  /** The start-date field as the label code sees it: empty (falsy), a string
      `new Date` cannot read (an invalid date), or a date. */
  datatype StartDate = Blank | Unparsable | On(date: Date)

  /** Adding one year moves the year on by one; a 29 February start rolls
      over to 1 March, which is still in the following year. */
  function EndYear(d: Date): int {
    d.year + 1
  }

  /** `${start.getFullYear()}-${end.getFullYear()}` for a readable start date. */
  function YearSpan(d: Date): string {
    IntToDecimal(d.year) + "-" + IntToDecimal(EndYear(d))
  }

  /** The label for an invalid date: both years print as `NaN`. */
  const NaNSpan := "NaN-NaN"

  /** Position of the first `c` in `s`. */
  function IndexOf(s: string, c: char): (r: Option<nat>)
    ensures r.Some? ==> r.value < |s| && s[r.value] == c
    ensures r.Some? ==> forall j :: 0 <= j < r.value ==> s[j] != c
    ensures r.None? ==> forall j :: 0 <= j < |s| ==> s[j] != c
    decreases |s|
  {
    if |s| == 0 then None
    else if s[0] == c then Some(0)
    else
      match IndexOf(s[1..], c)
      case None => None
      case Some(i) => Some(i + 1)
  }

  /** Reads a label of the form "<digits>-<digits>" back into its two years. */
  function ParseSpan(s: string): Option<(nat, nat)> {
    match IndexOf(s, '-')
    case None => None
    case Some(k) =>
      match (ParseDecimal(s[..k]), ParseDecimal(s[k + 1..]))
      case (Some(start), Some(end)) => Some((start, end))
      case _ => None
  }

  /** For a start year of 0 or later the label names the start year and the
      year after it, and nothing else. */
  lemma {:induction false} SpanNamesBothYears(d: Date)
    requires d.year >= 0
    ensures ParseSpan(YearSpan(d)) == Some((d.year, d.year + 1))
  {
    var first := NatToDecimal(d.year);
    var second := NatToDecimal(d.year + 1);
    var s := YearSpan(d);
    assert s == first + "-" + second;
    assert s[|first|] == '-';
    var k := IndexOf(s, '-');
    assert forall j :: 0 <= j < |first| ==> s[j] == first[j] && s[j] != '-';
    assert k.Some? && k.value == |first|;
    assert s[..|first|] == first;
    assert s[|first| + 1..] == second;
    DecimalRoundTrip(d.year);
    DecimalRoundTrip(d.year + 1);
  }

  /** A year span is never a lone dash and never empty. */
  lemma SpanIsNotPlaceholder(d: Date)
    ensures YearSpan(d) != "-" && YearSpan(d) != "" && YearSpan(d) != NaNSpan
  {
    assert |YearSpan(d)| >= 3;
    var e := IntToDecimal(EndYear(d));
    var n := NatToDecimal(if EndYear(d) < 0 then -EndYear(d) else EndYear(d));
    assert e[|e| - 1] == n[|n| - 1];
    assert YearSpan(d)[|YearSpan(d)| - 1] == e[|e| - 1];
    assert IsDigit(n[|n| - 1]);
  }

  /** The start date of a record or form: blank when the field is falsy,
      otherwise whatever `date` (the browser's `new Date`) makes of the text. */
  function StartOf(m: Member, date: string -> Option<Date>): (start: StartDate)
    ensures start.Blank? <==> !Filled(m, TanggalMulai)
    ensures Filled(m, TanggalMulai) ==>
      (start.On? <==> date(m[TanggalMulai].value).Some?) &&
      (start.On? ==> Some(start.date) == date(m[TanggalMulai].value))
  {
    if !Filled(m, TanggalMulai) then Blank
    else match date(Get(m, TanggalMulai).value)
      case None => Unparsable
      case Some(d) => On(d)
  }

  /** The "Periode Kepengurusan" text: the dash for a blank start date, and
      otherwise the year span, which names the start year and the next. */
  function PeriodLabel(start: StartDate): (text: string)
    ensures text == "-" <==> start.Blank?
    ensures text != ""
    ensures text == NaNSpan <==> start.Unparsable?
    ensures start.On? && start.date.year >= 0 ==>
      ParseSpan(text) == Some((start.date.year, start.date.year + 1))
  {
    match start
    case Blank => "-"
    case Unparsable => NaNSpan
    case On(d) =>
      SpanIsNotPlaceholder(d);
      if d.year >= 0 then SpanNamesBothYears(d); YearSpan(d) else YearSpan(d)
  }
}
