/** The rules of the report generator that are independent of drawing: the
    download filename built from the business name, the "Gap" column of the
    perception-versus-reality table, and which optional lines and sections
    are emitted. The results dashboard computes the same gap column. */
module Report {
  import opened QuizTypes

  // ---------------------------------------------------------------------------
  // Filename: businessName.replace(/[^a-z0-9]/gi, '-').toLowerCase()

  /** The class `[a-z0-9]` under the `i` flag: ASCII letters of either case
      and ASCII digits. */
  predicate IsAsciiAlnum(c: char) {
    ('A' <= c <= 'Z') || ('a' <= c <= 'z') || ('0' <= c <= '9')
  }

  /** The characters a slug may consist of. */
  predicate IsSlugChar(c: char) {
    ('a' <= c <= 'z') || ('0' <= c <= '9') || c == '-'
  }

  predicate IsSlug(s: string) {
    forall i :: 0 <= i < |s| ==> IsSlugChar(s[i])
  }

  function LowerChar(c: char): (d: char)
    ensures 'A' <= c <= 'Z' ==> 'a' <= d <= 'z' && d as int - c as int == 32
    ensures !('A' <= c <= 'Z') ==> d == c
  {
    if 'A' <= c <= 'Z' then (c as int + 32) as char else c
  }

  /** `replace(/[^a-z0-9]/gi, '-')`: each character outside the class
      becomes a hyphen, in place. */
  function ReplaceNonAlnum(s: string): (r: string)
    ensures |r| == |s|
    ensures forall i :: 0 <= i < |s| ==> r[i] == if IsAsciiAlnum(s[i]) then s[i] else '-'
  {
    if s == [] then []
    else [if IsAsciiAlnum(s[0]) then s[0] else '-'] + ReplaceNonAlnum(s[1..])
  }

  /** `toLowerCase` on ASCII: upper-case letters become lower-case, every
      other character is kept. */
  function AsciiLower(s: string): (r: string)
    ensures |r| == |s|
    ensures forall i :: 0 <= i < |s| ==> r[i] == LowerChar(s[i])
  {
    if s == [] then [] else [LowerChar(s[0])] + AsciiLower(s[1..])
  }

  /** The slug of a business name: position by position, a letter or digit
      becomes its lower-case form and anything else a hyphen. */
  function Slug(name: string): (r: string)
    ensures |r| == |name|
    ensures forall i :: 0 <= i < |name| ==>
      r[i] == if IsAsciiAlnum(name[i]) then LowerChar(name[i]) else '-'
    ensures IsSlug(r)
  {
    AsciiLower(ReplaceNonAlnum(name))
  }

  /** Slugging a slug changes nothing. */
  lemma {:induction false} SlugIdempotent(name: string)
    ensures Slug(Slug(name)) == Slug(name)
  {
    SlugFixedPoints(Slug(name));
  }

  /** The names the slug leaves unchanged are exactly the slugs. */
  lemma {:induction false} SlugFixedPoints(s: string)
    ensures Slug(s) == s <==> IsSlug(s)
  {
    if IsSlug(s) {
      forall i | 0 <= i < |s|
        ensures Slug(s)[i] == s[i]
      {
        assert IsSlugChar(s[i]);
      }
    }
  }

  const DEFAULT_SLUG: string := "business"
  const FILENAME_PREFIX: string := "missed-call-report-"
  const FILENAME_SUFFIX: string := ".pdf"

  /** The slug used in the filename; an absent business name is "". */
  function ReportSlug(businessName: string): (r: string)
    ensures |r| > 0 && IsSlug(r)
    ensures businessName == "" ==> r == DEFAULT_SLUG
    ensures businessName != "" ==> |r| == |businessName|
  {
    if businessName == "" then DEFAULT_SLUG else Slug(businessName)
  }

  /** `missed-call-report-${slug}-${dateString}.pdf`, with `dateString`
      standing for the date part of the current ISO timestamp. */
  function ReportFilename(businessName: string, dateString: string): (r: string)
    ensures |r| == |FILENAME_PREFIX| + |ReportSlug(businessName)| + 1 + |dateString| + |FILENAME_SUFFIX|
    ensures r[..|FILENAME_PREFIX|] == FILENAME_PREFIX
    ensures r[|FILENAME_PREFIX|..|FILENAME_PREFIX| + |ReportSlug(businessName)|] == ReportSlug(businessName)
    ensures r[|FILENAME_PREFIX| + |ReportSlug(businessName)|..|r| - |FILENAME_SUFFIX|] == "-" + dateString
    ensures r[|r| - |FILENAME_SUFFIX|..] == FILENAME_SUFFIX
  {
    var slug := ReportSlug(businessName);
    var middle := "-" + dateString;
    FourPartSlices(FILENAME_PREFIX, slug, middle, FILENAME_SUFFIX);
    FILENAME_PREFIX + slug + middle + FILENAME_SUFFIX
  }

  /** Each of four concatenated parts can be cut back out of the whole. */
  lemma FourPartSlices(a: string, b: string, c: string, d: string)
    ensures (a + b + c + d)[..|a|] == a
    ensures (a + b + c + d)[|a|..|a| + |b|] == b
    ensures (a + b + c + d)[|a| + |b|..|a| + |b| + |c|] == c
    ensures (a + b + c + d)[|a| + |b| + |c|..] == d
  {
  }

  predicate IsDateChar(c: char) {
    ('0' <= c <= '9') || c == '-'
  }

  /** Lower-case letters, digits, hyphens and dots only. */
  predicate IsSafeFilename(s: string) {
    forall i :: 0 <= i < |s| ==> IsSlugChar(s[i]) || s[i] == '.'
  }

  lemma SafeFilenameConcat(a: string, b: string)
    requires IsSafeFilename(a) && IsSafeFilename(b)
    ensures IsSafeFilename(a + b)
  {
    forall i | 0 <= i < |a + b|
      ensures IsSlugChar((a + b)[i]) || (a + b)[i] == '.'
    {
      if i < |a| {
        assert (a + b)[i] == a[i];
      } else {
        assert (a + b)[i] == b[i - |a|];
      }
    }
  }

  /** With an ISO date part (digits and hyphens), the filename uses only
      lower-case letters, digits, hyphens and dots: whatever the business
      name holds, no path separator or space reaches the file system. */
  lemma FilenameCharacters(businessName: string, dateString: string)
    requires forall i :: 0 <= i < |dateString| ==> IsDateChar(dateString[i])
    ensures IsSafeFilename(ReportFilename(businessName, dateString))
  {
    var slug := ReportSlug(businessName);
    assert IsSafeFilename(FILENAME_PREFIX);
    assert IsSafeFilename(FILENAME_SUFFIX);
    assert IsSafeFilename("-");
    SafeFilenameConcat("-", dateString);
    SafeFilenameConcat("-" + dateString, FILENAME_SUFFIX);
    SafeFilenameConcat(slug, "-" + dateString + FILENAME_SUFFIX);
    SafeFilenameConcat(FILENAME_PREFIX, slug + ("-" + dateString + FILENAME_SUFFIX));
  }

  // ---------------------------------------------------------------------------
  // Numbers as the gap column prints them

  /** `Math.round`: the nearest integer, halves rounded up. */
  function Round(x: real): (n: int)
    ensures n as real - 0.5 <= x < n as real + 0.5
  {
    (x + 0.5).Floor
  }

  function Abs(n: int): (m: nat)
    ensures m == n || m == -n
  {
    if n < 0 then -n else n
  }

  function Digit(d: nat): (c: char)
    requires d < 10
    ensures '0' <= c <= '9' && c as int - '0' as int == d
  {
    ('0' as int + d) as char
  }

  predicate AllDigits(s: string) {
    forall i :: 0 <= i < |s| ==> '0' <= s[i] <= '9'
  }

  /** The decimal text of a whole number, as `toString` writes it: at least
      one digit and no leading zero. */
  function DecimalString(n: nat): (s: string)
    ensures |s| >= 1 && AllDigits(s)
    ensures |s| > 1 ==> s[0] != '0'
  {
    if n < 10 then [Digit(n)] else DecimalString(n / 10) + [Digit(n % 10)]
  }

  /** The number a string of decimal digits denotes. */
  function ParseDecimal(s: string): nat
    requires AllDigits(s)
  {
    if s == [] then 0
    else 10 * ParseDecimal(s[..|s| - 1]) + (s[|s| - 1] as int - '0' as int)
  }

  /** Reading back the decimal text of a number gives the number. */
  lemma {:induction false} DecimalRoundTrip(n: nat)
    ensures ParseDecimal(DecimalString(n)) == n
  {
    if n >= 10 {
      var s := DecimalString(n);
      assert s[..|s| - 1] == DecimalString(n / 10);
      DecimalRoundTrip(n / 10);
    }
  }

  /** `toString` of an integer-valued number. */
  function IntegerString(i: int): (s: string)
    ensures i >= 0 ==> |s| >= 1 && AllDigits(s) && ParseDecimal(s) == i
    ensures i >= 0 ==> (|s| > 1 ==> s[0] != '0')
    ensures i < 0 ==> |s| >= 2 && s[0] == '-' && AllDigits(s[1..]) && ParseDecimal(s[1..]) == -i
    ensures i < 0 ==> s[1] != '0'
  {
    if i < 0 then
      DecimalRoundTrip(-i);
      assert ("-" + DecimalString(-i))[1..] == DecimalString(-i);
      "-" + DecimalString(-i)
    else
      DecimalRoundTrip(i);
      DecimalString(i)
  }

  // ---------------------------------------------------------------------------
  // The "Gap" column

  /** The three gaps, each derived from the results and nothing else. */
  function AnswerRateGap(res: Results): (gap: real)
    ensures res.realisticAnswerRate + gap == res.perceivedAnswerRate
    ensures gap > 0.0 <==> res.realisticAnswerRate < res.perceivedAnswerRate
  {
    res.perceivedAnswerRate - res.realisticAnswerRate
  }

  function WeeklyGap(res: Results): (gap: real)
    ensures res.perceivedMissedCallsWeekly + gap == res.actualMissedCallsWeekly
    ensures gap >= 0.0 <==> res.perceivedMissedCallsWeekly <= res.actualMissedCallsWeekly
  {
    res.actualMissedCallsWeekly - res.perceivedMissedCallsWeekly
  }

  function MonthlyGap(res: Results): (gap: real)
    ensures res.perceivedMissedCallsMonthly + gap == res.actualMissedCallsMonthly
    ensures gap >= 0.0 <==> res.perceivedMissedCallsMonthly <= res.actualMissedCallsMonthly
  {
    res.actualMissedCallsMonthly - res.perceivedMissedCallsMonthly
  }

  /** The answer-rate gap cell: `-` when the realistic rate is below the
      perceived one and `+` otherwise, then the rounded size of the gap
      and a percent sign. */
  function AnswerRateGapLabel(res: Results): (cell: string)
    ensures |cell| >= 3
    ensures cell[0] == '-' <==> AnswerRateGap(res) > 0.0
    ensures cell[0] == '+' <==> AnswerRateGap(res) <= 0.0
    ensures cell[|cell| - 1] == '%'
    ensures AllDigits(cell[1..|cell| - 1])
    ensures ParseDecimal(cell[1..|cell| - 1]) == Abs(Round(AnswerRateGap(res)))
    ensures |cell| > 3 ==> cell[1] != '0'
  {
    var gap := AnswerRateGap(res);
    var digits := DecimalString(Abs(Round(gap)));
    DecimalRoundTrip(Abs(Round(gap)));
    var cell := (if gap > 0.0 then "-" else "+") + digits + "%";
    assert cell[1..|cell| - 1] == digits;
    cell
  }

  /** A gap strictly between zero and one half prints as "-0%". */
  lemma SmallAnswerRateGapPrintsMinusZero(res: Results)
    requires 0.0 < AnswerRateGap(res) < 0.5
    ensures AnswerRateGapLabel(res) == "-0%"
  {
    var cell := AnswerRateGapLabel(res);
    assert Round(AnswerRateGap(res)) == 0;
    assert |cell[1..|cell| - 1]| == 1 by {
      assert |DecimalString(0)| == 1;
    }
    assert cell[1] == '0';
  }

  /** The weekly gap cell: `+` followed by `formatNumber` of the gap, which
      is passed in as `formatNumber`. */
  function WeeklyGapLabel(res: Results, formatNumber: real -> string): (cell: string)
    ensures |cell| >= 1 && cell[0] == '+'
    ensures cell[1..] == formatNumber(WeeklyGap(res))
  {
    "+" + formatNumber(WeeklyGap(res))
  }

  /** The monthly gap cell: `+` followed by the rounded gap. The plus sign
      is unconditional, so a negative rounded gap prints as `+-n`. */
  function MonthlyGapLabel(res: Results): (cell: string)
    ensures |cell| >= 2 && cell[0] == '+'
    ensures Round(MonthlyGap(res)) >= 0 ==>
      AllDigits(cell[1..]) && ParseDecimal(cell[1..]) == Round(MonthlyGap(res)) &&
      (|cell| > 2 ==> cell[1] != '0')
    ensures Round(MonthlyGap(res)) < 0 ==>
      |cell| >= 3 && cell[1] == '-' && AllDigits(cell[2..]) &&
      ParseDecimal(cell[2..]) == -Round(MonthlyGap(res)) && cell[2] != '0'
  {
    var s := IntegerString(Round(MonthlyGap(res)));
    var cell := "+" + s;
    assert cell[1..] == s;
    assert s[0] == '-' ==> cell[2..] == s[1..];
    cell
  }

  // ---------------------------------------------------------------------------
  // Optional lines and sections

  const NOT_SPECIFIED: string := "Not specified"

  /** A metadata line under the title, by what it shows. */
  datatype MetaLine = BusinessLine(businessName: string) | IndustryLine(industry: Value) | DateLine(date: string)

  /** The metadata block: the business line only when a name was given,
      then the industry (or "Not specified") and the report date. */
  function MetadataLines(a: Answers, today: string): (lines: seq<MetaLine>)
    ensures |lines| == if a.businessName != "" then 3 else 2
    ensures lines[0].BusinessLine? <==> a.businessName != ""
    ensures a.businessName != "" ==> lines[0] == BusinessLine(a.businessName)
    ensures lines[|lines| - 2].IndustryLine? && Truthy(lines[|lines| - 2].industry)
    ensures Truthy(a.industry) ==> lines[|lines| - 2].industry == a.industry
    ensures !Truthy(a.industry) ==> lines[|lines| - 2].industry == Str(NOT_SPECIFIED)
    ensures lines[|lines| - 1] == DateLine(today)
  {
    var business := if a.businessName != "" then [BusinessLine(a.businessName)] else [];
    var industry := if Truthy(a.industry) then a.industry else Str(NOT_SPECIFIED);
    business + [IndustryLine(industry), DateLine(today)]
  }

  /** The sections of the report, in order. */
  datatype Section =
    | PerceptionVsReality | CostingYou | CalculationBreakdown
    | AiCoverage | AiChangesTheMath | CostPerAnsweredCall | Footer

  /** The cost-per-answered-call section appears exactly when the results
      carry a cost; every other section always appears. */
  function ReportSections(res: Results): (sections: seq<Section>)
    ensures CostPerAnsweredCall in sections <==> res.costPerAnsweredCall.Some?
    ensures |sections| == if res.costPerAnsweredCall.Some? then 7 else 6
    ensures sections[0] == PerceptionVsReality && sections[|sections| - 1] == Footer
    ensures CostingYou in sections && CalculationBreakdown in sections
    ensures AiCoverage in sections && AiChangesTheMath in sections
  {
    [PerceptionVsReality, CostingYou, CalculationBreakdown, AiCoverage, AiChangesTheMath]
    + (if res.costPerAnsweredCall.Some? then [CostPerAnsweredCall] else [])
    + [Footer]
  }
}
