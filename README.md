# Missed-call calculator: quiz input rules and report helpers

This project models the rule-bearing parts of a lead-generation quiz that
estimates the revenue a business loses to missed phone calls. Two source files
carry those rules.

- **The quiz page** (`app/quiz/page.tsx`) collects the answers draft step by
  step. Its rules modelled here:
  - the email-format check (`validateEmail`, a fixed regular expression);
  - the gate that decides whether the current step is answered, which enables
    navigation;
  - the three-step validation cascade run on submit;
  - the rules by which dropdowns and sliders write the draft, including the
    industry defaults a dropdown choice copies into the job value and close
    rate.
- **The report generator** (`lib/pdfGenerator.ts`). Its rules modelled here:
  - the download filename, built from a slug of the business name;
  - the "Gap" column of the perception-versus-reality table;
  - the optional business line, the industry fallback and the optional
    cost-per-answered-call section.

  The results dashboard (`components/ResultsDisplay.tsx:18-20, 111-127`)
  computes the same gap column with the same expressions, so
  the `Report` gap functions describe it too.

Files:

- `types.dfy` (module `QuizTypes`) holds the shared records:
  - the answers draft (`Answers`), whose quiz fields hold JavaScript values
    (`Value`: `null`, `undefined`, a string or a number);
  - the questions (`Question`: answer key and optional flag);
  - the industry defaults (`IndustryDefault`);
  - the fields of the calculation results that the report reads (`Results`).
- `quiz.dfy` (module `Quiz`) holds the quiz page's rules. The page's mutable
  state is a class, `QuizPage`. Its handlers are methods proved against pure
  functions (`DropdownUpdate`, `SliderUpdate`, `SubmitCheck`), and the
  properties are proved about those functions.
- `report.dfy` (module `Report`) holds the report's string and number
  transforms as functions with lemmas.

The question list and the industry defaults table live in a constants file that
is not part of this model. They are parameters: a `seq<Question>` and a
`map<string, IndustryDefault>`. The `formatNumber` helper is also not part of
this model and is passed in as a function. The date part of the filename is a
parameter too (the source takes it from the clock).

## Model

| member | source | states |
|---|---|---|
| QuizTypes.Answers.With | app/quiz/page.tsx:22-23 | after `updateAnswer(k, v)` the key `k` reads `v` and every other key reads what it read before |
| Quiz.ValidateEmail | app/quiz/page.tsx:29-33 | an accepted address has at least five characters, so the empty string is refused |
| Quiz.ValidateEmailMatchesPattern | app/quiz/page.tsx:31-32 | `validateEmail` accepts exactly the strings `^[^\s@]+@[^\s@]+\.[^\s@]+$` matches (both directions) |
| Quiz.AcceptedEmailMatchesPattern | app/quiz/page.tsx:31-32 | every accepted address splits into local part, `@`, domain part, `.`, suffix, each part non-empty and free of whitespace and `@` |
| Quiz.PatternMatchIsAccepted | app/quiz/page.tsx:31-32 | every string of that shape is accepted |
| Quiz.AcceptedEmailShape | app/quiz/page.tsx:31 | every accepted address contains exactly one `@` and no whitespace character |
| Quiz.IsStepAnswered | app/quiz/page.tsx:82-97 | at the contact step, answered exactly when the name is non-empty and the email is accepted; at any other step, answered exactly when every key the gate reads there holds a value other than `null`, `undefined` and `''` (none is read past the end of the list or on an optional question) |
| Quiz.ContactStepAnswered | app/quiz/page.tsx:83-86 | the contact step is answered exactly when the name is non-empty and the email is accepted, whatever the question list; an answered contact step has an email with exactly one `@` |
| Quiz.StepAnsweredFrame | app/quiz/page.tsx:82-97 | writing a key that the step's gate does not read leaves the step's answered state unchanged |
| Quiz.SubmitCheck | app/quiz/page.tsx:105-122 | submit proceeds exactly when the name is non-empty and the email is accepted; `Name is required` exactly when the name is empty; `Email is required` exactly when the name is given and the email is empty; the invalid-format error exactly when both are given and the email is refused |
| Quiz.ContactGateAgreesWithSubmit | app/quiz/page.tsx:83-122 | the contact step's navigation gate holds exactly when the submit cascade reports no error |
| Quiz.EnabledSubmitPasses | app/quiz/page.tsx:286-287 | a submit started from the enabled "See My Results" button never reports a validation error |
| Quiz.DropdownUpdate | app/quiz/page.tsx:36-50 | keys other than `industry` and `phoneCoverage` leave the draft unchanged; `phoneCoverage` changes only that key; `industry` sets the industry, and sets job value and close rate from the defaults entry only for a non-empty value that has an entry, changing nothing else |
| Quiz.SliderUpdate | app/quiz/page.tsx:61-66 | only `callsPerWeek`, `answerPercentage`, `jobValue`, `closeRate` and `monthlySpending` can be written, and only the named key changes |
| Quiz.SliderAnswersItsStep | app/quiz/page.tsx:61-96 | moving the slider of a step answers that step |
| Quiz.DropdownAnswersItsStep | app/quiz/page.tsx:36-96 | after a dropdown choice its step is answered exactly when the chosen option is non-empty or the step is optional |
| Quiz.QuizPage.constructor | app/quiz/page.tsx:22-26 | the page starts with the given draft, no errors and no submit in flight |
| Quiz.QuizPage.UpdateAnswer | app/quiz/page.tsx:169-171 | one field of the draft is replaced; errors and the submit flag are untouched |
| Quiz.QuizPage.HandleDropdownChange | app/quiz/page.tsx:36-58 | the new draft is `DropdownUpdate` of the old one; the move to the next question is scheduled exactly for the two dropdown keys |
| Quiz.QuizPage.HandleSliderChange | app/quiz/page.tsx:61-66 | the new draft is `SliderUpdate` of the old one |
| Quiz.QuizPage.HandleSubmit | app/quiz/page.tsx:100-126 | exactly the first failing check's message is set, on the name or the email field, and the other error is cleared; `isSubmitting` stays set and the results are calculated exactly when every check passes |
| Report.ReplaceNonAlnum | lib/pdfGenerator.ts:235 | same length; each ASCII letter or digit is kept and every other character becomes `-` |
| Report.AsciiLower | lib/pdfGenerator.ts:235 | same length; each character is lower-cased position by position |
| Report.Slug | lib/pdfGenerator.ts:235 | same length as the name; position by position a letter or digit becomes its lower-case form and anything else `-`; every character is in `[a-z0-9-]` |
| Report.SlugIdempotent | lib/pdfGenerator.ts:235 | slugging a slug returns it unchanged |
| Report.SlugFixedPoints | lib/pdfGenerator.ts:235 | the names the slug leaves unchanged are exactly the strings over `[a-z0-9-]` |
| Report.ReportSlug | lib/pdfGenerator.ts:235 | an absent or empty business name gives `business`; otherwise the slug, of the name's length; never empty |
| Report.ReportFilename | lib/pdfGenerator.ts:235-237 | the filename is, in order, `missed-call-report-`, the slug, `-` followed by the date string, and `.pdf` |
| Report.FilenameCharacters | lib/pdfGenerator.ts:235-237 | with an ISO date part, every filename character is a lower-case letter, a digit, `-` or `.` |
| Report.Round | lib/pdfGenerator.ts:64 | `Math.round` gives the integer within one half below and strictly less than one half above |
| Report.DecimalString | lib/pdfGenerator.ts:64 | the text of a whole number is non-empty, all digits and has no leading zero |
| Report.DecimalRoundTrip | lib/pdfGenerator.ts:64 | reading back the decimal text of a number gives the number |
| Report.IntegerString | lib/pdfGenerator.ts:76 | the text of a non-negative integer is its digits without a leading zero and reads back as it; a negative one is `-` followed by its magnitude's digits, again without a leading zero |
| Report.AnswerRateGap | lib/pdfGenerator.ts:51 | the answer-rate gap is perceived minus realistic, positive exactly when the realistic rate is the lower |
| Report.WeeklyGap | lib/pdfGenerator.ts:52 | the weekly gap is actual minus perceived missed calls, non-negative exactly when actual is at least perceived |
| Report.MonthlyGap | lib/pdfGenerator.ts:53 | the monthly gap is actual minus perceived missed calls, non-negative exactly when actual is at least perceived |
| Report.AnswerRateGapLabel | lib/pdfGenerator.ts:51-64 | the answer-rate cell starts with `-` exactly when perceived exceeds realistic and `+` otherwise, then the digits of the rounded gap's size without a leading zero, then `%` |
| Report.SmallAnswerRateGapPrintsMinusZero | lib/pdfGenerator.ts:64 | a gap strictly between 0 and 0.5 prints as `-0%` |
| Report.WeeklyGapLabel | lib/pdfGenerator.ts:52-70 | the weekly cell is always `+` followed by the formatted `actual − perceived` weekly gap |
| Report.MonthlyGapLabel | lib/pdfGenerator.ts:53-76 | the monthly cell always starts with `+`; it then reads back as the rounded `actual − perceived` gap, or as `-` and its magnitude when that is negative, in both cases without a leading zero |
| Report.MetadataLines | lib/pdfGenerator.ts:34-41 | the business line appears exactly when a business name is given; the industry line shows the industry, or `Not specified` when it is falsy; the date line comes last |
| Report.ReportSections | lib/pdfGenerator.ts:197-210 | the cost-per-answered-call section appears exactly when the results carry a cost; every other section always appears; the report opens with perception-versus-reality and closes with the footer |

## Left out

- The ROI calculation (`calculateROI`) and the `formatNumber` and `formatCurrency` helpers: their module is not part of this model. Results are an opaque input record, and `formatNumber` is a function parameter.
- The `useQuizState` hook is not part of this model. Its navigation (`nextQuestion`, `prevQuestion`, the current step index, progress) is left out. Its `updateAnswer` is taken to apply updates in call order.
- Quiz.QuizPage.HandleDropdownChange: the scheduled move is returned as a flag. The 300 ms and 100 ms timers and the height notification to the embedding page are browser I/O.
- Quiz.QuizPage.HandleSubmit: storing results in `sessionStorage`, the background save to the datastore, the redirect and the `catch` branch for a throwing calculation are I/O or depend on the calculation, so the model ends at "calculated".
- The datastore client, the iframe height messaging, the results and landing pages, the layout and the dropdown widget: rendering and I/O only.
- The PDF drawing itself: fonts, colours, `yPosition` layout, page breaks and the table library. Only which lines and sections appear, and the text of the gap cells, are modelled.
- Report.MetadataLines: the text of each line is not built; the line records the value it shows.
- Report.WeeklyGapLabel: `formatNumber` is uninterpreted, so only the leading `+` and the argument are stated.
- Numbers are mathematical reals. Double rounding, `NaN`, infinities and the exponent notation `toString` uses from 1e21 upward are not modelled. `Math.round` is exact on reals (halves round up).
- The answer-rate cell `${results.perceivedAnswerRate}%` and the monthly cells use `toString` on arbitrary doubles; only the integer case (the rounded gap) is modelled.
- Strings are sequences of Unicode scalar values, not UTF-16 code units. A character outside the Basic Multilingual Plane is two code units in the source, so the slug turns it into `--`; the model gives one `-`. The email pattern accepts and refuses the same strings either way.
- Lookups of JavaScript prototype names in the defaults table (an industry value such as `toString`) are not modelled; the table is a plain map.
