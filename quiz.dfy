/** The input rules of the quiz page: the email format check, the "is this step
    answered" gate on navigation, the validation cascade run on submit, and the
    rules by which dropdowns and sliders change the answers draft. */
module Quiz {
  import opened QuizTypes

  /** 7 quiz questions followed by the contact form. */
  const TOTAL_QUESTIONS: nat := 8
  /** The index of the contact-form step. */
  const CONTACT_STEP: nat := 7

  const NAME_REQUIRED: string := "Name is required"
  const EMAIL_REQUIRED: string := "Email is required"
  const EMAIL_INVALID: string := "Please enter a valid email address"

  // ---------------------------------------------------------------------------
  // Email format: /^[^\s@]+@[^\s@]+\.[^\s@]+$/

  /** The JavaScript `\s` class: WhiteSpace and LineTerminator code points. */
  predicate IsSpace(c: char) {
    var n := c as int;
    n == 0x09 || n == 0x0A || n == 0x0B || n == 0x0C || n == 0x0D || n == 0x20 ||
    n == 0xA0 || n == 0x1680 || (0x2000 <= n <= 0x200A) || n == 0x2028 ||
    n == 0x2029 || n == 0x202F || n == 0x205F || n == 0x3000 || n == 0xFEFF
  }

  /** The class `[^\s@]`. */
  predicate IsEmailChar(c: char) {
    !IsSpace(c) && c != '@'
  }

  predicate AllEmailChars(s: string) {
    forall i :: 0 <= i < |s| ==> IsEmailChar(s[i])
  }

  /** The position of the first `c` in `s`, or `|s|` when there is none. */
  function IndexOf(s: string, c: char): (i: nat)
    ensures i <= |s|
    ensures i < |s| ==> s[i] == c
    ensures forall k :: 0 <= k < i ==> s[k] != c
  {
    if s == [] then 0
    else if s[0] == c then 0
    else 1 + IndexOf(s[1..], c)
  }

  /** A dot with at least one character on either side of it. */
  predicate HasInnerDot(d: string) {
    |d| >= 3 && '.' in d[1..|d| - 1]
  }

  /** `validateEmail`: the empty string is refused outright, anything else
      must match the pattern. The pattern is evaluated by locating the one
      `@` that the local part cannot contain. */
  function ValidateEmail(email: string): (ok: bool)
    ensures ok ==> |email| >= 5
  {
    email != "" && SplitsAt(email, IndexOf(email, '@'))
  }

  /** `s` reads as local part, `@` at `p`, and a domain with an inner dot. */
  predicate SplitsAt(s: string, p: nat) {
    0 < p < |s| &&
    AllEmailChars(s[..p]) &&
    AllEmailChars(s[p + 1..]) &&
    HasInnerDot(s[p + 1..])
  }

  /** The regular expression read literally: one or more class characters,
      `@`, one or more class characters, `.`, one or more class characters,
      and nothing else. */
  ghost predicate MatchesEmailPattern(s: string) {
    exists p, q ::
      0 < p && p + 1 < q && q + 1 < |s| &&
      s[p] == '@' && s[q] == '.' &&
      AllEmailChars(s[..p]) && AllEmailChars(s[p + 1..q]) && AllEmailChars(s[q + 1..])
  }

  /** Every slice of a run of class characters is one. */
  lemma AllEmailCharsSlice(s: string, i: int, j: int)
    requires AllEmailChars(s) && 0 <= i <= j <= |s|
    ensures AllEmailChars(s[i..j])
  {
    forall k | 0 <= k < j - i
      ensures IsEmailChar(s[i..j][k])
    {
      assert s[i..j][k] == s[i + k];
    }
  }

  /** Two runs of class characters around a dot make one run. */
  lemma AllEmailCharsJoin(s: string, q: int)
    requires 0 <= q < |s| && s[q] == '.'
    requires AllEmailChars(s[..q]) && AllEmailChars(s[q + 1..])
    ensures AllEmailChars(s)
  {
    forall k | 0 <= k < |s|
      ensures IsEmailChar(s[k])
    {
      if k < q {
        assert s[k] == s[..q][k];
      } else if k > q {
        assert s[k] == s[q + 1..][k - q - 1];
      }
    }
  }

  /** Each address `validateEmail` accepts matches the pattern. */
  lemma AcceptedEmailMatchesPattern(s: string)
    requires ValidateEmail(s)
    ensures MatchesEmailPattern(s)
  {
    var p := IndexOf(s, '@');
    var d := s[p + 1..];
    var i :| 0 <= i < |d| - 2 && d[1..|d| - 1][i] == '.';
    var q := p + 2 + i;
    assert s[q] == '.';
    AllEmailCharsSlice(d, 0, i + 1);
    assert s[p + 1..q] == d[..i + 1];
    AllEmailCharsSlice(d, i + 2, |d|);
    assert s[q + 1..] == d[i + 2..];
    assert 0 < p && p + 1 < q && q + 1 < |s| && s[p] == '@' &&
      AllEmailChars(s[..p]) && AllEmailChars(s[p + 1..q]) && AllEmailChars(s[q + 1..]);
  }

  /** The first occurrence is found at the position nothing before matches. */
  lemma IndexOfFirst(s: string, c: char, p: int)
    requires 0 <= p < |s| && s[p] == c
    requires forall k :: 0 <= k < p ==> s[k] != c
    ensures IndexOf(s, c) == p
  {
  }

  /** The pattern's split points give a valid split at the `@`. */
  lemma PatternSplit(s: string, p: int, q: int)
    requires 0 < p && p + 1 < q && q + 1 < |s| && s[q] == '.'
    requires AllEmailChars(s[..p]) && AllEmailChars(s[p + 1..q]) && AllEmailChars(s[q + 1..])
    ensures SplitsAt(s, p)
  {
    var d := s[p + 1..];
    var dq := q - p - 1;
    assert d[..dq] == s[p + 1..q];
    assert d[dq + 1..] == s[q + 1..];
    AllEmailCharsJoin(d, dq);
    assert d[1..|d| - 1][dq - 1] == '.';
  }

  /** Each address the pattern matches is accepted by `validateEmail`. */
  lemma PatternMatchIsAccepted(s: string)
    requires MatchesEmailPattern(s)
    ensures ValidateEmail(s)
  {
    var p, q :|
      0 < p && p + 1 < q && q + 1 < |s| &&
      s[p] == '@' && s[q] == '.' &&
      AllEmailChars(s[..p]) && AllEmailChars(s[p + 1..q]) && AllEmailChars(s[q + 1..]);
    forall k | 0 <= k < p
      ensures s[k] != '@'
    {
      assert s[k] == s[..p][k];
    }
    IndexOfFirst(s, '@', p);
    PatternSplit(s, p, q);
  }

  /** `validateEmail` accepts exactly the strings the pattern matches. */
  lemma ValidateEmailMatchesPattern(s: string)
    ensures ValidateEmail(s) <==> MatchesEmailPattern(s)
  {
    if ValidateEmail(s) {
      AcceptedEmailMatchesPattern(s);
    }
    if MatchesEmailPattern(s) {
      PatternMatchIsAccepted(s);
    }
  }

  /** Every accepted address holds exactly one `@` and no whitespace. */
  lemma AcceptedEmailShape(s: string)
    requires ValidateEmail(s)
    ensures multiset(s)['@'] == 1
    ensures forall i :: 0 <= i < |s| ==> !IsSpace(s[i])
  {
    var p := IndexOf(s, '@');
    assert s == s[..p] + [s[p]] + s[p + 1..];
    assert '@' !in s[..p];
    assert '@' !in s[p + 1..];
    assert multiset(s) == multiset(s[..p]) + multiset{s[p]} + multiset(s[p + 1..]);
    forall i | 0 <= i < |s|
      ensures !IsSpace(s[i])
    {
      if i < p {
        assert s[i] == s[..p][i];
      } else if i > p {
        assert s[i] == s[p + 1..][i - p - 1];
      }
    }
  }

  // ---------------------------------------------------------------------------
  // The "is this step answered" gate

  /** An answer counts as given unless it is `null`, `undefined` or `''`. */
  predicate Present(v: Value) {
    v != Null && v != Undefined && v != Str("")
  }

  /** `isCurrentQuestionAnswered` for the draft `a` at step `step`, with
      `questions` standing for `QUIZ_QUESTIONS`. */
  function IsStepAnswered(a: Answers, step: nat, questions: seq<Question>): (answered: bool)
    ensures step == CONTACT_STEP ==> (answered <==> a.name != "" && ValidateEmail(a.email))
    ensures step != CONTACT_STEP ==>
      (answered <==> forall k :: StepReads(step, questions, k) ==> Present(a.Lookup(k)))
  {
    if step == CONTACT_STEP then
      a.name != "" && a.email != "" && ValidateEmail(a.email)
    else if step >= |questions| then
      true
    else if questions[step].optional then
      true
    else
      Present(a.Lookup(questions[step].answerKey))
  }

  /** The keys whose values the gate consults at `step`. */
  predicate StepReads(step: nat, questions: seq<Question>, k: Key) {
    if step == CONTACT_STEP then k == Name || k == Email
    else step < |questions| && !questions[step].optional && questions[step].answerKey == k
  }

  /** The contact step is answered exactly when a name is given and the
      email is accepted, and the gate only ever looks at those two fields. */
  lemma ContactStepAnswered(a: Answers, questions: seq<Question>)
    ensures IsStepAnswered(a, CONTACT_STEP, questions) <==> a.name != "" && ValidateEmail(a.email)
    ensures IsStepAnswered(a, CONTACT_STEP, questions) ==> multiset(a.email)['@'] == 1
  {
    if IsStepAnswered(a, CONTACT_STEP, questions) {
      AcceptedEmailShape(a.email);
    }
  }

  /** Writing a key the step does not read leaves its answered state as it was. */
  lemma StepAnsweredFrame(a: Answers, k: Key, v: Value, step: nat, questions: seq<Question>)
    requires k.IsContact() ==> v.Str?
    requires !StepReads(step, questions, k)
    ensures IsStepAnswered(a.With(k, v), step, questions) == IsStepAnswered(a, step, questions)
  {
    var b := a.With(k, v);
    if step == CONTACT_STEP {
      assert b.Lookup(Name) == a.Lookup(Name);
      assert b.Lookup(Email) == a.Lookup(Email);
    }
  }

  // ---------------------------------------------------------------------------
  // The submit cascade

  datatype SubmitError = NameRequired | EmailRequired | EmailInvalid {
    function Message(): string {
      match this
      case NameRequired => NAME_REQUIRED
      case EmailRequired => EMAIL_REQUIRED
      case EmailInvalid => EMAIL_INVALID
    }
  }

  /** The first failing check of `handleSubmit`, or `None` when the results
      are to be calculated. */
  function SubmitCheck(name: string, email: string): (r: Option<SubmitError>)
    ensures r == None <==> name != "" && ValidateEmail(email)
    ensures r == Some(NameRequired) <==> name == ""
    ensures r == Some(EmailRequired) <==> name != "" && email == ""
    ensures r == Some(EmailInvalid) <==> name != "" && email != "" && !ValidateEmail(email)
  {
    if name == "" then Some(NameRequired)
    else if email == "" then Some(EmailRequired)
    else if !ValidateEmail(email) then Some(EmailInvalid)
    else None
  }

  /** The contact step's navigation gate and the submit cascade agree: the
      step is answered exactly when submitting raises no error. */
  lemma ContactGateAgreesWithSubmit(a: Answers, questions: seq<Question>)
    ensures IsStepAnswered(a, CONTACT_STEP, questions) <==> SubmitCheck(a.name, a.email) == None
  {
    ContactStepAnswered(a, questions);
  }

  /** The "See My Results" button is shown on the last step and is enabled
      when that step is answered and no submit is in flight. */
  predicate SubmitEnabled(a: Answers, step: nat, questions: seq<Question>, isSubmitting: bool) {
    step == TOTAL_QUESTIONS - 1 && IsStepAnswered(a, step, questions) && !isSubmitting
  }

  /** A submit reachable through the enabled button never reports an error. */
  lemma EnabledSubmitPasses(a: Answers, step: nat, questions: seq<Question>, isSubmitting: bool)
    requires SubmitEnabled(a, step, questions, isSubmitting)
    ensures SubmitCheck(a.name, a.email) == None
  {
    ContactGateAgreesWithSubmit(a, questions);
  }

  // ---------------------------------------------------------------------------
  // Dropdown and slider updates

  predicate IsDropdownKey(k: Key) {
    k == Industry || k == PhoneCoverage
  }

  predicate IsSliderKey(k: Key) {
    k == CallsPerWeek || k == AnswerPercentage || k == JobValue || k == CloseRate || k == MonthlySpending
  }

  /** The draft after `handleDropdownChange(k, value)`, with `defaults`
      standing for `INDUSTRY_DEFAULTS`. */
  function DropdownUpdate(a: Answers, k: Key, value: string, defaults: map<string, IndustryDefault>): (r: Answers)
    ensures !IsDropdownKey(k) ==> r == a
    ensures k == PhoneCoverage ==>
      forall j :: r.Lookup(j) == if j == PhoneCoverage then Str(value) else a.Lookup(j)
    ensures k == Industry ==> r.industry == Str(value)
    ensures k == Industry ==>
      forall j :: j != Industry && j != JobValue && j != CloseRate ==> r.Lookup(j) == a.Lookup(j)
    ensures k == Industry && value != "" && value in defaults ==>
      r.jobValue == Num(defaults[value].jobValue) && r.closeRate == Num(defaults[value].closeRate)
    ensures k == Industry && !(value != "" && value in defaults) ==>
      r.jobValue == a.jobValue && r.closeRate == a.closeRate
  {
    if k == Industry then
      var b := a.With(Industry, Str(value));
      if value != "" && value in defaults then
        b.With(JobValue, Num(defaults[value].jobValue)).With(CloseRate, Num(defaults[value].closeRate))
      else
        b
    else if k == PhoneCoverage then
      a.With(PhoneCoverage, Str(value))
    else
      a
  }

  /** The draft after `handleSliderChange(k, x)`: only the five numeric keys
      can be written, each independently of the others. */
  function SliderUpdate(a: Answers, k: Key, x: real): (r: Answers)
    ensures forall j :: r.Lookup(j) == if j == k && IsSliderKey(k) then Num(x) else a.Lookup(j)
  {
    if IsSliderKey(k) then a.With(k, Num(x)) else a
  }

  /** Moving a slider answers the step that asks for that key. */
  lemma SliderAnswersItsStep(a: Answers, k: Key, x: real, step: nat, questions: seq<Question>)
    requires step != CONTACT_STEP && step < |questions|
    requires questions[step].answerKey == k && IsSliderKey(k)
    ensures IsStepAnswered(SliderUpdate(a, k, x), step, questions)
  {
    assert SliderUpdate(a, k, x).Lookup(k) == Num(x);
  }

  /** After a dropdown choice, the step asking for that key is answered
      exactly when the chosen option is not empty or the step is optional. */
  lemma DropdownAnswersItsStep(
    a: Answers, k: Key, value: string, defaults: map<string, IndustryDefault>,
    step: nat, questions: seq<Question>)
    requires step != CONTACT_STEP && step < |questions|
    requires questions[step].answerKey == k && IsDropdownKey(k)
    ensures IsStepAnswered(DropdownUpdate(a, k, value, defaults), step, questions)
        <==> value != "" || questions[step].optional
  {
    assert DropdownUpdate(a, k, value, defaults).Lookup(k) == Str(value);
  }

  // ---------------------------------------------------------------------------
  // The page's mutable state

  /** The state the quiz page mutates: the answers draft (held by the
      `useQuizState` hook) and the submit-time error and progress flags. */
  class QuizPage {
    var answers: Answers
    var nameError: string
    var emailError: string
    var isSubmitting: bool

    constructor (initial: Answers)
      ensures answers == initial
      ensures nameError == "" && emailError == "" && !isSubmitting
    {
      answers := initial;
      nameError := "";
      emailError := "";
      isSubmitting := false;
    }

    /** `updateAnswer(k, v)`: one field of the draft changes. */
    method UpdateAnswer(k: Key, v: Value)
      requires k.IsContact() ==> v.Str?
      modifies this`answers
      ensures answers == old(answers).With(k, v)
    {
      answers := answers.With(k, v);
    }

    /** `handleDropdownChange`: returns whether the move to the next
        question is scheduled. */
    method HandleDropdownChange(k: Key, value: string, defaults: map<string, IndustryDefault>)
      returns (advances: bool)
      modifies this`answers
      ensures answers == DropdownUpdate(old(answers), k, value, defaults)
      ensures advances <==> IsDropdownKey(k)
    {
      if k == Industry {
        UpdateAnswer(k, Str(value));
      } else if k == PhoneCoverage {
        UpdateAnswer(k, Str(value));
      } else {
        return false;
      }

      if k == Industry && value != "" && value in defaults {
        var d := defaults[value];
        UpdateAnswer(JobValue, Num(d.jobValue));
        UpdateAnswer(CloseRate, Num(d.closeRate));
      }

      advances := true;
    }

    /** `handleSliderChange`: never schedules a move to the next question. */
    method HandleSliderChange(k: Key, x: real)
      modifies this`answers
      ensures answers == SliderUpdate(old(answers), k, x)
    {
      if IsSliderKey(k) {
        UpdateAnswer(k, Num(x));
      }
    }

    /** `handleSubmit`: clears both errors, then runs the cascade; the first
        failing check sets its message and clears `isSubmitting`, and the
        results are calculated only when every check passes. */
    method HandleSubmit() returns (calculated: bool)
      modifies this`nameError, this`emailError, this`isSubmitting
      ensures calculated <==> SubmitCheck(answers.name, answers.email) == None
      ensures isSubmitting == calculated
      ensures nameError == if SubmitCheck(answers.name, answers.email) == Some(NameRequired) then NAME_REQUIRED else ""
      ensures emailError ==
        match SubmitCheck(answers.name, answers.email)
        case Some(e) => if e == NameRequired then "" else e.Message()
        case None => ""
    {
      isSubmitting := true;
      nameError := "";
      emailError := "";

      if answers.name == "" {
        nameError := NAME_REQUIRED;
        isSubmitting := false;
        return false;
      }

      if answers.email == "" {
        emailError := EMAIL_REQUIRED;
        isSubmitting := false;
        return false;
      }

      if !ValidateEmail(answers.email) {
        emailError := EMAIL_INVALID;
        isSubmitting := false;
        return false;
      }

      calculated := true;
    }
  }
}
