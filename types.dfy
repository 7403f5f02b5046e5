/** The records the quiz page and the report generator share: the answers draft
    (`QuizAnswers`), the questions and industry defaults the page is configured
    with, and the part of the calculation results the report reads. */
module QuizTypes {

  datatype Option<+T> = None | Some(value: T)

  /** A JavaScript value as it can sit in an answer slot: `null`, `undefined`,
      a string (dropdown choices) or a number (slider positions). */
  datatype Value = Null | Undefined | Str(s: string) | Num(x: real)

  /** JavaScript truthiness of an answer value (NaN is not modelled). */
  predicate Truthy(v: Value) {
    match v
    case Null => false
    case Undefined => false
    case Str(s) => s != ""
    case Num(x) => x != 0.0
  }

  /** The keys of `QuizAnswers`. */
  datatype Key =
    | Industry | CallsPerWeek | AnswerPercentage | PhoneCoverage
    | JobValue | CloseRate | MonthlySpending
    | Name | Email | BusinessName
  {
    /** The three fields the contact form edits; they always hold strings. */
    predicate IsContact() {
      this == Name || this == Email || this == BusinessName
    }
  }

  /** The answers draft. The seven quiz fields hold whatever the widgets put
      there; the contact fields are strings, an absent business name being "". */
  datatype Answers = Answers(
    industry: Value,
    callsPerWeek: Value,
    answerPercentage: Value,
    phoneCoverage: Value,
    jobValue: Value,
    closeRate: Value,
    monthlySpending: Value,
    name: string,
    email: string,
    businessName: string)
  {
    /** `answers[key]` */
    function Lookup(k: Key): Value {
      match k
      case Industry => industry
      case CallsPerWeek => callsPerWeek
      case AnswerPercentage => answerPercentage
      case PhoneCoverage => phoneCoverage
      case JobValue => jobValue
      case CloseRate => closeRate
      case MonthlySpending => monthlySpending
      case Name => Str(name)
      case Email => Str(email)
      case BusinessName => Str(businessName)
    }

    /** The draft with one field replaced, as `updateAnswer(k, v)` leaves it:
        the named key reads back `v` and every other key reads what it read. */
    function With(k: Key, v: Value): (r: Answers)
      requires k.IsContact() ==> v.Str?
      ensures forall j :: r.Lookup(j) == if j == k then v else Lookup(j)
    {
      match k
      case Industry => this.(industry := v)
      case CallsPerWeek => this.(callsPerWeek := v)
      case AnswerPercentage => this.(answerPercentage := v)
      case PhoneCoverage => this.(phoneCoverage := v)
      case JobValue => this.(jobValue := v)
      case CloseRate => this.(closeRate := v)
      case MonthlySpending => this.(monthlySpending := v)
      case Name => this.(name := v.s)
      case Email => this.(email := v.s)
      case BusinessName => this.(businessName := v.s)
    }
  }

  /** One entry of `QUIZ_QUESTIONS`, reduced to what the page's checks read. */
  datatype Question = Question(answerKey: Key, optional: bool)

  /** One entry of `INDUSTRY_DEFAULTS`. */
  datatype IndustryDefault = IndustryDefault(jobValue: real, closeRate: real)

  /** The fields of the calculation results that the report's rules read;
      `costPerAnsweredCall` is `null` when no spending was given. */
  datatype Results = Results(
    perceivedAnswerRate: real,
    realisticAnswerRate: real,
    perceivedMissedCallsWeekly: real,
    actualMissedCallsWeekly: real,
    perceivedMissedCallsMonthly: real,
    actualMissedCallsMonthly: real,
    costPerAnsweredCall: Option<real>)
}
