/**
 * The survey record held in the form state and the validator that maps a
 * record to its error messages (`validateForm`).
 */
module Survey {
  import opened JsNumbers
  import BloodPressurePattern

  datatype Field =
    | Gender | Age | Occupation | SleepDuration | QualityOfSleep | ActivityLevel
    | StressLevel | BmiCategory | BloodPressure | HeartRate | DailySteps

  /** A slider's state value: the number it starts with, or the string a change event delivers. */
  datatype JsValue = Str(s: string) | Num(n: int)

  /**
   * The form state. The text inputs, radio buttons and selects always hold
   * strings; the four sliders start as numbers and hold strings once moved.
   */
  datatype Record = Record(
    gender: string,
    age: string,
    occupation: string,
    sleepDuration: string,
    qualityOfSleep: JsValue,
    activityLevel: JsValue,
    stressLevel: JsValue,
    bmiCategory: string,
    bloodPressure: string,
    heartRate: JsValue,
    dailySteps: string)

  /** The state the page starts in. */
  const InitialRecord: Record := Record("", "", "", "", Num(5), Num(5), Num(5), "", "", Num(60), "")

  /** The fields `validateForm` checks; no other key ever appears in its result. */
  const RequiredFields: set<Field> := {Gender, Age, Occupation, SleepDuration, BloodPressure, DailySteps}

  /** The value stored under a field, as the form state object holds it. */
  function Get(r: Record, f: Field): JsValue {
    match f
    case Gender => Str(r.gender)
    case Age => Str(r.age)
    case Occupation => Str(r.occupation)
    case SleepDuration => Str(r.sleepDuration)
    case QualityOfSleep => r.qualityOfSleep
    case ActivityLevel => r.activityLevel
    case StressLevel => r.stressLevel
    case BmiCategory => Str(r.bmiCategory)
    case BloodPressure => Str(r.bloodPressure)
    case HeartRate => r.heartRate
    case DailySteps => Str(r.dailySteps)
  }

  /** `{ ...r, [f]: v }`: the record with one field replaced by the string a change event carries. */
  function Update(r: Record, f: Field, v: string): (u: Record)
    ensures Get(u, f) == Str(v)
    ensures forall g :: g != f ==> Get(u, g) == Get(r, g)
  {
    match f
    case Gender => r.(gender := v)
    case Age => r.(age := v)
    case Occupation => r.(occupation := v)
    case SleepDuration => r.(sleepDuration := v)
    case QualityOfSleep => r.(qualityOfSleep := Str(v))
    case ActivityLevel => r.(activityLevel := Str(v))
    case StressLevel => r.(stressLevel := Str(v))
    case BmiCategory => r.(bmiCategory := v)
    case BloodPressure => r.(bloodPressure := v)
    case HeartRate => r.(heartRate := Str(v))
    case DailySteps => r.(dailySteps := v)
  }

  /** Two records that agree on every field are the same record. */
  lemma RecordsAgree(r: Record, q: Record)
    requires forall f :: Get(r, f) == Get(q, f)
    ensures r == q
  {
    assert Get(r, Gender) == Get(q, Gender) && Get(r, Age) == Get(q, Age);
    assert Get(r, Occupation) == Get(q, Occupation) && Get(r, SleepDuration) == Get(q, SleepDuration);
    assert Get(r, QualityOfSleep) == Get(q, QualityOfSleep) && Get(r, ActivityLevel) == Get(q, ActivityLevel);
    assert Get(r, StressLevel) == Get(q, StressLevel) && Get(r, BmiCategory) == Get(q, BmiCategory);
    assert Get(r, BloodPressure) == Get(q, BloodPressure) && Get(r, HeartRate) == Get(q, HeartRate);
    assert Get(r, DailySteps) == Get(q, DailySteps);
  }

  /** Writing a field with the value it already holds as a string changes nothing. */
  lemma UpdateSameValue(r: Record, f: Field, v: string)
    requires Get(r, f) == Str(v)
    ensures Update(r, f, v) == r
  {
    RecordsAgree(Update(r, f, v), r);
  }

  /** JavaScript truthiness of a string: only the empty string is falsy (so `"0"` is truthy). */
  predicate Truthy(s: string) {
    s != ""
  }

  function Message(f: Field): string {
    match f
    case Gender => "Please select gender."
    case Age => "Please enter a valid age above 0."
    case Occupation => "Please select occupation."
    case SleepDuration => "Please enter a sleep duration greater than 0."
    case BloodPressure => "Enter valid blood pressure in systolic/diastolic format (e.g., 120/80)."
    case DailySteps => "Enter valid number of steps."
    case _ => ""
  }

  /** The rule of each checked field, on its own value: `!v || Number(v) < bound` and friends. */
  predicate AgeFails(v: string) { !Truthy(v) || Less(StringToNumber(v), Finite(1.0)) }
  predicate SleepDurationFails(v: string) { !Truthy(v) || LessEq(StringToNumber(v), Finite(0.0)) }
  predicate BloodPressureFails(v: string) { !Truthy(v) || !BloodPressurePattern.Test(v) }
  predicate DailyStepsFails(v: string) { !Truthy(v) || Less(StringToNumber(v), Finite(0.0)) }

  /**
   * The check `validateForm` runs on a field's value: the four rules above
   * and plain truthiness for gender and occupation; the other five fields
   * have no check.
   */
  predicate FieldFails(f: Field, v: JsValue) {
    match f
    case Gender => v.Str? && !Truthy(v.s)
    case Age => v.Str? && AgeFails(v.s)
    case Occupation => v.Str? && !Truthy(v.s)
    case SleepDuration => v.Str? && SleepDurationFails(v.s)
    case BloodPressure => v.Str? && BloodPressureFails(v.s)
    case DailySteps => v.Str? && DailyStepsFails(v.s)
    case _ => false
  }

  /**
   * `validateForm`: a fresh error object holding, for each of the six
   * checked fields whose check fails, that field's message. The order in
   * which the source inserts the keys is not kept: only the key set and
   * the messages are ever read.
   */
  function Validate(data: Record): map<Field, string> {
    map f | f in RequiredFields && FieldFails(f, Get(data, f)) :: Message(f)
  }

  /** Each checked field's entry, one field at a time: present exactly when that field's rule fails. */
  lemma GenderReported(data: Record)
    ensures Gender in Validate(data) <==> !Truthy(data.gender)
  {
  }

  lemma AgeReported(data: Record)
    ensures Age in Validate(data) <==> AgeFails(data.age)
  {
  }

  lemma OccupationReported(data: Record)
    ensures Occupation in Validate(data) <==> !Truthy(data.occupation)
  {
  }

  lemma SleepDurationReported(data: Record)
    ensures SleepDuration in Validate(data) <==> SleepDurationFails(data.sleepDuration)
  {
  }

  lemma BloodPressureReported(data: Record)
    ensures BloodPressure in Validate(data) <==> BloodPressureFails(data.bloodPressure)
  {
  }

  lemma DailyStepsReported(data: Record)
    ensures DailySteps in Validate(data) <==> DailyStepsFails(data.dailySteps)
  {
  }

  /** The sliders, the BMI category and the heart rate never get an entry. */
  lemma UncheckedNeverReported(data: Record, f: Field)
    requires f !in RequiredFields
    ensures f !in Validate(data)
  {
  }

  /** Every entry holds its own field's message. */
  lemma MessagesAreFieldOwn(data: Record, f: Field)
    ensures f in Validate(data) ==> Validate(data)[f] == Message(f)
  {
  }

  /**
   * A field carries an error exactly when its own rule fails on its own
   * value, the message is that field's own, and no other key appears.
   */
  lemma ValidateReportsFailures(data: Record, f: Field)
    ensures f in Validate(data) <==> FieldFails(f, Get(data, f))
    ensures f in Validate(data) ==> f in RequiredFields && Validate(data)[f] == Message(f)
  {
    MessagesAreFieldOwn(data, f);
    match f
    case Gender => GenderReported(data);
    case Age => AgeReported(data);
    case Occupation => OccupationReported(data);
    case SleepDuration => SleepDurationReported(data);
    case BloodPressure => BloodPressureReported(data);
    case DailySteps => DailyStepsReported(data);
    case _ => UncheckedNeverReported(data, f);
  }

  /** `Object.keys(validateForm(data)).length === 0`. */
  predicate IsFormValid(data: Record) {
    Validate(data) == map[]
  }

  /** Each rule looks only at its own field: changing one field leaves every other field's verdict alone. */
  lemma RulesIndependent(data: Record, f: Field, v: string, g: Field)
    requires g != f
    ensures g in Validate(Update(data, f, v)) <==> g in Validate(data)
  {
    ValidateReportsFailures(Update(data, f, v), g);
    ValidateReportsFailures(data, g);
  }

  /** The six rules of `validateForm`, each on its own field, all passing. */
  predicate AllRulesPass(data: Record) {
    && data.gender != "" && !AgeFails(data.age) && data.occupation != ""
    && !SleepDurationFails(data.sleepDuration) && !BloodPressureFails(data.bloodPressure)
    && !DailyStepsFails(data.dailySteps)
  }

  lemma NoRuleFailsValid(data: Record)
    requires AllRulesPass(data)
    ensures IsFormValid(data)
  {
    GenderReported(data);
    AgeReported(data);
    OccupationReported(data);
    SleepDurationReported(data);
    BloodPressureReported(data);
    DailyStepsReported(data);
    forall f ensures f !in Validate(data) {
      if f !in RequiredFields {
        UncheckedNeverReported(data, f);
      }
    }
    assert Validate(data) == map[];
  }

  lemma SomeRuleFailsInvalid(data: Record)
    requires !AllRulesPass(data)
    ensures !IsFormValid(data)
  {
    if data.gender == "" {
      GenderReported(data);
    } else if AgeFails(data.age) {
      AgeReported(data);
    } else if data.occupation == "" {
      OccupationReported(data);
    } else if SleepDurationFails(data.sleepDuration) {
      SleepDurationReported(data);
    } else if BloodPressureFails(data.bloodPressure) {
      BloodPressureReported(data);
    } else {
      DailyStepsReported(data);
    }
  }

  /** A record is valid exactly when each of the six rules passes on its own field. */
  lemma ValidIffAllRulesPass(data: Record)
    ensures IsFormValid(data) <==> AllRulesPass(data)
  {
    if AllRulesPass(data) {
      NoRuleFailsValid(data);
    } else {
      SomeRuleFailsInvalid(data);
    }
  }

  /** The page starts with the six checked fields all in error. */
  lemma InitialRecordInvalid()
    ensures Validate(InitialRecord).Keys == RequiredFields
  {
    var data := InitialRecord;
    forall f | f in Validate(data) ensures f in RequiredFields {
      ValidateReportsFailures(data, f);
    }
  }

  // ---------------------------------------------------------------------
  // The numeric rules on numerals, and the cases `Number` lets through
  // ---------------------------------------------------------------------

  /** An integer age typed as a numeral is rejected exactly when it is 0 ... */
  lemma AgeRuleOnNumerals(n: nat)
    ensures AgeFails(Decimal(n)) <==> n == 0
  {
    DecimalToNumber(n);
    AgeOfNumber(Decimal(n), n as real);
  }

  /** A non-empty age converting to a finite number fails exactly when that number is below 1. */
  lemma AgeOfNumber(v: string, x: real)
    requires v != "" && StringToNumber(v) == Finite(x)
    ensures AgeFails(v) <==> x < 1.0
  {
  }

  /** ... and a negative one always is. */
  lemma AgeRuleOnNegatives(n: nat)
    ensures AgeFails("-" + Decimal(n))
  {
    NegativeDecimalToNumber(n);
  }

  /** A whole sleep duration is rejected exactly when it is zero ... */
  lemma SleepRuleOnNumerals(n: nat)
    ensures SleepDurationFails(Decimal(n)) <==> n == 0
  {
    DecimalToNumber(n);
  }

  /** ... so is one with a tenths digit, `n.d` ... */
  lemma SleepRuleOnTenths(n: nat, d: nat)
    requires d < 10
    ensures SleepDurationFails(Decimal(n) + "." + Decimal(d)) <==> n == 0 && d == 0
  {
    TenthsToNumber(n, d);
  }

  /** ... and a negative one always is, `"-0"` included. */
  lemma SleepRuleOnNegatives(n: nat)
    ensures SleepDurationFails("-" + Decimal(n))
  {
    NegativeDecimalToNumber(n);
  }

  /** Every non-negative step count passes, `"0"` included ... */
  lemma DailyStepsRuleOnNumerals(n: nat)
    ensures !DailyStepsFails(Decimal(n))
  {
    DecimalToNumber(n);
  }

  /** ... and a negative one fails unless it is `"-0"`, as -0 < 0 is false. */
  lemma DailyStepsRuleOnNegatives(n: nat)
    ensures DailyStepsFails("-" + Decimal(n)) <==> n > 0
  {
    NegativeDecimalToNumber(n);
  }

  /**
   * A non-empty value that is not a number converts to NaN, every
   * comparison with NaN is false, so all three numeric rules accept it.
   */
  lemma NonNumericAccepted(v: string)
    requires v != "" && StringToNumber(v).NaN?
    ensures !AgeFails(v) && !SleepDurationFails(v) && !DailyStepsFails(v)
  {
  }

  lemma NotANumberExample()
    ensures StringToNumber("abc") == NaN
    ensures !AgeFails("abc") && !SleepDurationFails("abc") && !DailyStepsFails("abc")
  {
    assert Trim("abc") == "abc" by { TrimUnpadded("abc"); }
    assert IndexOfExponent("abc") == 3;
    assert IndexOf("abc", '.') == 3;
    assert !IsDigit('a', 10);
    assert !AllDigits("abc", 10);
  }

  /** A blank-looking value is truthy but converts to 0: age `" "` fails, steps `" "` pass. */
  lemma BlankValue()
    ensures StringToNumber(" ") == Finite(0.0)
    ensures AgeFails(" ") && SleepDurationFails(" ") && !DailyStepsFails(" ")
  {
    assert TrimStart(" ") == "";
  }

  /** The initial record with Male/25/Engineer/7/"120/80"/5000 typed into the six checked fields. */
  const ExampleRecord: Record :=
    InitialRecord.(gender := "Male", age := "25", occupation := "Engineer", sleepDuration := "7",
                   bloodPressure := "120/80", dailySteps := "5000")

  lemma ExampleAgePasses()
    ensures !AgeFails("25")
  {
    assert Decimal(25) == "25";
    AgeRuleOnNumerals(25);
  }

  lemma ExampleSleepDurationPasses()
    ensures !SleepDurationFails("7")
  {
    assert Decimal(7) == "7";
    SleepRuleOnNumerals(7);
  }

  lemma ExampleDailyStepsPass()
    ensures !DailyStepsFails("5000")
  {
    assert Decimal(5000) == "5000";
    DailyStepsRuleOnNumerals(5000);
  }

  /** The example record is valid. */
  lemma ValidExample()
    ensures IsFormValid(ExampleRecord)
  {
    ExampleAgePasses();
    ExampleSleepDurationPasses();
    ExampleDailyStepsPass();
    BloodPressurePattern.AcceptsTypical();
    NoRuleFailsValid(ExampleRecord);
  }

  /** An age of `"0"` is reported, whatever the other fields hold ... */
  lemma ZeroAgeReported(data: Record)
    ensures Age in Validate(data.(age := "0"))
  {
    assert Decimal(0) == "0";
    AgeRuleOnNumerals(0);
    AgeReported(data.(age := "0"));
  }

  /** ... and so is a blood pressure without a slash. */
  lemma SlashlessBloodPressureReported(data: Record)
    ensures BloodPressure in Validate(data.(bloodPressure := "12080"))
  {
    BloodPressurePattern.RejectsNoSlash();
    BloodPressureReported(data.(bloodPressure := "12080"));
  }
}
