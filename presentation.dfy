/**
 * What the page derives from the stored result and the form record: the
 * label stored for a prediction, the single guidance block, whether the
 * comparison chart is drawn, the recommended-sleep band and the widths of
 * the two bars.
 */
module Presentation {
  import opened Wrappers
  import opened JsNumbers
  import opened Survey

  // ---------------------------------------------------------------------
  // The stored label
  // ---------------------------------------------------------------------

  /** `prediction === "None" ? "No disorder" : prediction`. */
  function DisplayLabel(prediction: string): string {
    if prediction == "None" then "No disorder" else prediction
  }

  /** The stored label is never `"None"`; every other label is kept verbatim. */
  lemma DisplayLabelRenames(prediction: string)
    ensures DisplayLabel(prediction) != "None"
    ensures prediction != "None" ==> DisplayLabel(prediction) == prediction
  {
  }

  /** Mapping a label that is already stored changes nothing. */
  lemma DisplayLabelIdempotent(prediction: string)
    ensures DisplayLabel(DisplayLabel(prediction)) == DisplayLabel(prediction)
  {
  }

  /**
   * Two predictions are stored alike exactly when they are equal or are
   * `"None"` and `"No disorder"`: the page cannot tell those two apart.
   */
  lemma DisplayLabelCollides(p: string, q: string)
    ensures DisplayLabel(p) == DisplayLabel(q)
        <==> p == q || (p == "None" && q == "No disorder") || (p == "No disorder" && q == "None")
  {
  }

  // ---------------------------------------------------------------------
  // The result block and its guidance
  // ---------------------------------------------------------------------

  /** `{result && ...}`: the stored result is shown when it is set and not the empty string. */
  predicate ResultShown(result: Option<string>) {
    result.Some? && result.value != ""
  }

  datatype Guidance = NoDisorderAdvice | InsomniaAdvice | SleepApneaAdvice

  /** The label each guidance block tests for with `===`. */
  function GuidanceLabel(g: Guidance): string {
    match g
    case NoDisorderAdvice => "No disorder"
    case InsomniaAdvice => "Insomnia"
    case SleepApneaAdvice => "Sleep Apnea"
  }

  /** The three blocks are written as three independent tests inside the result block. */
  predicate GuidanceShown(result: Option<string>, g: Guidance) {
    ResultShown(result) && result.value == GuidanceLabel(g)
  }

  /** The block a label selects, if any: an independent reading of the three tests as one choice. */
  function SelectedGuidance(result: Option<string>): Option<Guidance> {
    if !ResultShown(result) then None
    else if result.value == "No disorder" then Some(NoDisorderAdvice)
    else if result.value == "Insomnia" then Some(InsomniaAdvice)
    else if result.value == "Sleep Apnea" then Some(SleepApneaAdvice)
    else None
  }

  /** A block is drawn exactly when it is the one the label selects. */
  lemma GuidanceIsSelection(result: Option<string>, g: Guidance)
    ensures GuidanceShown(result, g) <==> SelectedGuidance(result) == Some(g)
  {
  }

  /** At most one guidance block is drawn at a time. */
  lemma AtMostOneGuidance(result: Option<string>, g: Guidance, h: Guidance)
    requires GuidanceShown(result, g) && GuidanceShown(result, h)
    ensures g == h
  {
    GuidanceIsSelection(result, g);
    GuidanceIsSelection(result, h);
  }

  /** A label other than the three draws the result with no guidance block. */
  lemma UnknownLabelHasNoGuidance(result: Option<string>)
    requires result.Some? && result.value !in {"No disorder", "Insomnia", "Sleep Apnea"}
    ensures forall g :: !GuidanceShown(result, g)
  {
  }

  /** A server answer of `"None"` draws the no-disorder block. */
  lemma NonePredictionAdvice()
    ensures GuidanceShown(Some(DisplayLabel("None")), NoDisorderAdvice)
  {
  }

  // ---------------------------------------------------------------------
  // The comparison chart
  // ---------------------------------------------------------------------

  /** `result && isFormValid && Number(formData.sleepDuration) > 0`. */
  predicate VisualizationShown(result: Option<string>, data: Record) {
    ResultShown(result) && IsFormValid(data) && Greater(StringToNumber(data.sleepDuration), Finite(0.0))
  }

  /**
   * On a valid record the chart's own sleep test only rules out a sleep
   * duration that is not a number: validation has already ruled out
   * everything that is not above zero.
   */
  lemma ChartTestOnValidRecord(data: Record)
    requires IsFormValid(data)
    ensures Greater(StringToNumber(data.sleepDuration), Finite(0.0)) <==> !StringToNumber(data.sleepDuration).NaN?
  {
    SleepDurationReported(data);
    assert !SleepDurationFails(data.sleepDuration);
    LessTrichotomy(StringToNumber(data.sleepDuration), Finite(0.0));
  }

  /** The age band the chart recommends for. */
  datatype AgeBand = Under18 | Adult | Senior

  /** `age < 18 ? ... : age <= 64 ? ... : ...` on the number the age string converts to. */
  function BandOf(age: JsNumber): AgeBand {
    if Less(age, Finite(18.0)) then Under18
    else if LessEq(age, Finite(64.0)) then Adult
    else Senior
  }

  /** The band of the age field; the comparison converts the string first. */
  function Band(age: string): AgeBand {
    BandOf(StringToNumber(age))
  }

  function BandLabel(b: AgeBand): string {
    match b
    case Under18 => "<18"
    case Adult => "18-64"
    case Senior => "65+"
  }

  function RecommendedHours(b: AgeBand): string {
    match b
    case Under18 => "8-10 hrs"
    case Adult => "7-9 hrs"
    case Senior => "7-8 hrs"
  }

  /** The width of the recommended bar, in percent. */
  function RecommendedWidth(b: AgeBand): nat {
    match b
    case Under18 => 90
    case Adult => 80
    case Senior => 75
  }

  /** A finite age falls in exactly the band its value says. */
  lemma BandOfFinite(x: real)
    ensures BandOf(Finite(x)) == Under18 <==> x < 18.0
    ensures BandOf(Finite(x)) == Adult <==> 18.0 <= x <= 64.0
    ensures BandOf(Finite(x)) == Senior <==> x > 64.0
  {
  }

  /** An age that is not a number fails both comparisons and is shown the oldest band. */
  lemma NaNAgeIsSenior()
    ensures BandOf(NaN) == Senior
  {
  }

  /** The bands are ordered: a larger age never gets a younger band. */
  lemma BandMonotone(x: real, y: real)
    requires x <= y
    ensures BandOf(Finite(x)) == Senior ==> BandOf(Finite(y)) == Senior
    ensures BandOf(Finite(y)) == Under18 ==> BandOf(Finite(x)) == Under18
  {
  }

  /** An age typed as a whole number: under 18, 18 to 64, or 65 and over. */
  lemma BandOfNumeral(n: nat)
    ensures Band(Decimal(n)) == (if n < 18 then Under18 else if n <= 64 then Adult else Senior)
  {
    DecimalToNumber(n);
    BandOfFinite(n as real);
  }

  /** The recommended bar is narrower for older bands and always fits the track. */
  lemma RecommendedWidthShape(b: AgeBand, c: AgeBand)
    ensures 0 < RecommendedWidth(b) <= 100
    ensures b == Under18 && c != Under18 ==> RecommendedWidth(c) < RecommendedWidth(b)
    ensures b == Adult && c == Senior ==> RecommendedWidth(c) < RecommendedWidth(b)
  {
  }

  /** `Math.min(sleepDuration * 10, 100)`, on the number the sleep duration converts to. */
  function UserBarOf(sleep: JsNumber): JsNumber {
    Min(Multiply(sleep, Finite(10.0)), Finite(100.0))
  }

  /** The width of the user's bar, from the sleep-duration field. */
  function UserBar(sleep: string): JsNumber {
    UserBarOf(StringToNumber(sleep))
  }

  /** The user's bar never exceeds the track; it is NaN only when the duration is. */
  lemma UserBarAtMostFull(sleep: JsNumber)
    ensures UserBarOf(sleep).NaN? <==> sleep.NaN?
    ensures !sleep.NaN? ==> LessEq(UserBarOf(sleep), Finite(100.0))
  {
  }

  /** Up to ten hours the bar is proportional, ten percent per hour; beyond, it is full. */
  lemma UserBarProportional(x: real)
    ensures 0.0 <= x <= 10.0 ==> UserBarOf(Finite(x)) == Finite(10.0 * x)
    ensures x > 10.0 ==> UserBarOf(Finite(x)) == Finite(100.0)
  {
  }

  /** Above zero, an infinite duration included, the bar is a finite width above 0 and at most 100. */
  lemma UserBarOfPositive(sleep: JsNumber)
    requires Greater(sleep, Finite(0.0))
    ensures UserBarOf(sleep).Finite? && 0.0 < UserBarOf(sleep).value <= 100.0
  {
    assert sleep.Finite? || sleep.PosInfinity?;
  }

  /** Whenever the chart is drawn, the user's bar is a finite width above 0 and at most 100. */
  lemma UserBarWhenShown(result: Option<string>, data: Record)
    requires VisualizationShown(result, data)
    ensures UserBar(data.sleepDuration).Finite? && 0.0 < UserBar(data.sleepDuration).value <= 100.0
  {
    UserBarOfPositive(StringToNumber(data.sleepDuration));
  }

  /**
   * A seven-hour night draws a 70 percent bar next to the adult band's 80,
   * and a 17-year-old is shown the `<18` band with 8-10 hours.
   */
  lemma ChartExample()
    ensures UserBar("7") == Finite(70.0)
    ensures Band("25") == Adult && RecommendedWidth(Band("25")) == 80
    ensures BandLabel(Band("17")) == "<18" && RecommendedHours(Band("17")) == "8-10 hrs"
  {
    assert Decimal(7) == "7" && Decimal(25) == "25" && Decimal(17) == "17";
    DecimalToNumber(7);
    BandOfNumeral(25);
    BandOfNumeral(17);
    UserBarProportional(7.0);
  }
}
