/** Which bins go out this week: the widget's `Provider.getBinMessage` and
    the app's `ContentView.updateBinMessage` both decide by the parity of
    the calendar week number, which is an input here. */
module BinWeek {

  const RecyclableLabel: string := "Recyclable Waste & Green Waste"
  const GeneralLabel: string := "General Waste & Green Waste"
  /** The app prefixes the widget's label with this. */
  const ThisWeekPrefix: string := "This Week: "

  /** `weekOfYear % 2 == 0` with Swift's truncating `%`: for negative `w`
      the remainder is -1 rather than 1, which is still non-zero. */
  predicate EvenWeek(w: int) {
    w % 2 == 0
  }

  /** `Provider.getBinMessage`: the widget's label for week `w`. */
  function BinLabel(w: int): (r: string)
    ensures r == RecyclableLabel || r == GeneralLabel
    ensures r == RecyclableLabel <==> EvenWeek(w)
    ensures r == GeneralLabel <==> !EvenWeek(w)
  {
    if EvenWeek(w) then RecyclableLabel else GeneralLabel
  }

  /** `ContentView.updateBinMessage`: the app's message for week `w`. */
  function AppBinMessage(w: int): (r: string)
    ensures r == ThisWeekPrefix + RecyclableLabel || r == ThisWeekPrefix + GeneralLabel
    ensures r == ThisWeekPrefix + RecyclableLabel <==> EvenWeek(w)
  {
    assert (ThisWeekPrefix + RecyclableLabel)[|ThisWeekPrefix|] == 'R';
    assert (ThisWeekPrefix + GeneralLabel)[|ThisWeekPrefix|] == 'G';
    if EvenWeek(w) then ThisWeekPrefix + RecyclableLabel else ThisWeekPrefix + GeneralLabel
  }

  /** The app and the widget agree: for the same week number the app's
      message is the widget's label behind the "This Week: " prefix. */
  lemma AppAgreesWithWidget(w: int)
    ensures AppBinMessage(w) == ThisWeekPrefix + BinLabel(w)
  {
  }

  /** Consecutive week numbers get different labels. This is about the
      numbers only; a year rollover such as week 53 to week 1 repeats a
      label. */
  lemma ConsecutiveWeeksAlternate(w: int)
    ensures BinLabel(w) != BinLabel(w + 1)
    ensures AppBinMessage(w) != AppBinMessage(w + 1)
  {
  }

  /** Two weeks apart, the label repeats. */
  lemma LabelRepeatsEveryTwoWeeks(w: int)
    ensures BinLabel(w) == BinLabel(w + 2)
  {
  }

  /** The week 53 to week 1 rollover gives the general label twice in a row. */
  lemma YearRolloverRepeats()
    ensures BinLabel(53) == BinLabel(1) == GeneralLabel
  {
  }
}
