/** The settings screen (SettingsView): the stored preferences, the
    "Confirm Time" action (save, schedule the custom reminder, analyse the
    habit log) and the notification request it builds. */
module Settings {
  import opened Decimal
  import opened HabitLog
  import opened Habit
  import opened Notification

  /** One preference store: the keys SettingsView keeps under @AppStorage.
      Times are whole epoch seconds. */
  datatype Prefs = Prefs(
    selectedTimesString: string,
    selectedTimeInterval: int,
    selectedLanguage: string,
    widgetTheme: string,
    selectedSound: string,
    selectedDay: int)

  const DaysOfWeek: seq<string> := ["Sunday", "Monday", "Tuesday", "Wednesday", "Thursday", "Friday", "Saturday"]
  const Themes: seq<string> := ["Light", "Dark"]
  const Sounds: seq<string> := ["Default", "Chime", "Alert", "Silent"]

  /** The declared defaults; `now` is the `Date()` read when a key is absent.
      A fresh store has an empty habit log, reminds at `now` on Sunday, speaks
      English, and starts on the first theme and the first sound the screen
      offers. */
  function DefaultPrefs(now: int): (p: Prefs)
    ensures ParseLog(p.selectedTimesString) == []
    ensures p.selectedTimeInterval == now
    ensures ValidWeekday(p.selectedDay) && DaysOfWeek[p.selectedDay - 1] == "Sunday"
    ensures p.selectedLanguage == "en"
    ensures p.widgetTheme == Themes[0] && p.selectedSound == Sounds[0]
  {
    assert Fields("") == [""];
    Prefs("", now, "en", "Light", "Default", 1)
  }

  /** The day picker offers the tags `1..<8`. */
  function PickerDays(): (ds: seq<int>)
    ensures |ds| == |DaysOfWeek|
    ensures forall i :: 0 <= i < |ds| ==> ds[i] == i + 1 && ValidWeekday(ds[i])
  {
    [1, 2, 3, 4, 5, 6, 7]
  }

  /** The screen's own (@State) values. */
  datatype SettingsState = SettingsState(
    selectedTime: int,
    selectedDay: int,
    showingConfirmation: bool,
    showingSuggestion: bool)

  /** `onAppear`: the picker shows the stored time and day. */
  function OnAppear(p: Prefs, ui: SettingsState): (r: SettingsState)
    ensures r.selectedTime == p.selectedTimeInterval && r.selectedDay == p.selectedDay
    ensures r.showingConfirmation == ui.showingConfirmation && r.showingSuggestion == ui.showingSuggestion
  {
    ui.(selectedTime := p.selectedTimeInterval, selectedDay := p.selectedDay)
  }

  /** `saveSettings`: store the picked time and day and append the time to
      the habit log. The log afterwards denotes the old entries (those that
      parsed) followed by the new time; the other preferences are untouched. */
  function SaveSettings(p: Prefs, time: int, day: int): (r: Prefs)
    ensures r.selectedTimeInterval == time && r.selectedDay == day
    ensures ParseLog(r.selectedTimesString) == ParseLog(p.selectedTimesString) + [time]
    ensures r.selectedLanguage == p.selectedLanguage
    ensures r.widgetTheme == p.widgetTheme && r.selectedSound == p.selectedSound
  {
    p.(selectedTimeInterval := time,
       selectedDay := day,
       selectedTimesString := AppendToLog(p.selectedTimesString, time))
  }

  /** Saving and reopening the screen shows the saved time and day again. */
  lemma SaveThenReopen(p: Prefs, ui: SettingsState, time: int, day: int)
    ensures OnAppear(SaveSettings(p, time, day), ui).selectedTime == time
    ensures OnAppear(SaveSettings(p, time, day), ui).selectedDay == day
  {
  }

  /** Every save grows the log by exactly one entry; n saves into an empty
      log leave n entries. */
  lemma SaveGrowsLogByOne(p: Prefs, time: int, day: int)
    ensures |ParseLog(SaveSettings(p, time, day).selectedTimesString)| == |ParseLog(p.selectedTimesString)| + 1
  {
  }

  const CustomIdentifierPrefix: string := "CustomWeeklyBinReminder-"
  const CustomBody: string := "Remember to place the correct bins outside."

  /** The request identifier for a reminder on `day`; it depends on the day
      alone. */
  function CustomIdentifier(day: int): string {
    CustomIdentifierPrefix + IntText(day)
  }

  /** Two reminders share an identifier exactly when they are for the same
      day, so saving the same day again replaces the earlier request and a
      different day adds a second one. */
  lemma CustomIdentifierDeterminesDay(a: int, b: int)
    ensures CustomIdentifier(a) == CustomIdentifier(b) <==> a == b
  {
    if CustomIdentifier(a) == CustomIdentifier(b) {
      var n := |CustomIdentifierPrefix|;
      assert CustomIdentifier(a)[n..] == IntText(a);
      assert CustomIdentifier(b)[n..] == IntText(b);
      IntTextInjective(a, b);
    }
  }

  /** `scheduleCustomNotification`: a weekly trigger on the picked day at
      the picked time's hour and minute, with the chosen sound file. */
  function CustomRequest(cal: Calendar, time: int, day: int, sound: string): (r: Request)
    ensures r.identifier == CustomIdentifier(day)
    ensures r.trigger == WeeklyTrigger(cal, day, time)
    ensures r.content.sound == NamedSound(sound + ".caf")
  {
    Request(CustomIdentifier(day),
            Content(ReminderTitle, CustomBody, NamedSound(sound + ".caf")),
            WeeklyTrigger(cal, day, time))
  }

  /** Everything the "Confirm Time" button changes. */
  datatype ConfirmOutcome = ConfirmOutcome(prefs: Prefs, ui: SettingsState, pending: map<string, Request>)

  /** The "Confirm Time" button: `saveSettings()`, `scheduleCustomNotification()`,
      show the confirmation, then `analyzeUserHabit()` on the saved log.
      `order` is the iteration order of the habit dictionary. */
  function ConfirmTapped(p: Prefs, ui: SettingsState, cal: Calendar, pending: map<string, Request>,
                         order: seq<int>): (r: ConfirmOutcome)
    requires Enumerates(order, Histogram(ParseLog(p.selectedTimesString) + [ui.selectedTime]))
    ensures r.prefs == SaveSettings(p, ui.selectedTime, ui.selectedDay)
    ensures r.pending.Keys == pending.Keys + {CustomIdentifier(ui.selectedDay)}
    ensures r.pending[CustomIdentifier(ui.selectedDay)]
              == CustomRequest(cal, ui.selectedTime, ui.selectedDay, p.selectedSound)
    ensures forall id :: id in pending && id != CustomIdentifier(ui.selectedDay) ==> r.pending[id] == pending[id]
    ensures r.ui.showingConfirmation
    ensures r.ui.selectedTime == ui.selectedTime && r.ui.selectedDay == ui.selectedDay
    ensures ui.showingSuggestion ==> r.ui.showingSuggestion
  {
    var saved := SaveSettings(p, ui.selectedTime, ui.selectedDay);
    var request := CustomRequest(cal, ui.selectedTime, ui.selectedDay, saved.selectedSound);
    var log := ParseLog(saved.selectedTimesString);
    var suggest := AnalyzeUserHabit(log, order, saved.selectedTimeInterval, ui.showingSuggestion);
    ConfirmOutcome(saved, ui.(showingConfirmation := true, showingSuggestion := suggest), Add(pending, request))
  }

  /** After a save the log is never empty, so the habit analysis that
      follows always picks a real bucket and never its fallback: the picked
      time is the bucket of some logged time, and no bucket is fuller. */
  lemma ConfirmPicksALoggedBucket(p: Prefs, ui: SettingsState, order: seq<int>)
    requires Enumerates(order, Histogram(ParseLog(p.selectedTimesString) + [ui.selectedTime]))
    ensures var log := ParseLog(p.selectedTimesString) + [ui.selectedTime];
            var mode := MostCommonTimeInterval(log, order, ui.selectedTime);
            (exists i :: 0 <= i < |log| && BucketKey(log[i]) == mode) &&
            forall k :: InBucket(log, k) <= InBucket(log, mode)
  {
    var log := ParseLog(p.selectedTimesString) + [ui.selectedTime];
    var mode := MostCommonTimeInterval(log, order, ui.selectedTime);
    assert 0 < InBucket(log, mode);
  }

  /** Confirming a suggestion-free screen raises the suggestion exactly when
      three logged times, the new one included, lie near the picked bucket. */
  lemma ConfirmSuggestsIff(p: Prefs, ui: SettingsState, cal: Calendar, pending: map<string, Request>,
                           order: seq<int>)
    requires !ui.showingSuggestion
    requires Enumerates(order, Histogram(ParseLog(p.selectedTimesString) + [ui.selectedTime]))
    ensures var log := ParseLog(p.selectedTimesString) + [ui.selectedTime];
            ConfirmTapped(p, ui, cal, pending, order).ui.showingSuggestion <==>
              SuggestThreshold <= CountNear(log, MostCommonTimeInterval(log, order, ui.selectedTime))
  {
  }

  /** A first or second save never raises the suggestion. */
  lemma ShortLogNeverSuggests(p: Prefs, ui: SettingsState, cal: Calendar, pending: map<string, Request>,
                              order: seq<int>)
    requires !ui.showingSuggestion
    requires |ParseLog(p.selectedTimesString)| < 2
    requires Enumerates(order, Histogram(ParseLog(p.selectedTimesString) + [ui.selectedTime]))
    ensures !ConfirmTapped(p, ui, cal, pending, order).ui.showingSuggestion
  {
  }

  /** Confirming the same day twice leaves one pending custom request for
      that day: the second replaces the first. */
  lemma ConfirmSameDayTwiceReplaces(p: Prefs, ui: SettingsState, cal: Calendar, pending: map<string, Request>,
                                    order1: seq<int>, order2: seq<int>)
    requires Enumerates(order1, Histogram(ParseLog(p.selectedTimesString) + [ui.selectedTime]))
    requires var first := ConfirmTapped(p, ui, cal, pending, order1);
             Enumerates(order2, Histogram(ParseLog(first.prefs.selectedTimesString) + [ui.selectedTime]))
    ensures var first := ConfirmTapped(p, ui, cal, pending, order1);
            var second := ConfirmTapped(first.prefs, first.ui, cal, first.pending, order2);
            second.pending.Keys == first.pending.Keys && |second.pending| == |first.pending|
  {
    var first := ConfirmTapped(p, ui, cal, pending, order1);
    var second := ConfirmTapped(first.prefs, first.ui, cal, first.pending, order2);
    assert second.pending.Keys == first.pending.Keys;
  }

  /** Picking a different day adds a second pending custom request instead
      of moving the first. */
  lemma ConfirmOtherDayAdds(p: Prefs, ui: SettingsState, cal: Calendar, pending: map<string, Request>,
                            order: seq<int>)
    requires CustomIdentifier(ui.selectedDay) !in pending
    requires Enumerates(order, Histogram(ParseLog(p.selectedTimesString) + [ui.selectedTime]))
    ensures |ConfirmTapped(p, ui, cal, pending, order).pending| == |pending| + 1
  {
  }

  /** Days chosen in the picker give a valid trigger weekday and a valid
      index into the day names. */
  lemma PickedDayIsValid(i: nat)
    requires i < |PickerDays()|
    ensures ValidWeekday(PickerDays()[i])
    ensures 0 <= PickerDays()[i] - 1 < |DaysOfWeek|
  {
  }
}
