# GarbageBinReminder decision logic in Dafny

GarbageBinReminder is a small iOS app. It tells the user which bins go out this week, both in
the app and in a home-screen widget. It also schedules a weekly local reminder. This project
models the app's decision logic with the SwiftUI and platform calls taken away. There are three
parts:

- **Smart-reminder habit analysis** (`SettingsView`). Every save appends the picked reminder time
  to a comma-joined habit log. The analysis parses the log and counts the times in ten-minute
  (600-second) buckets. It picks the fullest bucket, the way `max(by:)` scans a `Dictionary`.
  It raises a suggestion when at least three logged times lie within 600 seconds of that bucket.
- **Week-parity bin label**. The widget's `getBinMessage` and the app's `updateBinMessage` give the
  recyclable label on even week numbers and the general label on odd ones.
- **Widget theme and timeline**. Raw-value parsing of `WidgetTheme` falls back to light. The
  provider builds a timeline of 24 entries, one per hour.

Modules:

- `Wrappers`: an `Option` type.
- `Decimal`: integer text.
- `HabitLog`: the log's text format (split, parse, join).
- `Habit`: bucketing, histogram, argmax, suggestion.
- `BinWeek`: the parity labels.
- `Notification`: calendar input, triggers, pending requests.
- `Settings`: the preference store and the "Confirm Time" action.
- `Home`: the `ContentView` home screen.
- `Widget`: theme and timeline.
- `SharedStore`: which preference domain each screen uses. See Findings.

Modelling choices:

- Times are whole epoch seconds as `int`. Widget dates are `nat`.
- Swift's `truncatingRemainder` is written out, because it rounds toward zero, unlike Dafny's `%`.
- Calendar lookups are a `Calendar` record of functions passed in: week of year, hour and minute.
  They depend on locale and time zone.
- Dictionary iteration order is an input `order` that must list every key (`Habit.Enumerates`).
  Swift leaves that order unspecified, so proved results hold for every such order. Count
  conservation also needs each key listed once (`Habit.Distinct`), as a real dictionary does.
- `max(by:)` replaces its running result by every element that is not smaller
  (`!areInIncreasingOrder(e, result)` in Swift's standard library, which is not part of this
  model). An equal count therefore replaces it too, and the last maximum in iteration order wins.
  Ties between buckets are decided by the iteration order alone. The worked example shows that
  either of two tied buckets can be returned.
- The notification center is a map from identifier to request. Adding a request replaces one with
  the same identifier.
- `ParseLog`, `RenderLog` and `Split` model the Swift calls `split(separator:)`,
  `compactMap { TimeInterval($0) }` and `joined(separator:)`. They cover whole-second values
  written as `String(Double)` writes them, such as "1700000000.0".

The settings screen and the home screen use different preference stores. See Findings.

## Model

| member | source | states |
|---|---|---|
| Decimal.IntTextRoundTrip | GarbageReminder/SettingView.swift:145 | parsing the decimal text of any integer gives that integer back |
| Decimal.IntTextInjective | GarbageReminder/SettingView.swift:145 | two integers have the same decimal text exactly when they are equal |
| HabitLog.Split | GarbageReminder/SettingView.swift:103 | `split(separator: ",")` yields only non-empty tokens, none of which contains a comma |
| HabitLog.SplitConcat | GarbageReminder/SettingView.swift:103 | the tokens of `a,b` are the tokens of `a` followed by the tokens of `b` |
| HabitLog.SplitOfToken | GarbageReminder/SettingView.swift:103 | a non-empty text without commas splits into exactly itself |
| HabitLog.SplitJoin | GarbageReminder/SettingView.swift:103-106 | splitting the comma-join of non-empty, comma-free tokens gives the tokens back |
| HabitLog.ParseLog | GarbageReminder/SettingView.swift:103 | every parsed interval is the value of some token, and when every token has a value none is dropped |
| HabitLog.ParseLogConcat | GarbageReminder/SettingView.swift:103 | the intervals of `a,b` are those of `a` followed by those of `b`; empty fields contribute nothing |
| HabitLog.SeparatorsOnlyParseEmpty | GarbageReminder/SettingView.swift:103 | a log of any number of separators alone denotes no intervals |
| HabitLog.NonNumericTokenDropped | GarbageReminder/SettingView.swift:103 | `compactMap` drops any comma-free token without a value and keeps the intervals on either side, in order |
| HabitLog.RenderLog | GarbageReminder/SettingView.swift:106 | the rendered log's tokens are the intervals' renderings, and parsing it back returns exactly the same sequence |
| HabitLog.AppendToLog | GarbageReminder/SettingView.swift:103-106 | the rewritten log denotes the old parsed entries followed by the new time, and is already in canonical form |
| Habit.TruncRem | GarbageReminder/SettingView.swift:123 | the remainder has the dividend's sign and magnitude below the divisor, and the dividend minus the remainder is a multiple of the divisor |
| Habit.BucketKey | GarbageReminder/SettingView.swift:123 | the key is a multiple of 600 rounded toward zero: for `t >= 0`, `0 <= key <= t < key + 600`; for `t < 0`, `t <= key <= 0` and `key - t < 600` |
| Habit.Histogram | GarbageReminder/SettingView.swift:122-125 | the dictionary's keys are exactly the occupied buckets, and each count equals an independently defined bucket count |
| Habit.HistogramAppend | GarbageReminder/SettingView.swift:124 | folding in one more time increments its own bucket by one and leaves every other bucket unchanged |
| Habit.HistogramConservesCount | GarbageReminder/SettingView.swift:122-125 | summed over the dictionary's keys, the counts equal the number of input times |
| Habit.MaxKey | GarbageReminder/SettingView.swift:126 | the scan returns a listed key whose count is at least every listed count |
| Habit.MaxKeyIsLastMaximum | GarbageReminder/SettingView.swift:126 | because an equal count also replaces the running result, every key listed after the returned one has a smaller count, so the last maximum in iteration order wins |
| Habit.MostCommonTimeInterval | GarbageReminder/SettingView.swift:121-127 | empty input gives the fallback; otherwise the result is an occupied 600-aligned bucket at least as full as every other bucket |
| Habit.LastListedMaximumWins | GarbageReminder/SettingView.swift:126 | a key with a maximal count, after which every listed key has a smaller count, is the one returned; iteration order alone breaks ties |
| Habit.AnalyzeUserHabit | GarbageReminder/SettingView.swift:110-118 | the flag is never reset to false, and it can change only when at least 3 times are logged |
| Habit.CountNear | GarbageReminder/SettingView.swift:115 | the filtered count equals the number of indices whose time lies strictly within 600 s of the picked bucket |
| Habit.SuggestionIff | GarbageReminder/SettingView.swift:115-116 | the flag ends up true exactly when it was already true or the set of indices whose logged time lies strictly within 600 s of the picked bucket has at least 3 members |
| Habit.BucketInsideNearWindow | GarbageReminder/SettingView.swift:123 | every time in bucket `k` lies within 600 s of `k`, so the near count is at least the bucket count |
| Habit.ModalBucketRaisesSuggestion | GarbageReminder/SettingView.swift:115 | if the picked bucket itself holds at least 3 times, the suggestion is raised |
| Habit.NearWindowSpansTwoBuckets | GarbageReminder/SettingView.swift:115 | for non-negative times and an aligned key `k >= 0`, the times near `k` lie in bucket `k` or bucket `k - 600` |
| Habit.BucketOfNonNegative | GarbageReminder/SettingView.swift:123 | non-negative times occupy only non-negative buckets |
| Habit.SuggestionNeedsTwoInModalBucket | GarbageReminder/SettingView.swift:115 | with non-negative times, a raised suggestion implies that at least two times share the picked bucket |
| Habit.ExampleHistogram | GarbageReminder/SettingView.swift:122-125 | times 0, 100, 605, 1205 and 1210 give the buckets {0:2, 600:1, 1200:2} |
| Habit.ExampleTieDependsOnOrder | GarbageReminder/SettingView.swift:126 | for that input, every dictionary order yields 0 or 1200 |
| Habit.ExampleAscendingOrder | GarbageReminder/SettingView.swift:126 | the order [0, 600, 1200] is a valid dictionary order and yields 1200, the later tied bucket |
| Habit.ExampleTwelveHundredFirst | GarbageReminder/SettingView.swift:126 | the order [1200, 0, 600] is a valid dictionary order and yields 0, the tied bucket listed after 1200 |
| BinWeek.BinLabel | GarbageBinWidget/GarbageBinWidget.swift:116-126 | the label is exactly one of the two fixed labels: recyclable if and only if the week is even, general if and only if it is odd |
| BinWeek.AppBinMessage | GarbageReminder/ContentView.swift:107-117 | the message is one of the two fixed "This Week: " strings, the recyclable one exactly for even weeks |
| BinWeek.AppAgreesWithWidget | GarbageReminder/ContentView.swift:112-116 | for the same week number, the app's message is "This Week: " followed by the widget's label |
| BinWeek.ConsecutiveWeeksAlternate | GarbageBinWidget/GarbageBinWidget.swift:121 | week numbers `w` and `w + 1` get different labels, in the widget and in the app |
| BinWeek.LabelRepeatsEveryTwoWeeks | GarbageBinWidget/GarbageBinWidget.swift:121 | week numbers `w` and `w + 2` get the same label |
| BinWeek.YearRolloverRepeats | GarbageBinWidget/GarbageBinWidget.swift:119-125 | weeks 53 and 1 both get the general label, so the alternation breaks at that rollover |
| Notification.WeeklyTrigger | GarbageReminder/ContentView.swift:125-132 | the trigger repeats, and it matches the given weekday and the calendar's hour and minute of the given instant |
| Notification.Add | GarbageReminder/SettingView.swift:147 | the new request is pending under its identifier; every other pending request is unchanged |
| Notification.AddSameIdentifierKeepsSize | GarbageReminder/SettingView.swift:147 | adding under an identifier that is already pending does not grow the table |
| Settings.DefaultPrefs | GarbageReminder/SettingView.swift:9-14 | a fresh store has an empty habit log, the current time, Sunday, the language "en", the first theme ("Light") and the first sound ("Default") |
| Settings.PickerDays | GarbageReminder/SettingView.swift:27-31 | the picker offers days 1 to 7, one per day name, all valid weekdays |
| Settings.PickedDayIsValid | GarbageReminder/SettingView.swift:28-29 | every picked day is a valid weekday and a valid index into the day names |
| Settings.OnAppear | GarbageReminder/SettingView.swift:90-92 | on appearing, the picker shows the stored time and day and no flag changes |
| Settings.SaveSettings | GarbageReminder/SettingView.swift:98-107 | the stored time and day become the picked ones, the log denotes the old entries followed by the new time, and the language, theme and sound are untouched |
| Settings.SaveThenReopen | GarbageReminder/SettingView.swift:90-100 | saving and reopening the screen shows the saved time and day |
| Settings.SaveGrowsLogByOne | GarbageReminder/SettingView.swift:103-106 | each save adds exactly one entry to the parsed log |
| Settings.CustomIdentifierDeterminesDay | GarbageReminder/SettingView.swift:145 | two custom reminders share an identifier exactly when they are for the same day |
| Settings.CustomRequest | GarbageReminder/SettingView.swift:129-145 | the request's identifier depends on the day alone, its trigger is the weekly trigger for that day and time, and its sound is the chosen sound's `.caf` file |
| Settings.ConfirmTapped | GarbageReminder/SettingView.swift:34-39 | after saving, the pending request for the picked day is exactly the custom request (weekday, hour, minute, sound), every other pending request is unchanged, the confirmation is shown, and a raised suggestion stays raised |
| Settings.ConfirmPicksALoggedBucket | GarbageReminder/SettingView.swift:35-38 | the analysis runs after the save, so the log is non-empty and the picked time is the fullest bucket of some logged time, never the fallback |
| Settings.ConfirmSuggestsIff | GarbageReminder/SettingView.swift:110-117 | starting without a suggestion, confirming raises one exactly when at least 3 logged times, the new one included, lie near the picked bucket |
| Settings.ShortLogNeverSuggests | GarbageReminder/SettingView.swift:115 | while the log held fewer than 2 entries before the save, confirming never raises the suggestion |
| Settings.ConfirmSameDayTwiceReplaces | GarbageReminder/SettingView.swift:145 | confirming the same day twice leaves the set of pending identifiers unchanged the second time |
| Settings.ConfirmOtherDayAdds | GarbageReminder/SettingView.swift:145 | confirming a day with no pending custom request adds one request |
| Home.ReminderDayName | GarbageReminder/ContentView.swift:46 | `daysOfWeek[selectedDay - 1]` needs `selectedDay` in 1..7 and is one of the day names |
| Home.ReminderDayNameInjective | GarbageReminder/ContentView.swift:12-20 | different days show different names |
| Home.ReminderDayNamesFollowWeekdays | GarbageReminder/ContentView.swift:12-20 | day 1 is Sunday and day 7 is Saturday, matching the trigger's weekday numbering |
| Home.WeeklyRequest | GarbageReminder/ContentView.swift:119-133 | the trigger uses the stored day and the stored time's hour and minute and repeats; the body is the current message and the sound is the default sound |
| Home.Appear | GarbageReminder/ContentView.swift:82-87 | appearing shows "This Week: " followed by the widget's label for the current week, and schedules exactly the weekly request for the stored day and time with that message; every other pending request is unchanged |
| Home.WeeklyNeverReplacesCustom | GarbageReminder/ContentView.swift:133 | the home screen's request identifier never equals a custom reminder's identifier |
| Home.AppearTwiceAccumulates | GarbageReminder/ContentView.swift:133 | two appearances with different UUIDs leave two new weekly requests pending |
| Widget.ThemeFromRawValue | GarbageBinWidget/GarbageBinWidget.swift:4-6 | a parsed theme's raw value is the parsed text |
| Widget.RawValueRoundTrip | GarbageBinWidget/GarbageBinWidget.swift:4-6 | `WidgetTheme(rawValue: t.rawValue) == t`, and a text parses to `t` exactly when it is `t`'s raw value |
| Widget.ResolvedTheme | GarbageBinWidget/GarbageBinWidget.swift:58 | the theme read by the widget is dark exactly when the stored text is "Dark" |
| Widget.UnknownThemeIsLight | GarbageBinWidget/GarbageBinWidget.swift:77-82 | any text that is not a case's raw value has no case and resolves to light |
| Widget.DisplayNameIsRawValue | GarbageBinWidget/GarbageBinWidget.swift:8-17 | each case's `displayName` and `id` equal its raw value |
| Widget.SettingsThemesAreRawValues | GarbageReminder/SettingView.swift:17 | the settings screen offers exactly the widget cases' raw values, so none of its choices needs the fallback |
| Widget.Snapshot | GarbageBinWidget/GarbageBinWidget.swift:97-100 | the snapshot is dated now and shows the widget label for the current week, the recyclable one exactly in even weeks |
| Widget.GetTimeline | GarbageBinWidget/GarbageBinWidget.swift:102-114 | the timeline has exactly 24 entries with policy `.atEnd`; entry `i` is dated now + `i` hours, dates strictly increase, and every entry carries the current week's label |
| SharedStore.ConfirmAsWritten | GarbageReminder/SettingView.swift:98-100 | saving changes the standard domain only; the group suite is untouched |
| SharedStore.SavedDayMissesHomeAsWritten | GarbageReminder/ContentView.swift:9-10 | from fresh stores, saving day 3 leaves the home screen and its weekly trigger on day 1 |
| SharedStore.ConfirmShared | GarbageReminder/ContentView.swift:9-10 | the corrected save writes the store the home screen reads |
| SharedStore.SavedDayReachesHome | GarbageReminder/ContentView.swift:125-132 | after the corrected save, the home screen sees the saved day and time, and its weekly trigger equals the settings screen's trigger |

## Left out

- User interface: view bodies, colours, gradients, animations, widget opacity, `playSound`, the
  `applyTheme` window override and `updateLanguage`.
- Localization: `NSLocalizedString` and `localizedString` are taken as the identity on their
  English keys.
- Platform I/O: permission requests, the `add` completion handler and `@AppStorage`
  persistence. The preference store is a plain record, and the notification center
  is a map keyed by identifier.
- Calendar lookups (week of year, hour, minute) are an input `Calendar`. They depend on locale and
  time zone.
- `Calendar.date(byAdding: .hour)` is modelled as adding 3600 seconds.
- `Widget.GetTimeline`: calls `getBinMessage` 24 times, each reading the clock, but the model reads
  the week once. A week change during the loop itself is not modelled.
- The argument placeholder in the smart-suggestion alert (GarbageReminder/SettingView.swift:52) is
  left out. It is unfinished and does not compile, and its intended argument is unknown.
- `HabitLog.ParseInterval`: accepts only an optional '-', digits and an optional ".0". Swift's
  `TimeInterval(String)` also accepts fractions, exponents, a leading '+', "inf" and "nan". Such
  tokens are dropped here but kept by the source.
- Fractional seconds: every `Double` time is a whole number of seconds here, so a bucket key
  never has a fractional part.
- `HabitLog.RenderInterval`: the exponent form of `String(Double)` for magnitudes of 2^53 and more
  is not modelled.
- Notification.Add: always inserts the request. In the source a failed `add` (for example, when
  notifications are not allowed) schedules nothing and only logs the error. Whether the platform
  accepts a request is outside the model.
- The "Reminder Day" caption (GarbageReminder/ContentView.swift:46) and the widget's
  `placeholder(in:)` entry with its fixed "Loading..." text (GarbageBinWidget/GarbageBinWidget.swift:93-95)
  are display text only. `Home.ReminderDayName` models the day lookup the caption uses.
- `Home.ReminderDayName` requires a day in 1..7. The source would trap on any other stored day.
  No code path stores one.
- GarbageBinWidget/GarbageBinWidgetLiveActivity.swift and GarbageBinWidget/GarbageBinWidgetBundle.swift
  are not part of this model. They are widget configuration with no decision logic.
- The widget reads `widgetTheme` from its own extension's standard domain, not the app's. This has
  the same root as the finding below but is not modelled separately.

## Findings

| source | as written | input that shows it | evidently intended | confidence | as-written member | corrected member |
|---|---|---|---|---|---|---|
| GarbageReminder/SettingView.swift:10-14 | The settings screen saves `selectedDay` and `selectedTimeInterval` in `UserDefaults.standard`. The home screen reads them from the app-group suite (GarbageReminder/ContentView.swift:9-10). | Fresh install, then save Tuesday (day 3). The home screen still shows Sunday, and its weekly reminder fires on Sunday. | Both screens use the shared app-group suite, so the home screen and its reminder follow the saved day and time. | medium; not executed | SharedStore.SavedDayMissesHomeAsWritten | SharedStore.SavedDayReachesHome |
