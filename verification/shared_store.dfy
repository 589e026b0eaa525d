/** Where the reminder day and time live. SettingsView keeps them under
    `UserDefaults.standard`; ContentView reads the same keys from the
    app-group suite "group.com.individual.GarbageBinReminder". The two are
    separate preference domains, so a save on the settings screen never
    reaches the home screen or its weekly notification. `ConfirmAsWritten`
    models the code as it stands; `ConfirmShared` is the evidently intended
    behaviour, with both screens on the group suite. */
module SharedStore {
  import opened Notification
  import opened Settings
  import opened Home

  /** The standard domain and the app-group suite. */
  datatype Stores = Stores(standard: Prefs, group: Prefs)

  /** What the home screen reads: the group suite. */
  function HomeView(s: Stores): Prefs {
    s.group
  }

  /** `saveSettings` as written: only the standard domain changes. */
  function ConfirmAsWritten(s: Stores, time: int, day: int): (r: Stores)
    ensures r.group == s.group
    ensures r.standard == SaveSettings(s.standard, time, day)
  {
    s.(standard := SaveSettings(s.standard, time, day))
  }

  /** `saveSettings` on the shared suite. */
  function ConfirmShared(s: Stores, time: int, day: int): (r: Stores)
    ensures r.standard == s.standard
    ensures r.group == SaveSettings(s.group, time, day)
  {
    s.(group := SaveSettings(s.group, time, day))
  }

  /** As written: from fresh stores, saving Tuesday (day 3) leaves the home
      screen on Sunday (day 1), and its weekly reminder is scheduled for
      Sunday while the settings screen's reminder is for Tuesday. */
  lemma SavedDayMissesHomeAsWritten(cal: Calendar, now: int, uuid: string)
    ensures var s := ConfirmAsWritten(Stores(DefaultPrefs(now), DefaultPrefs(now)), now, 3);
            && HomeView(s).selectedDay == 1
            && WeeklyRequest(cal, "", HomeView(s), uuid).trigger.dateMatching.weekday == 1
            && CustomRequest(cal, now, 3, "Default").trigger.dateMatching.weekday == 3
  {
  }

  /** Corrected: the home screen shows the saved day and time, and its
      weekly reminder fires on the same weekday, hour and minute as the
      settings screen's reminder. */
  lemma SavedDayReachesHome(s: Stores, cal: Calendar, time: int, day: int, uuid: string, sound: string)
    ensures HomeView(ConfirmShared(s, time, day)).selectedDay == day
    ensures HomeView(ConfirmShared(s, time, day)).selectedTimeInterval == time
    ensures WeeklyRequest(cal, "", HomeView(ConfirmShared(s, time, day)), uuid).trigger ==
            CustomRequest(cal, time, day, sound).trigger
  {
  }
}
