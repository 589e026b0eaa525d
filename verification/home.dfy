/** The home screen (ContentView): this week's message, the reminder-day
    label and the weekly notification it schedules when it appears. It
    reads `selectedDay` and `selectedTimeInterval` from its own store. */
module Home {
  import opened BinWeek
  import opened Notification
  import opened Settings

  const WeeklyIdentifierPrefix: string := "WeeklyBinReminder-"

  /** `daysOfWeek[selectedDay - 1]`: defined only for days 1 to 7; any
      other stored day would index outside the array. */
  function ReminderDayName(day: int): (name: string)
    requires ValidWeekday(day)
    ensures name in DaysOfWeek
  {
    DaysOfWeek[day - 1]
  }

  /** Different days show different names. */
  lemma ReminderDayNameInjective(a: int, b: int)
    requires ValidWeekday(a) && ValidWeekday(b)
    ensures ReminderDayName(a) == ReminderDayName(b) <==> a == b
  {
  }

  /** Sunday is day 1 and Saturday is day 7, as in the trigger's weekday. */
  lemma ReminderDayNamesFollowWeekdays()
    ensures ReminderDayName(1) == "Sunday" && ReminderDayName(7) == "Saturday"
  {
  }

  /** `scheduleWeeklyNotification`: every week on the stored day at the
      stored time's hour and minute, with the current message as its body.
      `uuid` stands for `UUID().uuidString`. */
  function WeeklyRequest(cal: Calendar, binMessage: string, store: Prefs, uuid: string): (r: Request)
    ensures r.identifier == WeeklyIdentifierPrefix + uuid
    ensures r.content.body == binMessage && r.content.sound == DefaultSound
    ensures r.trigger == WeeklyTrigger(cal, store.selectedDay, store.selectedTimeInterval)
  {
    Request(WeeklyIdentifierPrefix + uuid,
            Content(ReminderTitle, binMessage, DefaultSound),
            WeeklyTrigger(cal, store.selectedDay, store.selectedTimeInterval))
  }

  datatype HomeState = HomeState(binMessage: string, showMessage: bool)

  /** `onAppear`: `updateBinMessage()` for the week of `now`, then
      `scheduleWeeklyNotification()` with that message, then show it. */
  function Appear(cal: Calendar, now: int, store: Prefs, uuid: string,
                  pending: map<string, Request>): (r: (HomeState, map<string, Request>))
    ensures r.0.showMessage
    ensures r.0.binMessage == ThisWeekPrefix + BinLabel(cal.weekOfYear(now))
    ensures r.1.Keys == pending.Keys + {WeeklyIdentifierPrefix + uuid}
    ensures r.1[WeeklyIdentifierPrefix + uuid] == WeeklyRequest(cal, r.0.binMessage, store, uuid)
    ensures r.1[WeeklyIdentifierPrefix + uuid].trigger.dateMatching.weekday == store.selectedDay
    ensures forall id :: id in pending && id != WeeklyIdentifierPrefix + uuid ==> r.1[id] == pending[id]
  {
    AppAgreesWithWidget(cal.weekOfYear(now));
    var message := AppBinMessage(cal.weekOfYear(now));
    var request := WeeklyRequest(cal, message, store, uuid);
    (HomeState(message, true), Add(pending, request))
  }

  /** The home screen's request never replaces the settings screen's custom
      reminder: their identifiers differ in the first character. */
  lemma WeeklyNeverReplacesCustom(uuid: string, day: int)
    ensures WeeklyIdentifierPrefix + uuid != CustomIdentifier(day)
  {
    assert (WeeklyIdentifierPrefix + uuid)[0] == 'W';
    assert CustomIdentifier(day)[0] == 'C';
  }

  /** Each appearance schedules a new request under a fresh identifier,
      so appearing twice leaves two weekly requests pending. */
  lemma AppearTwiceAccumulates(cal: Calendar, now1: int, now2: int, store: Prefs,
                               uuid1: string, uuid2: string, pending: map<string, Request>)
    requires uuid1 != uuid2
    requires WeeklyIdentifierPrefix + uuid1 !in pending && WeeklyIdentifierPrefix + uuid2 !in pending
    ensures var first := Appear(cal, now1, store, uuid1, pending).1;
            |Appear(cal, now2, store, uuid2, first).1| == |pending| + 2
  {
    var id1, id2 := WeeklyIdentifierPrefix + uuid1, WeeklyIdentifierPrefix + uuid2;
    assert id1 != id2 by {
      assert id1[|WeeklyIdentifierPrefix|..] == uuid1;
      assert id2[|WeeklyIdentifierPrefix|..] == uuid2;
    }
  }
}
