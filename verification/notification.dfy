/** The pieces of the platform that the reminder logic hands its decisions
    to: calendar lookups (an input, since they depend on locale and time
    zone), weekly calendar triggers and the pending-request table of the
    notification center. */
module Notification {

  /** `Calendar.current` lookups on an epoch-second instant. */
  datatype Calendar = Calendar(weekOfYear: int -> int, hour: int -> int, minute: int -> int)

  /** Weekdays are numbered 1 (Sunday) to 7 (Saturday). */
  predicate ValidWeekday(d: int) {
    1 <= d <= 7
  }

  datatype DateComponents = DateComponents(weekday: int, hour: int, minute: int)

  /** `UNCalendarNotificationTrigger(dateMatching:repeats:)`. */
  datatype Trigger = CalendarTrigger(dateMatching: DateComponents, repeats: bool)

  datatype Sound = DefaultSound | NamedSound(name: string)

  datatype Content = Content(title: string, body: string, sound: Sound)

  datatype Request = Request(identifier: string, content: Content, trigger: Trigger)

  const ReminderTitle: string := "Garbage Bin Reminder"

  /** A trigger that fires every week on `day` at the hour and minute the
      calendar reads off the instant `time`. */
  function WeeklyTrigger(cal: Calendar, day: int, time: int): (t: Trigger)
    ensures t.repeats
    ensures t.dateMatching.weekday == day
    ensures t.dateMatching.hour == cal.hour(time) && t.dateMatching.minute == cal.minute(time)
  {
    CalendarTrigger(DateComponents(day, cal.hour(time), cal.minute(time)), true)
  }

  /** `UNUserNotificationCenter.add`: a request replaces any pending request
      with the same identifier and leaves every other one alone. */
  function Add(pending: map<string, Request>, r: Request): (p: map<string, Request>)
    ensures p.Keys == pending.Keys + {r.identifier}
    ensures p[r.identifier] == r
    ensures forall id :: id in pending && id != r.identifier ==> p[id] == pending[id]
  {
    pending[r.identifier := r]
  }

  /** Adding a request whose identifier is already pending does not grow
      the table. */
  lemma AddSameIdentifierKeepsSize(pending: map<string, Request>, r: Request)
    requires r.identifier in pending
    ensures |Add(pending, r)| == |pending|
  {
    assert Add(pending, r).Keys == pending.Keys;
  }
}
