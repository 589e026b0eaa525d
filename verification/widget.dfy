/** The home-screen widget: its theme setting and the timeline its
    provider hands to the system. */
module Widget {
  import opened Wrappers
  import opened BinWeek
  import opened Notification
  import Settings

  /** `enum WidgetTheme: String, CaseIterable`. */
  datatype WidgetTheme = Light | Dark {

    function RawValue(): string {
      match this
      case Light => "Light"
      case Dark => "Dark"
    }

    /** `id` for `Identifiable`. */
    function Id(): string {
      RawValue()
    }

    function DisplayName(): string {
      match this
      case Light => "Light"
      case Dark => "Dark"
    }
  }

  const AllCases: seq<WidgetTheme> := [Light, Dark]

  /** `WidgetTheme(rawValue:)`: the case with that raw value, if any. */
  function ThemeFromRawValue(s: string): (r: Option<WidgetTheme>)
    ensures r.Some? ==> r.value.RawValue() == s
  {
    if s == "Light" then Some(Light)
    else if s == "Dark" then Some(Dark)
    else None
  }

  /** `WidgetTheme(rawValue: widgetTheme) ?? .light`, as read by the
      background, the message background and the font colour. */
  function ResolvedTheme(s: string): (t: WidgetTheme)
    ensures t == Dark <==> s == "Dark"
  {
    ThemeFromRawValue(s).GetOr(Light)
  }

  /** Parsing a case's raw value gives that case back, and only raw values
      parse. */
  lemma RawValueRoundTrip(t: WidgetTheme, s: string)
    ensures ThemeFromRawValue(t.RawValue()) == Some(t)
    ensures ThemeFromRawValue(s) == Some(t) <==> s == t.RawValue()
  {
  }

  /** Any other text falls back to the light theme. */
  lemma UnknownThemeIsLight(s: string)
    requires forall i :: 0 <= i < |AllCases| ==> s != AllCases[i].RawValue()
    ensures ThemeFromRawValue(s) == None
    ensures ResolvedTheme(s) == Light
  {
    assert s != AllCases[0].RawValue() && s != AllCases[1].RawValue();
  }

  /** Each case's display name and its `id` are its raw value. */
  lemma DisplayNameIsRawValue(t: WidgetTheme)
    ensures t.DisplayName() == t.RawValue()
    ensures t.Id() == t.RawValue()
  {
  }

  /** The settings screen offers exactly the raw values of the cases, in
      declaration order, so every choice there resolves without fallback. */
  lemma SettingsThemesAreRawValues()
    ensures |Settings.Themes| == |AllCases|
    ensures forall i :: 0 <= i < |AllCases| ==> Settings.Themes[i] == AllCases[i].RawValue()
    ensures forall i :: 0 <= i < |Settings.Themes| ==> ThemeFromRawValue(Settings.Themes[i]).Some?
  {
  }

  /** `SimpleEntry`: an instant in epoch seconds and the text shown then. */
  datatype SimpleEntry = SimpleEntry(date: nat, binMessage: string)

  /** `.atEnd`: ask for a new timeline after the last entry's date. */
  datatype ReloadPolicy = AtEnd

  datatype Timeline = Timeline(entries: seq<SimpleEntry>, policy: ReloadPolicy)

  const HourSeconds: nat := 3600
  const TimelineHours: nat := 24

  /** `getSnapshot(in:completion:)`: one entry for now with this week's label. */
  function Snapshot(cal: Calendar, now: nat): (e: SimpleEntry)
    ensures e.date == now
    ensures e.binMessage == BinLabel(cal.weekOfYear(now))
    ensures e.binMessage == RecyclableLabel <==> EvenWeek(cal.weekOfYear(now))
  {
    SimpleEntry(now, BinLabel(cal.weekOfYear(now)))
  }

  /** `getTimeline(in:completion:)`: 24 entries an hour apart starting now.
      Every entry's label is computed from the current date, not from the
      entry's own date. */
  method GetTimeline(cal: Calendar, now: nat) returns (t: Timeline)
    ensures |t.entries| == TimelineHours && t.policy == AtEnd
    ensures forall i :: 0 <= i < |t.entries| ==> t.entries[i].date == now + i * HourSeconds
    ensures forall i, j :: 0 <= i < j < |t.entries| ==> t.entries[i].date < t.entries[j].date
    ensures forall i :: 0 <= i < |t.entries| ==> t.entries[i].binMessage == BinLabel(cal.weekOfYear(now))
  {
    var entries: seq<SimpleEntry> := [];
    var hourOffset := 0;
    while hourOffset < TimelineHours
      invariant 0 <= hourOffset <= TimelineHours
      invariant |entries| == hourOffset
      invariant forall i :: 0 <= i < hourOffset ==> entries[i].date == now + i * HourSeconds
      invariant forall i :: 0 <= i < hourOffset ==> entries[i].binMessage == BinLabel(cal.weekOfYear(now))
    {
      var entryDate := now + hourOffset * HourSeconds;
      var entry := SimpleEntry(entryDate, BinLabel(cal.weekOfYear(now)));
      entries := entries + [entry];
      hourOffset := hourOffset + 1;
    }
    t := Timeline(entries, AtEnd);
  }
}
