/**
 * tasks/reminder_task.py: the reminder store (reminders.json, a mapping from
 * reminder id to entry), the three reminder commands ("remind me to ... at
 * ...", "show reminders", "remove reminder ...") and one pass of the
 * background poller that fires time-matched entries and deletes the one-shot
 * ones.
 */
module ReminderTask {
  import opened Wrappers
  import opened PyStr

  /** A wall-clock time as the directives `%I:%M %p` see it. */
  datatype Clock = Clock(hour: nat, minute: nat, pm: bool)

  predicate ValidClock(t: Clock) {
    1 <= t.hour <= 12 && t.minute <= 59
  }

  /** One entry of the store. `recurring` is None for JSON null or a missing
      key; `day` is None for a missing key. */
  datatype Reminder = Reminder(task: string, time: string, recurring: Option<string>, day: Option<string>)

  function DigitValue(c: char): nat
    requires IsDigit(c)
  {
    c as int - '0' as int
  }

  /** The `%I` directive, the pattern `1[0-2]|0[1-9]|[1-9]`: the hour read
      from the front of `s` and the number of characters it takes. */
  function MatchHour(s: string): (r: Option<(nat, nat)>)
    ensures r.Some? ==> 1 <= r.value.0 <= 12 && 1 <= r.value.1 <= 2 && r.value.1 <= |s|
  {
    if |s| >= 2 && s[0] == '1' && '0' <= s[1] <= '2' then Some((10 + DigitValue(s[1]), 2))
    else if |s| >= 2 && s[0] == '0' && '1' <= s[1] <= '9' then Some((DigitValue(s[1]), 2))
    else if |s| >= 1 && '1' <= s[0] <= '9' then Some((DigitValue(s[0]), 1))
    else None
  }

  /** The `%M` directive, the pattern `[0-5]\d|\d`. */
  function MatchMinute(s: string): (r: Option<(nat, nat)>)
    ensures r.Some? ==> r.value.0 <= 59 && 1 <= r.value.1 <= 2 && r.value.1 <= |s|
  {
    if |s| >= 2 && '0' <= s[0] <= '5' && IsDigit(s[1]) then Some((10 * DigitValue(s[0]) + DigitValue(s[1]), 2))
    else if |s| >= 1 && IsDigit(s[0]) then Some((DigitValue(s[0]), 1))
    else None
  }

  /** `datetime.strptime(s, "%I:%M %p")`, with None where it raises
      ValueError. The space of the format matches one or more whitespace
      characters, AM/PM is matched ignoring case, and nothing may follow it.
      Whatever it accepts is a valid 12-hour time, and ends in the AM/PM
      marker that sets `pm`. */
  function ParseTime(s: string): (r: Option<Clock>)
    ensures r.Some? ==> ValidClock(r.value)
    ensures r.Some? ==> 6 <= |s| && IsDigit(s[0])
    ensures r.Some? ==> EndsInMarker(s, r.value.pm)
  {
    match MatchHour(s)
    case None => None
    case Some((hour, used)) =>
      if used < |s| && s[used] == ':' then
        var r := ParseAfterColon(s[used + 1..], hour);
        assert r.Some? ==> s[|s| - 2..] == s[used + 1..][|s[used + 1..]| - 2..];
        r
      else None
  }

  /** The text ends in "am" or "pm" in any case, "pm" exactly when `pm`. */
  predicate EndsInMarker(s: string, pm: bool) {
    && |s| >= 2
    && LowerChar(s[|s| - 1]) == 'm'
    && (LowerChar(s[|s| - 2]) == 'a' || LowerChar(s[|s| - 2]) == 'p')
    && (pm <==> LowerChar(s[|s| - 2]) == 'p')
  }

  /** `%M %p` after the colon. */
  function ParseAfterColon(rest: string, hour: nat): (r: Option<Clock>)
    requires 1 <= hour <= 12
    ensures r.Some? ==> ValidClock(r.value) && r.value.hour == hour
    ensures r.Some? ==> 4 <= |rest| && EndsInMarker(rest, r.value.pm)
  {
    match MatchMinute(rest)
    case None => None
    case Some((minute, taken)) =>
      var r := ParseMarker(rest[taken..], hour, minute);
      assert r.Some? ==> rest[|rest| - 2..] == rest[taken..][|rest[taken..]| - 2..];
      r
  }

  /** ` %p`: at least one whitespace character, then AM or PM in any case,
      then nothing. */
  function ParseMarker(tail: string, hour: nat, minute: nat): (r: Option<Clock>)
    ensures r.Some? ==> r.value == Clock(hour, minute, r.value.pm)
    ensures r.Some? ==> 3 <= |tail| && EndsInMarker(tail, r.value.pm)
  {
    var marker := StripLeft(tail);
    if |marker| < |tail| && |marker| == 2 && LowerChar(marker[1]) == 'm'
       && (LowerChar(marker[0]) == 'a' || LowerChar(marker[0]) == 'p')
    then
      assert marker == tail[|tail| - 2..];
      Some(Clock(hour, minute, LowerChar(marker[0]) == 'p'))
    else None
  }

  /** `strftime("%I:%M %p")`: zero-padded hour and minute, upper-case marker. */
  function FormatTime(t: Clock): (s: string)
    requires ValidClock(t)
    ensures |s| == 8
    ensures IsDigit(s[0]) && IsDigit(s[1]) && s[2] == ':' && IsDigit(s[3]) && IsDigit(s[4]) && s[5] == ' '
    ensures s[6..] == if t.pm then "PM" else "AM"
  {
    TwoDigits(t.hour) + ":" + TwoDigits(t.minute) + " " + (if t.pm then "PM" else "AM")
  }

  /** `DigitChar` and `DigitValue` are inverse. */
  lemma DigitRoundTrip(d: nat)
    requires d < 10
    ensures IsDigit(DigitChar(d)) && DigitValue(DigitChar(d)) == d
  {
  }

  /** A zero-padded hour is read back whole by `%I`. */
  lemma MatchPaddedHour(hour: nat, rest: string)
    requires 1 <= hour <= 12
    ensures MatchHour(TwoDigits(hour) + rest) == Some((hour, 2))
  {
    var s := TwoDigits(hour) + rest;
    DigitRoundTrip(hour / 10);
    DigitRoundTrip(hour % 10);
    assert s[0] == DigitChar(hour / 10) && s[1] == DigitChar(hour % 10);
  }

  /** An unpadded hour followed by the colon is read back by `%I`. */
  lemma MatchSpokenHour(hour: nat, rest: string)
    requires 1 <= hour <= 12
    ensures MatchHour(NatToString(hour) + ":" + rest) == Some((hour, |NatToString(hour)|))
  {
    var s := NatToString(hour) + ":" + rest;
    if hour >= 10 {
      assert NatToString(hour) == NatToString(hour / 10) + [DigitChar(hour % 10)];
      assert NatToString(hour / 10) == [DigitChar(1)];
      DigitRoundTrip(hour % 10);
      assert s[0] == '1' && s[1] == DigitChar(hour % 10);
    } else {
      DigitRoundTrip(hour);
      assert s[0] == DigitChar(hour) && s[1] == ':';
    }
  }

  /** A zero-padded minute is read back whole by `%M`. */
  lemma MatchPaddedMinute(minute: nat, rest: string)
    requires minute <= 59
    ensures MatchMinute(TwoDigits(minute) + rest) == Some((minute, 2))
  {
    var s := TwoDigits(minute) + rest;
    DigitRoundTrip(minute / 10);
    DigitRoundTrip(minute % 10);
    assert s[0] == DigitChar(minute / 10) && s[1] == DigitChar(minute % 10);
  }

  /** `ParseTime` on a text already cut into hour, minute and marker. */
  lemma ParseTimeOfParts(s: string, hText: string, mText: string, marker: string, hour: nat, minute: nat)
    requires s == hText + ":" + mText + " " + marker
    requires MatchHour(s) == Some((hour, |hText|))
    requires MatchMinute(mText + " " + marker) == Some((minute, |mText|))
    requires |marker| == 2 && LowerChar(marker[1]) == 'm'
    requires LowerChar(marker[0]) == 'a' || LowerChar(marker[0]) == 'p'
    ensures ParseTime(s) == Some(Clock(hour, minute, LowerChar(marker[0]) == 'p'))
  {
    var rest := mText + " " + marker;
    assert s[|hText|] == ':' && s[|hText| + 1..] == rest;
    MinuteThenMarker(rest, mText, marker, hour, minute);
  }

  /** `ParseAfterColon` on a minute, one space and a marker. */
  lemma MinuteThenMarker(rest: string, mText: string, marker: string, hour: nat, minute: nat)
    requires 1 <= hour <= 12
    requires rest == mText + " " + marker
    requires MatchMinute(rest) == Some((minute, |mText|))
    requires |marker| == 2 && LowerChar(marker[1]) == 'm'
    requires LowerChar(marker[0]) == 'a' || LowerChar(marker[0]) == 'p'
    ensures ParseAfterColon(rest, hour) == Some(Clock(hour, minute, LowerChar(marker[0]) == 'p'))
  {
    assert rest[|mText|..] == " " + marker;
    MarkerAfterSpace(marker);
  }

  /** A single space before an AM/PM marker is skipped, and only it. */
  lemma MarkerAfterSpace(marker: string)
    requires |marker| == 2
    requires LowerChar(marker[0]) == 'a' || LowerChar(marker[0]) == 'p'
    ensures StripLeft(" " + marker) == marker
  {
    var t := " " + marker;
    assert t[1..] == marker;
    assert !IsSpace(marker[0]);
  }

  /** Re-reading a stored time gives back the same time. */
  lemma FormatTimeRoundTrip(t: Clock)
    requires ValidClock(t)
    ensures ParseTime(FormatTime(t)) == Some(t)
  {
    var marker := if t.pm then "PM" else "AM";
    var s := FormatTime(t);
    assert s == TwoDigits(t.hour) + ":" + TwoDigits(t.minute) + " " + marker;
    MatchPaddedHour(t.hour, ":" + TwoDigits(t.minute) + " " + marker);
    assert s == TwoDigits(t.hour) + (":" + TwoDigits(t.minute) + " " + marker);
    MatchPaddedMinute(t.minute, " " + marker);
    assert TwoDigits(t.minute) + " " + marker == TwoDigits(t.minute) + (" " + marker);
    ParseTimeOfParts(s, TwoDigits(t.hour), TwoDigits(t.minute), marker, t.hour, t.minute);
  }

  /** The form a user says, "5:30 PM" (the hour unpadded, the marker in any
      case), is accepted as the intended time. */
  lemma SpokenTimeAccepted(t: Clock, marker: string)
    requires ValidClock(t)
    requires |marker| == 2 && LowerChar(marker[1]) == 'm'
    requires LowerChar(marker[0]) == (if t.pm then 'p' else 'a')
    ensures ParseTime(NatToString(t.hour) + ":" + TwoDigits(t.minute) + " " + marker) == Some(t)
  {
    var s := NatToString(t.hour) + ":" + TwoDigits(t.minute) + " " + marker;
    MatchSpokenHour(t.hour, TwoDigits(t.minute) + " " + marker);
    assert s == NatToString(t.hour) + ":" + (TwoDigits(t.minute) + " " + marker);
    MatchPaddedMinute(t.minute, " " + marker);
    assert TwoDigits(t.minute) + " " + marker == TwoDigits(t.minute) + (" " + marker);
    ParseTimeOfParts(s, NatToString(t.hour), TwoDigits(t.minute), marker, t.hour, t.minute);
  }

  /** An upper-cased text never contains a lower-case word. */
  lemma UpperLacksLowercaseWord(s: string, w: string)
    requires w != [] && 'a' <= w[0] <= 'z'
    ensures !Contains(Upper(s), w)
  {
    if Contains(Upper(s), w) {
      var i :| 0 <= i <= |Upper(s)| && OccursAt(Upper(s), w, i);
      assert Upper(s)[i..i + |w|][0] == Upper(s)[i];
      UpperHasNoLowercase(s, i);
    }
  }

  /** What `handle_reminder` makes of a command. */
  datatype ReminderRequest =
    | AddReminder(task: string, time: Clock, recurring: Option<string>, day: Option<string>)
    | Unparsable   // not exactly one " at ": "couldn't understand the reminder"
    | InvalidTime  // the time fails to parse: "Invalid time format"
    | ShowReminders
    | RemoveReminder(id: string)
    | NotAReminder // handle_reminder returns False

  /** The recurrence step of "remind me to": a "daily" or "weekly" in the
      time text sets the recurrence (and, for weekly, today's name as the
      day) and is cut out of the text. */
  function SplitRecurrence(spoken: string, weekday: string): (r: (Option<string>, Option<string>, string))
    ensures r.0 == None <==> !Contains(spoken, "daily") && !Contains(spoken, "weekly")
    ensures r.0 == None ==> r.1 == None && r.2 == spoken
  {
    if Contains(spoken, "daily") then (Some("daily"), None, Strip(ReplaceAll(spoken, "daily", "")))
    else if Contains(spoken, "weekly") then (Some("weekly"), Some(weekday), Strip(ReplaceAll(spoken, "weekly", "")))
    else (None, None, spoken)
  }

  /** The time text is upper-cased before the recurrence is looked for, so
      no recurrence is ever recognised. */
  lemma RecurrenceNeverRecognised(text: string, weekday: string)
    ensures SplitRecurrence(Upper(text), weekday) == (None, None, Upper(text))
  {
    UpperLacksLowercaseWord(text, "daily");
    UpperLacksLowercaseWord(text, "weekly");
  }

  /** The time text of "remind me to ... at T": T stripped, its dots
      removed, upper-cased. */
  function SpokenTime(timePart: string): string {
    Upper(ReplaceAll(Strip(timePart), ".", ""))
  }

  /** "remind me to" with the phrase already removed from the command. */
  function ParseAddReminder(body: string, weekday: string): (r: ReminderRequest)
    ensures r.Unparsable? || r.InvalidTime? || r.AddReminder?
    ensures r.Unparsable? <==> |Split(body, " at ")| != 2
    ensures r.AddReminder? ==> ValidClock(r.time)
  {
    var parts := Split(body, " at ");
    if |parts| != 2 then Unparsable
    else
      var (recurring, day, timeText) := SplitRecurrence(SpokenTime(parts[1]), weekday);
      match ParseTime(timeText)
      case None => InvalidTime
      case Some(t) => AddReminder(Strip(parts[0]), t, recurring, day)
  }

  /** The parsing part of `handle_reminder`. `weekday` is today's name as
      `strftime("%A")` gives it. */
  function ParseReminderCommand(command: string, weekday: string): (r: ReminderRequest)
    ensures r.AddReminder? ==> ValidClock(r.time)
    ensures r.RemoveReminder? ==> StartsWith(r.id, "reminder-")
  {
    var c := Strip(Lower(command));
    if StartsWith(c, "remind me to") then ParseAddReminder(ReplaceAll(c, "remind me to", ""), weekday)
    else if c == "show reminders" then ShowReminders
    else if StartsWith(c, "remove reminder") then
      var id := Strip(ReplaceAll(c, "remove reminder", ""));
      RemoveReminder(if StartsWith(id, "reminder-") then id else "reminder-" + id)
    else NotAReminder
  }

  /** Every reminder that is added is a one-shot one: neither a recurrence
      nor a day is ever stored. */
  lemma AddedRemindersAreOneShot(command: string, weekday: string)
    ensures var r := ParseReminderCommand(command, weekday);
      r.AddReminder? ==> r.recurring == None && r.day == None
  {
    var c := Strip(Lower(command));
    if StartsWith(c, "remind me to") {
      AddNeverRecurs(ReplaceAll(c, "remind me to", ""), weekday);
    }
  }

  /** The body of "remind me to" never yields a recurrence or a day. */
  lemma AddNeverRecurs(body: string, weekday: string)
    ensures var r := ParseAddReminder(body, weekday);
      r.AddReminder? ==> r.recurring == None && r.day == None
  {
    var parts := Split(body, " at ");
    if |parts| == 2 {
      RecurrenceNeverRecognised(ReplaceAll(Strip(parts[1]), ".", ""), weekday);
    }
  }

  /** `handle_reminder` declines exactly the commands that, lower-cased and
      stripped, match none of its three forms. */
  lemma DeclinedCommands(command: string, weekday: string)
    ensures var c := Strip(Lower(command));
      ParseReminderCommand(command, weekday).NotAReminder?
      <==> !StartsWith(c, "remind me to") && c != "show reminders" && !StartsWith(c, "remove reminder")
  {
  }

  /** "remove reminder X" names "reminder-X", or X itself when it already
      carries the prefix. */
  lemma RemoveNormalisesId(command: string, weekday: string)
    requires var c := Strip(Lower(command));
      !StartsWith(c, "remind me to") && c != "show reminders" && StartsWith(c, "remove reminder")
    ensures var x := Strip(ReplaceAll(Strip(Lower(command)), "remove reminder", ""));
      ParseReminderCommand(command, weekday)
      == RemoveReminder(if StartsWith(x, "reminder-") then x else "reminder-" + x)
  {
  }

  /** A recurrence word at the end of the time leaves the time unparsable:
      "remind me to X at 5:30 pm daily" is refused as an invalid time. */
  lemma TrailingRecurrenceRejected(body: string, weekday: string, word: string)
    requires word == "daily" || word == "weekly"
    requires var parts := Split(body, " at ");
      |parts| == 2 && EndsWith(Strip(parts[1]), word)
    ensures ParseAddReminder(body, weekday) == InvalidTime
  {
    var parts := Split(body, " at ");
    var spoken := SpokenTime(parts[1]);
    SpokenTimeEndsInY(parts[1], word, weekday);
    NoMarkerNoTime(spoken);
  }

  /** A text ending in 'Y' has no AM/PM marker, so it is no time. */
  lemma NoMarkerNoTime(s: string)
    requires |s| > 0 && s[|s| - 1] == 'Y'
    ensures ParseTime(s) == None
  {
    assert LowerChar(s[|s| - 1]) == 'y';
  }

  /** A time text ending in "daily" or "weekly" is kept whole, and ends in
      'Y' once upper-cased. */
  lemma SpokenTimeEndsInY(timePart: string, word: string, weekday: string)
    requires word == "daily" || word == "weekly"
    requires EndsWith(Strip(timePart), word)
    ensures var spoken := SpokenTime(timePart);
      && SplitRecurrence(spoken, weekday) == (None, None, spoken)
      && |spoken| > 0 && spoken[|spoken| - 1] == 'Y'
  {
    var trimmed := Strip(timePart);
    LastOfSuffix(trimmed, word);
    var dotless := ReplaceAll(trimmed, ".", "");
    LastCharSurvivesReplace(trimmed, '.');
    RecurrenceNeverRecognised(dotless, weekday);
    UpperLast(dotless);
  }

  /** A text ending in a word ends in the word's last character. */
  lemma LastOfSuffix(s: string, word: string)
    requires word != [] && EndsWith(s, word)
    ensures |s| > 0 && s[|s| - 1] == word[|word| - 1]
  {
    assert s[|s| - |word|..][|word| - 1] == s[|s| - 1];
  }

  /** Upper-casing a text ending in 'y' gives a text ending in 'Y'. */
  lemma UpperLast(s: string)
    requires |s| > 0 && s[|s| - 1] == 'y'
    ensures Upper(s)[|s| - 1] == 'Y'
  {
  }

  /** Removing every `c` from a text that does not end in `c` keeps its last character. */
  lemma {:induction false} LastCharSurvivesReplace(s: string, c: char)
    requires |s| > 0 && s[|s| - 1] != c
    ensures var r := ReplaceAll(s, [c], "");
      |r| > 0 && r[|r| - 1] == s[|s| - 1]
    decreases |s|
  {
    if |s| > 1 {
      LastCharSurvivesReplace(s[1..], c);
    }
  }

  /** The id a new reminder gets: one more than the number of entries. */
  function NextReminderId(m: map<string, Reminder>): string {
    "reminder-" + NatToString(|m| + 1)
  }

  /** The effect of a parsed command on the store. */
  function ApplyReminderRequest(m: map<string, Reminder>, req: ReminderRequest): (r: map<string, Reminder>)
    requires req.AddReminder? ==> ValidClock(req.time)
    ensures req.AddReminder? ==>
      r.Keys == m.Keys + {NextReminderId(m)}
      && r[NextReminderId(m)].task == req.task && r[NextReminderId(m)].time == FormatTime(req.time)
      && r[NextReminderId(m)].recurring == req.recurring
      && forall k :: k in m && k != NextReminderId(m) ==> r[k] == m[k]
    ensures req.RemoveReminder? ==> r.Keys == m.Keys - {req.id} && forall k :: k in r ==> r[k] == m[k]
    ensures !req.AddReminder? && !req.RemoveReminder? ==> r == m
  {
    match req
    case AddReminder(task, t, recurring, day) =>
      m[NextReminderId(m) := Reminder(task, FormatTime(t), recurring, if day.Some? && day.value != "" then day else None)]
    case RemoveReminder(id) => m - {id}
    case _ => m
  }

  /** A new reminder is stored under "reminder-(n+1)" for a store of n
      entries, with its time re-rendered as "HH:MM AM/PM"; when that id is
      still taken (after an earlier removal) its entry is overwritten and the
      store does not grow. Nothing else changes. */
  lemma AddUsesNextId(m: map<string, Reminder>, task: string, t: Clock)
    requires ValidClock(t)
    ensures var m' := ApplyReminderRequest(m, AddReminder(task, t, None, None));
      var id := "reminder-" + NatToString(|m| + 1);
      && id in m'
      && m'[id] == Reminder(task, FormatTime(t), None, None)
      && (forall k :: k in m && k != id ==> k in m' && m'[k] == m[k])
      && m'.Keys == m.Keys + {id}
      && |m'| == (if id in m then |m| else |m| + 1)
  {
  }

  /** Two reminders, the first removed: the next one added takes the id of
      the survivor and replaces it. */
  lemma RemovalThenAddOverwrites(a: Reminder, b: Reminder, task: string, t: Clock)
    requires ValidClock(t)
    ensures var m0 := map["reminder-1" := a, "reminder-2" := b];
      var m1 := ApplyReminderRequest(m0, RemoveReminder("reminder-1"));
      var m2 := ApplyReminderRequest(m1, AddReminder(task, t, None, None));
      m2 == map["reminder-2" := Reminder(task, FormatTime(t), None, None)]
  {
    var m0 := map["reminder-1" := a, "reminder-2" := b];
    assert "reminder-1" != "reminder-2" by {
      assert "reminder-1"[9] != "reminder-2"[9];
    }
    var m1 := ApplyReminderRequest(m0, RemoveReminder("reminder-1"));
    assert m1 == map["reminder-2" := b];
    assert |m1| == 1;
    assert NatToString(2) == "2";
    assert NextReminderId(m1) == "reminder-2";
  }

  /** "remove reminder" deletes exactly the named key, if present. */
  lemma RemoveTouchesOnlyItsKey(m: map<string, Reminder>, id: string)
    ensures var m' := ApplyReminderRequest(m, RemoveReminder(id));
      id !in m' && (forall k :: k in m && k != id ==> k in m' && m'[k] == m[k])
      && (id !in m ==> m' == m)
  {
  }

  /** The line "show reminders" speaks for one entry. */
  function ReminderLine(id: string, r: Reminder): string {
    id + ": " + r.task + " at " + r.time
    + (if IsRecurring(r) then " (" + r.recurring.value + ")" else "")
  }

  /** The lines of the "show reminders" listing, one per entry. */
  function Listing(m: map<string, Reminder>): set<string> {
    set id | id in m :: ReminderLine(id, m[id])
  }

  /** `info.get("recurring")` is truthy: present, not null, not empty. */
  predicate IsRecurring(r: Reminder) {
    r.recurring.Some? && r.recurring.value != ""
  }

  /** The poller's rule: the entry's time equals the current formatted time
      and, for a weekly entry, its lower-cased day is today. */
  predicate Fires(r: Reminder, now: Clock, weekday: string)
    requires ValidClock(now)
  {
    r.time == FormatTime(now)
    && (r.recurring == Some("weekly") ==> Lower(r.day.GetOr("")) == Lower(weekday))
  }

  /** A fired entry is deleted when it is not recurring. */
  predicate Expires(r: Reminder, now: Clock)
    requires ValidClock(now)
  {
    r.time == FormatTime(now) && !IsRecurring(r)
  }

  /** The ids a pass fires. */
  function FiredBy(m: map<string, Reminder>, now: Clock, weekday: string): set<string>
    requires ValidClock(now)
  {
    set id | id in m && Fires(m[id], now, weekday)
  }

  /** The store a pass leaves behind. */
  function AfterPass(m: map<string, Reminder>, now: Clock): map<string, Reminder>
    requires ValidClock(now)
  {
    map id | id in m && !Expires(m[id], now) :: m[id]
  }

  /** The ids a pass deletes: the fired one-shot entries. */
  function ExpiredBy(m: map<string, Reminder>, now: Clock): set<string>
    requires ValidClock(now)
  {
    set id | id in m && Expires(m[id], now)
  }

  /** One pass of `check_reminders` over the loaded store: fire every entry
      that matches, collect the one-shot ones, then delete those. The store
      is to be saved only when something was deleted. */
  method CheckRemindersPass(reminders: map<string, Reminder>, now: Clock, weekday: string)
    returns (fired: set<string>, remaining: map<string, Reminder>, save: bool)
    requires ValidClock(now)
    ensures fired == FiredBy(reminders, now, weekday)
    ensures remaining == AfterPass(reminders, now)
    ensures save <==> remaining.Keys != reminders.Keys
  {
    var toRemove;
    fired, toRemove := ScanReminders(reminders, now, weekday);
    remaining := DeleteAll(reminders, toRemove);
    assert remaining == AfterPass(reminders, now);
    save := toRemove != {};
    if save {
      var id :| id in toRemove;
      assert id in reminders.Keys && id !in remaining.Keys;
    } else {
      assert remaining.Keys == reminders.Keys;
    }
  }

  /** The first loop of `check_reminders`: the entries that fire, and the
      one-shot ones among them to delete. */
  method ScanReminders(reminders: map<string, Reminder>, now: Clock, weekday: string)
    returns (fired: set<string>, toRemove: set<string>)
    requires ValidClock(now)
    ensures fired == FiredBy(reminders, now, weekday)
    ensures toRemove == ExpiredBy(reminders, now)
  {
    var current := FormatTime(now);
    fired, toRemove := {}, {};
    var pending := reminders.Keys;
    while pending != {}
      invariant pending <= reminders.Keys
      invariant forall id :: id in fired <==> id in reminders && id !in pending && Fires(reminders[id], now, weekday)
      invariant forall id :: id in toRemove <==> id in reminders && id !in pending && Expires(reminders[id], now)
      decreases |pending|
    {
      var id :| id in pending;
      var info := reminders[id];
      if info.time == current {
        if !IsRecurring(info) {
          toRemove := toRemove + {id};
          fired := fired + {id};
        } else if info.recurring.value == "weekly" && Lower(info.day.GetOr("")) != Lower(weekday) {
          // skipped until the day matches
        } else {
          fired := fired + {id};
        }
      }
      pending := pending - {id};
    }
  }

  /** The second loop of `check_reminders`: every collected id is popped. */
  method DeleteAll(reminders: map<string, Reminder>, toRemove: set<string>)
    returns (remaining: map<string, Reminder>)
    ensures remaining == reminders - toRemove
  {
    remaining := reminders;
    var popping := toRemove;
    while popping != {}
      invariant popping <= toRemove
      invariant forall id :: id in remaining <==> id in reminders && (id in popping || id !in toRemove)
      invariant forall id :: id in remaining ==> remaining[id] == reminders[id]
      decreases |popping|
    {
      var id :| id in popping;
      remaining := remaining - {id};
      popping := popping - {id};
    }
  }

  /** Recurring entries are never deleted by a pass, and entries whose time
      does not match are neither fired nor deleted. */
  lemma PassKeepsRecurringAndUnmatched(m: map<string, Reminder>, now: Clock, weekday: string, id: string)
    requires ValidClock(now) && id in m
    requires IsRecurring(m[id]) || m[id].time != FormatTime(now)
    ensures id in AfterPass(m, now) && AfterPass(m, now)[id] == m[id]
    ensures m[id].time != FormatTime(now) ==> id !in FiredBy(m, now, weekday)
  {
  }

  /** The deleted entries are exactly the fired ones that are not recurring. */
  lemma PassDeletesFiredOneShots(m: map<string, Reminder>, now: Clock, weekday: string)
    requires ValidClock(now)
    ensures m.Keys - AfterPass(m, now).Keys == set id | id in FiredBy(m, now, weekday) && !IsRecurring(m[id])
  {
  }

  /** A weekly entry at the current time fires exactly on its own weekday;
      any other recurrence fires on the time alone. */
  lemma WeeklyFiresOnItsDay(r: Reminder, now: Clock, weekday: string)
    requires ValidClock(now) && r.time == FormatTime(now)
    ensures r.recurring == Some("weekly") ==> (Fires(r, now, weekday) <==> Lower(r.day.GetOr("")) == Lower(weekday))
    ensures r.recurring != Some("weekly") ==> Fires(r, now, weekday)
  {
  }

  /** A second pass in the same minute deletes nothing more and fires only
      the recurring entries again. */
  lemma SecondPassSameMinute(m: map<string, Reminder>, now: Clock, weekday: string)
    requires ValidClock(now)
    ensures AfterPass(AfterPass(m, now), now) == AfterPass(m, now)
    ensures FiredBy(AfterPass(m, now), now, weekday)
            == set id | id in FiredBy(m, now, weekday) && IsRecurring(m[id])
  {
  }

  /** reminders.json, loaded and saved whole around every command. */
  class ReminderFile {
    var reminders: map<string, Reminder>

    /** The module creates the file holding `{}` when it is missing. */
    constructor ()
      ensures reminders == map[]
    {
      reminders := map[];
    }

    /** `handle_reminder`: returns whether the command was a reminder
        command, and for "show reminders" the lines of its listing. */
    method HandleReminder(command: string, weekday: string) returns (handled: bool, lines: set<string>)
      modifies this
      ensures var req := ParseReminderCommand(command, weekday);
        && handled == !req.NotAReminder?
        && reminders == ApplyReminderRequest(old(reminders), req)
        && lines == (if req.ShowReminders? then Listing(old(reminders)) else {})
    {
      var req := ParseReminderCommand(command, weekday);
      handled, lines := Perform(req);
    }

    /** The store side of `handle_reminder` once the command is parsed. */
    method Perform(req: ReminderRequest) returns (handled: bool, lines: set<string>)
      requires req.AddReminder? ==> ValidClock(req.time)
      modifies this
      ensures handled == !req.NotAReminder?
      ensures reminders == ApplyReminderRequest(old(reminders), req)
      ensures lines == (if req.ShowReminders? then Listing(old(reminders)) else {})
    {
      lines := {};
      match req {
        case AddReminder(task, t, recurring, day) =>
          var id := NextReminderId(reminders);
          var entry := Reminder(task, FormatTime(t), recurring, None);
          if day.Some? && day.value != "" {
            entry := entry.(day := day);
          }
          reminders := reminders[id := entry];
          handled := true;
        case Unparsable =>
          handled := true;
        case InvalidTime =>
          handled := true;
        case ShowReminders =>
          lines := Listing(reminders);
          handled := true;
        case RemoveReminder(id) =>
          if id in reminders {
            reminders := reminders - {id};
          } else {
            assert reminders - {id} == reminders;
          }
          handled := true;
        case NotAReminder =>
          handled := false;
      }
    }

    /** One pass of the poller at time `now` on weekday `weekday`: the ids
        fired, and the store saved back when entries were deleted. */
    method Poll(now: Clock, weekday: string) returns (fired: set<string>)
      requires ValidClock(now)
      modifies this
      ensures fired == FiredBy(old(reminders), now, weekday)
      ensures reminders == AfterPass(old(reminders), now)
    {
      var remaining, save;
      fired, remaining, save := CheckRemindersPass(reminders, now, weekday);
      if save {
        reminders := remaining;
      } else {
        assert remaining == reminders;
      }
    }
  }
}
