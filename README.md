# Outage-schedule bot: change detection and notification

A Dafny model of the core of the light-schedule Telegram bot. The bot keeps
the last schedule of power outages it has seen. It compares that schedule
with a fresh one, classifies what changed per group, finds the subscribers
of each changed group, and sends each of them a rendered notification.
Around that pipeline sit the small parsers and renderers it depends on, and
the admin /ban and /unban commands.

Modules, one per source file, plus three shared ones:

- `Base`: the Python string built-ins the code relies on. These are
  `strip`, `upper`/`lower`, `isdigit`, `str(int)`, `int(str)`,
  `str.split(c)`, `c.join` and `str.split()`.
- `GroupNumbers`: the regular-expression capture `\d+\.?\d*` and its
  `float()`, kept as an exact decimal.
- `Fanout`: the per-user send loop of all notifiers, and the trace of
  events a cycle produces. The events are send attempts, pauses and file
  writes. The two monitors are throttled: they pause after every message
  that goes through. The watcher's loop has no pause.
- `LightSchedule`: utils/light_schedule.py. It holds the list diff
  `get_changed_groups`, the group search `get_group_schedule`, and
  `format_schedule_to_text` with its durations in integer minutes.
- `GithubSchedule`: utils/github_schedule.py. It holds `parse_group_number`,
  the status legend, the day lookup, the display name and the 24-line layout
  of `format_schedule_text`.
- `GithubMonitor`: app/business/github_schedule_monitor.py. It holds the
  snapshot comparison, the key-number extractor, the header-stripping scan
  and the `GitHubScheduleMonitor` class.
- `ScheduleMonitor`: app/business/schedule_monitor.py. It holds the name
  number extractor, the notification templates and the `ScheduleMonitor`
  class.
- `ScheduleWatcher`: app/business/schedule_watcher.py. It holds the line of
  a group, the message templates and the `ScheduleWatcher` class.
- `Ban`: app/handlers/admin/ban.py. It holds `check_args_type`,
  `get_ban_text` and the per-id loop of `ban_unban_users_command`.

The three notifiers are classes. Each has a field `stored`, which stands for
the persisted previous schedule, and a field `trace`, which records in order
everything the cycle does to the outside world. Each cycle method is proved
against a specification function (`CycleEvents`, `NextStored`). The
properties are lemmas about those functions: first-run behaviour, saving
last, no save without changes, failure isolation, and quiet repetition.
Inputs from outside the program are parameters:

- the fetched snapshot;
- the database's user query (`usersFor`, `usersByLine`);
- the Telegram send outcome per user (`sendOk`);
- the status update of the admin commands (`updateOk`).

## Model

| member | source | states |
|---|---|---|
| Base.Strip | utils/github_schedule.py:133 | `str.strip()`: the result is no longer than the input and neither starts nor ends with whitespace |
| Base.StripIsSlice | utils/github_schedule.py:133 | `str.strip()` keeps the slice of the input left after cutting only whitespace from the front and from the back |
| Base.StripNoOp | utils/github_schedule.py:133 | a text that neither starts nor ends with whitespace is its own strip |
| Base.UpperIdempotent | utils/github_schedule.py:133 | `str.upper()` of an upper-cased text changes nothing |
| Base.LowerIdempotent | utils/light_schedule.py:132 | `str.lower()` of a lower-cased text changes nothing |
| Base.LowerOfUpper | utils/light_schedule.py:132 | upper-casing first does not change the lower-cased text, so comparing after `lower()` ignores case |
| Base.UpperOfLower | utils/github_schedule.py:133 | lower-casing first does not change the upper-cased text |
| Base.NormalIdempotent | utils/github_schedule.py:133 | applying strip-then-upper twice gives the same text as once |
| Base.NatToString | utils/github_schedule.py:260 | `str(n)` is a non-empty run of digits with no leading zero |
| Base.ParseIntOfIntToString | utils/light_schedule.py:179 | `int(str(i)) == i` for every integer |
| Base.DigitsValueOfNatToString | utils/light_schedule.py:179 | the digits `str(n)` writes have the value n |
| Base.SplitOn | utils/light_schedule.py:179 | `str.split(c)` gives one more piece than there are separators, and no piece holds the separator |
| Base.JoinSplit | app/business/github_schedule_monitor.py:248-260 | joining the pieces of a split with the separator gives back the text |
| Base.SplitJoin | app/business/github_schedule_monitor.py:248-260 | splitting pieces joined by a separator they lack gives back the pieces |
| Base.Words | app/business/schedule_watcher.py:76 | `str.split()` gives only non-empty pieces free of whitespace |
| Base.WordsSplitAtSpace | app/business/schedule_watcher.py:76 | a whitespace character separates words: the words of `a + c + b` are those of `a` followed by those of `b` |
| GroupNumbers.CaptureAt | app/business/schedule_monitor.py:139 | the greedy match of `\d+\.?\d*` is a prefix of the text, and nothing right after it could extend it |
| GroupNumbers.CaptureBefore | app/business/schedule_monitor.py:139 | a capture followed by text that cannot continue it is matched back exactly |
| GroupNumbers.ToDecimalExact | app/business/schedule_monitor.py:142 | two captures give the same decimal exactly when they denote the same number: integer part plus fraction digits over ten to their count |
| GroupNumbers.CanonicalCaptureRoundTrip | app/business/github_schedule_monitor.py:246 | `str(float(c)) == c` for a capture written the way `str(float)` writes numbers |
| Fanout.SendAll | app/business/schedule_monitor.py:105-115 | the inner send loop yields the attempts for users in order, each successful one followed by a pause when throttled, and `sent_count` is the number of successes |
| Fanout.EveryUserAttempted | app/business/schedule_monitor.py:106-115 | every user is attempted exactly once and in order, whatever the sends answer |
| Fanout.SentCountIsSuccesses | app/business/schedule_monitor.py:111 | `sent_count` equals the number of attempts that went through, and at most the number of users |
| Fanout.OneFailureCostsOne | app/business/github_schedule_monitor.py:158-167 | with exactly one failing recipient, all the others are still reached |
| Fanout.AllDelivered | app/business/github_schedule_monitor.py:158-167 | when no send fails, every user is counted |
| Fanout.PauseFollowsDelivery | app/business/github_schedule_monitor.py:163-165 | a pause only follows a delivered message of a throttled sender, and sending never writes the file |
| Fanout.PausesPerDelivery | app/business/github_schedule_monitor.py:160-165 | a throttled sender pauses once per message that went through; an unthrottled one never pauses |
| Fanout.BroadcastAttempted | app/business/schedule_monitor.py:80-123 | over many notifications, all of each audience is attempted in order, the successes are the deliveries, the pauses are one per delivery when throttled and none otherwise, and nothing is saved |
| LightSchedule.Names | utils/light_schedule.py:276-277 | the keys of `{s["group_name"]: s}` are distinct and are exactly the names in the list |
| LightSchedule.Lookup | utils/light_schedule.py:276-277 | a name has a value exactly when the list holds it, and that value is an entry with that name |
| LightSchedule.LookupLastWins | utils/light_schedule.py:276-277 | with duplicate names, the last entry wins |
| LightSchedule.BuildIndex | utils/light_schedule.py:276-277 | the loop building the dictionary gives the keys in order and the value the comprehension stores |
| LightSchedule.GetChangedGroups | utils/light_schedule.py:262-304 | the two loops return the records `ChangedGroups` defines |
| LightSchedule.CheckCurrentGroups | utils/light_schedule.py:280-297 | the first loop gives the `new` and `updated` records in current key order |
| LightSchedule.CheckDeletedGroups | utils/light_schedule.py:300-302 | the second loop gives the `deleted` records in previous key order |
| LightSchedule.RecordsForName | utils/light_schedule.py:280-302 | for every name, the records about it are exactly one `new` (only in current), one `deleted` (only in previous), one `updated` with both schedules (periods differ), or none |
| LightSchedule.SelfDiffEmpty | utils/light_schedule.py:276-297 | comparing a list with itself reports nothing, duplicates or not |
| LightSchedule.EmptyPreviousAllNew | utils/light_schedule.py:280-285 | against an empty previous list, every current key yields one `new` record carrying its current entry, in key order |
| LightSchedule.ChangeOrder | utils/light_schedule.py:276-302 | `new`/`updated` records come first in current key order, then `deleted` records in previous key order |
| LightSchedule.OnlyThreeKinds | utils/light_schedule.py:283-302 | the diff only makes `new`, `updated` and `deleted` records |
| LightSchedule.GetGroupSchedule | utils/light_schedule.py:130-140 | the two scans return the first case-insensitive exact match, else the first substring match, else None |
| LightSchedule.FirstExact | utils/light_schedule.py:131-133 | the index found is the first whose lower-cased name equals the query; None means no entry matches |
| LightSchedule.FirstPartial | utils/light_schedule.py:136-138 | the index found is the first whose lower-cased name contains the query; None means no entry does |
| LightSchedule.GroupMatchNoneIff | utils/light_schedule.py:130-140 | the search fails exactly when no name contains the query, and a result is a matching list entry |
| LightSchedule.GroupMatchPrefersExact | utils/light_schedule.py:130-138 | an exact match anywhere beats an earlier partial match |
| LightSchedule.GroupNamesAreKeys | utils/light_schedule.py:114 | the names it lists are the keys the diff compares |
| LightSchedule.ClockOfParts | utils/light_schedule.py:179-184 | a time `a:b` whose parts parse to h and m is minute `h*60+m` |
| LightSchedule.ClockMinutesOfPad2 | utils/light_schedule.py:179-184 | a clock time written `HH:MM` reads back as its minute of the day |
| LightSchedule.ElapsedWithinDay | utils/light_schedule.py:186-190 | for two times of one day, the midnight wrap gives the unique duration under a day that takes the start to the end |
| LightSchedule.DurationNonNegative | utils/light_schedule.py:183-190 | a period between two times of the day has a duration, never negative and under a day |
| LightSchedule.DurationPastDayEnd | utils/light_schedule.py:187-190 | a start past 24:00 with end 00:00 gets a negative duration: one wrap is not enough |
| LightSchedule.HoursTextWhole | utils/light_schedule.py:193-198 | a whole number of hours is written as an integer that `int()` reads back |
| LightSchedule.HoursTextNearest | utils/light_schedule.py:199-200 | any other duration that is not a tie between two tenths is written as the nearest tenth of an hour |
| LightSchedule.DurationText | utils/light_schedule.py:176-207 | the duration text is empty exactly when the times do not parse |
| LightSchedule.FormatScheduleToText | utils/light_schedule.py:143-236 | the loop over the periods builds the text `ScheduleText` defines, with the not-found text for a missing schedule |
| LightSchedule.FormatPeriods | utils/light_schedule.py:170-215 | the loop over the periods gives their lines in order and the on- and off-totals that `StatusMinutes` defines |
| LightSchedule.FormatPeriod | utils/light_schedule.py:171-215 | one period's line, and its minutes added to the on-total or the off-total only |
| LightSchedule.OnlyCountedPeriodsMatter | utils/light_schedule.py:202-205 | only periods with the status, whose times parse, count towards its total |
| LightSchedule.NothingCountedNoMinutes | utils/light_schedule.py:202-207 | periods of other statuses, or with unparsable times, add nothing |
| LightSchedule.StatusMinutesBounds | utils/light_schedule.py:202-205 | a total over times of the day is between zero and a full day per period |
| GithubSchedule.DigitsAndDots | utils/github_schedule.py:142 | one character is kept exactly when it is a digit or a dot; the result holds only digits and dots, and such a text is kept whole |
| GithubSchedule.DigitsAndDotsAppend | utils/github_schedule.py:142 | the filter goes character by character: filtering a concatenation concatenates the filtered parts |
| GithubSchedule.ParseGroupNumber | utils/github_schedule.py:122-154 | every key returned starts with `GPV` |
| GithubSchedule.CleanedKeyOneDot | utils/github_schedule.py:144-154 | the digits and dots give a key exactly when they hold one dot, and the key is `GPV` followed by them |
| GithubSchedule.ParseGroupNumberOther | utils/github_schedule.py:139-154 | text not starting with `GPV` gives a key exactly when one dot remains after cleaning, and the key is `GPV` + cleaned text |
| GithubSchedule.ParseGroupNumberPrefixed | utils/github_schedule.py:133-137 | text that stripped and upper-cased starts with `GPV` is returned in that form |
| GithubSchedule.DigitsDotsKey | utils/github_schedule.py:142-154 | digits and dots starting with a digit give `GPV` + the text exactly when there is one dot |
| GithubSchedule.ParseGroupNumberIdempotent | utils/github_schedule.py:133-149 | parsing a key returned by the parser gives it back unchanged |
| GithubSchedule.ParseGroupNumberOfDecimal | utils/github_schedule.py:142-149 | the text `str(float)` writes for a group number parses to `GPV` + that text |
| GithubSchedule.StatusLegend | utils/github_schedule.py:287-306 | a known status keeps its icon and takes the legend's text when present, else the built-in one; any other is the unknown icon with `Невідомо` |
| GithubSchedule.KnownStatuses | utils/github_schedule.py:287-301 | exactly seven statuses are known |
| GithubSchedule.GroupScheduleForDay | utils/github_schedule.py:157-190 | a day schedule is found exactly when the document is present, a day is known and nonzero, and the group is under it; it is the stored hours |
| GithubSchedule.DayKeyDistinct | utils/github_schedule.py:185 | the day key is the decimal text of the timestamp, so it names one day only |
| GithubSchedule.DisplayName | utils/github_schedule.py:327-345 | the display name is `sch_names[key]` when present, else the key itself |
| GithubSchedule.FormatScheduleText | utils/github_schedule.py:193-273 | the nested loops build the text `DayScheduleText` defines |
| GithubSchedule.FormatBlocks | utils/github_schedule.py:248-264 | the loop over the two blocks gives their texts in order |
| GithubSchedule.FormatBlock | utils/github_schedule.py:249-264 | one block is its title, its hour lines in order and a blank line |
| GithubSchedule.FormatHours | utils/github_schedule.py:251-262 | the loop over the hours of a block gives the 24-line day's lines of those hours, in order |
| GithubSchedule.FormatHour | utils/github_schedule.py:252-262 | one hour's line |
| GithubSchedule.TwoBlocksOf24Lines | utils/github_schedule.py:243-262 | hours 1-12 come under the morning title, then hours 13-24 under the evening title |
| GithubSchedule.HourLabelTimes | utils/github_schedule.py:258-260 | hour h is labelled `{h-1:02d}:00-{h:02d}:00`, with the two hours in two digits each |
| GithubSchedule.MissingHourUnknown | utils/github_schedule.py:252-255 | a missing hour is shown with the unknown icon and text |
| GithubSchedule.HoursDecideBlocks | utils/github_schedule.py:251-252 | only hours 1 to 24 reach the text: days agreeing on them render the same blocks |
| GithubSchedule.DayScheduleOutcomes | utils/github_schedule.py:205-214 | the result is the parse-error text, the not-found text or the schedule; only a missing second document read raises |
| GithubMonitor.CompareSchedules | app/business/github_schedule_monitor.py:81-122 | the comparison loop over the union of groups returns the set `ChangedKeys` defines |
| GithubMonitor.CompareDays | app/business/github_schedule_monitor.py:111-119 | the loop over the union of both days' groups keeps exactly the groups whose schedules differ, a missing group counting as empty |
| GithubMonitor.ChangedKeysIff | app/business/github_schedule_monitor.py:106-119 | a key is reported exactly when its hours on the current day differ, with a missing group read as `{}` |
| GithubMonitor.ChangedKeysWithoutDay | app/business/github_schedule_monitor.py:99-103 | without a current day, nothing is reported |
| GithubMonitor.ChangedKeysSelf | app/business/github_schedule_monitor.py:111-119 | a snapshot compared with itself reports nothing |
| GithubMonitor.ChangedKeysNewDay | app/business/github_schedule_monitor.py:107-119 | on a day the stored snapshot lacks, every group with non-empty hours today is reported |
| GithubMonitor.GpvFrom | app/business/github_schedule_monitor.py:191 | the position found is the leftmost where `GPV` and a digit start |
| GithubMonitor.ExtractGroupNumber | app/business/github_schedule_monitor.py:177-197 | the number is a decimal without trailing zeros; None exactly when no `GPV` is followed by a digit |
| GithubMonitor.ExtractOfKey | app/business/github_schedule_monitor.py:191-194 | the key `GPV` + `str(n)` gives back n |
| GithubMonitor.ExtractAfterPrefix | app/business/github_schedule_monitor.py:191-194 | a key starting with `GPV` and a digit is read from right after the prefix |
| GithubMonitor.ExtractThenRenderKey | app/business/github_schedule_monitor.py:236-246 | the number of a key, written by `str(float)` and parsed again, gives back the key |
| GithubMonitor.FirstLineWith | app/business/github_schedule_monitor.py:252-257 | the line found is the first that contains the character |
| GithubMonitor.StripScheduleHeader | app/business/github_schedule_monitor.py:248-263 | the scan with its `break` returns the text `StrippedBody` defines |
| GithubMonitor.StrippedBodyAfterSeparator | app/business/github_schedule_monitor.py:252-261 | everything up to the first separator line and the blank line after it is dropped |
| GithubMonitor.StrippedBodyAfterHeader | app/business/github_schedule_monitor.py:246-261 | the header of a rendered schedule is dropped exactly |
| GithubMonitor.StrippedBodyWithoutSeparator | app/business/github_schedule_monitor.py:259-263 | a text without a separator is kept whole |
| GithubMonitor.FormatNotification | app/business/github_schedule_monitor.py:219-271 | the notification for a group is the text `NotificationText` defines |
| GithubMonitor.ScheduleShown | app/business/github_schedule_monitor.py:244-261 | a group with hours today is shown with its header and blocks, header dropped |
| GithubMonitor.NotificationCarriesSchedule | app/business/github_schedule_monitor.py:239-261 | the notification is the alert header followed by the hours and footer of the rendered schedule |
| GithubMonitor.GitHubScheduleMonitor.CheckAndNotify | app/business/github_schedule_monitor.py:40-79 | one cycle appends the events `CycleEvents` defines and leaves the file `NextStored` defines |
| GithubMonitor.GitHubScheduleMonitor.Save | app/business/github_schedule_monitor.py:293-307 | the file holds the snapshot and the write is the last event |
| GithubMonitor.GitHubScheduleMonitor.SendNotifications | app/business/github_schedule_monitor.py:124-175 | every changed group is taken once, in the order the set yields, and notified to its recipients |
| GithubMonitor.GitHubScheduleMonitor.NotifyGroup | app/business/github_schedule_monitor.py:136-172 | a group without a number, with number 0 or with no users sends nothing; otherwise its notification goes to every user in turn |
| GithubMonitor.GitHubScheduleMonitor.Deliver | app/business/github_schedule_monitor.py:153-167 | the notification is formatted once and tried for every user in turn; the stored file is untouched |
| GithubMonitor.CycleSavesLast | app/business/github_schedule_monitor.py:53-76 | the file is written at most once, as the last event, with the current snapshot; it is not written exactly when the snapshot is missing or nothing changed on its day, so a first run writes it; it changes exactly when written |
| GithubMonitor.CycleAttempted | app/business/github_schedule_monitor.py:53-71 | the recipients of the changed groups are attempted whatever the sends answer; an absent snapshot or a first run sends nothing |
| GithubMonitor.RepeatedCycleQuiet | app/business/github_schedule_monitor.py:58-76 | a second cycle seeing the same snapshot does nothing |
| ScheduleMonitor.FirstDigitFrom | app/business/schedule_monitor.py:139 | the position found is the leftmost digit |
| ScheduleMonitor.ExtractNumber | app/business/schedule_monitor.py:125-145 | the number is a decimal without trailing zeros; None exactly when the name has no digit |
| ScheduleMonitor.ExtractFirstNumber | app/business/schedule_monitor.py:139-142 | the first number in the name is taken, whatever follows it |
| ScheduleMonitor.ExtractOfName | app/business/schedule_monitor.py:139-142 | a name such as `Група 3.1` gives back its number |
| ScheduleMonitor.FormatNotification | app/business/schedule_monitor.py:167-194 | the notification of a record is the text `NotificationText` defines |
| ScheduleMonitor.NotificationEndsWithSchedule | app/business/schedule_monitor.py:181-187 | a `new` or `updated` notification ends with the rendered schedule after the change |
| ScheduleMonitor.UpdatedIgnoresOld | app/business/schedule_monitor.py:184-187 | the old schedule of an update is never rendered, and the update notice differs from the `new` one |
| ScheduleMonitor.HeadingAvoidsBulb | app/business/schedule_monitor.py:181-192 | no heading holds the bulb unless the group name does |
| ScheduleMonitor.ScheduleShownIff | app/business/schedule_monitor.py:181-192 | a notification holds a rendered schedule exactly for a `new` or `updated` record |
| ScheduleMonitor.NotifiedInOrder | app/business/schedule_monitor.py:80-123 | every recipient of every record is attempted in list order; the successes are the deliveries |
| ScheduleMonitor.RecipientsOfName | app/business/schedule_monitor.py:86-93 | a record goes to the users of the number in its name |
| ScheduleMonitor.ScheduleMonitor.CheckAndNotify | app/business/schedule_monitor.py:31-70 | one cycle appends the events `CycleEvents` defines and leaves the file `NextStored` defines |
| ScheduleMonitor.ScheduleMonitor.Save | app/business/schedule_monitor.py:214-234 | the file holds the list and the write is the last event |
| ScheduleMonitor.ScheduleMonitor.SendNotifications | app/business/schedule_monitor.py:72-123 | the records are notified one by one in list order |
| ScheduleMonitor.ScheduleMonitor.NotifyChange | app/business/schedule_monitor.py:84-120 | a record without a number, with number 0 or with no users sends nothing; otherwise every user is attempted and `sent_count` counts the successes |
| ScheduleMonitor.ScheduleMonitor.Deliver | app/business/schedule_monitor.py:102-115 | the formatted notification goes to every user in turn |
| ScheduleMonitor.CycleSavesLast | app/business/schedule_monitor.py:44-67 | the file is written at most once, as the last event, with the current list; it is not written exactly when the scrape is empty or a stored list has no changes, so a first run writes it; it changes exactly when written |
| ScheduleMonitor.CycleAttempted | app/business/schedule_monitor.py:44-65 | the recipients of the change records are attempted in order; an empty scrape or a first run sends nothing |
| ScheduleMonitor.RepeatedCycleQuiet | app/business/schedule_monitor.py:49-67 | a second cycle scraping the same list does nothing |
| ScheduleWatcher.LineOf | app/business/schedule_watcher.py:75-78 | the line is the last whitespace-separated word of the name, or the whole name when it has none |
| ScheduleWatcher.LineOfLastWord | app/business/schedule_watcher.py:76 | the line is the word after the last whitespace |
| ScheduleWatcher.LineOfOneWord | app/business/schedule_watcher.py:76 | a one-word name is its own line |
| ScheduleWatcher.LineOfBlank | app/business/schedule_watcher.py:75-78 | a name of only whitespace has no word and is kept whole |
| ScheduleWatcher.FormatMessage | app/business/schedule_watcher.py:90-102 | the if/elif chain gives the message `Message` defines, and none for a record of another type |
| ScheduleWatcher.MessageShowsScheduleIff | app/business/schedule_watcher.py:90-102 | only a record of another type goes unsent; a message holds a rendered schedule exactly for `new` and `updated` |
| ScheduleWatcher.UpdatedNamesNoGroup | app/business/schedule_watcher.py:90-93 | the update message names no group and shows only the new schedule |
| ScheduleWatcher.NotifiedInOrder | app/business/schedule_watcher.py:52-53 | every user of every record is attempted in list order, and notifying never writes the file |
| ScheduleWatcher.RecipientsOfLine | app/business/schedule_watcher.py:75-82 | a record reaches the users of the last word of its group name |
| ScheduleWatcher.AsWrittenNotifiesNobody | app/business/schedule_watcher.py:80-113 | as written, however the schedule changed, no message is attempted and the file is still written |
| ScheduleWatcher.ScheduleWatcher.CheckScheduleChanges | app/business/schedule_watcher.py:30-62 | one check appends the events `CycleEvents` defines and leaves the file `NextStored` defines |
| ScheduleWatcher.ScheduleWatcher.NotifyAll | app/business/schedule_watcher.py:52-53 | the records are handled one by one in list order |
| ScheduleWatcher.ScheduleWatcher.SaveCurrentSchedule | utils/light_schedule.py:239-244 | the file holds what the second scrape returns |
| ScheduleWatcher.ScheduleWatcher.NotifyGroupUsers | app/business/schedule_watcher.py:64-113 | a record whose lookup fails or finds nobody, or of another type, sends nothing; otherwise its message goes to every user in turn, without pauses |
| ScheduleWatcher.CycleNeverPauses | app/business/schedule_watcher.py:88-110 | the watcher's send loop never pauses between sends |
| ScheduleWatcher.CycleSavesLast | app/business/schedule_watcher.py:41-59 | nothing happens without a scrape or without changes; otherwise all messages come before the one write, which holds the second scrape |
| ScheduleWatcher.CycleAttempted | app/business/schedule_watcher.py:41-56 | the recipients of the change records are attempted in order, whatever the sends answer |
| ScheduleWatcher.FirstRunNotifies | app/business/schedule_watcher.py:36-56 | with no stored list, every current group is a `new` record whose users are attempted, and the file is written |
| ScheduleWatcher.RepeatedCycleQuiet | app/business/schedule_watcher.py:46-59 | a second check scraping the stored list does nothing |
| Ban.DropSeparators | app/handlers/admin/ban.py:40 | the leading run of separators is dropped, and what is left is a suffix that does not start with one |
| Ban.SplitArgs | app/handlers/admin/ban.py:40 | `re.split(r"[ ,]+", s)` gives at least one piece, none holding a separator |
| Ban.SplitArgsJoined | app/handlers/admin/ban.py:40 | non-empty pieces joined by any run of separators split back into the same pieces |
| Ban.ParseAll | app/handlers/admin/ban.py:40 | `list(map(type, pieces))` has one value per piece, in order; it fails exactly when some piece does not convert |
| Ban.CheckArgsType | app/handlers/admin/ban.py:38-42 | the result is one converted value per piece, in input order; it is False exactly when the arguments are missing or some piece does not convert |
| Ban.ArgsRoundTrip | app/handlers/admin/ban.py:38-42 | ids written in decimal and separated by commas and spaces are read back exactly and in order |
| Ban.TrailingSeparator | app/handlers/admin/ban.py:40 | a text ending in a separator has an empty last piece |
| Ban.EmptyPieceRejected | app/handlers/admin/ban.py:38-42 | empty arguments, or a separator at either end, make the result False |
| Ban.BanTextsByFlag | app/handlers/admin/ban.py:45-54 | the usage and action texts follow the flag; the error text does not |
| Ban.BanIgnoresCase | app/handlers/admin/ban.py:20-21 | only the lower-cased command name matters |
| Ban.BanUnbanUsersCommand | app/handlers/admin/ban.py:19-35 | the handler's steps are those `HandlerSteps` defines |
| Ban.UpdateAll | app/handlers/admin/ban.py:25-33 | the loop over the ids, with its try/except per id, gives the steps `IdsSteps` defines |
| Ban.EveryIdInOrder | app/handlers/admin/ban.py:25-33 | every id is updated once and in order, whatever the updates answer, and is followed by its own reply |
| Ban.ReplyNamesId | app/handlers/admin/ban.py:31-33 | each reply names its id, and it starts with the check mark exactly when the update went through |
| Ban.HandlerUpdates | app/handlers/admin/ban.py:20-33 | valid arguments update every id in order, to Banned exactly for `ban` in any letter case |

## Left out

- Network and HTML fetching are not modelled. `parse_electricity_schedule`, `download_schedule_from_github` and the file-then-network loader are I/O. Their results are parameters: the current snapshot, and the `Loads` pair in `GithubSchedule`.
- JSON file persistence is not modelled. The previous-schedule file is the `stored` field. A missing or unreadable file reads as the empty list or as None, as the loaders return. The timestamp written beside the list is not modelled.
- A failing file write is left out. `_save_schedule` catches every error and logs it. The model writes the file every time.
- `save_current_schedule` scrapes the site again (utils/light_schedule.py:243). That second scrape is the `refetched` parameter of `ScheduleWatcher.ScheduleWatcher.CheckScheduleChanges`, not a fetch.
- Database queries are oracles. These are `_get_users_with_alerts`, `User.get_users_by_line` and `User.update`. The user model (database/models/user.py) is not part of this model.
- The `float` equality of those queries, and `float(line)` inside `get_users_by_line`, are left out, because the query is an oracle. The oracle is keyed by the exact decimal or by the line text.
- Telegram calls are oracles. `bot.send_message` is a success/failure oracle, and the monitors' `asyncio.sleep(0.05)` is a `Pause` event.
- The replies of the admin handler are steps of its result. A failing `message.answer` is not modelled.
- Logging is not modelled: `logger`, every `print` and the `sent_count` log lines. Only `sent_count` itself is returned.
- Scheduling and wall-clock time are left out: APScheduler, `start`/`stop`, and `datetime.now`. The date line of `format_schedule_text` is the parameter `dateOf`.
- Aiogram handlers, filters, keyboards, middlewares, FSM states and app/text.py are outside the modelled core.
- The outer `except Exception` handlers of a cycle are not modelled. The modelled cycle functions are total, so nothing in them raises. Calls that can fail are modelled by their results: a user query answering None, `GithubSchedule.Rendered.Raised` from `format_schedule_text`, and `int()` giving None. The only call modelled as always raising is the watcher's lookup, `ScheduleWatcher.LookupAsWritten`.
- Floating point is replaced by exact values:
  - Group numbers are exact decimals (`GroupNumbers.Decimal`).
  - Durations are integer minutes.
  - `{x:.1f}` of a duration is the nearest tenth.
- `LightSchedule.HoursTextNearest`: promises nothing at a tie between two tenths.
  - A tie is a duration of 6t - 3 minutes that is not a whole number of hours, such as 9, 15 or 21 minutes.
  - `LightSchedule.HoursText` rounds every tie up.
  - Python formats the binary float nearest to m / 60 and rounds that value correctly, and it sends an exact tie to the even digit. So ties may go down there.
  - For example, 9 minutes (0.15, stored just below) gives "0.1" in Python and "0.2" in the model. 15 minutes (0.25, exact) gives "0.2" in Python and "0.3" in the model.
- `GroupNumbers.PyStr`: always writes `whole.frac` with the exact digits. Python's `str(float)` writes at most 17 significant digits. It also uses exponent form for values from 1e16 up and below 1e-4 ("1e+16", "5e-05").
- Unicode case mapping covers ASCII and the basic Cyrillic letters only.
- Digits are the ASCII digits only. Python accepts any Unicode decimal digit in these places:
  - `str.isdigit` (utils/github_schedule.py:142);
  - the regular-expression class `\d` (app/business/schedule_monitor.py:139, app/business/github_schedule_monitor.py:191);
  - `int()` (app/handlers/admin/ban.py:40, utils/light_schedule.py:179-180).
  The single underscores `int()` allows between digits are modelled.
- `ScheduleWatcher.ScheduleWatcher.NotifyGroupUsers` formats the message once, before the user loop. The source formats it again for every user, with the same result, since formatting has no effect.
- `GithubMonitor.GitHubScheduleMonitor.SendNotifications` takes the changed groups in some order of the set. The order Python's set iteration yields is not modelled.
- The watcher reads `user.user_id` (app/business/schedule_watcher.py:104-110), where the other senders read `user.id` (app/business/schedule_monitor.py:109, app/business/github_schedule_monitor.py:161). The user model is not part of this model, so the model takes that attribute to exist. If it does not, the error message at line 110 raises in turn, line 112 catches it, and the record ends after its first user.
- `LightSchedule.FormatScheduleToText` leaves out missing dictionary keys of a period. Every period has `start`, `end` and `status`.

## Findings

| source | as written | input that shows it | evidently intended | confidence | as-written member | corrected member |
|---|---|---|---|---|---|---|
| app/business/schedule_watcher.py:82 | `self.user_service.get_users_by_line(line)` is called with one argument. main.py:22 sets `user_service` to the `User` class, and `get_users_by_line(session, line)` (database/services/user.py:32) is a static method needing the session first. So the call raises TypeError, which line 112 catches for every record. | any check in which the list changed, e.g. a first run with one group `Група 3.1` and a subscriber on line 3.1: nobody is notified, but the file is written | the lookup runs with a database session and returns the line's users, who get the message | not executed | ScheduleWatcher.AsWrittenNotifiesNobody | ScheduleWatcher.CycleAttempted |

In `ScheduleWatcher.AsWrittenNotifiesNobody` the lookup is `ScheduleWatcher.LookupAsWritten`, which raises for every line. The class `ScheduleWatcher.ScheduleWatcher` takes the lookup as a parameter `usersByLine`, which stands for the lookup given its session. `ScheduleWatcher.CycleAttempted` and `ScheduleWatcher.FirstRunNotifies` prove that the users of every change record are then attempted.

## Where the code departs from its intended behaviour

The model follows the code in each of these places.

- **First run.** A first run is meant to store the schedule and notify nobody. The two monitors do this (app/business/schedule_monitor.py:52-55, app/business/github_schedule_monitor.py:61-64). The watcher has no such case. Against an empty stored list, every group is `new` and is notified (`ScheduleWatcher.FirstRunNotifies`).
- **Record order.** Change records are meant to be sent in a fixed order. The GitHub monitor iterates a set (app/business/github_schedule_monitor.py:135), so its order is whatever the set yields.
- **Failed writes.** When a write fails, the schedule is meant to stay as the baseline in memory, and writes are meant to be atomic. The code keeps nothing in memory: a failed write is logged, and the next cycle reads the old file again. The files are written directly, not atomically.
