/** The nightly watcher of the scraped schedule
    (app/business/schedule_watcher.py). A check diffs the stored group list
    against a fresh scrape, sends each change record to the users of the
    record's line, then has the list scraped once more and stores that.

    Modelling choices:
    - The schedule file is a field of the object; the empty list stands for
      a missing or unreadable file, as loading it gives.
    - The user lookup by line and the Telegram call are oracles.
    - The trace records the sends and the file writes in order. */
module ScheduleWatcher {
  import opened Base
  import opened Fanout
  import opened LightSchedule

  type Snapshot = seq<GroupSchedule>

  /** The send loop has no sleep. */
  const Throttled := false

  // ---------------------------------------------------------------------
  // The line of a group
  // ---------------------------------------------------------------------

  /** `group_name.split()[-1]`, or the whole name when it has no word and
      the index raises. */
  function LineOf(name: string): (line: string)
    ensures line == name || (IsWord(line) && Words(name) != [] && line == Words(name)[|Words(name)| - 1])
  {
    var words := Words(name);
    if words == [] then name else words[|words| - 1]
  }

  /** The line is the word after the last whitespace. */
  lemma LineOfLastWord(before: string, space: char, word: string)
    requires IsSpace(space) && IsWord(word)
    ensures LineOf(before + [space] + word) == word
  {
    WordsSplitAtSpace(before, space, word);
    WordsOfWord(word);
  }

  /** A name of one word is its own line. */
  lemma LineOfOneWord(word: string)
    requires IsWord(word)
    ensures LineOf(word) == word
  {
    WordsOfWord(word);
  }

  /** A name of whitespace only has no word and is kept whole. */
  lemma {:induction false} LineOfBlank(name: string)
    requires forall j :: 0 <= j < |name| ==> IsSpace(name[j])
    ensures Words(name) == [] && LineOf(name) == name
  {
    if name != [] {
      LineOfBlank(name[1..]);
    }
  }

  // ---------------------------------------------------------------------
  // The message of a change record
  // ---------------------------------------------------------------------

  const UpdatedAlert := "⚡ <b>Расписание изменилось!</b>\n\n"
  const NewGroupAlert := "✨ <b>Новая группа добавлена!</b>\n\n"
  const InactiveStart := "❌ <b>Группа "
  const InactiveEnd := " больше не активна</b>"

  /** What a change record opens with. */
  function Opening(change: Change): string {
    match change
    case Updated(_, _, _) => UpdatedAlert
    case New(_, _) => NewGroupAlert
    case Deleted(name) => InactiveStart + name + InactiveEnd
    case Other(_, _) => ""
  }

  /** The message of a change record; a record of another type has none,
      and the loop over the users skips every one of them. */
  function Message(change: Change): Option<string> {
    if change.Other? then None
    else
      match ScheduleAfter(change)
      case None => Some(Opening(change))
      case Some(s) => Some(Opening(change) + ScheduleText(Some(s)))
  }

  /** The text sent for a change record. */
  function MessageText(change: Change): string {
    Message(change).GetOr("")
  }

  /** The if/elif chain inside the loop over the users, with its
      `continue` for a record of another type. */
  method FormatMessage(change: Change) returns (text: Option<string>)
    ensures text == Message(change)
  {
    match change
    case Updated(_, _, newSchedule) =>
      var body := FormatScheduleToText(Some(newSchedule));
      text := Some(UpdatedAlert + body);
    case New(_, schedule) =>
      var body := FormatScheduleToText(Some(schedule));
      text := Some(NewGroupAlert + body);
    case Deleted(name) =>
      text := Some(InactiveStart + name + InactiveEnd);
    case Other(_, _) =>
      text := None;
  }

  // Each template is checked in a lemma of its own: together, in one
  // context, the literal scans are too costly.
  lemma UpdatedAlertAvoidsBulb() ensures '💡' !in UpdatedAlert {}
  lemma NewGroupAlertAvoidsBulb() ensures '💡' !in NewGroupAlert {}
  lemma InactiveStartAvoidsBulb() ensures '💡' !in InactiveStart {}
  lemma InactiveEndAvoidsBulb() ensures '💡' !in InactiveEnd {}

  /** Only a record of another type goes unsent; for a group name without a
      bulb, the message holds a rendered schedule exactly when the record is
      a new or an updated group. */
  lemma MessageShowsScheduleIff(change: Change)
    requires '💡' !in change.name
    ensures Message(change).None? <==> change.Other?
    ensures Message(change).Some? ==> ('💡' in Message(change).value <==> ScheduleAfter(change).Some?)
  {
    match change
    case Updated(_, _, s) =>
      UpdatedAlertAvoidsBulb();
      ScheduleTextStartsWithBulb(s);
    case New(_, s) =>
      NewGroupAlertAvoidsBulb();
      ScheduleTextStartsWithBulb(s);
    case Deleted(_) =>
      InactiveStartAvoidsBulb();
      InactiveEndAvoidsBulb();
    case Other(_, _) =>
  }

  /** The update message names no group and shows only the new schedule. */
  lemma UpdatedNamesNoGroup(name1: string, name2: string, old1: GroupSchedule, old2: GroupSchedule, s: GroupSchedule)
    ensures Message(Updated(name1, old1, s)) == Message(Updated(name2, old2, s))
    ensures Message(Updated(name1, old1, s)) == Some(UpdatedAlert + ScheduleText(Some(s)))
  {
  }

  // ---------------------------------------------------------------------
  // _notify_group_users
  // ---------------------------------------------------------------------

  /** The users with a line, or None when the lookup raises. */
  type LineQuery = string -> Option<seq<UserId>>

  /** The users a record's message goes to: nobody for a record of another
      type, when the lookup raises or when it finds nobody. */
  function ChangeRecipients(change: Change, usersByLine: LineQuery): seq<UserId> {
    if Message(change).None? then [] else usersByLine(LineOf(change.name)).GetOr([])
  }

  function Audience(usersByLine: LineQuery): Change -> seq<UserId> {
    change => ChangeRecipients(change, usersByLine)
  }

  /** What the change records' messages do, in the order of the list. */
  function NotifyEvents(changes: seq<Change>, usersByLine: LineQuery,
                        sendOk: (UserId, string) -> bool): seq<Event<Snapshot>>
  {
    Broadcast(changes, MessageText, Audience(usersByLine), sendOk, Throttled)
  }

  /** A failing lookup ends one record only, and a failing send one user
      only: every user of every record is attempted, in list order. */
  lemma NotifiedInOrder(changes: seq<Change>, usersByLine: LineQuery, sendOk: (UserId, string) -> bool)
    ensures Attempted(NotifyEvents(changes, usersByLine, sendOk)) == Audiences(changes, Audience(usersByLine))
    ensures NoSave(NotifyEvents(changes, usersByLine, sendOk))
  {
    BroadcastAttempted<Change, Snapshot>(changes, MessageText, Audience(usersByLine), sendOk, Throttled);
  }

  /** A record reaches the users of the last word of its group name. */
  lemma RecipientsOfLine(before: string, space: char, line: string, change: Change, usersByLine: LineQuery)
    requires IsSpace(space) && IsWord(line) && change.name == before + [space] + line && !change.Other?
    ensures ChangeRecipients(change, usersByLine) == usersByLine(line).GetOr([])
  {
    LineOfLastWord(before, space, line);
  }

  /** A record that reaches nobody sends nothing. */
  lemma NoRecipientsSendNothing(change: Change, usersByLine: LineQuery, sendOk: (UserId, string) -> bool)
    requires ChangeRecipients(change, usersByLine) == []
    ensures Dispatch<Snapshot>(ChangeRecipients(change, usersByLine), MessageText(change), sendOk, Throttled) == []
  {
  }

  /** A record with a message goes, with that message, to the users the
      lookup finds for its line. */
  lemma FoundRecipients(change: Change, usersByLine: LineQuery, text: string)
    requires usersByLine(LineOf(change.name)).Some? && Message(change) == Some(text)
    ensures ChangeRecipients(change, usersByLine) == usersByLine(LineOf(change.name)).value
    ensures MessageText(change) == text
  {
  }

  // ---------------------------------------------------------------------
  // The lookup as the watcher calls it
  // ---------------------------------------------------------------------

  /** The watcher calls `get_users_by_line(line)` on the user service, which
      main.py sets to the User class itself. That static method takes the
      database session first, so the call is short of an argument and raises
      TypeError before any query; the handler at line 112 catches it. */
  function LookupAsWritten(line: string): Option<seq<UserId>> {
    None
  }

  /** As written, the watcher reaches nobody: whatever changed, no message
      is attempted, and the (re-scraped) list is still stored. */
  lemma AsWrittenNotifiesNobody(stored: Snapshot, current: Snapshot, refetched: Snapshot,
                                sendOk: (UserId, string) -> bool)
    requires current != [] && ChangedGroups(stored, current) != []
    ensures Attempted(CycleEvents(stored, current, refetched, LookupAsWritten, sendOk)) == []
    ensures NextStored(stored, current, refetched) == refetched
  {
    var changes := ChangedGroups(stored, current);
    CycleAttempted(stored, current, refetched, LookupAsWritten, sendOk);
    NoAudience(changes, LookupAsWritten);
  }

  lemma {:induction false} NoAudience(changes: seq<Change>, usersByLine: LineQuery)
    requires forall line :: usersByLine(line) == None
    ensures Audiences(changes, Audience(usersByLine)) == []
  {
    if changes != [] {
      NoAudience(changes[..|changes| - 1], usersByLine);
    }
  }

  // ---------------------------------------------------------------------
  // ScheduleWatcher
  // ---------------------------------------------------------------------

  /** What one check does; refetched is what the second scrape, the one
      save_current_schedule makes, returns. */
  function CycleEvents(stored: Snapshot, current: Snapshot, refetched: Snapshot,
                       usersByLine: LineQuery, sendOk: (UserId, string) -> bool): seq<Event<Snapshot>>
  {
    if current == [] || ChangedGroups(stored, current) == [] then []
    else NotifyEvents(ChangedGroups(stored, current), usersByLine, sendOk) + [Saved(refetched)]
  }

  /** The file after one check. */
  function NextStored(stored: Snapshot, current: Snapshot, refetched: Snapshot): Snapshot {
    if current == [] || ChangedGroups(stored, current) == [] then stored else refetched
  }

  class ScheduleWatcher {
    /** The schedule file; the empty list when it is missing. */
    var stored: Snapshot
    /** Everything the watcher has done so far. */
    var trace: seq<Event<Snapshot>>

    constructor(previous: Snapshot)
      ensures stored == previous && trace == []
    {
      stored := previous;
      trace := [];
    }

    /** check_schedule_changes, with the user lookup given its session. */
    method CheckScheduleChanges(current: Snapshot, refetched: Snapshot, usersByLine: LineQuery,
                                sendOk: (UserId, string) -> bool)
      modifies this
      ensures trace == old(trace) + CycleEvents(old(stored), current, refetched, usersByLine, sendOk)
      ensures stored == NextStored(old(stored), current, refetched)
    {
      var previous := stored;
      if current == [] {
        return;
      }
      var changed := GetChangedGroups(previous, current);
      if changed != [] {
        NotifyAll(changed, usersByLine, sendOk);
        ghost var sends := NotifyEvents(changed, usersByLine, sendOk);
        SaveCurrentSchedule(refetched);
        AppendAssoc(old(trace), sends, [Saved(refetched)]);
        assert CycleEvents(old(stored), current, refetched, usersByLine, sendOk) == sends + [Saved(refetched)];
      } else {
        assert CycleEvents(old(stored), current, refetched, usersByLine, sendOk) == [];
      }
    }

    /** The loop over the change records. */
    method NotifyAll(changes: seq<Change>, usersByLine: LineQuery, sendOk: (UserId, string) -> bool)
      modifies this
      ensures trace == old(trace) + NotifyEvents(changes, usersByLine, sendOk)
      ensures stored == old(stored)
    {
      for i := 0 to |changes|
        invariant trace == old(trace) + NotifyEvents(changes[..i], usersByLine, sendOk)
        invariant stored == old(stored)
      {
        ghost var done := NotifyEvents(changes[..i], usersByLine, sendOk);
        NotifyGroupUsers(changes[i], usersByLine, sendOk);
        assert changes[..i + 1] == changes[..i] + [changes[i]];
        BroadcastSnoc<Change, Snapshot>(changes[..i], changes[i], MessageText, Audience(usersByLine), sendOk, Throttled);
        assert Audience(usersByLine)(changes[i]) == ChangeRecipients(changes[i], usersByLine);
        AppendAssoc(old(trace), done, Dispatch(Audience(usersByLine)(changes[i]), MessageText(changes[i]), sendOk, Throttled));
      }
      assert changes[..|changes|] == changes;
    }

    /** save_current_schedule, given what its own scrape returns. */
    method SaveCurrentSchedule(schedules: Snapshot)
      modifies this
      ensures stored == schedules && trace == old(trace) + [Saved(schedules)]
    {
      stored := schedules;
      trace := trace + [Saved(schedules)];
    }

    /** _notify_group_users */
    method NotifyGroupUsers(change: Change, usersByLine: LineQuery, sendOk: (UserId, string) -> bool)
      modifies this
      ensures trace == old(trace) + Dispatch(ChangeRecipients(change, usersByLine), MessageText(change), sendOk, Throttled)
      ensures stored == old(stored)
    {
      var line := LineOf(change.name);
      var users := usersByLine(line);
      if users.None? || users.value == [] {
        NoRecipientsSendNothing(change, usersByLine, sendOk);
        return;
      }
      var text := FormatMessage(change);
      if text.None? {
        NoRecipientsSendNothing(change, usersByLine, sendOk);
        return;
      }
      FoundRecipients(change, usersByLine, text.value);
      var events, sent := SendAll<Snapshot>(users.value, text.value, sendOk, Throttled);
      trace := trace + events;
    }
  }

  // ---------------------------------------------------------------------
  // Properties of a check
  // ---------------------------------------------------------------------

  /** Nothing happens without a scrape or without changes; otherwise every
      message is attempted before the one write of the file, which is last
      and holds the second scrape, not necessarily the list compared. */
  lemma CycleSavesLast(stored: Snapshot, current: Snapshot, refetched: Snapshot,
                       usersByLine: LineQuery, sendOk: (UserId, string) -> bool)
    ensures var e := CycleEvents(stored, current, refetched, usersByLine, sendOk);
      && (forall i :: 0 <= i < |e| && e[i].Saved? ==> i == |e| - 1 && e[i].snapshot == refetched)
      && (NoSave(e) <==> current == [] || ChangedGroups(stored, current) == [])
      && (NoSave(e) ==> NextStored(stored, current, refetched) == stored)
      && (!NoSave(e) ==> NextStored(stored, current, refetched) == refetched)
  {
    var e := CycleEvents(stored, current, refetched, usersByLine, sendOk);
    if current == [] || ChangedGroups(stored, current) == [] {
      assert e == [];
    } else {
      var n := NotifyEvents(ChangedGroups(stored, current), usersByLine, sendOk);
      NotifiedInOrder(ChangedGroups(stored, current), usersByLine, sendOk);
      SaveAppended(n, refetched);
    }
  }

  /** Exactly the recipients of the change records are attempted, in list
      order, whatever the sends answer. */
  lemma CycleAttempted(stored: Snapshot, current: Snapshot, refetched: Snapshot,
                       usersByLine: LineQuery, sendOk: (UserId, string) -> bool)
    ensures Attempted(CycleEvents(stored, current, refetched, usersByLine, sendOk))
      == if current == [] then [] else Audiences(ChangedGroups(stored, current), Audience(usersByLine))
  {
    if current != [] && ChangedGroups(stored, current) != [] {
      var n := NotifyEvents(ChangedGroups(stored, current), usersByLine, sendOk);
      NotifiedInOrder(ChangedGroups(stored, current), usersByLine, sendOk);
      AttemptedAppend(n, [Saved(refetched)]);
      assert Attempted<Snapshot>([Saved(refetched)]) == [] by {
        assert [Saved(refetched)][..0] == [];
      }
    }
  }

  /** Unlike the monitors, the watcher never pauses between sends. */
  lemma CycleNeverPauses(stored: Snapshot, current: Snapshot, refetched: Snapshot,
                         usersByLine: LineQuery, sendOk: (UserId, string) -> bool)
    ensures Pauses(CycleEvents(stored, current, refetched, usersByLine, sendOk)) == 0
  {
    if current != [] && ChangedGroups(stored, current) != [] {
      var changes := ChangedGroups(stored, current);
      var n := NotifyEvents(changes, usersByLine, sendOk);
      BroadcastAttempted<Change, Snapshot>(changes, MessageText, Audience(usersByLine), sendOk, Throttled);
      PausesAppend(n, [Saved(refetched)]);
      assert Pauses<Snapshot>([Saved(refetched)]) == 0 by {
        assert [Saved(refetched)][..0] == [];
      }
    }
  }

  /** No first-run suppression: with no stored list, every current group is
      a `new` record, each record's users are attempted, and the file is
      written. */
  lemma FirstRunNotifies(current: Snapshot, refetched: Snapshot, usersByLine: LineQuery,
                         sendOk: (UserId, string) -> bool)
    requires current != []
    ensures var changes := ChangedGroups([], current);
      && |changes| == |Names(current)| > 0
      && (forall i :: 0 <= i < |changes| ==> changes[i].New?)
      && Attempted(CycleEvents([], current, refetched, usersByLine, sendOk)) == Audiences(changes, Audience(usersByLine))
      && NextStored([], current, refetched) == refetched
  {
    var changes := ChangedGroups([], current);
    assert Named(current, current[0].groupName);
    assert |Names(current)| > 0;
    EmptyPreviousAllNew(current);
    assert changes != [];
    assert forall i :: 0 <= i < |changes| ==> changes[i].New? by {
      forall i | 0 <= i < |changes| ensures changes[i].New? {
        assert changes[i] == New(Names(current)[i], Lookup(current, Names(current)[i]).value);
      }
    }
    CycleAttempted([], current, refetched, usersByLine, sendOk);
  }

  /** A second check that scrapes the same list does nothing, provided the
      write stored that list. */
  lemma RepeatedCycleQuiet(stored: Snapshot, current: Snapshot, usersByLine: LineQuery,
                           sendOk: (UserId, string) -> bool)
    ensures CycleEvents(NextStored(stored, current, current), current, current, usersByLine, sendOk) == []
  {
    SelfDiffEmpty(current);
  }
}
