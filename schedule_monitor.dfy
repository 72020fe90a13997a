/** The monitor of the scraped schedule (app/business/schedule_monitor.py).
    A check cycle diffs the stored group list against the current one,
    notifies the users of every changed group in the order of the change
    records, then stores the current list.

    Modelling choices:
    - The previous-schedule file is a field of the object. Loading it gives
      the empty list when it is missing or unreadable, so the field is a
      list and the empty list stands for all three.
    - The user query and the Telegram call are oracles.
    - The trace records the sends, the pauses and the file writes in order. */
module ScheduleMonitor {
  import opened Base
  import opened GroupNumbers
  import opened Fanout
  import opened LightSchedule

  type Snapshot = seq<GroupSchedule>

  /** The send loop sleeps after every message that went through. */
  const Throttled := true

  // ---------------------------------------------------------------------
  // _extract_group_number
  // ---------------------------------------------------------------------

  /** The leftmost digit of t at or after i. */
  function FirstDigitFrom(t: string, i: nat): (r: Option<nat>)
    requires i <= |t|
    ensures r.Some? ==> i <= r.value < |t| && IsDigit(t[r.value])
    ensures forall j :: i <= j < |t| && (r.None? || j < r.value) ==> !IsDigit(t[j])
    decreases |t| - i
  {
    if i == |t| then None
    else if IsDigit(t[i]) then Some(i)
    else FirstDigitFrom(t, i + 1)
  }

  /** `re.search(r"(\d+\.?\d*)", group_name)` and float() of the capture:
      the number that starts at the first digit of the name. float() never
      fails on such a capture, so the ValueError path is never taken. */
  function ExtractNumber(name: string): (r: Option<Decimal>)
    ensures r.Some? ==> Canonical(r.value)
    ensures r.None? <==> forall j :: 0 <= j < |name| ==> !IsDigit(name[j])
  {
    match FirstDigitFrom(name, 0)
    case None => None
    case Some(j) => Some(ToDecimal(CaptureAt(name[j..])))
  }

  /** The number is the first one in the name, whatever follows it, as long
      as the text after it cannot continue it. */
  lemma ExtractFirstNumber(before: string, c: Capture, after: string)
    requires forall j :: 0 <= j < |before| ==> !IsDigit(before[j])
    requires c.whole != [] && AllDigits(c.whole) && AllDigits(c.frac)
    requires c.hasDot ==> after == [] || !IsDigit(after[0])
    requires !c.hasDot ==> c.frac == [] && (after == [] || (!IsDigit(after[0]) && after[0] != '.'))
    ensures ExtractNumber(before + c.Text() + after) == Some(ToDecimal(c))
  {
    var name := before + c.Text() + after;
    var rest := c.Text() + after;
    assert name == before + rest;
    assert c.Text()[0] == c.whole[0];
    assert name[|before|] == c.whole[0];
    assert forall j :: 0 <= j < |before| ==> name[j] == before[j];
    assert FirstDigitFrom(name, 0) == Some(|before|);
    assert name[|before|..] == rest;
    CaptureBefore(c, after);
  }

  /** A group named the way the site names them ("Група 3.1") gives back
      the number written in its name. */
  lemma ExtractOfName(before: string, d: Decimal)
    requires forall j :: 0 <= j < |before| ==> !IsDigit(before[j])
    requires Canonical(d)
    ensures ExtractNumber(before + PyStr(d)) == Some(d)
  {
    var f := if d.frac == [] then "0" else d.frac;
    var c := Capture(NatToString(d.whole), true, f);
    assert PyStr(d) == c.Text();
    assert before + c.Text() == before + c.Text() + [];
    ExtractFirstNumber(before, c, []);
    DigitsValueOfNatToString(d.whole);
  }

  // ---------------------------------------------------------------------
  // _format_notification
  // ---------------------------------------------------------------------

  /** What a notification opens with, by kind of record: for a deleted
      group the whole notice, for a record of an unknown type one line. */
  function Heading(change: Change): string {
    match change
    case New(name, _) => NewTitle + name + TitleEnd
    case Updated(name, _, _) => UpdatedTitle + name + TitleEnd + NewScheduleLabel
    case Deleted(name) => DeletedTitle + name + TitleEnd + CheckNotice
    case Other(name, _) => OtherTitle + name
  }

  const NewTitle := "🆕 <b>Новое расписание для "
  const UpdatedTitle := "🔄 <b>Расписание изменилось для "
  const DeletedTitle := "⚠️ <b>Расписание удалено для "
  const OtherTitle := "ℹ️ Изменение в расписании для "
  const TitleEnd := "</b>\n\n"
  const NewScheduleLabel := "<b>Новое расписание:</b>\n"
  const CheckNotice := "Пожалуйста, проверьте актуальную информацию."

  /** The notification for one change record: its heading, then the
      schedule it shows, if any. */
  function NotificationText(change: Change): string {
    match ScheduleAfter(change)
    case None => Heading(change)
    case Some(s) => Heading(change) + ScheduleText(Some(s))
  }

  method FormatNotification(change: Change) returns (text: string)
    ensures text == NotificationText(change)
  {
    match change
    case New(name, s) =>
      text := NewTitle + name + TitleEnd;
      var body := FormatScheduleToText(Some(s));
      text := text + body;
    case Updated(name, _, s) =>
      text := UpdatedTitle + name + TitleEnd;
      text := text + NewScheduleLabel;
      var body := FormatScheduleToText(Some(s));
      text := text + body;
    case Deleted(name) =>
      text := DeletedTitle + name + TitleEnd;
      text := text + CheckNotice;
    case Other(name, _) =>
      text := OtherTitle + name;
  }

  /** A shown schedule ends the notification, after the heading. */
  lemma NotificationEndsWithSchedule(change: Change)
    requires ScheduleAfter(change).Some?
    ensures exists head :: NotificationText(change) == head + ScheduleText(ScheduleAfter(change))
  {
    assert NotificationText(change) == Heading(change) + ScheduleText(ScheduleAfter(change));
  }

  /** What an update notification says depends on the new schedule only,
      and it is not the notification of a new group. */
  lemma UpdatedIgnoresOld(name: string, old1: GroupSchedule, old2: GroupSchedule, s: GroupSchedule)
    ensures NotificationText(Updated(name, old1, s)) == NotificationText(Updated(name, old2, s))
    ensures NotificationText(Updated(name, old1, s)) != NotificationText(New(name, s))
  {
    var u := NotificationText(Updated(name, old1, s));
    var n := NotificationText(New(name, s));
    assert UpdatedTitle[0] == '🔄' && NewTitle[0] == '🆕';
    assert u[0] == UpdatedTitle[0] && n[0] == NewTitle[0];
  }

  /** No heading holds the bulb unless the group name does. */
  lemma HeadingAvoidsBulb(change: Change)
    requires '💡' !in change.name
    ensures '💡' !in Heading(change)
  {
    TitleEndAvoidsBulb();
    match change
    case New(_, _) => NewTitleAvoidsBulb();
    case Updated(_, _, _) => UpdatedTitleAvoidsBulb(); LabelAvoidsBulb();
    case Deleted(_) => DeletedTitleAvoidsBulb(); CheckNoticeAvoidsBulb();
    case Other(_, _) => OtherTitleAvoidsBulb();
  }

  // Each template is checked in a lemma of its own: together, in one
  // context, the literal scans are too costly.
  lemma NewTitleAvoidsBulb() ensures '💡' !in NewTitle {}
  lemma UpdatedTitleAvoidsBulb() ensures '💡' !in UpdatedTitle {}
  lemma DeletedTitleAvoidsBulb() ensures '💡' !in DeletedTitle {}
  lemma OtherTitleAvoidsBulb() ensures '💡' !in OtherTitle {}
  lemma TitleEndAvoidsBulb() ensures '💡' !in TitleEnd {}
  lemma LabelAvoidsBulb() ensures '💡' !in NewScheduleLabel {}
  lemma CheckNoticeAvoidsBulb() ensures '💡' !in CheckNotice {}

  /** For a group name without a bulb, the notification holds a rendered
      schedule exactly when the record is a new or an updated group. */
  lemma ScheduleShownIff(change: Change)
    requires '💡' !in change.name
    ensures '💡' in NotificationText(change) <==> ScheduleAfter(change).Some?
  {
    HeadingAvoidsBulb(change);
    if ScheduleAfter(change).Some? {
      ScheduleTextStartsWithBulb(ScheduleAfter(change).value);
    }
  }

  // ---------------------------------------------------------------------
  // _send_notifications
  // ---------------------------------------------------------------------

  /** The users the query `group == number and is_alerts` returns for a
      number, or None when the query raises. */
  type UserQuery = Decimal -> Option<seq<UserId>>

  /** The users one change record's notification goes to: none when the
      name holds no number or the number is 0, when the query raises, or
      when it returns nobody. */
  function ChangeRecipients(change: Change, usersFor: UserQuery): seq<UserId> {
    match ExtractNumber(change.name)
    case None => []
    case Some(n) =>
      if IsZero(n) then [] else usersFor(n).GetOr([])
  }

  /** The recipients of every change record's notification. */
  function Audience(usersFor: UserQuery): Change -> seq<UserId> {
    change => ChangeRecipients(change, usersFor)
  }

  /** What the change records' notifications do, in the order of the list. */
  function NotifyEvents(changes: seq<Change>, usersFor: UserQuery,
                        sendOk: (UserId, string) -> bool): seq<Event<Snapshot>>
  {
    Broadcast(changes, NotificationText, Audience(usersFor), sendOk, Throttled)
  }

  /** A record whose name has no number, or whose users cannot be found,
      reaches nobody and does not hold up the records after it: every user
      of every record is attempted in list order, and sent_count adds up
      to the sends that went through. */
  lemma NotifiedInOrder(changes: seq<Change>, usersFor: UserQuery, sendOk: (UserId, string) -> bool)
    ensures Attempted(NotifyEvents(changes, usersFor, sendOk)) == Audiences(changes, Audience(usersFor))
    ensures Successes(NotifyEvents(changes, usersFor, sendOk))
      == Delivered(changes, NotificationText, Audience(usersFor), sendOk)
    ensures NoSave(NotifyEvents(changes, usersFor, sendOk))
  {
    BroadcastAttempted<Change, Snapshot>(changes, NotificationText, Audience(usersFor), sendOk, Throttled);
  }

  /** A record is notified to the users of the number in its name. */
  lemma RecipientsOfName(before: string, d: Decimal, change: Change, usersFor: UserQuery)
    requires forall j :: 0 <= j < |before| ==> !IsDigit(before[j])
    requires Canonical(d) && !IsZero(d) && change.name == before + PyStr(d)
    ensures ChangeRecipients(change, usersFor) == usersFor(d).GetOr([])
  {
    ExtractOfName(before, d);
  }

  /** A record that reaches nobody sends nothing. */
  lemma NoRecipientsSendNothing(change: Change, usersFor: UserQuery, sendOk: (UserId, string) -> bool)
    requires ChangeRecipients(change, usersFor) == []
    ensures Dispatch<Snapshot>(ChangeRecipients(change, usersFor), NotificationText(change), sendOk, Throttled) == []
    ensures DeliveredCount(ChangeRecipients(change, usersFor), NotificationText(change), sendOk) == 0
  {
  }

  lemma FoundRecipients(change: Change, usersFor: UserQuery, n: Decimal)
    requires ExtractNumber(change.name) == Some(n) && !IsZero(n) && usersFor(n).Some?
    ensures ChangeRecipients(change, usersFor) == usersFor(n).value
  {
  }

  // ---------------------------------------------------------------------
  // ScheduleMonitor
  // ---------------------------------------------------------------------

  /** What one check cycle does. */
  function CycleEvents(stored: Snapshot, current: Snapshot, usersFor: UserQuery,
                       sendOk: (UserId, string) -> bool): seq<Event<Snapshot>>
  {
    if current == [] then []
    else if stored == [] then [Saved(current)]
    else if ChangedGroups(stored, current) == [] then []
    else NotifyEvents(ChangedGroups(stored, current), usersFor, sendOk) + [Saved(current)]
  }

  /** The file after one cycle. */
  function NextStored(stored: Snapshot, current: Snapshot): Snapshot {
    if current == [] then stored
    else if stored == [] || ChangedGroups(stored, current) != [] then current
    else stored
  }

  class ScheduleMonitor {
    /** The previous-schedule file; the empty list when it is missing. */
    var stored: Snapshot
    /** Everything the monitor has done so far. */
    var trace: seq<Event<Snapshot>>

    constructor(previous: Snapshot)
      ensures stored == previous && trace == []
    {
      stored := previous;
      trace := [];
    }

    /** check_and_notify. The current list is what the scraper returns. */
    method CheckAndNotify(current: Snapshot, usersFor: UserQuery, sendOk: (UserId, string) -> bool)
      modifies this
      ensures trace == old(trace) + CycleEvents(old(stored), current, usersFor, sendOk)
      ensures stored == NextStored(old(stored), current)
    {
      if current == [] {
        return;
      }
      var previous := stored;
      if previous == [] {
        Save(current);
        return;
      }
      var changed := GetChangedGroups(previous, current);
      if changed != [] {
        SendNotifications(changed, usersFor, sendOk);
        ghost var sends := NotifyEvents(changed, usersFor, sendOk);
        Save(current);
        AppendAssoc(old(trace), sends, [Saved(current)]);
        assert CycleEvents(old(stored), current, usersFor, sendOk) == sends + [Saved(current)];
      } else {
        assert CycleEvents(old(stored), current, usersFor, sendOk) == [];
      }
    }

    /** _save_schedule */
    method Save(s: Snapshot)
      modifies this
      ensures stored == s && trace == old(trace) + [Saved(s)]
    {
      stored := s;
      trace := trace + [Saved(s)];
    }

    /** _send_notifications: the change records one by one, in list order. */
    method SendNotifications(changes: seq<Change>, usersFor: UserQuery, sendOk: (UserId, string) -> bool)
      modifies this
      ensures trace == old(trace) + NotifyEvents(changes, usersFor, sendOk)
      ensures stored == old(stored)
    {
      for i := 0 to |changes|
        invariant trace == old(trace) + NotifyEvents(changes[..i], usersFor, sendOk)
        invariant stored == old(stored)
      {
        ghost var done := NotifyEvents(changes[..i], usersFor, sendOk);
        var sent := NotifyChange(changes[i], usersFor, sendOk);
        assert changes[..i + 1] == changes[..i] + [changes[i]];
        BroadcastSnoc<Change, Snapshot>(changes[..i], changes[i], NotificationText, Audience(usersFor), sendOk, Throttled);
        assert Audience(usersFor)(changes[i]) == ChangeRecipients(changes[i], usersFor);
        AppendAssoc(old(trace), done, Dispatch(Audience(usersFor)(changes[i]), NotificationText(changes[i]), sendOk, Throttled));
      }
      assert changes[..|changes|] == changes;
    }

    /** The body of the loop for one record; sent is the logged sent_count. */
    method NotifyChange(change: Change, usersFor: UserQuery, sendOk: (UserId, string) -> bool)
      returns (sent: nat)
      modifies this
      ensures trace == old(trace) + Dispatch(ChangeRecipients(change, usersFor), NotificationText(change), sendOk, Throttled)
      ensures sent == DeliveredCount(ChangeRecipients(change, usersFor), NotificationText(change), sendOk)
      ensures stored == old(stored)
    {
      sent := 0;
      var number := ExtractNumber(change.name);
      if number.None? || IsZero(number.value) {
        NoRecipientsSendNothing(change, usersFor, sendOk);
        return;
      }
      var users := usersFor(number.value);
      if users.None? || users.value == [] {
        NoRecipientsSendNothing(change, usersFor, sendOk);
        return;
      }
      FoundRecipients(change, usersFor, number.value);
      sent := Deliver(change, users.value, sendOk);
    }

    /** Formatting the notification and sending it to every user in turn. */
    method Deliver(change: Change, users: seq<UserId>, sendOk: (UserId, string) -> bool)
      returns (sent: nat)
      modifies this
      ensures trace == old(trace) + Dispatch(users, NotificationText(change), sendOk, Throttled)
      ensures sent == DeliveredCount(users, NotificationText(change), sendOk)
      ensures stored == old(stored)
    {
      var text := FormatNotification(change);
      var events;
      events, sent := SendAll<Snapshot>(users, text, sendOk, Throttled);
      trace := trace + events;
    }
  }

  // ---------------------------------------------------------------------
  // Properties of a cycle
  // ---------------------------------------------------------------------

  /** The file is written only at the very end of a cycle, with the current
      list, and the stored list changes exactly when it is written: never
      when the scrape came back empty or nothing changed, and on the first
      cycle without any notification. */
  lemma CycleSavesLast(stored: Snapshot, current: Snapshot, usersFor: UserQuery, sendOk: (UserId, string) -> bool)
    ensures var e := CycleEvents(stored, current, usersFor, sendOk);
      && (forall i :: 0 <= i < |e| && e[i].Saved? ==> i == |e| - 1 && e[i].snapshot == current)
      && (NoSave(e) <==> current == [] || (stored != [] && ChangedGroups(stored, current) == []))
      && (NoSave(e) ==> NextStored(stored, current) == stored)
      && (!NoSave(e) ==> NextStored(stored, current) == current)
  {
    var e := CycleEvents(stored, current, usersFor, sendOk);
    if current == [] || (stored != [] && ChangedGroups(stored, current) == []) {
      assert e == [];
    } else if stored == [] {
      assert e == [] + [Saved(current)];
      SaveAppended<Snapshot>([], current);
    } else {
      var n := NotifyEvents(ChangedGroups(stored, current), usersFor, sendOk);
      NotifiedInOrder(ChangedGroups(stored, current), usersFor, sendOk);
      SaveAppended(n, current);
    }
  }

  /** Exactly the recipients of the change records are attempted, in list
      order, whatever the sends answer; the first cycle only stores the
      list. */
  lemma CycleAttempted(stored: Snapshot, current: Snapshot, usersFor: UserQuery, sendOk: (UserId, string) -> bool)
    ensures Attempted(CycleEvents(stored, current, usersFor, sendOk))
      == if current == [] || stored == [] then [] else Audiences(ChangedGroups(stored, current), Audience(usersFor))
  {
    if current != [] && stored != [] && ChangedGroups(stored, current) != [] {
      var n := NotifyEvents(ChangedGroups(stored, current), usersFor, sendOk);
      NotifiedInOrder(ChangedGroups(stored, current), usersFor, sendOk);
      AttemptedAppend(n, [Saved(current)]);
      assert Attempted<Snapshot>([Saved(current)]) == [] by {
        assert [Saved(current)][..0] == [];
      }
    } else if current != [] {
      assert Attempted<Snapshot>([Saved(current)]) == [] by {
        assert [Saved(current)][..0] == [];
      }
    }
  }

  /** No repeated notification: a second cycle that scrapes the same list
      does nothing, whether or not the first one notified. */
  lemma RepeatedCycleQuiet(stored: Snapshot, current: Snapshot, usersFor: UserQuery, sendOk: (UserId, string) -> bool)
    ensures CycleEvents(NextStored(stored, current), current, usersFor, sendOk) == []
    ensures NextStored(NextStored(stored, current), current) == NextStored(stored, current)
  {
    if current != [] {
      SelfDiffEmpty(current);
    }
  }
}
