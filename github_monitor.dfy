/** The monitor of the published outage snapshot
    (app/business/github_schedule_monitor.py). A check cycle compares the
    stored snapshot with the current one on the current day. It notifies the
    users of every changed group, then stores the current snapshot.

    Modelling choices:
    - The previous-schedule file is a field of the object.
    - The user query and the Telegram call are oracles.
    - The trace records the sends, the pauses and the file writes in order. */
module GithubMonitor {
  import opened Base
  import opened GroupNumbers
  import opened Fanout
  import opened GithubSchedule

  /** The send loop sleeps after every message that went through. */
  const Throttled := true

  // ---------------------------------------------------------------------
  // _compare_schedules
  // ---------------------------------------------------------------------

  /** `snapshot.get("fact", {}).get("data", {}).get(day_key, {})` */
  function DaySlice(s: Snapshot, dayKey: string): map<string, GroupDay> {
    Get(FactData(s), dayKey, map[])
  }

  /** The groups whose hours on the current snapshot's day differ between
      the two snapshots. A group missing from one side has no hours there.
      A current snapshot without a day (missing or 0) changes nothing. */
  function ChangedKeys(prev: Snapshot, curr: Snapshot): set<string> {
    match DayOf(None, curr)
    case None => {}
    case Some(t) =>
      ChangedOn(DaySlice(prev, IntToString(t)), DaySlice(curr, IntToString(t)))
  }

  /** The groups of either day whose hours differ. */
  function ChangedOn(p: map<string, GroupDay>, c: map<string, GroupDay>): set<string> {
    set k | k in p.Keys + c.Keys && Differs(p, c, k)
  }

  /** `prev_today.get(k, {}) != curr_today.get(k, {})` */
  predicate Differs(p: map<string, GroupDay>, c: map<string, GroupDay>, k: string) {
    Get(p, k, map[]) != Get(c, k, map[])
  }

  /** The comparison loop over the union of the two days' groups. */
  method CompareSchedules(prev: Snapshot, curr: Snapshot) returns (changed: set<string>)
    ensures changed == ChangedKeys(prev, curr)
  {
    var today := Today(curr);
    if today.None? || today.value == 0 {
      return {};
    }
    var dayKey := IntToString(today.value);
    changed := CompareDays(DaySlice(prev, dayKey), DaySlice(curr, dayKey));
  }

  /** The loop over `set(prev_today) | set(curr_today)`. */
  method CompareDays(p: map<string, GroupDay>, c: map<string, GroupDay>) returns (changed: set<string>)
    ensures changed == ChangedOn(p, c)
  {
    var all := p.Keys + c.Keys;
    var todo := all;
    changed := {};
    while todo != {}
      invariant todo <= all && changed <= all - todo
      invariant forall k :: k in all - todo ==> (k in changed <==> Differs(p, c, k))
      decreases |todo|
    {
      var k :| k in todo;
      if Differs(p, c, k) {
        changed := changed + {k};
      }
      todo := todo - {k};
    }
    assert forall k :: k in changed <==> k in ChangedOn(p, c);
  }

  /** A group is changed exactly when its hours on the current day differ;
      the walk over the union of the keys loses none. */
  lemma ChangedKeysIff(prev: Snapshot, curr: Snapshot, k: string)
    requires DayOf(None, curr).Some?
    ensures var dayKey := IntToString(DayOf(None, curr).value);
      k in ChangedKeys(prev, curr)
      <==> Get(DaySlice(prev, dayKey), k, map[]) != Get(DaySlice(curr, dayKey), k, map[])
  {
  }

  /** Without a current day nothing is reported changed. */
  lemma ChangedKeysWithoutDay(prev: Snapshot, curr: Snapshot)
    requires Today(curr).None? || Today(curr) == Some(0)
    ensures ChangedKeys(prev, curr) == {}
  {
  }

  /** A snapshot compared with itself has no changes. */
  lemma ChangedKeysSelf(s: Snapshot)
    ensures ChangedKeys(s, s) == {}
  {
    if DayOf(None, s).Some? {
      var d := DaySlice(s, IntToString(DayOf(None, s).value));
      assert forall k :: k in ChangedKeys(s, s) ==> Get(d, k, map[]) != Get(d, k, map[]);
    }
  }

  /** A day the stored snapshot does not have: every group with hours today
      is changed, and only those. */
  lemma ChangedKeysNewDay(prev: Snapshot, curr: Snapshot)
    requires DayOf(None, curr).Some?
    requires IntToString(DayOf(None, curr).value) !in FactData(prev)
    ensures var c := DaySlice(curr, IntToString(DayOf(None, curr).value));
      ChangedKeys(prev, curr) == set k | k in c && c[k] != map[]
  {
  }

  // ---------------------------------------------------------------------
  // _extract_group_number
  // ---------------------------------------------------------------------

  /** `GPV` followed by a digit starts at position j of t. */
  predicate GpvAt(t: string, j: nat) {
    j + 4 <= |t| && t[j..j + 3] == Prefix && IsDigit(t[j + 3])
  }

  /** The leftmost position at or after i where `GPV\d` starts. */
  function GpvFrom(t: string, i: nat): (r: Option<nat>)
    requires i <= |t|
    ensures r.Some? ==> i <= r.value && GpvAt(t, r.value)
    ensures forall j :: i <= j < |t| && (r.None? || j < r.value) ==> !GpvAt(t, j)
    decreases |t| - i
  {
    if i + 4 > |t| then None
    else if GpvAt(t, i) then Some(i)
    else GpvFrom(t, i + 1)
  }

  /** `re.search(r"GPV(\d+\.?\d*)", key)` and float() of the capture.
      float() never fails on such a capture, so the ValueError path is
      never taken. */
  function ExtractGroupNumber(key: string): (r: Option<Decimal>)
    ensures r.Some? ==> Canonical(r.value)
    ensures r.None? <==> forall j :: 0 <= j < |key| ==> !GpvAt(key, j)
  {
    match GpvFrom(key, 0)
    case None => None
    case Some(j) => Some(ToDecimal(CaptureAt(key[j + 3..])))
  }

  /** A key written the way str(float) writes group numbers gives back the
      number it was made from. */
  lemma ExtractOfKey(d: Decimal)
    requires Canonical(d)
    ensures ExtractGroupNumber(Prefix + PyStr(d)) == Some(d)
  {
    var c := PyStrCapture(d);
    ExtractAfterPrefix(c.Text());
  }

  /** The text str(float) writes is matched whole, and float() reads it
      back. */
  lemma PyStrCapture(d: Decimal) returns (c: Capture)
    requires Canonical(d)
    ensures c.Text() == PyStr(d) && c.Text() != [] && IsDigit(c.Text()[0])
    ensures AllDigits(c.whole) && CaptureAt(c.Text()) == c && ToDecimal(c) == d
  {
    var f := if d.frac == [] then "0" else d.frac;
    c := Capture(NatToString(d.whole), true, f);
    assert PyStr(d) == c.Text();
    CaptureBefore(c, []);
    assert c.Text() + [] == c.Text();
    DigitsValueOfNatToString(d.whole);
  }

  /** A key that starts with the prefix and a digit is read from there. */
  lemma ExtractAfterPrefix(rest: string)
    requires rest != [] && IsDigit(rest[0])
    ensures ExtractGroupNumber(Prefix + rest) == Some(ToDecimal(CaptureAt(rest)))
  {
    var key := Prefix + rest;
    assert key[0..3] == Prefix && key[3..] == rest && key[3] == rest[0];
    assert GpvAt(key, 0);
  }

  /** The round trip the notification relies on: a group key of the form
      `GPV<n>.<m>` (no leading zero, no trailing zero) is rendered under the
      same key after float() and str(). */
  lemma ExtractThenRenderKey(c: Capture)
    requires c.whole != [] && AllDigits(c.whole) && (c.whole[0] == '0' ==> c.whole == "0")
    requires c.hasDot && c.frac != [] && AllDigits(c.frac) && c.frac[|c.frac| - 1] != '0'
    ensures ExtractGroupNumber(Prefix + c.Text()).Some?
    ensures ParseGroupNumber(PyStr(ExtractGroupNumber(Prefix + c.Text()).value)) == Some(Prefix + c.Text())
  {
    var d := ToDecimal(c);
    CanonicalCaptureRoundTrip(c);
    ExtractOfKey(d);
    ParseGroupNumberOfDecimal(d);
  }

  // ---------------------------------------------------------------------
  // _format_notification
  // ---------------------------------------------------------------------

  /** The first line that contains c. */
  function FirstLineWith(lines: seq<string>, c: char): (r: Option<nat>)
    ensures r.Some? ==> r.value < |lines| && c in lines[r.value]
    ensures forall j :: 0 <= j < |lines| && (r.None? || j < r.value) ==> c !in lines[j]
  {
    if lines == [] then None
    else if c in lines[0] then Some(0)
    else
      match FirstLineWith(lines[1..], c)
      case None => None
      case Some(i) => Some(i + 1)
  }

  /** The schedule text without its header. Everything up to the first line
      with a separator character is dropped, and so is the line after it.
      A text without a separator is kept whole. */
  function StrippedBody(t: string): string {
    var lines := SplitOn(t, '\n');
    match FirstLineWith(lines, '━')
    case None => t
    case Some(i) => JoinWith(lines[if i + 2 <= |lines| then i + 2 else |lines|..], '\n')
  }

  /** The scan for the first separator line, with its `break`. */
  method StripScheduleHeader(t: string) returns (body: string)
    ensures body == StrippedBody(t)
  {
    var lines := SplitOn(t, '\n');
    var start := 0;
    for i := 0 to |lines|
      invariant start == 0
      invariant forall j :: 0 <= j < i ==> '━' !in lines[j]
    {
      if '━' in lines[i] {
        start := i + 2;
        break;
      }
    }
    if start > 0 {
      body := JoinWith(lines[if start <= |lines| then start else |lines|..], '\n');
    } else {
      body := t;
    }
  }

  /** The lines of a text with a lone line, then an empty one, in it. */
  lemma {:induction false} SplitAroundLine(a: string, line: string, b: string, sep: char)
    requires sep !in line
    ensures SplitOn(a + [sep] + line + [sep, sep] + b, sep) == SplitOn(a, sep) + [line] + ([[]] + SplitOn(b, sep))
  {
    var r2 := [] + [sep] + b;
    var r1 := line + [sep] + r2;
    assert a + [sep] + line + [sep, sep] + b == a + [sep] + r1;
    SplitAppend(a, r1, sep);
    SplitAppend(line, r2, sep);
    SplitAppend([], b, sep);
    SplitLoneJoin(line, sep);
  }

  /** The header the schedule text starts with is dropped: what follows the
      separator line and the blank line after it is kept. */
  lemma StrippedBodyAfterSeparator(a: string, line: string, b: string)
    requires '━' !in a && '━' in line && '\n' !in line
    ensures StrippedBody(a + "\n" + line + "\n\n" + b) == b
  {
    var pa := SplitOn(a, '\n');
    var pb := SplitOn(b, '\n');
    SplitAroundLine(a, line, b, '\n');
    SplitAvoids(a, '\n', '━');
    FirstLineAfter(pa, line, [[]] + pb, '━');
    assert (pa + [line] + ([[]] + pb))[|pa| + 2..] == pb;
    JoinSplit(b, '\n');
  }

  lemma FirstLineAfter(before: seq<string>, line: string, after: seq<string>, c: char)
    requires forall j :: 0 <= j < |before| ==> c !in before[j]
    requires c in line
    ensures FirstLineWith(before + [line] + after, c) == Some(|before|)
  {
    var lines := before + [line] + after;
    assert lines[|before|] == line;
    assert forall j :: 0 <= j < |before| ==> lines[j] == before[j];
  }


  lemma ThickLineChars()
    ensures '━' in ThickLine && '\n' !in ThickLine
  {
    RepeatStarts("━", 30);
    RepeatAvoids("━", 30, '\n');
  }

  lemma IntroAvoids(name: string)
    requires '━' !in name
    ensures '━' !in HeaderIntro(name, None, NoDate)
  {
  }

  /** The schedule header ends with the separator line and a blank line. */
  lemma StrippedBodyAfterHeader(name: string, rest: string)
    requires '━' !in name
    ensures StrippedBody(Header(name, None, NoDate) + rest) == rest
  {
    var intro := HeaderIntro(name, None, NoDate);
    ThickLineChars();
    IntroAvoids(name);
    StrippedBodyAfterSeparator(intro, ThickLine, rest);
  }

  /** A text without a separator character is kept whole. */
  lemma StrippedBodyWithoutSeparator(t: string)
    requires '━' !in t
    ensures StrippedBody(t) == t
  {
    SplitAvoids(t, '\n', '━');
  }

  const NoDate: int -> string := (t: int) => ""

  /** The first three lines of every notification. */
  function AlertHeader(groupName: string): string {
    EmojiFlash + " <b>УВАГА! Розклад змінився</b>\n"
    + EmojiBulb + " <b>Група: " + groupName + "</b>\n"
    + "\n" + ThickLine + "\n\n"
  }

  /** What is sent when no schedule can be shown. */
  const Fallback := "\n" + EmojiBulb + " Перевірте актуальний розклад командою /schedule"

  /** The notification for one changed group. Its schedule is
      format_schedule_text(str(number)) without the header; loads are what
      that call's two reads of the snapshot return. */
  function NotificationText(key: string, current: Snapshot, loads: Loads): string {
    var head := AlertHeader(Get(SchNames(current), key, key));
    match ExtractGroupNumber(key)
    case None => head + Fallback
    case Some(n) =>
      if IsZero(n) then head + Fallback
      else
        head + ScheduleBody(DayScheduleText(PyStr(n), None, loads, NoDate))
  }

  /** What the notification shows of a call of format_schedule_text. */
  function ScheduleBody(r: Rendered): string {
    match r
    case Raised => Fallback
    case Text(t) => StrippedBody(t)
  }

  method FormatNotification(key: string, current: Snapshot, loads: Loads) returns (text: string)
    ensures text == NotificationText(key, current, loads)
  {
    var groupName := Get(SchNames(current), key, key);
    var number := ExtractGroupNumber(key);
    text := EmojiFlash + " <b>УВАГА! Розклад змінився</b>\n";
    text := text + EmojiBulb + " <b>Група: " + groupName + "</b>\n";
    text := text + "\n" + ThickLine + "\n\n";
    if number.Some? && !IsZero(number.value) {
      var rendered := FormatScheduleText(PyStr(number.value), None, loads, NoDate);
      match rendered
      case Raised =>
        text := text + Fallback;
      case Text(t) =>
        var body := StripScheduleHeader(t);
        text := text + body;
    } else {
      text := text + Fallback;
    }
  }

  lemma StrippedBodyAfterHeaderParts(name: string, hours: string, footer: string)
    requires '━' !in name
    ensures StrippedBody(Header(name, None, NoDate) + hours + footer) == hours + footer
  {
    AppendAssoc(Header(name, None, NoDate), hours, footer);
    StrippedBodyAfterHeader(name, hours + footer);
  }

  /** A group with hours on the current day is shown with its header, its
      hours and the footer. */
  lemma ScheduleShown(input: string, key: string, day: GroupDay, loads: Loads)
    requires ParseGroupNumber(input) == Some(key)
    requires GroupScheduleForDay(key, None, loads.lookup) == Some(day) && day != map[]
    requires loads.details.Some?
    ensures var data := loads.details.value;
      DayScheduleText(input, None, loads, NoDate)
      == Text(Header(Get(SchNames(data), key, key), None, NoDate) + BlocksText(day, TimeTypes(data), Blocks) + Footer(data))
  {
  }

  /** The schedule text's header holds exactly one separator line. So when
      format_schedule_text returns its header, then the hours and the footer
      (ScheduleShown says when), and the group name in that header has no
      separator character, the notification is the alert header followed by
      the hours and the footer. The schedule's own header is gone. */
  lemma NotificationCarriesSchedule(key: string, n: Decimal, current: Snapshot, loads: Loads, name: string, hours: string, footer: string)
    requires ExtractGroupNumber(key) == Some(n) && !IsZero(n) && '━' !in name
    requires DayScheduleText(PyStr(n), None, loads, NoDate) == Text(Header(name, None, NoDate) + hours + footer)
    ensures NotificationText(key, current, loads) == AlertHeader(Get(SchNames(current), key, key)) + (hours + footer)
  {
    BodyOfShown(DayScheduleText(PyStr(n), None, loads, NoDate), name, hours, footer);
  }

  lemma BodyOfShown(r: Rendered, name: string, hours: string, footer: string)
    requires '━' !in name
    requires r == Text(Header(name, None, NoDate) + hours + footer)
    ensures ScheduleBody(r) == hours + footer
  {
    StrippedBodyAfterHeaderParts(name, hours, footer);
  }




  // ---------------------------------------------------------------------
  // _send_notifications
  // ---------------------------------------------------------------------

  /** The users the query `group == number and is_alerts` returns for a
      number, or None when the query raises. */
  type UserQuery = Decimal -> Option<seq<UserId>>

  /** The users one changed group's notification goes to: none when the key
      holds no non-zero number, when the query raises, or when it returns
      nobody. */
  function GroupRecipients(key: string, usersFor: UserQuery): seq<UserId> {
    match ExtractGroupNumber(key)
    case None => []
    case Some(n) =>
      if IsZero(n) then [] else usersFor(n).GetOr([])
  }

  /** The recipients of every group's notification. */
  function Audience(usersFor: UserQuery): string -> seq<UserId> {
    key => GroupRecipients(key, usersFor)
  }

  /** The notification of every group; each group's formatting reads the
      snapshot again, with the results loadsFor(key). */
  function Notifications(current: Snapshot, loadsFor: string -> Loads): string -> string {
    key => NotificationText(key, current, loadsFor(key))
  }

  lemma NoRecipientsSendNothing(key: string, current: Snapshot, loadsFor: string -> Loads, usersFor: UserQuery,
                                sendOk: (UserId, string) -> bool)
    requires GroupRecipients(key, usersFor) == []
    ensures Dispatch<Snapshot>(Audience(usersFor)(key), Notifications(current, loadsFor)(key), sendOk, Throttled) == []
  {
  }

  /** The order a loop over a set happens to take: each member once. */
  predicate Enumerates(order: seq<string>, s: set<string>) {
    multiset(order) == multiset(s)
  }

  /** Moving one member from the set still to do to the order taken. */
  lemma TakeOne(order: seq<string>, todo: set<string>, key: string)
    requires key in todo
    ensures multiset(order + [key]) + multiset(todo - {key}) == multiset(order) + multiset(todo)
  {
    assert multiset(todo - {key}) + multiset{key} == multiset(todo);
  }

  // ---------------------------------------------------------------------
  // GitHubScheduleMonitor
  // ---------------------------------------------------------------------

  predicate Present(s: Option<Snapshot>) {
    s.Some? && Truthy(s.value)
  }

  /** The groups a cycle notifies: none unless both snapshots are there. */
  function CycleChanges(stored: Option<Snapshot>, current: Option<Snapshot>): set<string> {
    if Present(current) && Present(stored) then ChangedKeys(stored.value, current.value) else {}
  }

  /** What one check cycle does, the groups taken in the given order. */
  function CycleEvents(stored: Option<Snapshot>, current: Option<Snapshot>, order: seq<string>,
                       loadsFor: string -> Loads, usersFor: UserQuery,
                       sendOk: (UserId, string) -> bool): seq<Event<Snapshot>>
  {
    if !Present(current) then []
    else if !Present(stored) then [Saved(current.value)]
    else if ChangedKeys(stored.value, current.value) == {} then []
    else Broadcast(order, Notifications(current.value, loadsFor), Audience(usersFor), sendOk, Throttled) + [Saved(current.value)]
  }

  /** The file after one cycle. */
  function NextStored(stored: Option<Snapshot>, current: Option<Snapshot>): Option<Snapshot> {
    if !Present(current) then stored
    else if !Present(stored) || ChangedKeys(stored.value, current.value) != {} then current
    else stored
  }

  class GitHubScheduleMonitor {
    /** The previous-schedule file: None when it is missing or unreadable. */
    var stored: Option<Snapshot>
    /** Everything the monitor has done so far. */
    var trace: seq<Event<Snapshot>>

    constructor(previous: Option<Snapshot>)
      ensures stored == previous && trace == []
    {
      stored := previous;
      trace := [];
    }

    /** check_and_notify. The current snapshot is what get_schedule returns;
        the order is the one the loop over the changed set takes. */
    method CheckAndNotify(current: Option<Snapshot>, loadsFor: string -> Loads, usersFor: UserQuery,
                          sendOk: (UserId, string) -> bool)
      returns (ghost order: seq<string>)
      modifies this
      ensures Enumerates(order, CycleChanges(old(stored), current))
      ensures trace == old(trace) + CycleEvents(old(stored), current, order, loadsFor, usersFor, sendOk)
      ensures stored == NextStored(old(stored), current)
    {
      order := [];
      if current.None? || !Truthy(current.value) {
        return;
      }
      var previous := stored;
      if previous.None? || !Truthy(previous.value) {
        Save(current.value);
        return;
      }
      var changed := CompareSchedules(previous.value, current.value);
      if changed != {} {
        order := SendNotifications(changed, current.value, loadsFor, usersFor, sendOk);
        ghost var sends: seq<Event<Snapshot>> := Broadcast(order, Notifications(current.value, loadsFor), Audience(usersFor), sendOk, Throttled);
        Save(current.value);
        AppendAssoc(old(trace), sends, [Saved(current.value)]);
        assert CycleEvents(old(stored), current, order, loadsFor, usersFor, sendOk) == sends + [Saved(current.value)];
      } else {
        assert CycleEvents(old(stored), current, order, loadsFor, usersFor, sendOk) == [];
      }
    }

    /** _save_schedule */
    method Save(s: Snapshot)
      modifies this
      ensures stored == Some(s) && trace == old(trace) + [Saved(s)]
    {
      stored := Some(s);
      trace := trace + [Saved(s)];
    }

    /** _send_notifications: the changed groups one by one, in the order the
        set yields them. */
    method SendNotifications(changed: set<string>, current: Snapshot, loadsFor: string -> Loads,
                             usersFor: UserQuery, sendOk: (UserId, string) -> bool)
      returns (ghost order: seq<string>)
      modifies this
      ensures Enumerates(order, changed)
      ensures trace == old(trace) + Broadcast(order, Notifications(current, loadsFor), Audience(usersFor), sendOk, Throttled)
      ensures stored == old(stored)
    {
      order := [];
      var todo := changed;
      while todo != {}
        invariant todo <= changed
        invariant multiset(order) + multiset(todo) == multiset(changed)
        invariant trace == old(trace) + Broadcast(order, Notifications(current, loadsFor), Audience(usersFor), sendOk, Throttled)
        invariant stored == old(stored)
        decreases |todo|
      {
        var key :| key in todo;
        ghost var done: seq<Event<Snapshot>> := Broadcast(order, Notifications(current, loadsFor), Audience(usersFor), sendOk, Throttled);
        NotifyGroup(key, current, loadsFor, usersFor, sendOk);
        BroadcastSnoc<string, Snapshot>(order, key, Notifications(current, loadsFor), Audience(usersFor), sendOk, Throttled);
        AppendAssoc(old(trace), done, Dispatch(Audience(usersFor)(key), Notifications(current, loadsFor)(key), sendOk, Throttled));
        TakeOne(order, todo, key);
        order := order + [key];
        todo := todo - {key};
      }
    }

    /** The body of the loop for one group. */
    method NotifyGroup(key: string, current: Snapshot, loadsFor: string -> Loads, usersFor: UserQuery,
                       sendOk: (UserId, string) -> bool)
      modifies this
      ensures trace == old(trace) + Dispatch(Audience(usersFor)(key), Notifications(current, loadsFor)(key), sendOk, Throttled)
      ensures stored == old(stored)
    {
      var number := ExtractGroupNumber(key);
      if number.None? || IsZero(number.value) {
        NoRecipientsSendNothing(key, current, loadsFor, usersFor, sendOk);
        return;
      }
      var users := usersFor(number.value);
      if users.None? || users.value == [] {
        NoRecipientsSendNothing(key, current, loadsFor, usersFor, sendOk);
        return;
      }
      assert users.value == Audience(usersFor)(key);
      Deliver(key, current, loadsFor(key), users.value, sendOk);
    }

    /** Formatting the group's notification and sending it to every user in turn. */
    method Deliver(key: string, current: Snapshot, loads: Loads, users: seq<UserId>,
                   sendOk: (UserId, string) -> bool)
      modifies this
      ensures trace == old(trace) + Dispatch(users, NotificationText(key, current, loads), sendOk, Throttled)
      ensures stored == old(stored)
    {
      var text := FormatNotification(key, current, loads);
      var events, sent := SendAll<Snapshot>(users, text, sendOk, Throttled);
      trace := trace + events;
    }
  }

  // ---------------------------------------------------------------------
  // Properties of a cycle
  // ---------------------------------------------------------------------

  /** The file is written only at the very end of a cycle, with the current
      snapshot, and the stored snapshot changes exactly when it is written:
      never when the current snapshot is missing or nothing changed on its
      day, and on the first cycle without any notification. */
  lemma CycleSavesLast(stored: Option<Snapshot>, current: Option<Snapshot>, order: seq<string>,
                       loadsFor: string -> Loads, usersFor: UserQuery, sendOk: (UserId, string) -> bool)
    ensures var e := CycleEvents(stored, current, order, loadsFor, usersFor, sendOk);
      && (forall i :: 0 <= i < |e| && e[i].Saved? ==> i == |e| - 1 && e[i].snapshot == current.value)
      && (NoSave(e) <==> !Present(current) || (Present(stored) && ChangedKeys(stored.value, current.value) == {}))
      && (NoSave(e) ==> NextStored(stored, current) == stored)
      && (!NoSave(e) ==> NextStored(stored, current) == current)
  {
    var e := CycleEvents(stored, current, order, loadsFor, usersFor, sendOk);
    if !Present(current) || (Present(stored) && ChangedKeys(stored.value, current.value) == {}) {
      assert e == [];
    } else if !Present(stored) {
      assert e == [] + [Saved(current.value)];
      SaveAppended<Snapshot>([], current.value);
    } else {
      var n: seq<Event<Snapshot>> := Broadcast(order, Notifications(current.value, loadsFor), Audience(usersFor), sendOk, Throttled);
      BroadcastAttempted<string, Snapshot>(order, Notifications(current.value, loadsFor), Audience(usersFor), sendOk, Throttled);
      SaveAppended(n, current.value);
    }
  }

  /** Exactly the recipients of the changed groups are attempted, whatever
      the sends answer; the first cycle only stores the snapshot. */
  lemma CycleAttempted(stored: Option<Snapshot>, current: Option<Snapshot>, order: seq<string>,
                       loadsFor: string -> Loads, usersFor: UserQuery, sendOk: (UserId, string) -> bool)
    ensures Attempted(CycleEvents(stored, current, order, loadsFor, usersFor, sendOk))
      == if CycleChanges(stored, current) == {} then [] else Audiences(order, Audience(usersFor))
  {
    var e := CycleEvents(stored, current, order, loadsFor, usersFor, sendOk);
    if Present(current) && Present(stored) && ChangedKeys(stored.value, current.value) != {} {
      var n: seq<Event<Snapshot>> := Broadcast(order, Notifications(current.value, loadsFor), Audience(usersFor), sendOk, Throttled);
      BroadcastAttempted<string, Snapshot>(order, Notifications(current.value, loadsFor), Audience(usersFor), sendOk, Throttled);
      AttemptedAppend(n, [Saved(current.value)]);
      assert Attempted<Snapshot>([Saved(current.value)]) == [] by {
        assert [Saved(current.value)][..0] == [];
      }
    } else if Present(current) {
      assert Attempted<Snapshot>([Saved(current.value)]) == [] by {
        assert [Saved(current.value)][..0] == [];
      }
    }
  }

  /** No repeated notification: a second cycle that sees the same current
      snapshot does nothing, whether or not the first one notified. */
  lemma RepeatedCycleQuiet(stored: Option<Snapshot>, current: Option<Snapshot>, order: seq<string>,
                           loadsFor: string -> Loads, usersFor: UserQuery, sendOk: (UserId, string) -> bool)
    ensures CycleEvents(NextStored(stored, current), current, order, loadsFor, usersFor, sendOk) == []
    ensures NextStored(NextStored(stored, current), current) == NextStored(stored, current)
  {
    if Present(current) {
      ChangedKeysSelf(current.value);
    }
  }
}
