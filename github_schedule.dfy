/** The outage-data snapshot published as JSON (utils/github_schedule.py):
    the group-key parser, the status legend, the per-day lookup, the display
    name and the 24-hour text layout. The snapshot is a value; each call of
    the file-then-network loader is an input the caller supplies. */
module GithubSchedule {
  import opened Base
  import opened GroupNumbers

  // ---------------------------------------------------------------------
  // The snapshot
  // ---------------------------------------------------------------------

  /** The statuses of one group on one day, keyed by hour "1" .. "24". */
  type GroupDay = map<string, string>

  /** `fact`: per day (the timestamp as text) the groups' hours, the current
      day and the update time. A missing `data` is the empty map. */
  datatype Fact = Fact(data: map<string, map<string, GroupDay>>, today: Option<int>, update: Option<string>)

  /** `preset`: display names of the groups and the legend of the statuses. */
  datatype Preset = Preset(schNames: map<string, string>, timeType: map<string, string>)

  /** The whole document; otherKeys are the top-level keys the bot never reads. */
  datatype Snapshot = Snapshot(fact: Option<Fact>, preset: Option<Preset>, otherKeys: set<string>)

  /** `if data:` on the decoded document: only the empty object is falsy. */
  predicate Truthy(s: Snapshot) {
    s.fact.Some? || s.preset.Some? || s.otherKeys != {}
  }

  function Get<K, V>(m: map<K, V>, k: K, default: V): V {
    if k in m then m[k] else default
  }

  /** `data.get("fact", {}).get("data", {})` */
  function FactData(s: Snapshot): map<string, map<string, GroupDay>> {
    if s.fact.Some? then s.fact.value.data else map[]
  }

  /** `data.get("fact", {}).get("today")` */
  function Today(s: Snapshot): Option<int> {
    if s.fact.Some? then s.fact.value.today else None
  }

  /** `data.get("preset", {}).get("sch_names", {})` */
  function SchNames(s: Snapshot): map<string, string> {
    if s.preset.Some? then s.preset.value.schNames else map[]
  }

  /** `data.get("preset", {}).get("time_type", {})` */
  function TimeTypes(s: Snapshot): map<string, string> {
    if s.preset.Some? then s.preset.value.timeType else map[]
  }

  /** `data.get("fact", {}).get("update", "Невідомо")` */
  function UpdateTime(s: Snapshot): string {
    if s.fact.Some? && s.fact.value.update.Some? then s.fact.value.update.value else "Невідомо"
  }

  // ---------------------------------------------------------------------
  // parse_group_number
  // ---------------------------------------------------------------------

  const Prefix := "GPV"

  /** `"".join(c for c in s if c.isdigit() or c == ".")` */
  function DigitsAndDots(s: string): (r: string)
    ensures DigitsDots(r)
    ensures DigitsDots(s) ==> r == s
    ensures |s| == 1 ==> r == if IsDigit(s[0]) || s[0] == '.' then s else []
  {
    if s == [] then [] else (if IsDigit(s[0]) || s[0] == '.' then [s[0]] else []) + DigitsAndDots(s[1..])
  }

  /** The filter works character by character: filtering a concatenation
      concatenates the filtered parts. With the one-character case this
      fixes the result for every text. */
  lemma {:induction false} DigitsAndDotsAppend(a: string, b: string)
    ensures DigitsAndDots(a + b) == DigitsAndDots(a) + DigitsAndDots(b)
  {
    if a == [] {
      assert a + b == b;
    } else {
      assert (a + b)[0] == a[0] && (a + b)[1..] == a[1..] + b;
      DigitsAndDotsAppend(a[1..], b);
      var k := if IsDigit(a[0]) || a[0] == '.' then [a[0]] else [];
      AppendAssoc(k, DigitsAndDots(a[1..]), DigitsAndDots(b));
    }
  }

  /** The user's text as a group key, or None. */
  function ParseGroupNumber(input: string): (r: Option<string>)
    ensures r.Some? ==> Prefix <= r.value
  {
    var s := Upper(Strip(input));
    if Prefix <= s then Some(s) else CleanedKey(DigitsAndDots(s))
  }

  /** The key made of the digits and dots: the two pieces around the only
      dot, or None when there is no dot or more than one. */
  function CleanedKey(cleaned: string): Option<string> {
    if '.' in cleaned then
      var parts := SplitOn(cleaned, '.');
      if |parts| == 2 then Some(Prefix + parts[0] + "." + parts[1]) else None
    else None
  }

  /** A key comes out exactly when there is one dot, and it is the prefix
      followed by the digits and dots unchanged. */
  lemma CleanedKeyOneDot(c: string)
    ensures CleanedKey(c).Some? <==> Count(c, '.') == 1
    ensures CleanedKey(c).Some? ==> CleanedKey(c).value == Prefix + c
  {
    CountPositive(c, '.');
    var parts := SplitOn(c, '.');
    if |parts| == 2 {
      JoinSplit(c, '.');
      assert parts[1..] == [parts[1]];
      assert JoinWith(parts, '.') == parts[0] + "." + parts[1];
      AppendAssoc(Prefix, parts[0] + ".", parts[1]);
      AppendAssoc(Prefix, parts[0], ".");
    }
  }

  /** Text that does not already start with the prefix gives a key exactly
      when its digits and dots hold one dot, and the key is the prefix
      followed by those digits and dots. */
  lemma ParseGroupNumberOther(input: string)
    requires !(Prefix <= Upper(Strip(input)))
    ensures var c := DigitsAndDots(Upper(Strip(input)));
      && (ParseGroupNumber(input).Some? <==> Count(c, '.') == 1)
      && (ParseGroupNumber(input).Some? ==> ParseGroupNumber(input).value == Prefix + c)
  {
    CleanedKeyOneDot(DigitsAndDots(Upper(Strip(input))));
  }

  /** Text already starting with the prefix is the key itself, stripped and in capitals. */
  lemma ParseGroupNumberPrefixed(input: string)
    requires Prefix <= Upper(Strip(input))
    ensures ParseGroupNumber(input) == Some(Upper(Strip(input)))
  {
  }

  predicate DigitsDots(s: string) {
    forall i :: 0 <= i < |s| ==> IsDigit(s[i]) || s[i] == '.'
  }

  /** Text of digits and dots starting with a digit is a key exactly when
      it holds one dot. */
  lemma DigitsDotsKey(s: string)
    requires s != [] && IsDigit(s[0]) && DigitsDots(s)
    ensures ParseGroupNumber(s) == if Count(s, '.') == 1 then Some(Prefix + s) else None
  {
    assert Plain(s) by {
      forall i | 0 <= i < |s| ensures !IsSpace(s[i]) && UpperChar(s[i]) == s[i] {
        assert IsDigit(s[i]) || s[i] == '.';
      }
    }
    PlainNormal(s);
    assert !(Prefix <= s) by {
      assert s[0] != Prefix[0];
    }
    ParseGroupNumberOther(s);
  }

  /** A key is read back as itself. */
  lemma ParseGroupNumberIdempotent(input: string)
    requires ParseGroupNumber(input).Some?
    ensures ParseGroupNumber(ParseGroupNumber(input).value) == ParseGroupNumber(input)
  {
    var s := Upper(Strip(input));
    if Prefix <= s {
      NormalIdempotent(input);
      ParseGroupNumberPrefixed(s);
    } else {
      ParseGroupNumberOther(input);
      PrefixedPlain(DigitsAndDots(s));
      PlainKey(Prefix + DigitsAndDots(s));
    }
  }

  lemma PlainKey(t: string)
    requires Prefix <= t && Plain(t)
    ensures ParseGroupNumber(t) == Some(t)
  {
    PlainNormal(t);
    ParseGroupNumberPrefixed(t);
  }

  lemma PrefixedPlain(c: string)
    requires DigitsDots(c)
    ensures Plain(Prefix + c)
  {
    var t := Prefix + c;
    forall i | 0 <= i < |t| ensures !IsSpace(t[i]) && UpperChar(t[i]) == t[i] {
      if i >= |Prefix| {
        assert t[i] == c[i - |Prefix|];
      }
    }
  }

  /** The text of a group number as str(float) writes it ("3.1", "3.0")
      parses to the key with that text after the prefix. */
  lemma ParseGroupNumberOfDecimal(d: Decimal)
    requires AllDigits(d.frac)
    ensures ParseGroupNumber(PyStr(d)) == Some(Prefix + PyStr(d))
  {
    var a := NatToString(d.whole);
    var b := if d.frac == [] then "0" else d.frac;
    var s := PyStr(d);
    assert s == a + "." + b;
    assert DigitsDots(s) by {
      forall i | 0 <= i < |s| ensures IsDigit(s[i]) || s[i] == '.' {
        if i < |a| {
          assert s[i] == a[i];
        } else if i > |a| {
          assert s[i] == b[i - |a| - 1];
        }
      }
    }
    assert IsDigit(s[0]) by {
      assert s[0] == a[0];
    }
    assert '.' !in a && '.' !in b by {
      assert AllDigits(a) && AllDigits(b);
    }
    SplitJoin([a, b], '.');
    assert [a, b][1..] == [b];
    assert JoinWith([a, b], '.') == s;
    assert |SplitOn(s, '.')| == 2;
    DigitsDotsKey(s);
  }

  // ---------------------------------------------------------------------
  // _get_status_icon_and_text
  // ---------------------------------------------------------------------

  const EmojiLightOn := "<tg-emoji emoji-id=\"5228957330934111865\">\U{1F31E}</tg-emoji>"
  const EmojiLightOff := "<tg-emoji emoji-id=\"5228852207314573962\">\U{1F311}</tg-emoji>"
  const EmojiMaybeOff := "\U{26A0}\U{FE0F}"
  const EmojiOffFirst30 := "\U{1F534}"
  const EmojiOffSecond30 := "\U{1F7E0}"
  const EmojiUnknown := "\U{2753}"
  const EmojiBulb := "\U{1F4A1}"
  const EmojiCalendar := "\U{1F4C5}"
  const EmojiClock := "\U{1F550}"
  const EmojiFlash := "\U{26A1}"

  /** status_map: the icon and the built-in text of each known status. */
  const StatusMap: map<string, (string, string)> := map[
    "yes" := (EmojiLightOn, "Світло є"),
    "no" := (EmojiLightOff, "Світла немає"),
    "maybe" := (EmojiMaybeOff, "Можливо відключення"),
    "first" := (EmojiOffFirst30, "Світла не буде перші 30 хв."),
    "second" := (EmojiOffSecond30, "Світла не буде другі 30 хв"),
    "mfirst" := (EmojiMaybeOff, "Світла можливо не буде перші 30 хв."),
    "msecond" := (EmojiMaybeOff, "Світла можливо не буде другі 30 хв")]

  /** The icon and text of a status; the legend's text wins over the
      built-in one. */
  function StatusIconAndText(status: string, timeTypes: map<string, string>): (string, string) {
    if status in StatusMap then (StatusMap[status].0, Get(timeTypes, status, StatusMap[status].1))
    else (EmojiUnknown, "Невідомо")
  }

  /** The seven known statuses keep their own icon whatever the legend
      says, and take their text from the legend when it has one; any other
      status is shown as unknown. */
  lemma StatusLegend(status: string, timeTypes: map<string, string>)
    ensures status in StatusMap ==>
      && StatusIconAndText(status, timeTypes).0 != EmojiUnknown
      && StatusIconAndText(status, timeTypes).0 == StatusIconAndText(status, map[]).0
      && StatusIconAndText(status, timeTypes).1 == Get(timeTypes, status, StatusIconAndText(status, map[]).1)
    ensures status !in StatusMap ==> StatusIconAndText(status, timeTypes) == (EmojiUnknown, "Невідомо")
  {
  }

  /** Exactly seven statuses are known. */
  lemma KnownStatuses()
    ensures StatusMap.Keys == {"yes", "no", "maybe", "first", "second", "mfirst", "msecond"}
  {
  }

  // ---------------------------------------------------------------------
  // get_group_schedule_for_day and get_group_display_name
  // ---------------------------------------------------------------------

  /** The day whose hours are shown: the given timestamp, else the
      document's `today`; None when that is missing or 0. */
  function DayOf(timestamp: Option<int>, s: Snapshot): Option<int> {
    var t := if timestamp.Some? then timestamp else Today(s);
    if t.Some? && t.value != 0 then t else None
  }

  /** The hours of one group on one day, as the document holds them. */
  function GroupScheduleForDay(groupKey: string, timestamp: Option<int>, data: Option<Snapshot>): (r: Option<GroupDay>)
    ensures r.Some? <==> (data.Some? && Truthy(data.value) && DayOf(timestamp, data.value).Some?
      && groupKey in Get(FactData(data.value), IntToString(DayOf(timestamp, data.value).value), map[]))
    ensures r.Some? ==> r.value == FactData(data.value)[IntToString(DayOf(timestamp, data.value).value)][groupKey]
  {
    if data.None? || !Truthy(data.value) then None
    else
      match DayOf(timestamp, data.value)
      case None => None
      case Some(t) =>
        var day := Get(FactData(data.value), IntToString(t), map[]);
        if groupKey in day then Some(day[groupKey]) else None
  }

  /** The day key is the decimal text of the timestamp, so it names one day only. */
  lemma DayKeyDistinct(t1: int, t2: int)
    requires IntToString(t1) == IntToString(t2)
    ensures t1 == t2
  {
    ParseIntOfIntToString(t1);
    ParseIntOfIntToString(t2);
  }

  /** `sch_names.get(key, key)`, the key itself without a document. */
  function DisplayName(groupKey: string, data: Option<Snapshot>): (r: string)
    ensures data.None? || !Truthy(data.value) || groupKey !in SchNames(data.value) ==> r == groupKey
    ensures data.Some? && groupKey in SchNames(data.value) ==> r == SchNames(data.value)[groupKey]
  {
    if data.None? || !Truthy(data.value) then groupKey else Get(SchNames(data.value), groupKey, groupKey)
  }

  // ---------------------------------------------------------------------
  // format_schedule_text
  // ---------------------------------------------------------------------

  /** What a call returns, or that it raised. */
  datatype Rendered = Text(text: string) | Raised

  /** The results of the two calls of the file-then-network loader that
      format_schedule_text makes: one inside the day lookup, one for the
      names, legend and update time. */
  datatype Loads = Loads(lookup: Option<Snapshot>, details: Option<Snapshot>)

  const ThickLine := Repeat("━", 30)
  const ThinLine := Repeat("─", 30)
  const MorningTitle := "<b>00:00 - 12:00</b>"
  const EveningTitle := "<b>12:00 - 00:00</b>"

  /** `{k:02d}:00` */
  function ClockText(k: nat): string {
    Pad2(k) + ":00"
  }

  /** `{h-1:02d}:00-{h:02d}:00` */
  function HourLabel(h: nat): string
    requires h >= 1
  {
    ClockText(h - 1) + "-" + ClockText(h)
  }

  /** The status of an hour, "unknown" when the hour is missing. */
  function HourStatus(day: GroupDay, h: int): string {
    Get(day, IntToString(h), "unknown")
  }

  function HourLine(day: GroupDay, timeTypes: map<string, string>, h: nat): string
    requires h >= 1
  {
    var iconAndText := StatusIconAndText(HourStatus(day, h), timeTypes);
    "  " + iconAndText.0 + " <code>" + HourLabel(h) + "</code> " + iconAndText.1 + "\n"
  }

  /** The 24 hour lines of a day, hour 1 first. */
  function DayLines(day: GroupDay, timeTypes: map<string, string>): (r: seq<string>)
    ensures |r| == 24 && forall i :: 0 <= i < 24 ==> r[i] == HourLine(day, timeTypes, i + 1)
  {
    seq(24, i requires 0 <= i < 24 => HourLine(day, timeTypes, i + 1))
  }

  function Concat(lines: seq<string>): string {
    if lines == [] then [] else Concat(lines[..|lines| - 1]) + lines[|lines| - 1]
  }

  /** The two blocks of time_blocks, in order: a title and the hours lo .. hi - 1. */
  datatype Block = Block(title: string, lo: nat, hi: nat)

  predicate ValidBlock(b: Block) {
    1 <= b.lo <= b.hi <= 25
  }

  type ValidBlocks = bs: seq<Block> | forall i :: 0 <= i < |bs| ==> ValidBlock(bs[i])

  const Blocks: ValidBlocks := [Block(MorningTitle, 1, 13), Block(EveningTitle, 13, 25)]

  function BlockText(day: GroupDay, timeTypes: map<string, string>, b: Block): string
    requires ValidBlock(b)
  {
    b.title + "\n" + BlockHours(day, timeTypes, b) + "\n"
  }

  /** The lines of the hours lo .. hi - 1 of a block, in order. */
  function BlockHours(day: GroupDay, timeTypes: map<string, string>, b: Block): string
    requires ValidBlock(b)
  {
    Concat(DayLines(day, timeTypes)[b.lo - 1..b.hi - 1])
  }

  function BlocksText(day: GroupDay, timeTypes: map<string, string>, bs: seq<Block>): string
    requires forall i :: 0 <= i < |bs| ==> ValidBlock(bs[i])
  {
    if bs == [] then [] else BlocksText(day, timeTypes, bs[..|bs| - 1]) + BlockText(day, timeTypes, bs[|bs| - 1])
  }

  /** The lines above the hours: title, group name, the date when a
      timestamp was given, and the thick separator. */
  function Header(groupName: string, timestamp: Option<int>, dateOf: int -> string): string {
    HeaderIntro(groupName, timestamp, dateOf) + "\n" + ThickLine + "\n\n"
  }

  /** The title, group and date lines above the separator. */
  function HeaderIntro(groupName: string, timestamp: Option<int>, dateOf: int -> string): string {
    EmojiBulb + " <b>Розклад відключень світла</b>\n"
    + "<b>Група: " + groupName + "</b>\n"
    + (if timestamp.Some? && timestamp.value != 0 then EmojiCalendar + " " + dateOf(timestamp.value) + "\n" else "")
  }

  function Footer(s: Snapshot): string {
    ThinLine + "\n" + "<i>" + EmojiClock + " Оновлено: " + UpdateTime(s) + "</i>"
  }

  function ParseErrorText(groupInput: string): string {
    "❌ Не удалось определить группу из ввода: " + groupInput + "\n\nПример: 3.1 или GPV3.1"
  }

  function NotFoundText(groupKey: string): string {
    "❌ Расписание для группы " + groupKey + " не найдено"
  }

  /** What format_schedule_text returns; dateOf stands for
      `datetime.fromtimestamp(t).strftime('%d.%m.%Y')`. */
  function DayScheduleText(groupInput: string, timestamp: Option<int>, loads: Loads, dateOf: int -> string): Rendered {
    match ParseGroupNumber(groupInput)
    case None => Text(ParseErrorText(groupInput))
    case Some(key) =>
      match GroupScheduleForDay(key, timestamp, loads.lookup)
      case None => Text(NotFoundText(key))
      case Some(day) =>
        if day == map[] then Text(NotFoundText(key))
        else if loads.details.None? then Raised
        else
          var data := loads.details.value;
          Text(Header(Get(SchNames(data), key, key), timestamp, dateOf)
            + BlocksText(day, TimeTypes(data), Blocks) + Footer(data))
  }

  method FormatScheduleText(groupInput: string, timestamp: Option<int>, loads: Loads, dateOf: int -> string)
    returns (r: Rendered)
    ensures r == DayScheduleText(groupInput, timestamp, loads, dateOf)
  {
    var groupKey := ParseGroupNumber(groupInput);
    if groupKey.None? {
      return Text(ParseErrorText(groupInput));
    }
    var key := groupKey.value;
    var schedule := GroupScheduleForDay(key, timestamp, loads.lookup);
    if schedule.None? || schedule.value == map[] {
      return Text(NotFoundText(key));
    }
    if loads.details.None? {
      return Raised;
    }
    var data := loads.details.value;
    var groupName := Get(SchNames(data), key, key);
    var timeTypes := TimeTypes(data);
    var text := Header(groupName, timestamp, dateOf);
    var body := FormatBlocks(schedule.value, timeTypes);
    text := text + body + Footer(data);
    return Text(text);
  }

  /** The loop over time_blocks. */
  method FormatBlocks(day: GroupDay, timeTypes: map<string, string>) returns (text: string)
    ensures text == BlocksText(day, timeTypes, Blocks)
  {
    text := "";
    for b := 0 to |Blocks|
      invariant text == BlocksText(day, timeTypes, Blocks[..b])
    {
      var block := Blocks[b];
      assert Blocks[..b + 1][..b] == Blocks[..b];
      var blockText := FormatBlock(day, timeTypes, block);
      text := text + blockText;
    }
    assert Blocks[..|Blocks|] == Blocks;
  }

  /** One block: its title, the loop over its hours, a blank line. */
  method FormatBlock(day: GroupDay, timeTypes: map<string, string>, block: Block) returns (text: string)
    requires ValidBlock(block)
    ensures text == BlockText(day, timeTypes, block)
  {
    var hours := FormatHours(day, timeTypes, block.lo, block.hi);
    assert hours == BlockHours(day, timeTypes, block);
    text := block.title + "\n" + hours + "\n";
  }

  /** The loop over the hours of a block: their lines, in order. */
  method FormatHours(day: GroupDay, timeTypes: map<string, string>, lo: nat, hi: nat) returns (text: string)
    requires 1 <= lo <= hi <= 25
    ensures text == Concat(DayLines(day, timeTypes)[lo - 1..hi - 1])
  {
    text := "";
    for hour := lo to hi
      invariant text == Concat(DayLines(day, timeTypes)[lo - 1..hour - 1])
    {
      var line := FormatHour(day, timeTypes, hour);
      BlockStep(day, timeTypes, lo, hour);
      text := text + line;
    }
  }

  /** One more hour line of a block. */
  lemma BlockStep(day: GroupDay, timeTypes: map<string, string>, lo: nat, hour: nat)
    requires 1 <= lo <= hour <= 24
    ensures var lines := DayLines(day, timeTypes);
      Concat(lines[lo - 1..hour]) == Concat(lines[lo - 1..hour - 1]) + HourLine(day, timeTypes, hour)
  {
    var lines := DayLines(day, timeTypes);
    ConcatSnoc(lines, lo - 1, hour - 1);
  }

  lemma ConcatSnoc(lines: seq<string>, i: nat, j: nat)
    requires i <= j < |lines|
    ensures Concat(lines[i..j + 1]) == Concat(lines[i..j]) + lines[j]
  {
    assert lines[i..j + 1][..j - i] == lines[i..j];
  }

  /** One hour's line. */
  method FormatHour(day: GroupDay, timeTypes: map<string, string>, hour: nat) returns (line: string)
    requires hour >= 1
    ensures line == HourLine(day, timeTypes, hour)
  {
    var status := Get(day, IntToString(hour), "unknown");
    var iconAndText := StatusIconAndText(status, timeTypes);
    var hourStart, hourEnd := hour - 1, hour;
    var timeStr := ClockText(hourStart) + "-" + ClockText(hourEnd);
    line := "  " + iconAndText.0 + " <code>" + timeStr + "</code> " + iconAndText.1 + "\n";
  }

  // ---------------------------------------------------------------------
  // Properties of the layout
  // ---------------------------------------------------------------------

  lemma BlocksTextTwo(day: GroupDay, timeTypes: map<string, string>)
    ensures BlocksText(day, timeTypes, Blocks) == BlockText(day, timeTypes, Blocks[0]) + BlockText(day, timeTypes, Blocks[1])
  {
    var first := Blocks[..1];
    assert first == [Blocks[0]] && first[..0] == [];
    assert Blocks[..|Blocks| - 1] == first;
    assert BlocksText(day, timeTypes, first) == [] + BlockText(day, timeTypes, Blocks[0]);
    AppendEmpty(BlockText(day, timeTypes, Blocks[0]));
  }

  /** The hours come in two blocks of twelve lines each: hours 1 to 12
      under the morning title and 13 to 24 under the evening title. */
  lemma TwoBlocksOf24Lines(day: GroupDay, timeTypes: map<string, string>)
    ensures var lines := DayLines(day, timeTypes);
      BlocksText(day, timeTypes, Blocks)
      == (MorningTitle + "\n" + Concat(lines[..12]) + "\n") + (EveningTitle + "\n" + Concat(lines[12..]) + "\n")
  {
    var lines := DayLines(day, timeTypes);
    BlocksTextTwo(day, timeTypes);
    assert lines[0..12] == lines[..12];
    assert lines[12..24] == lines[12..];
  }

  /** Hour h is labelled from (h-1):00 to h:00: an 11-character label
      whose two clock times hold the hours h - 1 and h in two digits each. */
  lemma HourLabelTimes(h: nat)
    requires 1 <= h <= 24
    ensures |HourLabel(h)| == 11
    ensures HourLabel(h)[..5] == ClockText(h - 1) && HourLabel(h)[6..] == ClockText(h)
    ensures DigitsValue(HourLabel(h)[..2]) == h - 1 && DigitsValue(HourLabel(h)[6..8]) == h
    ensures HourLabel(h)[2..5] == ":00" && HourLabel(h)[8..] == ":00"
  {
    var a, b := ClockText(h - 1), ClockText(h);
    assert |a| == 5 && |b| == 5;
    assert HourLabel(h) == a + "-" + b;
    assert (a + "-" + b)[..5] == a;
    assert (a + "-" + b)[6..] == b;
    assert a[..2] == Pad2(h - 1) && b[..2] == Pad2(h);
    assert (a + "-" + b)[..2] == a[..2] && (a + "-" + b)[6..8] == b[..2];
    assert a[2..] == ":00" && b[2..] == ":00";
  }

  /** An hour missing from the group's day is shown as unknown. */
  lemma MissingHourUnknown(day: GroupDay, timeTypes: map<string, string>, h: nat)
    requires h >= 1 && IntToString(h) !in day
    ensures HourLine(day, timeTypes, h) == "  " + EmojiUnknown + " <code>" + HourLabel(h) + "</code> Невідомо\n"
  {
  }

  /** Only the statuses of hours 1 to 24 reach the text: two days that
      agree on those hours give the same blocks. */
  lemma HoursDecideBlocks(d1: GroupDay, d2: GroupDay, timeTypes: map<string, string>)
    requires forall h :: 1 <= h <= 24 ==> HourStatus(d1, h) == HourStatus(d2, h)
    ensures BlocksText(d1, timeTypes, Blocks) == BlocksText(d2, timeTypes, Blocks)
  {
    var l1, l2 := DayLines(d1, timeTypes), DayLines(d2, timeTypes);
    assert l1 == l2 by {
      forall i | 0 <= i < 24 ensures l1[i] == l2[i] {
        assert HourStatus(d1, i + 1) == HourStatus(d2, i + 1);
      }
    }
    BlocksTextTwo(d1, timeTypes);
    BlocksTextTwo(d2, timeTypes);
  }

  /** The rendering fails only where the second read of the document
      failed after the first one found the group; the other outcomes are
      the two error texts and the schedule. */
  lemma DayScheduleOutcomes(groupInput: string, timestamp: Option<int>, loads: Loads, dateOf: int -> string)
    ensures var r := DayScheduleText(groupInput, timestamp, loads, dateOf);
      && (ParseGroupNumber(groupInput).None? ==> r == Text(ParseErrorText(groupInput)))
      && (ParseGroupNumber(groupInput).Some? && GroupScheduleForDay(ParseGroupNumber(groupInput).value, timestamp, loads.lookup).None?
          ==> r == Text(NotFoundText(ParseGroupNumber(groupInput).value)))
      && (r.Raised? <==> (ParseGroupNumber(groupInput).Some? && loads.details.None?
          && var day := GroupScheduleForDay(ParseGroupNumber(groupInput).value, timestamp, loads.lookup);
             day.Some? && day.value != map[]))
  {
  }
}
