/** The admin commands /ban and /unban (app/handlers/admin/ban.py): the
    argument text becomes a list of user ids, and each id in turn has its
    status set, with one reply per id.

    Modelling choices:
    - The status update is an oracle that says whether it went through; a
      failing one is caught and reported at that id only.
    - The replies to the admin are steps of the result, in order. */
module Ban {
  import opened Base

  // ---------------------------------------------------------------------
  // check_args_type
  // ---------------------------------------------------------------------

  /** The characters of the class `[ ,]`. */
  predicate IsSeparator(c: char) {
    c == ' ' || c == ','
  }

  predicate NoSeparator(p: string) {
    forall j :: 0 <= j < |p| ==> !IsSeparator(p[j])
  }

  /** s without the run of separators it starts with. */
  function DropSeparators(s: string): (r: string)
    ensures |r| <= |s| && r == s[|s| - |r|..]
    ensures r == [] || !IsSeparator(r[0])
    ensures s != [] && IsSeparator(s[0]) ==> |r| < |s|
    ensures (s == [] || !IsSeparator(s[0])) ==> r == s
    ensures forall i :: 0 <= i < |s| - |r| ==> IsSeparator(s[i])
  {
    if s != [] && IsSeparator(s[0]) then DropSeparators(s[1..]) else s
  }

  /** `re.split(r"[ ,]+", s)`: the pieces between maximal runs of
      separators. A separator at either end leaves an empty piece there. */
  function SplitArgs(s: string): (r: seq<string>)
    ensures |r| >= 1
    ensures forall i :: 0 <= i < |r| ==> NoSeparator(r[i])
    decreases |s|
  {
    if s == [] then [[]]
    else if IsSeparator(s[0]) then [[]] + SplitArgs(DropSeparators(s))
    else
      var rest := SplitArgs(s[1..]);
      [[s[0]] + rest[0]] + rest[1..]
  }

  /** `list(map(parse, pieces))`, or None when one of the conversions
      raises. */
  function ParseAll(pieces: seq<string>, parse: string -> Option<int>): (r: Option<seq<int>>)
    ensures r.Some? ==> |r.value| == |pieces| && forall i :: 0 <= i < |pieces| ==> parse(pieces[i]) == Some(r.value[i])
    ensures r.None? <==> exists i :: 0 <= i < |pieces| && parse(pieces[i]).None?
  {
    if pieces == [] then Some([])
    else
      var init := pieces[..|pieces| - 1];
      var last := pieces[|pieces| - 1];
      match ParseAll(init, parse)
      case None =>
        ghost var i :| 0 <= i < |init| && parse(init[i]).None?;
        assert pieces[i] == init[i];
        None
      case Some(vs) =>
        match parse(last)
        case None => None
        case Some(v) =>
          assert forall i :: 0 <= i < |init| ==> pieces[i] == init[i];
          Some(vs + [v])
  }

  /** check_args_type(type, data_list): the pieces converted by `parse`,
      or None (False) when the arguments are missing or a conversion
      raises. The handlers pass `int`. */
  function CheckArgsType(parse: string -> Option<int>, args: Option<string>): (r: Option<seq<int>>)
    ensures r.Some? ==> args.Some? && |r.value| == |SplitArgs(args.value)|
    ensures r.Some? ==> forall i :: 0 <= i < |r.value| ==> parse(SplitArgs(args.value)[i]) == Some(r.value[i])
    ensures r.None? <==> args.None? || exists i :: 0 <= i < |SplitArgs(args.value)| && parse(SplitArgs(args.value)[i]).None?
  {
    match args
    case None => None
    case Some(s) =>
      var pieces := SplitArgs(s);
      assert pieces == SplitArgs(args.value);
      ParseAll(pieces, parse)
  }

  /** The pieces joined by a separator string. */
  function Joined(pieces: seq<string>, sep: string): string {
    if |pieces| == 0 then []
    else if |pieces| == 1 then pieces[0]
    else pieces[0] + sep + Joined(pieces[1..], sep)
  }

  /** The ids written in decimal. */
  function IdTexts(ids: seq<int>): (r: seq<string>)
    ensures |r| == |ids| && forall i :: 0 <= i < |ids| ==> r[i] == IntToString(ids[i])
  {
    if ids == [] then [] else IdTexts(ids[..|ids| - 1]) + [IntToString(ids[|ids| - 1])]
  }

  lemma {:induction false} DropSeparatorsBefore(sep: string, t: string)
    requires forall j :: 0 <= j < |sep| ==> IsSeparator(sep[j])
    requires t == [] || !IsSeparator(t[0])
    ensures DropSeparators(sep + t) == t
  {
    if sep != [] {
      assert (sep + t)[1..] == sep[1..] + t;
      DropSeparatorsBefore(sep[1..], t);
    } else {
      assert sep + t == t;
    }
  }

  /** A piece, a run of separators, then more text: the piece comes first. */
  lemma {:induction false} SplitArgsAfterPiece(p: string, sep: string, t: string)
    requires NoSeparator(p)
    requires sep != [] && forall j :: 0 <= j < |sep| ==> IsSeparator(sep[j])
    requires t == [] || !IsSeparator(t[0])
    ensures SplitArgs(p + sep + t) == [p] + SplitArgs(t)
  {
    var s := p + sep + t;
    if p == [] {
      assert s == sep + t && IsSeparator(s[0]);
      DropSeparatorsBefore(sep, t);
    } else {
      assert s[0] == p[0] && s[1..] == p[1..] + sep + t;
      SplitArgsAfterPiece(p[1..], sep, t);
      assert [p[0]] + p[1..] == p;
    }
  }

  lemma {:induction false} SplitArgsOfPiece(p: string)
    requires NoSeparator(p)
    ensures SplitArgs(p) == [p]
  {
    if p != [] {
      SplitArgsOfPiece(p[1..]);
      assert [p[0]] + p[1..] == p;
    }
  }

  /** Non-empty pieces without separators, joined by any run of
      separators, split back into the same pieces. */
  lemma {:induction false} SplitArgsJoined(pieces: seq<string>, sep: string)
    requires |pieces| >= 1
    requires forall i :: 0 <= i < |pieces| ==> pieces[i] != [] && NoSeparator(pieces[i])
    requires sep != [] && forall j :: 0 <= j < |sep| ==> IsSeparator(sep[j])
    ensures SplitArgs(Joined(pieces, sep)) == pieces
  {
    if |pieces| == 1 {
      SplitArgsOfPiece(pieces[0]);
    } else {
      var rest := pieces[1..];
      SplitArgsJoined(rest, sep);
      JoinedStart(rest, sep);
      SplitArgsAfterPiece(pieces[0], sep, Joined(rest, sep));
      assert [pieces[0]] + rest == pieces;
    }
  }

  lemma JoinedStart(pieces: seq<string>, sep: string)
    requires |pieces| >= 1 && pieces[0] != []
    ensures Joined(pieces, sep) != [] && Joined(pieces, sep)[0] == pieces[0][0]
  {
  }

  lemma IdTextPlain(i: int)
    ensures IntToString(i) != [] && NoSeparator(IntToString(i))
  {
    var d := NatToString(if i < 0 then -i else i);
    assert forall j :: 0 <= j < |d| ==> IsDigit(d[j]);
  }

  /** Pieces that all convert give the list of their values. */
  lemma {:induction false} ParseAllValues(pieces: seq<string>, parse: string -> Option<int>, values: seq<int>)
    requires |values| == |pieces| && forall i :: 0 <= i < |pieces| ==> parse(pieces[i]) == Some(values[i])
    ensures ParseAll(pieces, parse) == Some(values)
  {
    var r := ParseAll(pieces, parse);
    assert r.Some?;
    assert forall i :: 0 <= i < |pieces| ==> r.value[i] == values[i];
    assert r.value == values;
  }

  lemma ParseIdTexts(ids: seq<int>)
    ensures ParseAll(IdTexts(ids), ParseInt) == Some(ids)
  {
    var texts := IdTexts(ids);
    forall i | 0 <= i < |ids| ensures ParseInt(texts[i]) == Some(ids[i]) {
      ParseIntOfIntToString(ids[i]);
    }
    ParseAllValues(texts, ParseInt, ids);
  }

  /** The ids an admin types, separated by commas and spaces, are read back
      exactly and in order. */
  lemma ArgsRoundTrip(ids: seq<int>, sep: string)
    requires |ids| >= 1
    requires sep != [] && forall j :: 0 <= j < |sep| ==> IsSeparator(sep[j])
    ensures CheckArgsType(ParseInt, Some(Joined(IdTexts(ids), sep))) == Some(ids)
  {
    var texts := IdTexts(ids);
    forall i | 0 <= i < |texts| ensures texts[i] != [] && NoSeparator(texts[i]) {
      IdTextPlain(ids[i]);
    }
    SplitArgsJoined(texts, sep);
    ParseIdTexts(ids);
  }

  /** A text that ends with a separator splits into at least two pieces,
      the last one empty. */
  lemma {:induction false} TrailingSeparator(s: string)
    requires s != [] && IsSeparator(s[|s| - 1])
    ensures |SplitArgs(s)| >= 2 && SplitArgs(s)[|SplitArgs(s)| - 1] == []
    decreases |s|, 1
  {
    if IsSeparator(s[0]) {
      TrailingAfterSeparator(s);
    } else {
      var t := s[1..];
      assert t != [] && t[|t| - 1] == s[|s| - 1];
      TrailingSeparator(t);
      var rest := SplitArgs(t);
      assert SplitArgs(s) == [[s[0]] + rest[0]] + rest[1..];
    }
  }

  /** The case of TrailingSeparator where the text starts with a separator. */
  lemma {:induction false} TrailingAfterSeparator(s: string)
    requires s != [] && IsSeparator(s[0]) && IsSeparator(s[|s| - 1])
    ensures |SplitArgs(s)| >= 2 && SplitArgs(s)[|SplitArgs(s)| - 1] == []
    decreases |s|, 0
  {
    var d := DropSeparators(s);
    assert SplitArgs(s) == [[]] + SplitArgs(d);
    if d != [] {
      assert d[|d| - 1] == s[|s| - 1];
      TrailingSeparator(d);
    } else {
      assert SplitArgs(d) == [[]];
    }
  }

  /** A text that is empty or starts or ends with a separator has an
      empty piece. */
  lemma EmptyPiece(s: string) returns (k: nat)
    requires s == [] || IsSeparator(s[0]) || IsSeparator(s[|s| - 1])
    ensures k < |SplitArgs(s)| && SplitArgs(s)[k] == []
  {
    if s != [] && !IsSeparator(s[0]) {
      TrailingSeparator(s);
      k := |SplitArgs(s)| - 1;
    } else {
      k := 0;
    }
  }

  lemma ParseIntOfEmpty()
    ensures ParseInt([]) == None
  {
    assert Strip([]) == [];
  }

  /** Empty arguments, or a separator at either end, leave an empty piece,
      which int() refuses: the result is False. */
  lemma EmptyPieceRejected(s: string)
    requires s == [] || IsSeparator(s[0]) || IsSeparator(s[|s| - 1])
    ensures CheckArgsType(ParseInt, Some(s)) == None
  {
    var k := EmptyPiece(s);
    ParseIntOfEmpty();
    assert ParseInt(SplitArgs(s)[k]).None?;
  }

  // ---------------------------------------------------------------------
  // get_ban_text
  // ---------------------------------------------------------------------

  /** The usage text, the action word and the error text for a command. */
  datatype BanTexts = BanTexts(usage: string, action: string, error: string)

  const BanUsage := "✅ Send user IDs separated by ',' to ban users.\nExample: <code>/ban 123456, 789012</code>"
  const UnbanUsage := "✅ Send user IDs separated by ',' to unban users.\nExample: <code>/unban 123456, 789012</code>"
  const BanAction := "🔒 Banned"
  const UnbanAction := "🔓 Unbanned"
  const UpdateError := "⚠️ Error while updating status"

  function GetBanText(isBanned: bool): BanTexts {
    BanTexts(if isBanned then BanUsage else UnbanUsage,
             if isBanned then BanAction else UnbanAction,
             UpdateError)
  }

  /** The usage and the action follow the flag; the error text does not. */
  lemma BanTextsByFlag()
    ensures GetBanText(true).usage != GetBanText(false).usage
    ensures GetBanText(true).action != GetBanText(false).action
    ensures GetBanText(true).error == GetBanText(false).error
  {
    assert |BanUsage| + 4 == |UnbanUsage|;
    assert |BanAction| + 2 == |UnbanAction|;
  }

  // ---------------------------------------------------------------------
  // ban_unban_users_command
  // ---------------------------------------------------------------------

  /** The two statuses the commands set. */
  datatype UserStatus = Banned | User

  /** What the handler does, in order: a status update that did or did not
      go through, or a reply to the admin. */
  datatype Step = Update(id: int, status: UserStatus, ok: bool) | Answer(text: string)

  /** `command.command.lower() == "ban"` */
  predicate IsBanned(commandName: string) {
    Lower(commandName) == "ban"
  }

  function StatusFor(isBanned: bool): (s: UserStatus)
    ensures s == Banned <==> isBanned
  {
    if isBanned then Banned else User
  }

  const ConfirmStart := "✅ User <code>"
  const ConfirmMiddle := "</code> has been "
  const FailureMiddle := " for user <code>"
  const FailureEnd := "</code>."

  /** The reply to an update that went through. */
  function Confirmation(id: int, action: string): string {
    ConfirmStart + IntToString(id) + ConfirmMiddle + action + "."
  }

  /** The reply to an update that raised. */
  function Failure(id: int, error: string): string {
    error + FailureMiddle + IntToString(id) + FailureEnd
  }

  /** The reply for an id, by whether its update went through. */
  function Reply(action: string, error: string): (int, bool) -> string {
    (id, ok) => if ok then Confirmation(id, action) else Failure(id, error)
  }

  /** The steps for one id. */
  function IdSteps(id: int, status: UserStatus, reply: (int, bool) -> string,
                   updateOk: (int, UserStatus) -> bool): seq<Step>
  {
    var ok := updateOk(id, status);
    [Update(id, status, ok), Answer(reply(id, ok))]
  }

  /** The steps for the ids in turn. */
  function IdsSteps(ids: seq<int>, status: UserStatus, reply: (int, bool) -> string,
                    updateOk: (int, UserStatus) -> bool): seq<Step>
  {
    if ids == [] then []
    else IdsSteps(ids[..|ids| - 1], status, reply, updateOk) + IdSteps(ids[|ids| - 1], status, reply, updateOk)
  }

  /** What the handler does for a command name and its argument text. */
  function HandlerSteps(commandName: string, args: Option<string>, updateOk: (int, UserStatus) -> bool): seq<Step> {
    var isBanned := IsBanned(commandName);
    var texts := GetBanText(isBanned);
    match CheckArgsType(ParseInt, args)
    case None => [Answer(texts.usage)]
    case Some(ids) => IdsSteps(ids, StatusFor(isBanned), Reply(texts.action, texts.error), updateOk)
  }

  method BanUnbanUsersCommand(commandName: string, args: Option<string>, updateOk: (int, UserStatus) -> bool)
    returns (steps: seq<Step>)
    ensures steps == HandlerSteps(commandName, args, updateOk)
  {
    var isBanned := Lower(commandName) == "ban";
    var texts := GetBanText(isBanned);
    var parsed := CheckArgsType(ParseInt, args);
    if parsed.None? {
      return [Answer(texts.usage)];
    }
    var ids := parsed.value;
    steps := UpdateAll(ids, if isBanned then Banned else User, texts.action, texts.error, updateOk);
  }

  /** The loop over the ids, with its try/except per id. */
  method UpdateAll(ids: seq<int>, status: UserStatus, action: string, error: string,
                   updateOk: (int, UserStatus) -> bool)
    returns (steps: seq<Step>)
    ensures steps == IdsSteps(ids, status, Reply(action, error), updateOk)
  {
    steps := [];
    for i := 0 to |ids|
      invariant steps == IdsSteps(ids[..i], status, Reply(action, error), updateOk)
    {
      var id := ids[i];
      assert ids[..i + 1][..i] == ids[..i];
      var ok := updateOk(id, status);
      var text := if ok then Confirmation(id, action) else Failure(id, error);
      steps := steps + [Update(id, status, ok), Answer(text)];
    }
    assert ids[..|ids|] == ids;
  }

  /** Every id is updated once, in order, whatever the updates answer, and
      is followed by its own reply, chosen by whether its update went
      through. */
  lemma {:induction false} EveryIdInOrder(ids: seq<int>, status: UserStatus, reply: (int, bool) -> string,
                                          updateOk: (int, UserStatus) -> bool)
    ensures var steps := IdsSteps(ids, status, reply, updateOk);
      && |steps| == 2 * |ids|
      && forall i :: 0 <= i < |ids| ==>
           && steps[2 * i] == Update(ids[i], status, updateOk(ids[i], status))
           && steps[2 * i + 1] == Answer(reply(ids[i], updateOk(ids[i], status)))
  {
    if ids != [] {
      var init := ids[..|ids| - 1];
      var last := ids[|ids| - 1];
      EveryIdInOrder(init, status, reply, updateOk);
      var a := IdsSteps(init, status, reply, updateOk);
      var b := IdSteps(last, status, reply, updateOk);
      var steps := IdsSteps(ids, status, reply, updateOk);
      assert steps == a + b;
      forall i | 0 <= i < |ids|
        ensures steps[2 * i] == Update(ids[i], status, updateOk(ids[i], status))
        ensures steps[2 * i + 1] == Answer(reply(ids[i], updateOk(ids[i], status)))
      {
        if i < |init| {
          assert ids[i] == init[i];
          assert steps[2 * i] == a[2 * i] && steps[2 * i + 1] == a[2 * i + 1];
        } else {
          assert steps[2 * i] == b[0] && steps[2 * i + 1] == b[1];
        }
      }
    }
  }

  /** The confirmation and the error reply for an id both name it, and
      they can be told apart. */
  lemma ReplyNamesId(id: int, isBanned: bool, ok: bool)
    ensures var texts := GetBanText(isBanned);
      var text := Reply(texts.action, texts.error)(id, ok);
      && (exists before, after :: text == before + IntToString(id) + after)
      && (text[0] == '✅' <==> ok)
  {
    var texts := GetBanText(isBanned);
    var text := Reply(texts.action, texts.error)(id, ok);
    if ok {
      assert text == Confirmation(id, texts.action);
      assert text == ConfirmStart + IntToString(id) + (ConfirmMiddle + texts.action + ".");
      assert text[0] == ConfirmStart[0];
    } else {
      assert text == Failure(id, texts.error);
      assert text == (UpdateError + FailureMiddle) + IntToString(id) + FailureEnd;
      assert text[0] == UpdateError[0];
    }
  }

  /** Only the lower-cased command name matters. */
  lemma BanIgnoresCase(commandName: string)
    ensures IsBanned(Lower(commandName)) == IsBanned(commandName)
  {
    LowerIdempotent(commandName);
  }

  /** Arguments that are a list of ids: every id is updated in order, to
      the status the command names, banned exactly for "ban" in any letter
      case. */
  lemma HandlerUpdates(commandName: string, args: Option<string>, updateOk: (int, UserStatus) -> bool)
    requires CheckArgsType(ParseInt, args).Some?
    ensures var steps := HandlerSteps(commandName, args, updateOk);
      var ids := CheckArgsType(ParseInt, args).value;
      && |steps| == 2 * |ids|
      && forall i :: 0 <= i < |ids| ==>
           steps[2 * i].Update? && steps[2 * i].id == ids[i]
           && (steps[2 * i].status == Banned <==> IsBanned(commandName))
  {
    var ids := CheckArgsType(ParseInt, args).value;
    var texts := GetBanText(IsBanned(commandName));
    var status := StatusFor(IsBanned(commandName));
    var reply := Reply(texts.action, texts.error);
    assert HandlerSteps(commandName, args, updateOk) == IdsSteps(ids, status, reply, updateOk);
    UpdatesInOrder(ids, status, reply, updateOk);
  }

  lemma UpdatesInOrder(ids: seq<int>, status: UserStatus, reply: (int, bool) -> string,
                       updateOk: (int, UserStatus) -> bool)
    ensures var steps := IdsSteps(ids, status, reply, updateOk);
      && |steps| == 2 * |ids|
      && forall i :: 0 <= i < |ids| ==>
           steps[2 * i].Update? && steps[2 * i].id == ids[i] && steps[2 * i].status == status
  {
    EveryIdInOrder(ids, status, reply, updateOk);
  }
}
