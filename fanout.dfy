/** Delivery of one notification text to the users of one group: one send
    attempt per user, in order; a failing send is caught and not counted.
    The two monitors are throttled: a successful send is followed by a
    pause. The watcher's loop has no pause. The Telegram call is an oracle
    `sendOk(user, text)`; the pause is an event of the trace. */
module Fanout {

  type UserId = int

  /** What a cycle does to the outside world, in order. */
  datatype Event<S> =
    | Attempt(user: UserId, text: string, delivered: bool)
    | Pause
    | Saved(snapshot: S)

  /** The events of one send attempt; a throttled sender pauses after a
      message that went through. */
  function AttemptEvents<S>(user: UserId, text: string, sendOk: (UserId, string) -> bool, throttled: bool): seq<Event<S>> {
    if !sendOk(user, text) then [Attempt(user, text, false)]
    else if throttled then [Attempt(user, text, true), Pause]
    else [Attempt(user, text, true)]
  }

  /** The events of sending text to every user in turn. */
  function Dispatch<S>(users: seq<UserId>, text: string, sendOk: (UserId, string) -> bool, throttled: bool): seq<Event<S>> {
    if users == [] then []
    else Dispatch(users[..|users| - 1], text, sendOk, throttled) + AttemptEvents(users[|users| - 1], text, sendOk, throttled)
  }

  /** How many of the users the oracle lets the message through to. */
  function DeliveredCount(users: seq<UserId>, text: string, sendOk: (UserId, string) -> bool): nat {
    if users == [] then 0
    else DeliveredCount(users[..|users| - 1], text, sendOk) + (if sendOk(users[|users| - 1], text) then 1 else 0)
  }

  /** The users of the attempts in a trace, in order. */
  function Attempted<S>(events: seq<Event<S>>): seq<UserId> {
    if events == [] then []
    else Attempted(events[..|events| - 1]) + (if events[|events| - 1].Attempt? then [events[|events| - 1].user] else [])
  }

  /** The number of attempts in a trace that went through. */
  function Successes<S>(events: seq<Event<S>>): nat {
    if events == [] then 0
    else Successes(events[..|events| - 1]) + (if events[|events| - 1].Attempt? && events[|events| - 1].delivered then 1 else 0)
  }

  predicate NoSave<S>(events: seq<Event<S>>) {
    forall i :: 0 <= i < |events| ==> !events[i].Saved?
  }

  /** A save appended to a trace without one is its only save, and the
      last event. */
  lemma SaveAppended<S>(n: seq<Event<S>>, s: S)
    requires NoSave(n)
    ensures var e := n + [Saved(s)];
      && (forall i :: 0 <= i < |e| && e[i].Saved? ==> i == |e| - 1 && e[i].snapshot == s)
      && !NoSave(e)
  {
    var e := n + [Saved(s)];
    assert e[|e| - 1] == Saved(s);
    forall i | 0 <= i < |e| && e[i].Saved? ensures i == |e| - 1 {
      if i < |n| {
        assert e[i] == n[i];
      }
    }
  }

  /** The inner send loop: `for user in users: try: send; sent_count += 1`,
      followed by `sleep` when throttled. */
  method SendAll<S>(users: seq<UserId>, text: string, sendOk: (UserId, string) -> bool, throttled: bool)
    returns (events: seq<Event<S>>, sent: nat)
    ensures events == Dispatch(users, text, sendOk, throttled)
    ensures sent == DeliveredCount(users, text, sendOk)
  {
    events, sent := [], 0;
    for i := 0 to |users|
      invariant events == Dispatch(users[..i], text, sendOk, throttled)
      invariant sent == DeliveredCount(users[..i], text, sendOk)
    {
      var user := users[i];
      assert users[..i + 1][..i] == users[..i];
      if sendOk(user, text) {
        events := events + [Attempt(user, text, true)];
        sent := sent + 1;
        if throttled {
          events := events + [Pause];
        }
      } else {
        events := events + [Attempt(user, text, false)];
      }
    }
    assert users[..|users|] == users;
  }

  lemma InitLast<T>(s: seq<T>)
    requires s != []
    ensures s[..|s| - 1] + [s[|s| - 1]] == s
  {
  }

  lemma AttemptedAppend<S>(a: seq<Event<S>>, b: seq<Event<S>>)
    ensures Attempted(a + b) == Attempted(a) + Attempted(b)
    decreases |b|
  {
    if b != [] {
      assert (a + b)[..|a + b| - 1] == a + b[..|b| - 1];
      AttemptedAppend(a, b[..|b| - 1]);
    } else {
      assert a + b == a;
    }
  }

  lemma NoSaveAppend<S>(a: seq<Event<S>>, b: seq<Event<S>>)
    requires NoSave(a) && NoSave(b)
    ensures NoSave(a + b)
  {
    assert forall i :: 0 <= i < |a + b| ==> (a + b)[i] == if i < |a| then a[i] else b[i - |a|];
  }

  lemma SuccessesAppend<S>(a: seq<Event<S>>, b: seq<Event<S>>)
    ensures Successes(a + b) == Successes(a) + Successes(b)
    decreases |b|
  {
    if b != [] {
      assert (a + b)[..|a + b| - 1] == a + b[..|b| - 1];
      SuccessesAppend(a, b[..|b| - 1]);
    } else {
      assert a + b == a;
    }
  }

  lemma AttemptEventsShape<S>(user: UserId, text: string, sendOk: (UserId, string) -> bool, throttled: bool)
    ensures Attempted<S>(AttemptEvents(user, text, sendOk, throttled)) == [user]
    ensures Successes<S>(AttemptEvents(user, text, sendOk, throttled)) == if sendOk(user, text) then 1 else 0
  {
    var a: Event<S> := Attempt(user, text, sendOk(user, text));
    assert Attempted<S>([a]) == [user] && Successes<S>([a]) == (if a.delivered then 1 else 0) by {
      assert [a][..0] == [];
    }
    if sendOk(user, text) && throttled {
      var e: seq<Event<S>> := [a, Pause];
      assert e[..1] == [a];
      assert Attempted(e) == Attempted([a]);
      assert Successes(e) == Successes([a]);
    }
  }

  /** Failure isolation: every user is attempted exactly once and in order,
      whatever the oracle answers. */
  lemma {:induction false} EveryUserAttempted<S>(users: seq<UserId>, text: string, sendOk: (UserId, string) -> bool,
                                               throttled: bool)
    ensures Attempted<S>(Dispatch(users, text, sendOk, throttled)) == users
  {
    if users != [] {
      var init := users[..|users| - 1];
      var last := users[|users| - 1];
      var d: seq<Event<S>> := Dispatch(init, text, sendOk, throttled);
      var e: seq<Event<S>> := AttemptEvents(last, text, sendOk, throttled);
      assert Dispatch<S>(users, text, sendOk, throttled) == d + e;
      EveryUserAttempted<S>(init, text, sendOk, throttled);
      AttemptedAppend<S>(d, e);
      AttemptEventsShape<S>(last, text, sendOk, throttled);
      InitLast(users);
    }
  }

  /** sent_count is the number of attempts that went through. */
  lemma {:induction false} SentCountIsSuccesses<S>(users: seq<UserId>, text: string, sendOk: (UserId, string) -> bool,
                                                 throttled: bool)
    ensures Successes<S>(Dispatch(users, text, sendOk, throttled)) == DeliveredCount(users, text, sendOk)
    ensures DeliveredCount(users, text, sendOk) <= |users|
  {
    if users != [] {
      var init := users[..|users| - 1];
      var last := users[|users| - 1];
      SentCountIsSuccesses<S>(init, text, sendOk, throttled);
      SuccessesAppend<S>(Dispatch(init, text, sendOk, throttled), AttemptEvents(last, text, sendOk, throttled));
      AttemptEventsShape<S>(last, text, sendOk, throttled);
    }
  }

  /** With exactly one failing recipient, all others still get the message:
      sent_count is one less than the number of users. */
  lemma {:induction false} OneFailureCostsOne(users: seq<UserId>, text: string, sendOk: (UserId, string) -> bool, k: nat)
    requires k < |users| && !sendOk(users[k], text)
    requires forall j :: 0 <= j < |users| && j != k ==> sendOk(users[j], text)
    ensures DeliveredCount(users, text, sendOk) == |users| - 1
  {
    var init := users[..|users| - 1];
    if k == |users| - 1 {
      AllDelivered(init, text, sendOk);
    } else {
      OneFailureCostsOne(init, text, sendOk, k);
    }
  }

  lemma {:induction false} AllDelivered(users: seq<UserId>, text: string, sendOk: (UserId, string) -> bool)
    requires forall j :: 0 <= j < |users| ==> sendOk(users[j], text)
    ensures DeliveredCount(users, text, sendOk) == |users|
  {
    if users != [] {
      AllDelivered(users[..|users| - 1], text, sendOk);
    }
  }

  /** A pause only ever follows a delivered message, an unthrottled sender
      never pauses, and a fan-out never saves. */
  lemma {:induction false} PauseFollowsDelivery<S>(users: seq<UserId>, text: string, sendOk: (UserId, string) -> bool,
                                                 throttled: bool)
    ensures var e := Dispatch<S>(users, text, sendOk, throttled);
      && NoSave(e)
      && (forall i :: 0 <= i < |e| && e[i].Pause? ==> throttled && i > 0 && e[i - 1].Attempt? && e[i - 1].delivered)
      && (e != [] ==> e[0].Attempt?)
  {
    if users != [] {
      var init := users[..|users| - 1];
      PauseFollowsDelivery<S>(init, text, sendOk, throttled);
    }
  }

  /** A throttled sender pauses after every message that goes through: the
      pauses are as many as the deliveries; an unthrottled one never pauses. */
  lemma {:induction false} PausesPerDelivery<S>(users: seq<UserId>, text: string, sendOk: (UserId, string) -> bool,
                                              throttled: bool)
    ensures Pauses<S>(Dispatch(users, text, sendOk, throttled)) == if throttled then DeliveredCount(users, text, sendOk) else 0
  {
    if users != [] {
      var init := users[..|users| - 1];
      var last := users[|users| - 1];
      var a := AttemptEvents<S>(last, text, sendOk, throttled);
      PausesPerDelivery<S>(init, text, sendOk, throttled);
      PausesAppend<S>(Dispatch(init, text, sendOk, throttled), a);
      assert Pauses(a) == if throttled && sendOk(last, text) then 1 else 0 by {
        if sendOk(last, text) && throttled {
          var first: Event<S> := Attempt(last, text, true);
          assert a[..1] == [first];
          assert [first][..0] == [];
          assert Pauses([first]) == 0;
        } else {
          assert |a| == 1 && !a[0].Pause?;
          assert a[..0] == [];
        }
      }
    }
  }

  /** The number of pauses in a trace. */
  function Pauses<S>(events: seq<Event<S>>): nat {
    if events == [] then 0
    else Pauses(events[..|events| - 1]) + (if events[|events| - 1].Pause? then 1 else 0)
  }

  lemma PausesAppend<S>(a: seq<Event<S>>, b: seq<Event<S>>)
    ensures Pauses(a + b) == Pauses(a) + Pauses(b)
    decreases |b|
  {
    if b != [] {
      assert (a + b)[..|a + b| - 1] == a + b[..|b| - 1];
      PausesAppend(a, b[..|b| - 1]);
    } else {
      assert a + b == a;
    }
  }

  // ---------------------------------------------------------------------
  // One notification per item, each to its own recipients
  // ---------------------------------------------------------------------

  /** The events of handling the items in turn: the text of each goes to
      its audience. An item whose audience is empty sends nothing. */
  function Broadcast<T, S>(items: seq<T>, textFor: T -> string, audience: T -> seq<UserId>,
                           sendOk: (UserId, string) -> bool, throttled: bool): seq<Event<S>>
  {
    if items == [] then []
    else
      var last := items[|items| - 1];
      Broadcast(items[..|items| - 1], textFor, audience, sendOk, throttled)
        + Dispatch(audience(last), textFor(last), sendOk, throttled)
  }

  /** The audiences of the items, one after the other. */
  function Audiences<T>(items: seq<T>, audience: T -> seq<UserId>): seq<UserId> {
    if items == [] then []
    else Audiences(items[..|items| - 1], audience) + audience(items[|items| - 1])
  }

  /** The number of sends that go through, item by item. */
  function Delivered<T>(items: seq<T>, textFor: T -> string, audience: T -> seq<UserId>,
                        sendOk: (UserId, string) -> bool): nat
  {
    if items == [] then 0
    else
      var last := items[|items| - 1];
      Delivered(items[..|items| - 1], textFor, audience, sendOk) + DeliveredCount(audience(last), textFor(last), sendOk)
  }

  lemma BroadcastSnoc<T, S>(items: seq<T>, item: T, textFor: T -> string, audience: T -> seq<UserId>,
                            sendOk: (UserId, string) -> bool, throttled: bool)
    ensures Broadcast<T, S>(items + [item], textFor, audience, sendOk, throttled)
      == Broadcast<T, S>(items, textFor, audience, sendOk, throttled) + Dispatch(audience(item), textFor(item), sendOk, throttled)
  {
    assert (items + [item])[..|items|] == items;
  }

  /** Failure isolation across items: every member of every audience is
      attempted once, in order, whatever the sends answer; the successes
      are the sends that went through; there is one pause per delivery when
      throttled and none otherwise; nothing is saved. */
  lemma {:induction false} BroadcastAttempted<T, S>(items: seq<T>, textFor: T -> string, audience: T -> seq<UserId>,
                                                    sendOk: (UserId, string) -> bool, throttled: bool)
    ensures Attempted(Broadcast<T, S>(items, textFor, audience, sendOk, throttled)) == Audiences(items, audience)
    ensures Successes(Broadcast<T, S>(items, textFor, audience, sendOk, throttled)) == Delivered(items, textFor, audience, sendOk)
    ensures Pauses(Broadcast<T, S>(items, textFor, audience, sendOk, throttled))
      == if throttled then Delivered(items, textFor, audience, sendOk) else 0
    ensures NoSave(Broadcast<T, S>(items, textFor, audience, sendOk, throttled))
  {
    if items != [] {
      var init := items[..|items| - 1];
      var last := items[|items| - 1];
      var a := Broadcast<T, S>(init, textFor, audience, sendOk, throttled);
      var b := Dispatch<S>(audience(last), textFor(last), sendOk, throttled);
      BroadcastAttempted<T, S>(init, textFor, audience, sendOk, throttled);
      EveryUserAttempted<S>(audience(last), textFor(last), sendOk, throttled);
      SentCountIsSuccesses<S>(audience(last), textFor(last), sendOk, throttled);
      PauseFollowsDelivery<S>(audience(last), textFor(last), sendOk, throttled);
      PausesPerDelivery<S>(audience(last), textFor(last), sendOk, throttled);
      AttemptedAppend(a, b);
      SuccessesAppend(a, b);
      PausesAppend(a, b);
      NoSaveAppend(a, b);
    }
  }
}
