/** The scraped outage schedule (utils/light_schedule.py): a list of group
    schedules, the diff of two such lists, the lookup of one group by name,
    and the plain-text rendering of one group's periods. */
module LightSchedule {
  import opened Base

  /** One `{"start", "end", "status"}` entry of a group. */
  datatype Period = Period(start: string, end: string, status: string)

  /** One `{"group_id", "group_name", "periods"}` entry of the list. */
  datatype GroupSchedule = GroupSchedule(groupId: string, groupName: string, periods: seq<Period>)

  /** A change record. get_changed_groups only builds the first three; the
      notifiers also accept a record of any other `type`. */
  datatype Change =
    | New(name: string, schedule: GroupSchedule)
    | Updated(name: string, oldSchedule: GroupSchedule, newSchedule: GroupSchedule)
    | Deleted(name: string)
    | Other(name: string, kind: string)

  /** The group's schedule after the change: the current one of a new or an
      updated group, none for a deleted group or a record of another type. */
  function ScheduleAfter(change: Change): Option<GroupSchedule> {
    match change
    case New(_, s) => Some(s)
    case Updated(_, _, s) => Some(s)
    case Deleted(_) => None
    case Other(_, _) => None
  }

  // ---------------------------------------------------------------------
  // `{s["group_name"]: s for s in schedules}`
  // ---------------------------------------------------------------------

  predicate Distinct<T(==)>(s: seq<T>) {
    forall i, j :: 0 <= i < j < |s| ==> s[i] != s[j]
  }

  predicate Named(l: seq<GroupSchedule>, n: string) {
    exists i :: 0 <= i < |l| && l[i].groupName == n
  }

  /** The keys of the dictionary, in the order they were first inserted. */
  function Names(l: seq<GroupSchedule>): (r: seq<string>)
    ensures Distinct(r)
    ensures forall n :: n in r <==> Named(l, n)
  {
    if l == [] then []
    else
      var init := l[..|l| - 1];
      var n := l[|l| - 1].groupName;
      var keys := Names(init);
      assert forall m :: Named(l, m) <==> Named(init, m) || m == n by {
        forall m | Named(l, m) ensures Named(init, m) || m == n {
          var i :| 0 <= i < |l| && l[i].groupName == m;
          if i < |l| - 1 {
            assert init[i] == l[i];
          }
        }
        forall m | Named(init, m) ensures Named(l, m) {
          var i :| 0 <= i < |init| && init[i].groupName == m;
          assert l[i] == init[i];
        }
      }
      if n in keys then keys else keys + [n]
  }

  /** The value stored under a key: the last entry with that name. */
  function Lookup(l: seq<GroupSchedule>, n: string): (r: Option<GroupSchedule>)
    ensures r.Some? <==> Named(l, n)
    ensures r.Some? ==> exists i :: (0 <= i < |l| && l[i] == r.value && r.value.groupName == n
      && forall j :: i < j < |l| ==> l[j].groupName != n)
  {
    if l == [] then None
    else
      var init := l[..|l| - 1];
      if l[|l| - 1].groupName == n then Some(l[|l| - 1])
      else
        var r := Lookup(init, n);
        assert Named(l, n) ==> Named(init, n) by {
          if Named(l, n) {
            var i :| 0 <= i < |l| && l[i].groupName == n;
            assert init[i] == l[i];
          }
        }
        assert Named(init, n) ==> Named(l, n) by {
          if Named(init, n) {
            var i :| 0 <= i < |init| && init[i].groupName == n;
            assert l[i] == init[i];
          }
        }
        if r.Some? then
          var i :| 0 <= i < |init| && init[i] == r.value && r.value.groupName == n
            && forall j :: i < j < |init| ==> init[j].groupName != n;
          assert l[i] == init[i];
          r
        else r
  }

  /** The entry a later one with the same name replaces is not what the
      dictionary holds: the last entry wins. */
  lemma LookupLastWins(l: seq<GroupSchedule>, i: nat)
    requires i < |l|
    requires forall j :: i < j < |l| ==> l[j].groupName != l[i].groupName
    ensures Lookup(l, l[i].groupName) == Some(l[i])
  {
    var r := Lookup(l, l[i].groupName);
    assert Named(l, l[i].groupName);
    var k :| 0 <= k < |l| && l[k] == r.value && r.value.groupName == l[i].groupName
      && forall j :: k < j < |l| ==> l[j].groupName != l[i].groupName;
    assert k == i;
  }

  /** The dictionary built in a loop, as the comprehension does it. */
  method BuildIndex(l: seq<GroupSchedule>) returns (keys: seq<string>, index: map<string, GroupSchedule>)
    ensures keys == Names(l)
    ensures forall n :: n in index <==> Named(l, n)
    ensures forall n :: n in index ==> Lookup(l, n) == Some(index[n])
  {
    keys, index := [], map[];
    for i := 0 to |l|
      invariant DictOf(l[..i], keys, index)
    {
      var s := l[i];
      IndexStep(l, i, keys, index);
      if s.groupName !in index {
        keys := keys + [s.groupName];
      }
      index := index[s.groupName := s];
    }
    assert l[..|l|] == l;
  }

  /** keys and index are the key order and the contents of the dictionary
      built from l. */
  ghost predicate DictOf(l: seq<GroupSchedule>, keys: seq<string>, index: map<string, GroupSchedule>) {
    && keys == Names(l)
    && (forall n :: n in index <==> n in keys)
    && (forall n :: n in index ==> Lookup(l, n) == Some(index[n]))
  }

  /** Storing one more entry, as the comprehension does. */
  lemma IndexStep(l: seq<GroupSchedule>, i: nat, keys: seq<string>, index: map<string, GroupSchedule>)
    requires i < |l| && DictOf(l[..i], keys, index)
    ensures var n := l[i].groupName;
      DictOf(l[..i + 1], if n in index then keys else keys + [n], index[n := l[i]])
  {
    var n := l[i].groupName;
    var p := l[..i + 1];
    assert p[..|p| - 1] == l[..i] && p[|p| - 1] == l[i];
    var keys', index' := if n in index then keys else keys + [n], index[n := l[i]];
    assert keys' == Names(p);
    assert forall m :: m in index' <==> m in keys';
    forall m | m in index' ensures Lookup(p, m) == Some(index'[m]) {
      if m != n {
        assert m in index;
      }
    }
  }

  // ---------------------------------------------------------------------
  // get_changed_groups
  // ---------------------------------------------------------------------

  /** What the first loop records for one key of the current dictionary. */
  function CurrentRecord(n: string, prev: seq<GroupSchedule>, curr: seq<GroupSchedule>): (r: seq<Change>)
    ensures |r| <= 1 && forall c :: c in r ==> c.name == n && (c.New? || c.Updated?)
  {
    match (Lookup(prev, n), Lookup(curr, n))
    case (None, Some(c)) => [New(n, c)]
    case (Some(p), Some(c)) => if p.periods != c.periods then [Updated(n, p, c)] else []
    case _ => []
  }

  /** What the second loop records for one key of the previous dictionary. */
  function DeletedRecord(n: string, curr: seq<GroupSchedule>): (r: seq<Change>)
    ensures |r| <= 1 && forall c :: c in r ==> c.name == n && c.Deleted?
  {
    if Lookup(curr, n).None? then [Deleted(n)] else []
  }

  function CurrentPass(keys: seq<string>, prev: seq<GroupSchedule>, curr: seq<GroupSchedule>): seq<Change> {
    if keys == [] then []
    else CurrentPass(keys[..|keys| - 1], prev, curr) + CurrentRecord(keys[|keys| - 1], prev, curr)
  }

  function DeletedPass(keys: seq<string>, curr: seq<GroupSchedule>): seq<Change> {
    if keys == [] then []
    else DeletedPass(keys[..|keys| - 1], curr) + DeletedRecord(keys[|keys| - 1], curr)
  }

  /** The records get_changed_groups returns. */
  function ChangedGroups(prev: seq<GroupSchedule>, curr: seq<GroupSchedule>): seq<Change> {
    CurrentPass(Names(curr), prev, curr) + DeletedPass(Names(prev), curr)
  }

  method GetChangedGroups(previous: seq<GroupSchedule>, current: seq<GroupSchedule>) returns (changed: seq<Change>)
    ensures changed == ChangedGroups(previous, current)
  {
    var prevKeys, prevMap := BuildIndex(previous);
    var currKeys, currMap := BuildIndex(current);
    changed := CheckCurrentGroups(previous, current, prevMap, currKeys, currMap);
    var deleted := CheckDeletedGroups(current, prevKeys, currMap);
    changed := changed + deleted;
  }

  /** The first loop: `new` and `updated` records, in current key order. */
  method CheckCurrentGroups(previous: seq<GroupSchedule>, current: seq<GroupSchedule>, prevMap: map<string, GroupSchedule>,
                            currKeys: seq<string>, currMap: map<string, GroupSchedule>)
    returns (changed: seq<Change>)
    requires forall n :: n in prevMap <==> Named(previous, n)
    requires forall n :: n in prevMap ==> Lookup(previous, n) == Some(prevMap[n])
    requires forall n :: n in currMap <==> Named(current, n)
    requires forall n :: n in currMap ==> Lookup(current, n) == Some(currMap[n])
    requires forall n :: n in currKeys ==> n in currMap
    ensures changed == CurrentPass(currKeys, previous, current)
  {
    changed := [];
    for i := 0 to |currKeys|
      invariant changed == CurrentPass(currKeys[..i], previous, current)
    {
      var name := currKeys[i];
      assert currKeys[..i + 1][..i] == currKeys[..i];
      assert name in currKeys;
      var currSchedule := currMap[name];
      ghost var record := CurrentRecord(name, previous, current);
      if name !in prevMap {
        assert record == [New(name, currSchedule)];
        changed := changed + [New(name, currSchedule)];
      } else {
        var prevSchedule := prevMap[name];
        if prevSchedule.periods != currSchedule.periods {
          assert record == [Updated(name, prevSchedule, currSchedule)];
          changed := changed + [Updated(name, prevSchedule, currSchedule)];
        } else {
          assert record == [];
        }
      }
    }
    assert currKeys[..|currKeys|] == currKeys;
  }

  /** The second loop: `deleted` records, in previous key order. */
  method CheckDeletedGroups(current: seq<GroupSchedule>, prevKeys: seq<string>, currMap: map<string, GroupSchedule>)
    returns (deleted: seq<Change>)
    requires forall n :: n in currMap <==> Named(current, n)
    ensures deleted == DeletedPass(prevKeys, current)
  {
    deleted := [];
    for i := 0 to |prevKeys|
      invariant deleted == DeletedPass(prevKeys[..i], current)
    {
      var name := prevKeys[i];
      assert prevKeys[..i + 1][..i] == prevKeys[..i];
      if name !in currMap {
        deleted := deleted + [Deleted(name)];
      }
    }
    assert prevKeys[..|prevKeys|] == prevKeys;
  }

  /** The records about one group name. */
  function RecordsNamed(cs: seq<Change>, n: string): (r: seq<Change>)
    ensures |r| <= |cs|
  {
    if cs == [] then []
    else RecordsNamed(cs[..|cs| - 1], n) + (if cs[|cs| - 1].name == n then [cs[|cs| - 1]] else [])
  }

  lemma {:induction false} RecordsNamedAppend(a: seq<Change>, b: seq<Change>, n: string)
    ensures RecordsNamed(a + b, n) == RecordsNamed(a, n) + RecordsNamed(b, n)
    decreases |b|
  {
    if b == [] {
      assert a + b == a;
    } else {
      assert (a + b)[..|a + b| - 1] == a + b[..|b| - 1];
      RecordsNamedAppend(a, b[..|b| - 1], n);
    }
  }

  /** A record list of at most one element, all about one name. */
  lemma RecordsNamedSingle(cs: seq<Change>, k: string, n: string)
    requires |cs| <= 1 && forall c :: c in cs ==> c.name == k
    ensures RecordsNamed(cs, n) == if k == n then cs else []
  {
    if |cs| == 1 {
      assert cs[..0] == [];
    }
  }

  lemma DistinctLast<T>(keys: seq<T>)
    requires Distinct(keys) && keys != []
    ensures Distinct(keys[..|keys| - 1]) && keys[|keys| - 1] !in keys[..|keys| - 1]
    ensures keys == keys[..|keys| - 1] + [keys[|keys| - 1]]
  {
    var init := keys[..|keys| - 1];
    forall j | 0 <= j < |init| ensures init[j] != keys[|keys| - 1] {
      assert init[j] == keys[j];
    }
  }

  /** One step of a pass: the last key adds its own record and no other. */
  lemma PassStep(init: seq<string>, k: string, n: string, before: seq<Change>, added: seq<Change>,
                 r: seq<Change>, rn: seq<Change>)
    requires k !in init
    requires before == if n in init then rn else []
    requires added == if k == n then r else []
    requires k == n ==> r == rn
    ensures before + added == if n in init + [k] then rn else []
  {
    assert n in init + [k] <==> n in init || n == k;
  }

  lemma {:induction false} RecordsNamedCurrentPass(keys: seq<string>, prev: seq<GroupSchedule>, curr: seq<GroupSchedule>, n: string)
    requires Distinct(keys)
    ensures RecordsNamed(CurrentPass(keys, prev, curr), n) == if n in keys then CurrentRecord(n, prev, curr) else []
  {
    if keys != [] {
      var init, k := keys[..|keys| - 1], keys[|keys| - 1];
      DistinctLast(keys);
      RecordsNamedCurrentPass(init, prev, curr, n);
      var a, r := CurrentPass(init, prev, curr), CurrentRecord(k, prev, curr);
      assert CurrentPass(keys, prev, curr) == a + r;
      RecordsNamedAppend(a, r, n);
      RecordsNamedSingle(r, k, n);
      PassStep(init, k, n, RecordsNamed(a, n), RecordsNamed(r, n), r, CurrentRecord(n, prev, curr));
    }
  }

  lemma {:induction false} RecordsNamedDeletedPass(keys: seq<string>, curr: seq<GroupSchedule>, n: string)
    requires Distinct(keys)
    ensures RecordsNamed(DeletedPass(keys, curr), n) == if n in keys then DeletedRecord(n, curr) else []
  {
    if keys != [] {
      var init, k := keys[..|keys| - 1], keys[|keys| - 1];
      DistinctLast(keys);
      RecordsNamedDeletedPass(init, curr, n);
      var a, r := DeletedPass(init, curr), DeletedRecord(k, curr);
      assert DeletedPass(keys, curr) == a + r;
      RecordsNamedAppend(a, r, n);
      RecordsNamedSingle(r, k, n);
      PassStep(init, k, n, RecordsNamed(a, n), RecordsNamed(r, n), r, DeletedRecord(n, curr));
    }
  }

  /** Every name gets exactly the record its two entries call for, and at
      most one: `new` with the current schedule, `updated` with both
      schedules when the periods differ, `deleted` with no schedule, and
      nothing when the periods agree (whatever the group ids say). */
  lemma RecordsForName(prev: seq<GroupSchedule>, curr: seq<GroupSchedule>, n: string)
    ensures var p, c := Lookup(prev, n), Lookup(curr, n);
      var rs := RecordsNamed(ChangedGroups(prev, curr), n);
      && (p.None? && c.Some? ==> rs == [New(n, c.value)])
      && (p.Some? && c.Some? && p.value.periods != c.value.periods ==> rs == [Updated(n, p.value, c.value)])
      && (p.Some? && c.Some? && p.value.periods == c.value.periods ==> rs == [])
      && (p.Some? && c.None? ==> rs == [Deleted(n)])
      && (p.None? && c.None? ==> rs == [])
  {
    RecordsNamedAppend(CurrentPass(Names(curr), prev, curr), DeletedPass(Names(prev), curr), n);
    RecordsNamedCurrentPass(Names(curr), prev, curr, n);
    RecordsNamedDeletedPass(Names(prev), curr, n);
  }

  lemma {:induction false} CurrentPassSelf(keys: seq<string>, l: seq<GroupSchedule>)
    ensures CurrentPass(keys, l, l) == []
  {
    if keys != [] {
      CurrentPassSelf(keys[..|keys| - 1], l);
    }
  }

  lemma {:induction false} DeletedPassPresent(keys: seq<string>, curr: seq<GroupSchedule>)
    requires forall k :: k in keys ==> Named(curr, k)
    ensures DeletedPass(keys, curr) == []
  {
    if keys != [] {
      DeletedPassPresent(keys[..|keys| - 1], curr);
      assert keys[|keys| - 1] in keys;
    }
  }

  /** Comparing a list with itself reports nothing, duplicates or not. */
  lemma SelfDiffEmpty(l: seq<GroupSchedule>)
    ensures ChangedGroups(l, l) == []
  {
    CurrentPassSelf(Names(l), l);
    DeletedPassPresent(Names(l), l);
  }

  lemma {:induction false} CurrentPassFromEmpty(keys: seq<string>, curr: seq<GroupSchedule>)
    requires forall k :: k in keys ==> Named(curr, k)
    ensures var r := CurrentPass(keys, [], curr);
      |r| == |keys| && forall i :: 0 <= i < |keys| ==> r[i] == New(keys[i], Lookup(curr, keys[i]).value)
  {
    if keys != [] {
      var init, last := keys[..|keys| - 1], keys[|keys| - 1];
      assert forall k :: k in init ==> k in keys;
      CurrentPassFromEmpty(init, curr);
      assert last in keys;
      var r0 := CurrentPass(init, [], curr);
      var rec := CurrentRecord(last, [], curr);
      assert rec == [New(last, Lookup(curr, last).value)];
      assert CurrentPass(keys, [], curr) == r0 + rec;
      forall i | 0 <= i < |keys| ensures (r0 + rec)[i] == New(keys[i], Lookup(curr, keys[i]).value) {
        if i < |init| {
          assert keys[i] == init[i];
        }
      }
    }
  }

  /** Against an empty previous list every current group is `new`, in order,
      with the schedule the dictionary holds for it. */
  lemma EmptyPreviousAllNew(curr: seq<GroupSchedule>)
    ensures var r, keys := ChangedGroups([], curr), Names(curr);
      |r| == |keys| && forall i :: 0 <= i < |keys| ==> r[i] == New(keys[i], Lookup(curr, keys[i]).value)
  {
    CurrentPassFromEmpty(Names(curr), curr);
    assert Names([]) == [];
    assert ChangedGroups([], curr) == CurrentPass(Names(curr), [], curr);
  }

  /** The position of x in a list holding it. */
  function IndexOf<T(==)>(s: seq<T>, x: T): (r: nat)
    requires x in s
    ensures r < |s| && s[r] == x && forall j :: 0 <= j < r ==> s[j] != x
  {
    if s[0] == x then 0 else 1 + IndexOf(s[1..], x)
  }

  lemma IndexOfDistinct<T>(s: seq<T>, i: nat)
    requires Distinct(s) && i < |s|
    ensures IndexOf(s, s[i]) == i
  {
  }

  /** The records are about names of keys and follow the order of keys. */
  predicate InKeyOrder(cs: seq<Change>, keys: seq<string>) {
    && (forall i :: 0 <= i < |cs| ==> cs[i].name in keys)
    && (forall i, j :: 0 <= i < j < |cs| ==> IndexOf(keys, cs[i].name) < IndexOf(keys, cs[j].name))
  }

  lemma InKeyOrderStep(cs: seq<Change>, rec: seq<Change>, init: seq<string>, k: string)
    requires Distinct(init + [k]) && InKeyOrder(cs, init)
    requires |rec| <= 1 && forall c :: c in rec ==> c.name == k
    ensures InKeyOrder(cs + rec, init + [k])
  {
    var keys := init + [k];
    forall i | 0 <= i < |cs|
      ensures IndexOf(keys, cs[i].name) == IndexOf(init, cs[i].name)
    {
      var p := IndexOf(init, cs[i].name);
      assert keys[p] == init[p];
      IndexOfDistinct(keys, p);
    }
    IndexOfDistinct(keys, |init|);
    var r := cs + rec;
    forall i, j | 0 <= i < j < |r|
      ensures IndexOf(keys, r[i].name) < IndexOf(keys, r[j].name)
    {
      if j == |cs| {
        assert r[j] in rec;
      }
    }
  }

  lemma {:induction false} CurrentPassOrder(keys: seq<string>, prev: seq<GroupSchedule>, curr: seq<GroupSchedule>)
    requires Distinct(keys)
    ensures InKeyOrder(CurrentPass(keys, prev, curr), keys)
    ensures forall c :: c in CurrentPass(keys, prev, curr) ==> c.New? || c.Updated?
  {
    if keys != [] {
      var init, k := keys[..|keys| - 1], keys[|keys| - 1];
      CurrentPassOrder(init, prev, curr);
      assert keys == init + [k];
      InKeyOrderStep(CurrentPass(init, prev, curr), CurrentRecord(k, prev, curr), init, k);
    }
  }

  lemma {:induction false} DeletedPassOrder(keys: seq<string>, curr: seq<GroupSchedule>)
    requires Distinct(keys)
    ensures InKeyOrder(DeletedPass(keys, curr), keys)
    ensures forall c :: c in DeletedPass(keys, curr) ==> c.Deleted?
  {
    if keys != [] {
      var init, k := keys[..|keys| - 1], keys[|keys| - 1];
      DeletedPassOrder(init, curr);
      assert keys == init + [k];
      InKeyOrderStep(DeletedPass(init, curr), DeletedRecord(k, curr), init, k);
    }
  }

  /** r[..m] holds the records that are not `deleted`, in the order of
      first, and r[m..] the `deleted` ones, in the order of second. */
  predicate SplitInOrder(r: seq<Change>, m: int, first: seq<string>, second: seq<string>) {
    && 0 <= m <= |r|
    && InKeyOrder(r[..m], first) && InKeyOrder(r[m..], second)
    && (forall i :: 0 <= i < m ==> !r[i].Deleted?)
    && (forall i :: m <= i < |r| ==> r[i].Deleted?)
  }

  /** `new`/`updated` records come first, in the current list's key order,
      then the `deleted` records, in the previous list's key order. */
  lemma ChangeOrder(prev: seq<GroupSchedule>, curr: seq<GroupSchedule>)
    ensures exists m :: SplitInOrder(ChangedGroups(prev, curr), m, Names(curr), Names(prev))
  {
    var a, b := CurrentPass(Names(curr), prev, curr), DeletedPass(Names(prev), curr);
    CurrentPassOrder(Names(curr), prev, curr);
    DeletedPassOrder(Names(prev), curr);
    var r := a + b;
    assert r[..|a|] == a && r[|a|..] == b;
    assert forall i :: 0 <= i < |a| ==> r[i] in a;
    assert forall i :: |a| <= i < |r| ==> r[i] in b;
    assert SplitInOrder(r, |a|, Names(curr), Names(prev));
    assert ChangedGroups(prev, curr) == r;
    assert SplitInOrder(ChangedGroups(prev, curr), |a|, Names(curr), Names(prev));
  }

  /** The diff never invents a record of another type. */
  lemma OnlyThreeKinds(prev: seq<GroupSchedule>, curr: seq<GroupSchedule>)
    ensures forall c :: c in ChangedGroups(prev, curr) ==> !c.Other?
  {
    var a, b := CurrentPass(Names(curr), prev, curr), DeletedPass(Names(prev), curr);
    CurrentPassOrder(Names(curr), prev, curr);
    DeletedPassOrder(Names(prev), curr);
    assert forall c :: c in a + b <==> c in a || c in b;
  }

  // ---------------------------------------------------------------------
  // get_group_schedule and get_all_groups, over a given list
  // ---------------------------------------------------------------------

  predicate ExactMatch(s: GroupSchedule, q: string) {
    Lower(s.groupName) == Lower(q)
  }

  predicate PartialMatch(s: GroupSchedule, q: string) {
    Contains(Lower(s.groupName), Lower(q))
  }

  /** The index of the first schedule whose name equals q, ignoring case. */
  function FirstExact(l: seq<GroupSchedule>, q: string): (r: Option<nat>)
    ensures r.Some? ==> (r.value < |l| && ExactMatch(l[r.value], q)
      && forall j :: 0 <= j < r.value ==> !ExactMatch(l[j], q))
    ensures r.None? ==> forall j :: 0 <= j < |l| ==> !ExactMatch(l[j], q)
  {
    if l == [] then None
    else if ExactMatch(l[0], q) then Some(0)
    else match FirstExact(l[1..], q)
      case Some(k) => Some(k + 1)
      case None => None
  }

  /** The index of the first schedule whose name contains q, ignoring case. */
  function FirstPartial(l: seq<GroupSchedule>, q: string): (r: Option<nat>)
    ensures r.Some? ==> (r.value < |l| && PartialMatch(l[r.value], q)
      && forall j :: 0 <= j < r.value ==> !PartialMatch(l[j], q))
    ensures r.None? ==> forall j :: 0 <= j < |l| ==> !PartialMatch(l[j], q)
  {
    if l == [] then None
    else if PartialMatch(l[0], q) then Some(0)
    else match FirstPartial(l[1..], q)
      case Some(k) => Some(k + 1)
      case None => None
  }

  /** What get_group_schedule returns: the first exact match, else the first
      partial match, else None. */
  function GroupMatch(l: seq<GroupSchedule>, q: string): Option<GroupSchedule> {
    match FirstExact(l, q)
    case Some(i) => Some(l[i])
    case None =>
      match FirstPartial(l, q)
      case Some(i) => Some(l[i])
      case None => None
  }

  /** The two scans with early returns. */
  method GetGroupSchedule(groupName: string, schedules: seq<GroupSchedule>) returns (r: Option<GroupSchedule>)
    ensures r == GroupMatch(schedules, groupName)
  {
    var key := Lower(groupName);
    for i := 0 to |schedules|
      invariant forall j :: 0 <= j < i ==> !ExactMatch(schedules[j], groupName)
    {
      if Lower(schedules[i].groupName) == key {
        assert FirstExact(schedules, groupName) == Some(i);
        return Some(schedules[i]);
      }
    }
    for i := 0 to |schedules|
      invariant forall j :: 0 <= j < i ==> !PartialMatch(schedules[j], groupName)
    {
      if Contains(Lower(schedules[i].groupName), key) {
        assert FirstPartial(schedules, groupName) == Some(i);
        return Some(schedules[i]);
      }
    }
    return None;
  }

  /** A name equal to the query also contains it, so the lookup fails exactly
      when no name contains the query. */
  lemma GroupMatchNoneIff(l: seq<GroupSchedule>, q: string)
    ensures GroupMatch(l, q).None? <==> forall j :: 0 <= j < |l| ==> !PartialMatch(l[j], q)
    ensures GroupMatch(l, q).Some? ==> GroupMatch(l, q).value in l && PartialMatch(GroupMatch(l, q).value, q)
  {
    match FirstExact(l, q)
    case Some(i) =>
      assert Lower(l[i].groupName) <= Lower(q);
    case None =>
  }

  /** An exact match anywhere beats a partial match earlier in the list. */
  lemma GroupMatchPrefersExact(l: seq<GroupSchedule>, q: string, i: nat)
    requires i < |l| && ExactMatch(l[i], q)
    ensures GroupMatch(l, q).Some? && ExactMatch(GroupMatch(l, q).value, q)
  {
  }

  /** `[schedule["group_name"] for schedule in schedules]` */
  function GroupNames(l: seq<GroupSchedule>): (r: seq<string>)
    ensures |r| == |l| && forall i :: 0 <= i < |l| ==> r[i] == l[i].groupName
  {
    seq(|l|, i requires 0 <= i < |l| => l[i].groupName)
  }

  /** get_all_groups lists every key of the dictionary get_changed_groups
      builds and nothing else, duplicates kept. */
  lemma GroupNamesAreKeys(l: seq<GroupSchedule>)
    ensures forall n :: n in GroupNames(l) <==> n in Names(l)
  {
    forall n ensures n in GroupNames(l) <==> Named(l, n) {
      if Named(l, n) {
        var i :| 0 <= i < |l| && l[i].groupName == n;
        assert GroupNames(l)[i] == n;
      }
    }
  }

  // ---------------------------------------------------------------------
  // format_schedule_to_text, in whole minutes
  // ---------------------------------------------------------------------

  const EmojiOn := "<tg-emoji emoji-id=\"5228957330934111865\">\U{1F31E}</tg-emoji>"
  const EmojiOff := "<tg-emoji emoji-id=\"5228852207314573962\">\U{1F311}</tg-emoji>"
  const EmojiUnknown := "<tg-emoji emoji-id=\"5228758276379809110\">\U{1F937}\U{200D}\U{2642}\U{FE0F}</tg-emoji>"
  const MinutesPerDay: int := 24 * 60

  /** `h, m = map(int, t.split(":"))` followed by `h * 60 + m`; None where
      Python raises (not exactly one colon, or a part int() rejects). */
  function ClockMinutes(t: string): Option<int> {
    HoursMinutes(SplitOn(t, ':'))
  }

  function HoursMinutes(parts: seq<string>): Option<int> {
    if |parts| == 2 && ParseInt(parts[0]).Some? && ParseInt(parts[1]).Some? then
      Some(ParseInt(parts[0]).value * 60 + ParseInt(parts[1]).value)
    else None
  }

  lemma ParseIntOfDigits(s: string)
    requires s != [] && AllDigits(s)
    ensures ParseInt(s) == Some(DigitsValue(s))
  {
    StripNoOp(s);
  }

  lemma SplitClock(a: string, b: string)
    requires ':' !in a && ':' !in b
    ensures SplitOn(a + ":" + b, ':') == [a, b]
  {
    SplitJoin([a, b], ':');
    assert [a, b][1..] == [b];
    assert JoinWith([a, b], ':') == a + ":" + b;
  }

  lemma ClockOfParts(a: string, b: string, h: int, m: int)
    requires ':' !in a && ':' !in b && ParseInt(a) == Some(h) && ParseInt(b) == Some(m)
    ensures ClockMinutes(a + ":" + b) == Some(h * 60 + m)
  {
    SplitClock(a, b);
    HoursMinutesOfPair(a, b, h, m);
  }

  lemma HoursMinutesOfPair(a: string, b: string, h: int, m: int)
    requires ParseInt(a) == Some(h) && ParseInt(b) == Some(m)
    ensures HoursMinutes([a, b]) == Some(h * 60 + m)
  {
    var parts := [a, b];
    assert parts[0] == a && parts[1] == b;
  }

  lemma ParsePad2(n: nat)
    requires n < 100
    ensures ':' !in Pad2(n) && ParseInt(Pad2(n)) == Some(n)
  {
    var a := Pad2(n);
    assert ':' !in a by {
      assert forall i :: 0 <= i < |a| ==> IsDigit(a[i]);
    }
    ParseIntOfDigits(a);
  }

  /** A clock time written `HH:MM` reads back as its minute of the day. */
  lemma ClockMinutesOfPad2(h: nat, m: nat)
    requires h < 100 && m < 100
    ensures ClockMinutes(Pad2(h) + ":" + Pad2(m)) == Some(h * 60 + m)
  {
    ParsePad2(h);
    ParsePad2(m);
    ClockOfParts(Pad2(h), Pad2(m), h, m);
  }

  /** The minutes from s to e, wrapping past midnight when e is before s. */
  function Elapsed(s: int, e: int): int {
    if e < s then e + MinutesPerDay - s else e - s
  }

  /** The clock reading d minutes after s. */
  function ClockAdd(s: int, d: int): int {
    (s + d) % MinutesPerDay
  }

  /** For times of one day the wrap makes the duration the unique number of
      minutes in [0, 24*60) that leads from s to e on the clock. */
  lemma ElapsedWithinDay(s: int, e: int)
    requires 0 <= s < MinutesPerDay && 0 <= e < MinutesPerDay
    ensures 0 <= Elapsed(s, e) < MinutesPerDay
    ensures ClockAdd(s, Elapsed(s, e)) == e
    ensures forall d :: 0 <= d < MinutesPerDay && ClockAdd(s, d) == e ==> d == Elapsed(s, e)
  {
    forall d | 0 <= d < MinutesPerDay && ClockAdd(s, d) == e
      ensures d == Elapsed(s, e)
    {
      if s + d >= MinutesPerDay {
        assert (s + d) % MinutesPerDay == s + d - MinutesPerDay;
      } else {
        assert (s + d) % MinutesPerDay == s + d;
      }
    }
    if e < s {
      assert s + Elapsed(s, e) == e + MinutesPerDay;
      assert (e + MinutesPerDay) % MinutesPerDay == e;
    } else {
      assert (s + Elapsed(s, e)) % MinutesPerDay == e;
    }
  }

  /** The duration of a period, when both times parse. */
  function Duration(p: Period): Option<int> {
    match (ClockMinutes(p.start), ClockMinutes(p.end))
    case (Some(s), Some(e)) => Some(Elapsed(s, e))
    case _ => None
  }

  predicate InDay(t: string) {
    ClockMinutes(t).Some? && 0 <= ClockMinutes(t).value < MinutesPerDay
  }

  /** A period between two times of the day has a duration, never negative. */
  lemma DurationNonNegative(p: Period)
    requires InDay(p.start) && InDay(p.end)
    ensures Duration(p).Some? && 0 <= Duration(p).value < MinutesPerDay
  {
    ElapsedWithinDay(ClockMinutes(p.start).value, ClockMinutes(p.end).value);
  }

  /** Past 24:00 the single wrap no longer suffices: a start such as
      "25:00" with the end "00:00" gives a negative duration. */
  lemma DurationPastDayEnd(h: nat, m: nat, status: string)
    requires h < 100 && m < 100 && h * 60 + m > MinutesPerDay
    ensures Duration(Period(Pad2(h) + ":" + Pad2(m), Pad2(0) + ":" + Pad2(0), status)) == Some(MinutesPerDay - (h * 60 + m))
  {
    ClockMinutesOfPad2(h, m);
    ClockMinutesOfPad2(0, 0);
  }

  /** `{x:.1f}` for t tenths. */
  function TenthsText(t: nat): string {
    NatToString(t / 10) + "." + [DigitChar(t % 10)]
  }

  /** m minutes as hours: `{int(x)}` for a whole number of hours, else
      `{x:.1f}`, ties rounded up. */
  function HoursText(m: int): string
    decreases if m < 0 then 1 else 0
  {
    if m < 0 then "-" + HoursText(-m)
    else if m % 60 == 0 then NatToString(m / 60)
    else TenthsText((m + 3) / 6)
  }

  /** A whole number of hours is written as an integer int() reads back. */
  lemma HoursTextWhole(m: int)
    requires m % 60 == 0
    ensures ParseInt(HoursText(m)) == Some(m / 60)
  {
    WholeHoursText(m);
    ParseIntOfIntToString(m / 60);
  }

  lemma WholeHoursText(m: int)
    requires m % 60 == 0
    ensures HoursText(m) == IntToString(m / 60)
  {
    var k := m / 60;
    assert m == 60 * k;
    if m < 0 {
      assert -m == 60 * -k;
      assert (-m) % 60 == 0 && (-m) / 60 == -k;
    }
  }

  /** Any other duration is written as the nearest tenth of an hour. A tie
      between two tenths (6t - 3 minutes) is left out: HoursText rounds it
      up, while the binary float of m / 60 decides it in the source. */
  lemma HoursTextNearest(m: nat, t: nat)
    requires m % 60 != 0 && 6 * t - 3 < m < 6 * t + 3
    ensures HoursText(m) == TenthsText(t)
  {
  }

  /** `" ({hours} год)"`, or nothing when the times do not parse. */
  function DurationText(p: Period): (r: string)
    ensures r == [] <==> Duration(p).None?
  {
    match Duration(p)
    case Some(d) => " (" + HoursText(d) + " год)"
    case None => []
  }

  function StatusIcon(status: string): string {
    if status == "ON" then EmojiOn else if status == "OFF" then EmojiOff else EmojiUnknown
  }

  function StatusText(status: string): string {
    if status == "ON" then "включено" else if status == "OFF" then "отключено" else "невідомо"
  }

  function PeriodLine(p: Period): string {
    StatusIcon(p.status) + " <code>" + p.start + " - " + p.end + "</code>:" + DurationText(p) + " " + StatusText(p.status) + "\n"
  }

  function PeriodLines(ps: seq<Period>): string {
    if ps == [] then [] else PeriodLines(ps[..|ps| - 1]) + PeriodLine(ps[|ps| - 1])
  }

  /** Whether a period adds its duration to the total for status. */
  predicate Counted(p: Period, status: string) {
    p.status == status && Duration(p).Some?
  }

  /** The minutes the periods with this status add up to. */
  function StatusMinutes(ps: seq<Period>, status: string): int {
    if ps == [] then 0
    else StatusMinutes(ps[..|ps| - 1], status) + Added(ps[|ps| - 1], status)
  }

  /** What one period adds to the total for status. */
  function Added(p: Period, status: string): int {
    if Counted(p, status) then Duration(p).value else 0
  }

  function Footer(onMinutes: int, offMinutes: int): string {
    "\n" + Repeat("─", 30) + "\n"
    + "<b>📊 Загальна статистика:</b>\n"
    + EmojiOn + " Світло буде: <b>" + HoursText(onMinutes) + "</b> год.\n"
    + EmojiOff + " Світла не буде: <b>" + HoursText(offMinutes) + "</b> год.\n"
  }

  /** The text format_schedule_to_text returns. */
  function ScheduleText(schedule: Option<GroupSchedule>): string {
    match schedule
    case None => "Расписание не найдено"
    case Some(g) => GroupText(g.groupName, PeriodLines(g.periods), StatusMinutes(g.periods, "ON"), StatusMinutes(g.periods, "OFF"))
  }

  /** The header with the group name, the period lines and the totals. */
  function GroupText(name: string, lines: string, onMinutes: int, offMinutes: int): string {
    "💡 <b>" + name + "</b>\n\n" + lines + Footer(onMinutes, offMinutes)
  }

  /** Every rendered schedule starts with the bulb. */
  lemma ScheduleTextStartsWithBulb(g: GroupSchedule)
    ensures '💡' in ScheduleText(Some(g))
  {
    assert ScheduleText(Some(g))[0] == '💡';
  }

  method FormatScheduleToText(schedule: Option<GroupSchedule>) returns (text: string)
    ensures text == ScheduleText(schedule)
  {
    if schedule.None? {
      return "Расписание не найдено";
    }
    var g := schedule.value;
    var lines, onMinutes, offMinutes := FormatPeriods(g.periods);
    text := GroupText(g.groupName, lines, onMinutes, offMinutes);
  }

  /** The loop over the periods: their lines and the two totals. */
  method FormatPeriods(periods: seq<Period>) returns (lines: string, onMinutes: int, offMinutes: int)
    ensures lines == PeriodLines(periods)
    ensures onMinutes == StatusMinutes(periods, "ON") && offMinutes == StatusMinutes(periods, "OFF")
  {
    lines := "";
    onMinutes, offMinutes := 0, 0;
    for i := 0 to |periods|
      invariant lines == PeriodLines(periods[..i])
      invariant onMinutes == StatusMinutes(periods[..i], "ON")
      invariant offMinutes == StatusMinutes(periods[..i], "OFF")
    {
      PeriodsStep(periods, i);
      var line, onAdded, offAdded := FormatPeriod(periods[i]);
      lines := lines + line;
      onMinutes := onMinutes + onAdded;
      offMinutes := offMinutes + offAdded;
    }
    assert periods[..|periods|] == periods;
  }

  lemma PeriodsStep(ps: seq<Period>, i: nat)
    requires i < |ps|
    ensures PeriodLines(ps[..i + 1]) == PeriodLines(ps[..i]) + PeriodLine(ps[i])
    ensures StatusMinutes(ps[..i + 1], "ON") == StatusMinutes(ps[..i], "ON") + Added(ps[i], "ON")
    ensures StatusMinutes(ps[..i + 1], "OFF") == StatusMinutes(ps[..i], "OFF") + Added(ps[i], "OFF")
  {
    assert ps[..i + 1][..i] == ps[..i];
  }

  /** The body of the loop over periods: the line for one period and what
      it adds to the two totals. */
  method FormatPeriod(period: Period) returns (line: string, onAdded: int, offAdded: int)
    ensures line == PeriodLine(period)
    ensures onAdded == Added(period, "ON") && offAdded == Added(period, "OFF")
  {
    var durationText := "";
    onAdded, offAdded := 0, 0;
    var duration := Duration(period);
    if duration.Some? {
      durationText := " (" + HoursText(duration.value) + " год)";
      if period.status == "ON" {
        onAdded := duration.value;
      } else if period.status == "OFF" {
        offAdded := duration.value;
      }
    }
    var icon := StatusIcon(period.status);
    var statusText := StatusText(period.status);
    line := icon + " <code>" + period.start + " - " + period.end + "</code>:" + durationText + " " + statusText + "\n";
  }

  /** Only the counted periods matter for a total: two lists that agree
      wherever either holds a counted period have the same total. */
  lemma {:induction false} OnlyCountedPeriodsMatter(ps: seq<Period>, qs: seq<Period>, status: string)
    requires |ps| == |qs|
    requires forall i :: 0 <= i < |ps| && (Counted(ps[i], status) || Counted(qs[i], status)) ==> ps[i] == qs[i]
    ensures StatusMinutes(ps, status) == StatusMinutes(qs, status)
  {
    if ps != [] {
      OnlyCountedPeriodsMatter(ps[..|ps| - 1], qs[..|qs| - 1], status);
    }
  }

  /** A list with no counted period has a zero total: periods of other
      statuses and periods whose times do not parse add nothing. */
  lemma {:induction false} NothingCountedNoMinutes(ps: seq<Period>, status: string)
    requires forall i :: 0 <= i < |ps| ==> !Counted(ps[i], status)
    ensures StatusMinutes(ps, status) == 0
  {
    if ps != [] {
      NothingCountedNoMinutes(ps[..|ps| - 1], status);
    }
  }

  /** Totals over times of the day are between zero and a full day per period. */
  lemma {:induction false} StatusMinutesBounds(ps: seq<Period>, status: string)
    requires forall i :: 0 <= i < |ps| ==> InDay(ps[i].start) && InDay(ps[i].end)
    ensures 0 <= StatusMinutes(ps, status) <= |ps| * MinutesPerDay
  {
    if ps != [] {
      StatusMinutesBounds(ps[..|ps| - 1], status);
      DurationNonNegative(ps[|ps| - 1]);
      assert (|ps| - 1) * MinutesPerDay + MinutesPerDay == |ps| * MinutesPerDay;
    }
  }
}
