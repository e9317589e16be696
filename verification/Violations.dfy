/** Violation records of a policy: merging what the agents report (api/v1alpha1/violation_record.go). */
module Violations {
  import opened Bytes
  import opened ExecHook
  import opened Sorting

  const MAX_VIOLATION_RECORDS: nat := 100

  /** What makes two reports the same violation. */
  datatype RecordKey = RecordKey(pod: string, container: string, exe: Str, foreign: bool, action: string)

  datatype Origin = Origin(node: string, workloadName: string, workloadKind: string)

  /** One reported event. */
  datatype Scraped = Scraped(key: RecordKey, at: int, origin: Origin)

  datatype Violation = Violation(id: nat, key: RecordKey, first: int, last: int, occurrences: nat, origin: Origin)

  function ReportedAt(e: Scraped): int { e.at }

  function LastSeen(v: Violation): int { v.last }

  function KeyOf(v: Violation): RecordKey { v.key }

  function IdOf(v: Violation): nat { v.id }

  datatype Tally = Tally(active: seq<Violation>, count: nat)

  ghost predicate UniqueKeys(vs: seq<Violation>) {
    forall i, j | 0 <= i < j < |vs| :: vs[i].key != vs[j].key
  }

  /** Where a key is, or the length if it is nowhere. */
  function Position(vs: seq<Violation>, key: RecordKey): (i: nat)
    ensures i <= |vs| && (i < |vs| ==> vs[i].key == key) && forall j | 0 <= j < i :: vs[j].key != key
  {
    if vs == [] || vs[0].key == key then 0 else 1 + Position(vs[1..], key)
  }

  function SeenAgain(v: Violation, e: Scraped): Violation {
    v.(last := if e.at > v.last then e.at else v.last, occurrences := v.occurrences + 1)
  }

  function MergeOne(t: Tally, e: Scraped): Tally {
    var i := Position(t.active, e.key);
    Tally(if i < |t.active| then t.active[i := SeenAgain(t.active[i], e)]
          else t.active + [Violation(t.count, e.key, e.at, e.at, 1, e.origin)],
          t.count + 1)
  }

  /** All events of a batch, in the order they come. */
  function Merge(t: Tally, batch: seq<Scraped>): Tally {
    if batch == [] then t else MergeOne(Merge(t, batch[..|batch| - 1]), batch[|batch| - 1])
  }

  /** The times at which a batch reports a key, in order. */
  ghost function TimesOf(batch: seq<Scraped>, key: RecordKey): seq<int> {
    if batch == [] then []
    else
      var times := TimesOf(batch[..|batch| - 1], key);
      if batch[|batch| - 1].key == key then times + [batch[|batch| - 1].at] else times
  }

  ghost function MaxOf(t: int, times: seq<int>): int {
    if times == [] then t
    else
      var high := MaxOf(t, times[..|times| - 1]);
      if times[|times| - 1] > high then times[|times| - 1] else high
  }

  /** Where the first event of a key is, or the length if there is none. */
  ghost function FirstOf(batch: seq<Scraped>, key: RecordKey): (j: nat)
    ensures j <= |batch| && (j < |batch| ==> batch[j].key == key) && forall i | 0 <= i < j :: batch[i].key != key
  {
    if batch == [] || batch[0].key == key then 0 else 1 + FirstOf(batch[1..], key)
  }

  /** The record was made for the first event of its key: numbered by it, and with its origin and time. */
  ghost predicate MadeBy(v: Violation, batch: seq<Scraped>, count: nat) {
    var j := FirstOf(batch, v.key);
    j < |batch| && v.id == count + j && v.origin == batch[j].origin && v.first == batch[j].at
  }

  /** What a record must be after a batch, said from the batch alone. */
  ghost predicate RecordOf(old_: Option<Violation>, v: Violation, batch: seq<Scraped>, count: nat) {
    var times := TimesOf(batch, v.key);
    match old_
    case Some(o) =>
      && v.id == o.id && v.key == o.key && v.first == o.first && v.origin == o.origin
      && v.occurrences == o.occurrences + |times| && v.last == MaxOf(o.last, times)
    case None =>
      && MadeBy(v, batch, count)
      && times != [] && v.first == times[0] && v.occurrences == |times| && v.last == MaxOf(times[0], times)
  }

  ghost function Before(t: Tally, i: nat): Option<Violation> {
    if i < |t.active| then Some(t.active[i]) else None
  }

  ghost predicate AllRecords(t: Tally, batch: seq<Scraped>, r: Tally) {
    |r.active| >= |t.active| && forall i | 0 <= i < |r.active| :: RecordOf(Before(t, i), r.active[i], batch, t.count)
  }

  ghost predicate FreshIds(t: Tally, r: Tally) {
    forall i | |t.active| <= i < |r.active| :: t.count <= r.active[i].id < r.count
  }

  ghost predicate KeysKnown(batch: seq<Scraped>, vs: seq<Violation>) {
    forall key :: TimesOf(batch, key) != [] ==> Position(vs, key) < |vs|
  }

  /** Every record after a batch is the one the batch asks for, and every key reported has one. */
  ghost predicate Merged(t: Tally, batch: seq<Scraped>, r: Tally) {
    && r.count == t.count + |batch| && UniqueKeys(r.active)
    && AllRecords(t, batch, r) && FreshIds(t, r) && KeysKnown(batch, r.active)
  }

  lemma MaxOfItself(t: int)
    ensures MaxOf(t, [t]) == t
  {
    assert [t][..0] == [];
  }

  lemma TimesNext(batch: seq<Scraped>, e: Scraped, key: RecordKey)
    ensures TimesOf(batch + [e], key) == if e.key == key then TimesOf(batch, key) + [e.at] else TimesOf(batch, key)
  {
    assert (batch + [e])[..|batch|] == batch;
  }

  lemma MaxNext(t: int, times: seq<int>, x: int)
    ensures MaxOf(t, times + [x]) == if x > MaxOf(t, times) then x else MaxOf(t, times)
  {
    assert (times + [x])[..|times|] == times;
  }

  lemma FirstStays(batch: seq<Scraped>, e: Scraped, key: RecordKey)
    requires FirstOf(batch, key) < |batch|
    ensures FirstOf(batch + [e], key) == FirstOf(batch, key)
  {
    var j, all := FirstOf(batch, key), batch + [e];
    assert all[j].key == key && forall i | 0 <= i < j :: all[i].key != key;
  }

  /** One more event: the record of its key moves on, the others stay. */
  lemma RecordNext(old_: Option<Violation>, v: Violation, batch: seq<Scraped>, e: Scraped, count: nat)
    requires RecordOf(old_, v, batch, count)
    ensures v.key == e.key ==> RecordOf(old_, SeenAgain(v, e), batch + [e], count)
    ensures v.key != e.key ==> RecordOf(old_, v, batch + [e], count)
  {
    TimesNext(batch, e, v.key);
    if old_.None? {
      FirstStays(batch, e, v.key);
    }
    if v.key == e.key {
      var times := TimesOf(batch, v.key);
      MaxNext(if old_.Some? then old_.value.last else times[0], times, e.at);
    }
  }

  lemma FirstRecord(v: Violation, batch: seq<Scraped>, e: Scraped, count: nat)
    requires TimesOf(batch, e.key) == [] && v == Violation(count + |batch|, e.key, e.at, e.at, 1, e.origin)
    ensures RecordOf(None, v, batch + [e], count)
  {
    NoTimes(batch, e.key);
    var all := batch + [e];
    assert forall i | 0 <= i < |batch| :: all[i].key != e.key;
    assert all[|batch|].key == e.key && FirstOf(all, e.key) == |batch|;
    TimesNext(batch, e, e.key);
    assert [] + [e.at] == [e.at];
    MaxOfItself(e.at);
  }

  lemma AgainAt(r: Tally, e: Scraped)
    requires Position(r.active, e.key) < |r.active|
    ensures var r', i := MergeOne(r, e), Position(r.active, e.key);
            && |r'.active| == |r.active| && r'.count == r.count + 1
            && (forall j | 0 <= j < |r.active| ::
                  r'.active[j] == if j == i then SeenAgain(r.active[j], e) else r.active[j])
            && (forall j | 0 <= j < |r.active| :: r'.active[j].key == r.active[j].key)
            && r.active[i].key == e.key
  {
  }

  lemma AgainRecords(t: Tally, batch: seq<Scraped>, r: Tally, e: Scraped, i: nat)
    requires Merged(t, batch, r) && Position(r.active, e.key) < |r.active| && i < |r.active|
    ensures |MergeOne(r, e).active| == |r.active|
    ensures RecordOf(Before(t, i), MergeOne(r, e).active[i], batch + [e], t.count)
  {
    AgainAt(r, e);
    hide MergeOne, RecordOf, TimesOf;
    assert UniqueKeys(r.active) && RecordOf(Before(t, i), r.active[i], batch, t.count);
    assert r.active[i].key == e.key <==> i == Position(r.active, e.key);
    RecordNext(Before(t, i), r.active[i], batch, e, t.count);
  }

  lemma KeysKnownNext(batch: seq<Scraped>, vs: seq<Violation>, e: Scraped, vs': seq<Violation>)
    requires KeysKnown(batch, vs) && Position(vs', e.key) < |vs'|
    requires forall key :: Position(vs, key) < |vs| ==> Position(vs', key) < |vs'|
    ensures KeysKnown(batch + [e], vs')
  {
    hide TimesOf, Position;
    forall key | TimesOf(batch + [e], key) != []
      ensures Position(vs', key) < |vs'|
    {
      TimesNext(batch, e, key);
    }
  }

  /** The record of a known key is replaced in place. */
  lemma AgainNext(t: Tally, batch: seq<Scraped>, r: Tally, e: Scraped)
    requires Merged(t, batch, r) && Position(r.active, e.key) < |r.active|
    ensures Merged(t, batch + [e], MergeOne(r, e))
  {
    var r' := MergeOne(r, e);
    AgainAt(r, e);
    SameKeys(r.active, r'.active);
    hide MergeOne, RecordOf, Position, TimesOf, SeenAgain, KeysKnown;
    assert AllRecords(t, batch + [e], r') by {
      forall i | 0 <= i < |r.active|
        ensures RecordOf(Before(t, i), r'.active[i], batch + [e], t.count)
      {
        AgainRecords(t, batch, r, e, i);
      }
    }
    hide AllRecords;
    assert FreshIds(t, r') by {
      forall i | |t.active| <= i < |r.active|
        ensures t.count <= r'.active[i].id < r'.count
      {
        AgainId(r, e, i);
      }
    }
    hide FreshIds;
    KeysKnownNext(batch, r.active, e, r'.active);
  }

  lemma AgainId(r: Tally, e: Scraped, i: nat)
    requires Position(r.active, e.key) < |r.active| && i < |r.active|
    ensures |MergeOne(r, e).active| == |r.active| && MergeOne(r, e).active[i].id == r.active[i].id
  {
  }

  lemma NewAt(r: Tally, e: Scraped)
    requires Position(r.active, e.key) == |r.active|
    ensures var r' := MergeOne(r, e);
            r'.active == r.active + [Violation(r.count, e.key, e.at, e.at, 1, e.origin)] && r'.count == r.count + 1
  {
  }

  /** A key seen for the first time gets a record at the end. */
  lemma NewNext(t: Tally, batch: seq<Scraped>, r: Tally, e: Scraped)
    requires Merged(t, batch, r) && Position(r.active, e.key) == |r.active|
    ensures Merged(t, batch + [e], MergeOne(r, e))
  {
    var r', v := MergeOne(r, e), Violation(r.count, e.key, e.at, e.at, 1, e.origin);
    NewAt(r, e);
    assert UniqueKeys(r'.active) && FreshIds(t, r');
    PositionGrows(r.active, v);
    hide MergeOne, RecordOf, Position, TimesOf, UniqueKeys, FreshIds;
    KeysKnownNext(batch, r.active, e, r'.active);
    NewRecords(t, batch, r, e, r');
  }

  lemma NewRecords(t: Tally, batch: seq<Scraped>, r: Tally, e: Scraped, r': Tally)
    requires AllRecords(t, batch, r) && KeysKnown(batch, r.active) && Position(r.active, e.key) == |r.active|
    requires r.count == t.count + |batch|
    requires r'.active == r.active + [Violation(r.count, e.key, e.at, e.at, 1, e.origin)]
    ensures AllRecords(t, batch + [e], r')
  {
    hide RecordOf, TimesOf;
    assert TimesOf(batch, e.key) == [];
    FirstRecord(r'.active[|r.active|], batch, e, t.count);
    forall i | 0 <= i < |r.active|
      ensures RecordOf(Before(t, i), r'.active[i], batch + [e], t.count)
    {
      RecordNext(Before(t, i), r.active[i], batch, e, t.count);
    }
  }

  lemma {:induction false} PositionGrows(vs: seq<Violation>, v: Violation)
    ensures forall key ::
              Position(vs + [v], key) ==
              if Position(vs, key) < |vs| then Position(vs, key) else if v.key == key then |vs| else |vs| + 1
  {
    if vs != [] {
      PositionGrows(vs[1..], v);
      assert (vs + [v])[1..] == vs[1..] + [v];
    }
  }

  /** A batch is merged as a whole: ids, first sight, counts and latest times, key by key. */
  lemma {:induction false} MergeIs(t: Tally, batch: seq<Scraped>)
    requires UniqueKeys(t.active)
    ensures Merged(t, batch, Merge(t, batch))
  {
    if batch != [] {
      var init, e := batch[..|batch| - 1], batch[|batch| - 1];
      MergeIs(t, init);
      assert batch == init + [e];
      if Position(Merge(t, init).active, e.key) < |Merge(t, init).active| {
        AgainNext(t, init, Merge(t, init), e);
      } else {
        NewNext(t, init, Merge(t, init), e);
      }
    }
  }

  lemma {:induction false} SameKeys(a: seq<Violation>, b: seq<Violation>)
    requires |a| == |b| && forall j | 0 <= j < |a| :: b[j].key == a[j].key
    ensures forall key :: Position(b, key) == Position(a, key)
  {
    if a != [] {
      SameKeys(a[1..], b[1..]);
    }
  }

  /** `MaxOf` is an upper bound, and one of the times. */
  lemma {:induction false} MaxOfIs(t: int, times: seq<int>)
    ensures MaxOf(t, times) >= t && (forall i | 0 <= i < |times| :: MaxOf(t, times) >= times[i])
    ensures MaxOf(t, times) == t || MaxOf(t, times) in times
  {
    if times != [] {
      MaxOfIs(t, times[..|times| - 1]);
    }
  }

  /** The first time of a key is that of the first event with the key. */
  lemma {:induction false} FirstTime(batch: seq<Scraped>, key: RecordKey) returns (j: nat)
    requires TimesOf(batch, key) != []
    ensures j < |batch| && batch[j].key == key && batch[j].at == TimesOf(batch, key)[0]
            && forall i | 0 <= i < j :: batch[i].key != key
  {
    var init := batch[..|batch| - 1];
    if TimesOf(init, key) == [] {
      j := |batch| - 1;
      NoTimes(init, key);
    } else {
      j := FirstTime(init, key);
    }
  }

  lemma {:induction false} NoTimes(batch: seq<Scraped>, key: RecordKey)
    requires TimesOf(batch, key) == []
    ensures forall i | 0 <= i < |batch| :: batch[i].key != key
  {
    if batch != [] {
      NoTimes(batch[..|batch| - 1], key);
    }
  }

  /** The events of a key come newest first; those of other keys may lie anywhere between. */
  ghost predicate KeyInOrder(batch: seq<Scraped>, key: RecordKey) {
    forall i, j | 0 <= i < j < |batch| && batch[i].key == key && batch[j].key == key :: batch[i].at >= batch[j].at
  }

  /** No event of the record's key is older than its first-observed time. */
  ghost predicate Earliest(batch: seq<Scraped>, v: Violation) {
    forall k | 0 <= k < |batch| && batch[k].key == v.key :: v.first <= batch[k].at
  }

  ghost predicate SameTime(batch: seq<Scraped>, key: RecordKey) {
    forall k, l | 0 <= k < |batch| && 0 <= l < |batch| && batch[k].key == key && batch[l].key == key ::
      batch[k].at == batch[l].at
  }

  /** A new record is stamped with the time of the first event of its key. */
  lemma FirstStamp(t: Tally, batch: seq<Scraped>, i: nat) returns (j: nat)
    requires UniqueKeys(t.active) && |t.active| <= i < |Merge(t, batch).active|
    ensures var v := Merge(t, batch).active[i];
            j < |batch| && batch[j].key == v.key && batch[j].at == v.first
            && forall k | 0 <= k < j :: batch[k].key != v.key
  {
    MergeIs(t, batch);
    var v := Merge(t, batch).active[i];
    hide Merge, TimesOf, UniqueKeys, FreshIds, KeysKnown;
    assert RecordOf(Before(t, i), v, batch, t.count);
    j := FirstTime(batch, v.key);
  }

  /**
   Events of a key come newest first, so a new record is stamped with the newest of them:
   the first-observed time is the earliest one exactly when they all have the same time.
   */
  lemma FirstObservedIff(t: Tally, batch: seq<Scraped>, i: nat)
    requires UniqueKeys(t.active) && |t.active| <= i < |Merge(t, batch).active|
    requires KeyInOrder(batch, Merge(t, batch).active[i].key)
    ensures Earliest(batch, Merge(t, batch).active[i]) <==> SameTime(batch, Merge(t, batch).active[i].key)
  {
    hide Merge, UniqueKeys;
    var v := Merge(t, batch).active[i];
    var j := FirstStamp(t, batch, i);
    assert forall k | 0 <= k < |batch| && batch[k].key == v.key :: k == j || (j < k && v.first >= batch[k].at);
  }

  /** A violation seen twice before the scrape: its record says it was first observed the second time. */
  lemma StampedLate(key: RecordKey, origin: Origin, earlier: int, later: int)
    requires earlier < later
    ensures var batch := [Scraped(key, later, origin), Scraped(key, earlier, origin)];
            && KeyInOrder(batch, key)
            && Merge(Tally([], 0), batch).active == [Violation(0, key, later, later, 2, origin)]
            && !Earliest(batch, Violation(0, key, later, later, 2, origin))
  {
    var batch := [Scraped(key, later, origin), Scraped(key, earlier, origin)];
    var one := Violation(0, key, later, later, 1, origin);
    assert batch[..1] == [batch[0]] && batch[..1][..0] == [];
    assert Merge(Tally([], 0), batch[..1]) == Tally([one], 1);
    assert batch[1].key == key && batch[1].at < later;
  }

  ghost predicate DistinctIds(vs: seq<Violation>) {
    forall i, j | 0 <= i < j < |vs| :: vs[i].id != vs[j].id
  }

  ghost predicate HasId(vs: seq<Violation>, id: nat) {
    exists i :: 0 <= i < |vs| && vs[i].id == id
  }

  /** Ids are issued once and below the count, and every record stands for at least one event. */
  ghost predicate Numbered(vs: seq<Violation>, count: nat) {
    && DistinctIds(vs)
    && forall i | 0 <= i < |vs| :: vs[i].id < count && vs[i].occurrences >= 1 && vs[i].first <= vs[i].last
  }

  /** The occurrences of a record, counted for one key alone if one is given. */
  function Weight(key: Option<RecordKey>): Violation -> nat {
    (v: Violation) => if key.None? || key.value == v.key then v.occurrences else 0
  }

  ghost function SumBy(vs: seq<Violation>, w: Violation -> nat): nat {
    if vs == [] then 0 else SumBy(vs[..|vs| - 1], w) + w(vs[|vs| - 1])
  }

  /** The number of events, of one key if one is given. */
  ghost function CountOf(batch: seq<Scraped>, key: Option<RecordKey>): nat {
    if key.None? then |batch| else |TimesOf(batch, key.value)|
  }

  lemma {:induction false} SumConcat(a: seq<Violation>, b: seq<Violation>, w: Violation -> nat)
    ensures SumBy(a + b, w) == SumBy(a, w) + SumBy(b, w)
  {
    if b == [] {
      assert a + b == a;
    } else {
      SumConcat(a, b[..|b| - 1], w);
      assert (a + b)[..|a + b| - 1] == a + b[..|b| - 1];
    }
  }

  lemma SumOne(v: Violation, w: Violation -> nat)
    ensures SumBy([v], w) == w(v)
  {
    assert [v][..0] == [];
  }

  lemma SumAround(vs: seq<Violation>, i: nat, w: Violation -> nat)
    requires i < |vs|
    ensures SumBy(vs, w) == SumBy(vs[..i], w) + w(vs[i]) + SumBy(vs[i + 1..], w)
  {
    hide SumBy;
    assert vs == vs[..i] + [vs[i]] + vs[i + 1..];
    SumConcat(vs[..i] + [vs[i]], vs[i + 1..], w);
    SumConcat(vs[..i], [vs[i]], w);
    SumOne(vs[i], w);
  }

  lemma Without(vs: seq<Violation>, i: nat)
    requires i < |vs|
    ensures multiset(vs) == multiset(vs[..i] + vs[i + 1..]) + multiset{vs[i]}
  {
    assert vs == vs[..i] + [vs[i]] + vs[i + 1..];
  }

  /** The sum does not depend on the order. */
  lemma {:induction false} SumPermutes(a: seq<Violation>, b: seq<Violation>, w: Violation -> nat)
    requires multiset(a) == multiset(b)
    ensures SumBy(a, w) == SumBy(b, w)
  {
    if a == [] {
      assert |multiset(a)| == |a| && |multiset(b)| == |b|;
    } else {
      var init, x := a[..|a| - 1], a[|a| - 1];
      assert a == init + [x];
      assert x in multiset(b);
      var i :| 0 <= i < |b| && b[i] == x;
      Without(b, i);
      assert multiset(init) == multiset(a) - multiset{x} == multiset(b[..i] + b[i + 1..]);
      SumPermutes(init, b[..i] + b[i + 1..], w);
      SumAround(b, i, w);
      SumConcat(b[..i], b[i + 1..], w);
    }
  }

  ghost function Ids(vs: seq<Violation>): set<nat> {
    set i | 0 <= i < |vs| :: vs[i].id
  }

  lemma IdsNext(vs: seq<Violation>)
    requires vs != []
    ensures Ids(vs) == Ids(vs[..|vs| - 1]) + {vs[|vs| - 1].id}
  {
    var init := vs[..|vs| - 1];
    forall i | 0 <= i < |init|
      ensures init[i].id in Ids(vs)
    {
      assert init[i] == vs[i];
    }
    forall i | 0 <= i < |vs|
      ensures vs[i].id in Ids(init) + {vs[|vs| - 1].id}
    {
      assert i < |init| ==> init[i] == vs[i];
    }
  }

  lemma DistinctNext(vs: seq<Violation>)
    requires vs != []
    ensures DistinctIds(vs) <==> DistinctIds(vs[..|vs| - 1]) && vs[|vs| - 1].id !in Ids(vs[..|vs| - 1])
  {
    var init, v := vs[..|vs| - 1], vs[|vs| - 1];
    assert forall i | 0 <= i < |init| :: init[i] == vs[i];
    if v.id in Ids(init) {
      var i :| 0 <= i < |init| && init[i].id == v.id;
      assert vs[i].id == vs[|vs| - 1].id;
    } else {
      assert forall i | 0 <= i < |init| :: init[i].id in Ids(init);
    }
  }

  /** Ids are distinct exactly if there are as many of them as records. */
  lemma {:induction false} DistinctIff(vs: seq<Violation>)
    ensures |Ids(vs)| <= |vs| && (DistinctIds(vs) <==> |Ids(vs)| == |vs|)
  {
    if vs == [] {
      assert Ids(vs) == {};
    } else {
      DistinctIff(vs[..|vs| - 1]);
      IdsNext(vs);
      DistinctNext(vs);
      hide Ids, DistinctIds;
      var ids, id := Ids(vs[..|vs| - 1]), vs[|vs| - 1].id;
      assert id in ids ==> ids + {id} == ids;
    }
  }

  lemma SameIds(a: seq<Violation>, b: seq<Violation>)
    requires multiset(a) == multiset(b)
    ensures Ids(a) == Ids(b) && |a| == |b|
  {
    assert |multiset(a)| == |a| && |multiset(b)| == |b|;
    forall i | 0 <= i < |a|
      ensures a[i].id in Ids(b)
    {
      assert a[i] in multiset(b);
      var j :| 0 <= j < |b| && b[j] == a[i];
    }
    forall i | 0 <= i < |b|
      ensures b[i].id in Ids(a)
    {
      assert b[i] in multiset(a);
      var j :| 0 <= j < |a| && a[j] == b[i];
    }
  }

  lemma NumberedPermutes(a: seq<Violation>, b: seq<Violation>, count: nat)
    requires multiset(a) == multiset(b) && Numbered(a, count)
    ensures Numbered(b, count)
  {
    DistinctIff(a);
    DistinctIff(b);
    SameIds(a, b);
    forall i | 0 <= i < |b|
      ensures b[i].id < count && b[i].occurrences >= 1 && b[i].first <= b[i].last
    {
      assert b[i] in multiset(a);
      var j :| 0 <= j < |a| && a[j] == b[i];
    }
  }

  /** One more event is counted once, in the record of its key. */
  lemma MergeOneSum(t: Tally, e: Scraped, key: Option<RecordKey>)
    ensures SumBy(MergeOne(t, e).active, Weight(key)) ==
            SumBy(t.active, Weight(key)) + if key.None? || key.value == e.key then 1 else 0
  {
    var w, i := Weight(key), Position(t.active, e.key);
    hide SumBy;
    if i < |t.active| {
      var vs := MergeOne(t, e).active;
      SumAround(t.active, i, w);
      SumAround(vs, i, w);
      assert vs[..i] == t.active[..i] && vs[i + 1..] == t.active[i + 1..];
    } else {
      var v := Violation(t.count, e.key, e.at, e.at, 1, e.origin);
      SumConcat(t.active, [v], w);
      SumOne(v, w);
    }
  }

  /** Every event of a batch is counted once, in all and key by key. */
  lemma {:induction false} MergeSum(t: Tally, batch: seq<Scraped>, key: Option<RecordKey>)
    ensures SumBy(Merge(t, batch).active, Weight(key)) == SumBy(t.active, Weight(key)) + CountOf(batch, key)
    ensures Merge(t, batch).count == t.count + |batch|
  {
    if batch != [] {
      var init, e := batch[..|batch| - 1], batch[|batch| - 1];
      hide SumBy, MergeOne;
      MergeSum(t, init, key);
      MergeOneSum(Merge(t, init), e, key);
      assert MergeOne(Merge(t, init), e).count == Merge(t, init).count + 1 by {
        CountNext(Merge(t, init), e);
      }
    }
  }

  lemma CountNext(t: Tally, e: Scraped)
    ensures MergeOne(t, e).count == t.count + 1
  {
  }

  lemma NumberedAgain(all: seq<Violation>, count: nat, i: nat, e: Scraped)
    requires Numbered(all, count) && i < |all|
    ensures Numbered(all[i := SeenAgain(all[i], e)], count + 1)
  {
  }

  lemma NumberedNew(all: seq<Violation>, count: nat, v: Violation)
    requires Numbered(all, count) && v.id == count && v.occurrences >= 1 && v.first <= v.last
    ensures Numbered(all + [v], count + 1)
  {
  }

  lemma MergeOneNumbered(t: Tally, e: Scraped, rest: seq<Violation>)
    requires Numbered(t.active + rest, t.count)
    ensures Numbered(MergeOne(t, e).active + rest, t.count + 1)
  {
    var i, all := Position(t.active, e.key), t.active + rest;
    hide Numbered;
    if i < |t.active| {
      NumberedAgain(all, t.count, i, e);
      assert MergeOne(t, e).active + rest == all[i := SeenAgain(all[i], e)];
    } else {
      var v := Violation(t.count, e.key, e.at, e.at, 1, e.origin);
      NumberedNew(all, t.count, v);
      assert multiset(all + [v]) == multiset(t.active + [v] + rest);
      NumberedPermutes(all + [v], t.active + [v] + rest, t.count + 1);
    }
  }

  /** A batch issues new ids, different from those of all records, also of those no longer active. */
  lemma {:induction false} MergeNumbered(t: Tally, batch: seq<Scraped>, rest: seq<Violation>)
    requires Numbered(t.active + rest, t.count)
    ensures Numbered(Merge(t, batch).active + rest, t.count + |batch|)
  {
    if batch != [] {
      var init, e := batch[..|batch| - 1], batch[|batch| - 1];
      MergeNumbered(t, init, rest);
      MergeSum(t, init, None);
      hide Numbered, MergeOne;
      MergeOneNumbered(Merge(t, init), e, rest);
    }
  }

  function Trimmed<T>(s: seq<T>): seq<T> {
    if |s| > MAX_VIOLATION_RECORDS then s[..MAX_VIOLATION_RECORDS] else s
  }

  /** Distinct, newest first and few enough. */
  ghost predicate Listed(vs: seq<Violation>) {
    UniqueKeys(vs) && DistinctIds(vs) && NewestFirst(vs, LastSeen) && |vs| <= MAX_VIOLATION_RECORDS
  }

  lemma SortedUnique(vs: seq<Violation>)
    requires UniqueKeys(vs) && DistinctIds(vs)
    ensures UniqueKeys(StableSort(vs, LastSeen)) && DistinctIds(StableSort(vs, LastSeen))
  {
    hide StableSort;
    var r := StableSort(vs, LastSeen);
    assert Distinct(vs, KeyOf) && Distinct(vs, IdOf);
    SortDistinct(vs, LastSeen, KeyOf);
    SortDistinct(vs, LastSeen, IdOf);
    assert forall i, j | 0 <= i < j < |r| :: KeyOf(r[i]) != KeyOf(r[j]) && IdOf(r[i]) != IdOf(r[j]);
  }

  lemma SortedListed(vs: seq<Violation>)
    requires UniqueKeys(vs) && DistinctIds(vs)
    ensures Listed(Trimmed(StableSort(vs, LastSeen)))
    ensures forall v | v in Trimmed(StableSort(vs, LastSeen)) :: v in vs
  {
    hide StableSort;
    StableSortIs(vs, LastSeen);
    SortedUnique(vs);
    forall v | v in Trimmed(StableSort(vs, LastSeen))
      ensures v in vs
    {
      SortHas(vs, LastSeen, v);
    }
  }

  lemma CutAreOldest(r: seq<Violation>, v: Violation, w: Violation)
    requires NewestFirst(r, LastSeen) && v in r && v !in Trimmed(r) && w in Trimmed(r)
    ensures v.last <= w.last && |r| > MAX_VIOLATION_RECORDS
  {
    assert |r| > MAX_VIOLATION_RECORDS;
    assert r == r[..MAX_VIOLATION_RECORDS] + r[MAX_VIOLATION_RECORDS..];
    var i :| MAX_VIOLATION_RECORDS <= i < |r| && r[i] == v;
    var j :| 0 <= j < MAX_VIOLATION_RECORDS && r[..MAX_VIOLATION_RECORDS][j] == w;
    assert LastSeen(r[j]) >= LastSeen(r[i]);
  }

  /** What the limit drops is not newer than what it keeps, and below the limit nothing is dropped. */
  lemma TrimmedAreOldest(vs: seq<Violation>, v: Violation, w: Violation)
    requires v in vs && v !in Trimmed(StableSort(vs, LastSeen)) && w in Trimmed(StableSort(vs, LastSeen))
    ensures v.last <= w.last && |vs| > MAX_VIOLATION_RECORDS
  {
    hide Trimmed, StableSort;
    StableSortIs(vs, LastSeen);
    SortHas(vs, LastSeen, v);
    CutAreOldest(StableSort(vs, LastSeen), v, w);
  }

  lemma FilterListed(vs: seq<Violation>, p: Violation -> bool)
    requires Listed(vs)
    ensures Listed(Filter(vs, p))
  {
    FilterSorted(vs, p, LastSeen);
    assert Distinct(vs, KeyOf) && Distinct(vs, IdOf);
    FilterDistinct(vs, p, KeyOf);
    FilterDistinct(vs, p, IdOf);
    var r := Filter(vs, p);
    assert forall i, j | 0 <= i < j < |r| :: KeyOf(r[i]) != KeyOf(r[j]) && IdOf(r[i]) != IdOf(r[j]);
  }

  /** A record that is scraped again keeps its id and first sighting, and counts every event of its key. */
  lemma SameRecord(t: Tally, batch: seq<Scraped>, o: Violation, v: Violation)
    requires UniqueKeys(t.active) && o in t.active && v in Merge(t, batch).active && v.key == o.key
    ensures v.id == o.id && v.first == o.first && v.occurrences == o.occurrences + |TimesOf(batch, o.key)|
  {
    MergeIs(t, batch);
    var r := Merge(t, batch);
    hide Merge, TimesOf;
    var i :| 0 <= i < |t.active| && t.active[i] == o;
    var j :| 0 <= j < |r.active| && r.active[j] == v;
    assert RecordOf(Before(t, i), r.active[i], batch, t.count) && RecordOf(Before(t, j), r.active[j], batch, t.count);
    assert i == j;
  }
}
