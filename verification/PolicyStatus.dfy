/**
 The status of a workload policy: node status, then violations merged, cleared and
 acknowledged (api/v1alpha1/workloadpolicy_types.go, api/v1alpha1/violation_record.go,
 internal/kubectlplugin/policy_ack.go).
 */
module PolicyStatus {
  import opened Decimal
  import opened ExecHook
  import opened Sorting
  import opened Violations
  import Enforcement
  import NodeStatus
  import PathWalk
  import ResolverState

  const ACKNOWLEDGE_PREFIX: string := "runtimeenforcer.kubewarden.io/acknowledge-"

  datatype Acked = Acked(violation: Violation, reason: string, at: int)

  function AckedAt(a: Acked): int { a.at }

  function AckedId(a: Acked): nat { a.violation.id }

  /** The record with this id is there, acknowledged for this reason at this time. */
  ghost predicate HasAck(acked: seq<Acked>, id: nat, reason: string, at: int) {
    exists a :: a in acked && a.violation.id == id && a.reason == reason && a.at == at
  }

  ghost predicate AckedListed(acked: seq<Acked>) {
    Distinct(acked, AckedId) && NewestFirst(acked, AckedAt) && |acked| <= MAX_VIOLATION_RECORDS
  }

  /** Why a record is on neither list any more. */
  datatype Why = Cut | Cleared | PushedOff

  datatype Gone = Gone(violation: Violation, why: Why)

  /** The records of a policy: active, acknowledged, gone in the order they went, and the events counted. */
  datatype Status = Status(active: seq<Violation>, acked: seq<Acked>, gone: seq<Gone>, count: nat)

  const NO_STATUS: Status := Status([], [], [], 0)

  ghost function Records(acked: seq<Acked>): (r: seq<Violation>)
    ensures |r| == |acked| && forall i | 0 <= i < |acked| :: r[i] == acked[i].violation
  {
    seq(|acked|, i requires 0 <= i < |acked| => acked[i].violation)
  }

  ghost function GoneRecords(gone: seq<Gone>): (r: seq<Violation>)
    ensures |r| == |gone| && forall i | 0 <= i < |gone| :: r[i] == gone[i].violation
  {
    seq(|gone|, i requires 0 <= i < |gone| => gone[i].violation)
  }

  ghost function GoneFor(vs: seq<Violation>, why: Why): (r: seq<Gone>)
    ensures |r| == |vs| && forall i | 0 <= i < |vs| :: r[i] == Gone(vs[i], why)
  {
    seq(|vs|, i requires 0 <= i < |vs| => Gone(vs[i], why))
  }

  /** Every record there ever was. */
  ghost function Everything(st: Status): seq<Violation> {
    st.active + (Records(st.acked) + GoneRecords(st.gone))
  }

  /** In all and key by key, the records count the events that were reported. */
  ghost predicate Counted(vs: seq<Violation>, reported: seq<Scraped>) {
    forall key :: SumBy(vs, Weight(key)) == CountOf(reported, key)
  }

  /** What every recomputation keeps. */
  ghost predicate StatusInv(st: Status, reported: seq<Scraped>) {
    && Numbered(Everything(st), st.count) && st.count == |reported| && Counted(Everything(st), reported)
    && Listed(st.active) && AckedListed(st.acked)
  }

  /** What the limit cuts off. */
  function Cutoff<T>(s: seq<T>): (r: seq<T>)
    ensures Trimmed(s) + r == s
  {
    s[|Trimmed(s)|..]
  }

  ghost function AfterMerge(st: Status, batch: seq<Scraped>): Status {
    var r := Merge(Tally(st.active, st.count), batch);
    var sorted := StableSort(r.active, LastSeen);
    Status(Trimmed(sorted), st.acked, st.gone + GoneFor(Cutoff(sorted), Cut), r.count)
  }

  ghost function AfterClear(st: Status, rules: map<string, ResolverState.Rules>): Status {
    Status(Filter(st.active, Unresolved(rules)), st.acked,
           st.gone + GoneFor(Filter(st.active, AllowedBy(rules)), Cleared), st.count)
  }

  ghost function AfterAck(st: Status, ids: set<int>, moved: seq<Acked>): Status {
    var acks := StableSort(st.acked + moved, AckedAt);
    Status(Filter(st.active, NotIn(ids)), Trimmed(acks), st.gone + GoneFor(Records(Cutoff(acks)), PushedOff), st.count)
  }

  /** The same records in another order keep what all records have. */
  lemma Rearranged(a: seq<Violation>, b: seq<Violation>, count: nat, reported: seq<Scraped>)
    requires multiset(a) == multiset(b) && Numbered(a, count) && Counted(a, reported)
    ensures Numbered(b, count) && Counted(b, reported)
  {
    hide SumBy, CountOf, Numbered;
    NumberedPermutes(a, b, count);
    forall key
      ensures SumBy(b, Weight(key)) == CountOf(reported, key)
    {
      SumPermutes(a, b, Weight(key));
    }
  }

  lemma GoneMore(gone: seq<Gone>, vs: seq<Violation>, why: Why)
    ensures GoneRecords(gone + GoneFor(vs, why)) == GoneRecords(gone) + vs
  {
  }

  lemma MergeCounted(st: Status, reported: seq<Scraped>, batch: seq<Scraped>)
    requires Counted(Everything(st), reported)
    ensures Counted(Merge(Tally(st.active, st.count), batch).active + (Records(st.acked) + GoneRecords(st.gone)),
                    reported + batch)
  {
    var t, rest := Tally(st.active, st.count), Records(st.acked) + GoneRecords(st.gone);
    hide SumBy, CountOf, Merge;
    forall key
      ensures SumBy(Merge(t, batch).active + rest, Weight(key)) == CountOf(reported + batch, key)
    {
      MergeSum(t, batch, key);
      SumConcat(t.active, rest, Weight(key));
      SumConcat(Merge(t, batch).active, rest, Weight(key));
      assert SumBy(Everything(st), Weight(key)) == CountOf(reported, key);
      CountMore(reported, batch, key);
    }
  }

  lemma {:induction false} CountMore(a: seq<Scraped>, b: seq<Scraped>, key: Option<RecordKey>)
    ensures CountOf(a + b, key) == CountOf(a, key) + CountOf(b, key)
  {
    if key.Some? {
      if b == [] {
        assert a + b == a;
      } else {
        CountMore(a, b[..|b| - 1], key);
        assert (a + b)[..|a + b| - 1] == a + b[..|b| - 1];
      }
    }
  }

  lemma EverythingIs(st: Status)
    ensures multiset(Everything(st)) ==
            multiset(st.active) + multiset(Records(st.acked)) + multiset(GoneRecords(st.gone))
  {
  }

  lemma MergeRearranged(st: Status, batch: seq<Scraped>)
    ensures multiset(Everything(AfterMerge(st, batch))) ==
            multiset(Merge(Tally(st.active, st.count), batch).active + (Records(st.acked) + GoneRecords(st.gone)))
  {
    var r := Merge(Tally(st.active, st.count), batch);
    var sorted := StableSort(r.active, LastSeen);
    hide Merge, StableSort, Trimmed, Cutoff, Everything, Records, GoneRecords, GoneFor;
    GoneMore(st.gone, Cutoff(sorted), Cut);
    EverythingIs(AfterMerge(st, batch));
    assert multiset(Trimmed(sorted) + Cutoff(sorted)) == multiset(Trimmed(sorted)) + multiset(Cutoff(sorted));
  }

  /** Merging a batch, sorting and trimming. */
  lemma MergeKeeps(st: Status, reported: seq<Scraped>, batch: seq<Scraped>)
    requires StatusInv(st, reported)
    ensures StatusInv(AfterMerge(st, batch), reported + batch)
  {
    var t, rest := Tally(st.active, st.count), Records(st.acked) + GoneRecords(st.gone);
    var r := Merge(t, batch);
    hide Merge, StableSort, Trimmed, Numbered, Counted, Listed, AckedListed, Cutoff;
    MergeNumbered(t, batch, rest);
    MergeSum(t, batch, None);
    MergeCounted(st, reported, batch);
    MergedListed(st.active, st.count, batch, rest);
    MergeRearranged(st, batch);
    Rearranged(r.active + rest, Everything(AfterMerge(st, batch)), r.count, reported + batch);
  }

  lemma DistinctFront(a: seq<Violation>, b: seq<Violation>)
    requires DistinctIds(a + b)
    ensures DistinctIds(a)
  {
    forall i, j | 0 <= i < j < |a|
      ensures a[i].id != a[j].id
    {
      assert (a + b)[i] == a[i] && (a + b)[j] == a[j];
    }
  }

  lemma MergedListed(active: seq<Violation>, count: nat, batch: seq<Scraped>, rest: seq<Violation>)
    requires Listed(active) && Numbered(Merge(Tally(active, count), batch).active + rest, count + |batch|)
    ensures Listed(Trimmed(StableSort(Merge(Tally(active, count), batch).active, LastSeen)))
  {
    var t := Tally(active, count);
    var r := Merge(t, batch);
    ListedKeys(active);
    MergeIs(t, batch);
    hide Merge, StableSort, Trimmed;
    assert UniqueKeys(r.active) by {
      MergedKeys(t, batch, r);
    }
    DistinctFront(r.active, rest);
    SortedListed(r.active);
  }

  lemma ListedKeys(active: seq<Violation>)
    requires Listed(active)
    ensures UniqueKeys(active)
  {
  }

  lemma MergedKeys(t: Tally, batch: seq<Scraped>, r: Tally)
    requires Merged(t, batch, r)
    ensures UniqueKeys(r.active)
  {
  }

  lemma {:induction false} FilterCount(vs: seq<Violation>, p: Violation -> bool, x: Violation)
    ensures multiset(Filter(vs, p))[x] == if p(x) then multiset(vs)[x] else 0
  {
    if vs != [] {
      var init, v := vs[..|vs| - 1], vs[|vs| - 1];
      FilterCount(init, p, x);
      assert vs == init + [v];
    }
  }

  /** A list is what satisfies a predicate and what does not. */
  lemma FilterBoth(vs: seq<Violation>, p: Violation -> bool, q: Violation -> bool)
    requires forall v :: q(v) <==> !p(v)
    ensures multiset(vs) == multiset(Filter(vs, p)) + multiset(Filter(vs, q))
  {
    hide Filter;
    forall x
      ensures multiset(vs)[x] == multiset(Filter(vs, p))[x] + multiset(Filter(vs, q))[x]
    {
      FilterCount(vs, p, x);
      FilterCount(vs, q, x);
    }
  }

  lemma ClearRearranged(st: Status, rules: map<string, ResolverState.Rules>)
    ensures multiset(Everything(AfterClear(st, rules))) == multiset(Everything(st))
  {
    FilterBoth(st.active, Unresolved(rules), AllowedBy(rules));
    GoneMore(st.gone, Filter(st.active, AllowedBy(rules)), Cleared);
    hide Filter, Everything, Records, GoneRecords, GoneFor;
    EverythingIs(st);
    EverythingIs(AfterClear(st, rules));
  }

  /** Records that are allowed now leave the list. */
  lemma ClearKeeps(st: Status, reported: seq<Scraped>, rules: map<string, ResolverState.Rules>)
    requires StatusInv(st, reported)
    ensures StatusInv(AfterClear(st, rules), reported)
  {
    FilterListed(st.active, Unresolved(rules));
    hide Filter, Numbered, Counted, Listed, AckedListed, Everything;
    ClearRearranged(st, rules);
    Rearranged(Everything(st), Everything(AfterClear(st, rules)), st.count, reported);
  }

  function NotIn(ids: set<int>): Violation -> bool {
    (v: Violation) => v.id !in ids
  }

  function In(ids: set<int>): Violation -> bool {
    (v: Violation) => v.id in ids
  }

  lemma RecordsConcat(a: seq<Acked>, b: seq<Acked>)
    ensures Records(a + b) == Records(a) + Records(b)
  {
  }

  lemma RecordsAround(b: seq<Acked>, i: nat)
    requires i < |b|
    ensures multiset(Records(b)) == multiset(Records(b[..i] + b[i + 1..])) + multiset{b[i].violation}
    ensures multiset(b) == multiset(b[..i] + b[i + 1..]) + multiset{b[i]}
  {
    assert b == b[..i] + [b[i]] + b[i + 1..];
    assert Records([b[i]]) == [b[i].violation];
    hide Records;
    RecordsConcat(b[..i] + [b[i]], b[i + 1..]);
    RecordsConcat(b[..i], [b[i]]);
    RecordsConcat(b[..i], b[i + 1..]);
  }

  lemma PlaceOf(b: seq<Acked>, x: Acked) returns (i: nat)
    requires x in multiset(b)
    ensures i < |b| && b[i] == x
  {
    i :| 0 <= i < |b| && b[i] == x;
  }

  lemma OneLess(a: multiset<Acked>, b: multiset<Acked>, x: Acked)
    requires a + multiset{x} == b + multiset{x}
    ensures a == b
  {
    assert a == a + multiset{x} - multiset{x};
  }

  lemma RecordsHead(a: seq<Acked>)
    requires a != []
    ensures multiset(Records(a)) == multiset(Records(a[1..])) + multiset{a[0].violation}
    ensures multiset(a) == multiset(a[1..]) + multiset{a[0]}
  {
    assert a == [a[0]] + a[1..];
    assert Records(a) == [a[0].violation] + Records(a[1..]);
  }

  lemma {:induction false} RecordsPermute(a: seq<Acked>, b: seq<Acked>)
    requires multiset(a) == multiset(b)
    ensures multiset(Records(a)) == multiset(Records(b))
  {
    hide Records;
    if a == [] {
      assert |multiset(a)| == |a| && |multiset(b)| == |b|;
    } else {
      assert a[0] in multiset(b);
      var i := PlaceOf(b, a[0]);
      RecordsHead(a);
      RecordsAround(b, i);
      OneLess(multiset(a[1..]), multiset(b[..i] + b[i + 1..]), a[0]);
      RecordsPermute(a[1..], b[..i] + b[i + 1..]);
    }
  }

  /** What the sort and the limit do to the acknowledged records. */
  lemma AcksSplit(acked: seq<Acked>, moved: seq<Acked>)
    ensures var acks := StableSort(acked + moved, AckedAt);
            multiset(Records(acked)) + multiset(Records(moved)) ==
            multiset(Records(Trimmed(acks))) + multiset(Records(Cutoff(acks)))
  {
    var acks := StableSort(acked + moved, AckedAt);
    hide StableSort, Trimmed, Cutoff, Records;
    RecordsPermute(acked + moved, acks);
    RecordsConcat(acked, moved);
    RecordsConcat(Trimmed(acks), Cutoff(acks));
  }

  lemma Exchange(a: multiset<Violation>, a': multiset<Violation>, m: multiset<Violation>, k: multiset<Violation>,
                 k': multiset<Violation>, c: multiset<Violation>, g: multiset<Violation>)
    requires a == a' + m && k + m == k' + c
    ensures a' + k' + (g + c) == a + k + g
  {
    assert a' + k' + (g + c) == a' + (k' + c) + g;
    assert a' + (k + m) + g == a' + m + k + g;
  }

  lemma AckRearranged(st: Status, ids: set<int>, moved: seq<Acked>)
    requires Records(moved) == Filter(st.active, In(ids))
    ensures multiset(Everything(AfterAck(st, ids, moved))) == multiset(Everything(st))
  {
    hide Filter, StableSort, Trimmed, Cutoff, Everything, Records, GoneRecords, GoneFor;
    var acks, st' := StableSort(st.acked + moved, AckedAt), AfterAck(st, ids, moved);
    FilterBoth(st.active, NotIn(ids), In(ids));
    AcksSplit(st.acked, moved);
    GoneMore(st.gone, Records(Cutoff(acks)), PushedOff);
    EverythingIs(st);
    EverythingIs(st');
    Exchange(multiset(st.active), multiset(st'.active), multiset(Records(moved)), multiset(Records(st.acked)),
             multiset(Records(st'.acked)), multiset(Records(Cutoff(acks))), multiset(GoneRecords(st.gone)));
  }

  lemma AckedDistinct(acked: seq<Acked>, before: seq<Violation>, after: seq<Violation>)
    requires DistinctIds(before + (Records(acked) + after))
    ensures Distinct(acked, AckedId)
  {
    var all := before + (Records(acked) + after);
    assert forall i | 0 <= i < |acked| :: all[|before| + i].id == AckedId(acked[i]);
  }

  lemma AcksListed(acked: seq<Acked>, moved: seq<Acked>, before: seq<Violation>, after: seq<Violation>)
    requires DistinctIds(before + (Records(Trimmed(StableSort(acked + moved, AckedAt))) + after))
    ensures AckedListed(Trimmed(StableSort(acked + moved, AckedAt)))
  {
    StableSortIs(acked + moved, AckedAt);
    hide StableSort;
    AckedDistinct(Trimmed(StableSort(acked + moved, AckedAt)), before, after);
  }

  /** The records of `ids` move from the active to the acknowledged list. */
  lemma AckKeeps(st: Status, reported: seq<Scraped>, ids: set<int>, moved: seq<Acked>)
    requires StatusInv(st, reported) && Records(moved) == Filter(st.active, In(ids))
    ensures StatusInv(AfterAck(st, ids, moved), reported)
  {
    var st' := AfterAck(st, ids, moved);
    FilterListed(st.active, NotIn(ids));
    hide Filter, Counted, Listed, StableSort, Cutoff, SumBy, Trimmed, AckedListed;
    AckRearranged(st, ids, moved);
    Rearranged(Everything(st), Everything(st'), st.count, reported);
    AcksListed(st.acked, moved, st'.active, GoneRecords(st'.gone));
  }

  /** The id an annotation acknowledges, if it is an acknowledgement with a number. */
  function Decoded(annotation: string): Option<int> {
    if ACKNOWLEDGE_PREFIX <= annotation then ParseInt(annotation[|ACKNOWLEDGE_PREFIX|..]) else None
  }

  function AckKey(id: int): string {
    ACKNOWLEDGE_PREFIX + FormatInt(id)
  }

  /** The annotation written for an id is read back as that id. */
  lemma AckKeyDecodes(id: int)
    requires -INT64_LIMIT <= id < INT64_LIMIT
    ensures Decoded(AckKey(id)) == Some(id)
  {
    IntRoundTrip(id);
    assert AckKey(id)[|ACKNOWLEDGE_PREFIX|..] == FormatInt(id);
  }

  datatype AnnotationInfo = AnnotationInfo(key: string, reason: string)

  /** Every id that some annotation decodes to, with one such annotation. */
  ghost predicate Acknowledges(annotations: map<string, string>, acks: map<int, AnnotationInfo>) {
    && (forall id | id in acks ::
          acks[id].key in annotations && Decoded(acks[id].key) == Some(id)
          && acks[id].reason == annotations[acks[id].key])
    && (forall k | k in annotations && Decoded(k).Some? :: Decoded(k).value in acks)
  }

  method CollectAcks(annotations: map<string, string>) returns (acks: map<int, AnnotationInfo>)
    ensures Acknowledges(annotations, acks)
  {
    hide Decoded;
    acks := map[];
    var todo := annotations.Keys;
    while todo != {}
      invariant todo <= annotations.Keys
      invariant forall id | id in acks ::
                  acks[id].key in annotations && Decoded(acks[id].key) == Some(id)
                  && acks[id].reason == annotations[acks[id].key]
      invariant forall k | k in annotations && k !in todo && Decoded(k).Some? :: Decoded(k).value in acks
    {
      var k :| k in todo;
      todo := todo - {k};
      var id := Decoded(k);
      if id.Some? {
        acks := acks[id.value := AnnotationInfo(k, annotations[k])];
      }
    }
  }

  ghost function AckIds(annotations: map<string, string>): set<int> {
    set k | k in annotations && Decoded(k).Some? :: Decoded(k).value
  }

  lemma AckIdsAre(annotations: map<string, string>, acks: map<int, AnnotationInfo>)
    requires Acknowledges(annotations, acks)
    ensures acks.Keys == AckIds(annotations)
  {
    hide Decoded;
    forall id | id in acks
      ensures id in AckIds(annotations)
    {
      assert Decoded(acks[id].key).value == id;
    }
  }

  /** The current rules allow what the violation was about. */
  predicate Allowed(rules: map<string, ResolverState.Rules>, v: Violation) {
    v.key.container in rules &&
    if v.key.foreign then rules[v.key.container].allowForeignRoot else v.key.exe in rules[v.key.container].allowed
  }

  function Unresolved(rules: map<string, ResolverState.Rules>): Violation -> bool {
    (v: Violation) => !Allowed(rules, v)
  }

  function AllowedBy(rules: map<string, ResolverState.Rules>): Violation -> bool {
    (v: Violation) => Allowed(rules, v)
  }

  /**
   A record of the container's own files goes exactly if its path is listed for the container, one of a foreign
   root exactly if the container is open to these; nothing else changes.
   */
  ghost predicate ClearedExactly(before: seq<Violation>, rules: map<string, ResolverState.Rules>,
                                 after: seq<Violation>) {
    && (forall v | v in after :: v in before)
    && (forall v | v in before && !v.key.foreign ::
          v !in after <==> v.key.container in rules && v.key.exe in rules[v.key.container].allowed)
    && (forall v | v in before && v.key.foreign ::
          v !in after <==> v.key.container in rules && rules[v.key.container].allowForeignRoot)
  }

  lemma ClearedAre(vs: seq<Violation>, rules: map<string, ResolverState.Rules>)
    ensures ClearedExactly(vs, rules, Filter(vs, Unresolved(rules)))
  {
  }

  /**
   Clearing and enforcement agree: the rules that clear a record are those under which the hook lets the exec pass
   in protect mode, but for listed paths of 121 to 144 bytes, which are cleared and still denied.
   */
  lemma ClearedIffPermitted(v: Violation, rules: map<string, ResolverState.Rules>)
    requires v.key.container in rules && 1 <= |v.key.exe| <= PathWalk.MAX_PATH_LEN
    ensures var r := rules[v.key.container];
            var permitted := Enforcement.SpecVerdict(ResolverState.Protect, r, v.key.foreign, v.key.exe, true) == 0;
            && ((v !in Filter([v], Unresolved(rules)) <==> permitted) <==>
                v.key.foreign || v.key.exe !in r.allowed || !(121 <= |v.key.exe| <= 144))
            && (permitted ==> v !in Filter([v], Unresolved(rules)))
  {
    Enforcement.PlainVerdict(ResolverState.Protect, rules[v.key.container], v.key.exe, true);
    hide Enforcement.SpecVerdict;
    ClearedAre([v], rules);
    assert v in [v];
  }

  /** Where each key is in the list. */
  ghost predicate Indexed(index: map<RecordKey, nat>, vs: seq<Violation>) {
    forall key :: (key in index <==> Position(vs, key) < |vs|) && (key in index ==> index[key] == Position(vs, key))
  }

  /** The acknowledgements of the records in `vs`, in order. */
  function MovedOf(vs: seq<Violation>, acks: map<int, AnnotationInfo>, now: int): seq<Acked> {
    if vs == [] then []
    else
      var moved, v := MovedOf(vs[..|vs| - 1], acks, now), vs[|vs| - 1];
      if v.id in acks then moved + [Acked(v, acks[v.id].reason, now)] else moved
  }

  /** The annotations that are used up with them. */
  ghost function GoneOf(vs: seq<Violation>, acks: map<int, AnnotationInfo>): set<string> {
    set v | v in vs && v.id in acks :: acks[v.id].key
  }

  lemma {:induction false} MovedOfHas(vs: seq<Violation>, acks: map<int, AnnotationInfo>, now: int)
    ensures forall a | a in MovedOf(vs, acks, now) ::
              a.violation in vs && a.violation.id in acks && a == Acked(a.violation, acks[a.violation.id].reason, now)
    ensures forall v | v in vs && v.id in acks :: Acked(v, acks[v.id].reason, now) in MovedOf(vs, acks, now)
    ensures Records(MovedOf(vs, acks, now)) == Filter(vs, In(acks.Keys))
  {
    if vs != [] {
      var init, v := vs[..|vs| - 1], vs[|vs| - 1];
      MovedOfHas(init, acks, now);
      assert vs == init + [v];
      if v.id in acks {
        assert Records(MovedOf(vs, acks, now)) == Records(MovedOf(init, acks, now)) + [v];
      }
    }
  }

  /** Exactly the active records that some annotation names, stamped with the time. */
  ghost predicate MovedAre(active: seq<Violation>, ids: set<int>, now: int, moved: seq<Acked>) {
    Records(moved) == Filter(active, In(ids)) && forall a | a in moved :: a.at == now
  }

  /** The annotation was used for the record. */
  ghost predicate UsedFor(before: map<string, string>, after: map<string, string>, k: string, a: Acked) {
    k in before && k !in after && Decoded(k) == Some(a.violation.id) && a.reason == before[k]
  }

  /** Each moved record used up one annotation, which named it and gave the reason; the others stay. */
  ghost predicate Consumed(before: map<string, string>, moved: seq<Acked>, after: map<string, string>) {
    && (forall k | k in after :: k in before && after[k] == before[k])
    && (forall k | k in before && k !in after :: exists a :: a in moved && UsedFor(before, after, k, a))
    && (forall a | a in moved :: exists k :: UsedFor(before, after, k, a))
    && (forall k,
          k' | k in before && k' in before && k !in after && k' !in after && Decoded(k) == Decoded(k') :: k == k')
  }

  lemma AcksMoved(active: seq<Violation>, annotations: map<string, string>, acks: map<int, AnnotationInfo>, now: int)
    requires Acknowledges(annotations, acks)
    ensures MovedAre(active, AckIds(annotations), now, MovedOf(active, acks, now))
  {
    AckIdsAre(annotations, acks);
    MovedOfHas(active, acks, now);
  }

  /** A record is moved exactly if it is active and named. */
  lemma MovedHas(active: seq<Violation>, ids: set<int>, now: int, moved: seq<Acked>, v: Violation)
    requires MovedAre(active, ids, now, moved)
    ensures v in active && v.id in ids <==> exists a :: a in moved && a.violation == v
    ensures |moved| <= |active|
  {
    if v in active && v.id in ids {
      assert v in Filter(active, In(ids));
      var i :| 0 <= i < |moved| && Records(moved)[i] == v;
      assert moved[i] in moved;
    }
    if a :| a in moved && a.violation == v {
      var i :| 0 <= i < |moved| && moved[i] == a;
      assert Records(moved)[i] == v;
      assert v in Filter(active, In(ids));
    }
  }

  lemma AcksConsumed(active: seq<Violation>, annotations: map<string, string>, acks: map<int, AnnotationInfo>, now: int)
    requires Acknowledges(annotations, acks)
    ensures Consumed(annotations, MovedOf(active, acks, now), annotations - GoneOf(active, acks))
  {
    MovedOfHas(active, acks, now);
    hide MovedOf, Decoded;
    var moved, after := MovedOf(active, acks, now), annotations - GoneOf(active, acks);
    forall v | v in active && v.id in acks
      ensures UsedFor(annotations, after, acks[v.id].key, Acked(v, acks[v.id].reason, now))
    {
      assert acks[v.id].key in GoneOf(active, acks);
    }
    forall k | k in annotations && k !in after
      ensures exists a :: a in moved && UsedFor(annotations, after, k, a)
      ensures Decoded(k).Some? && Decoded(k).value in acks && acks[Decoded(k).value].key == k
    {
      var v :| v in active && v.id in acks && acks[v.id].key == k;
      assert Acked(v, acks[v.id].reason, now) in moved;
    }
    forall a | a in moved
      ensures exists k :: UsedFor(annotations, after, k, a)
    {
      assert UsedFor(annotations, after, acks[a.violation.id].key, a);
    }
  }

  lemma GoneNext(vs: seq<Violation>, v: Violation, acks: map<int, AnnotationInfo>)
    ensures GoneOf(vs + [v], acks) == GoneOf(vs, acks) + if v.id in acks then {acks[v.id].key} else {}
  {
    forall x | x in vs && x.id in acks
      ensures acks[x.id].key in GoneOf(vs + [v], acks)
    {
      assert x in vs + [v];
    }
    if v.id in acks {
      assert v in vs + [v];
    }
  }

  /** Nothing named, nothing changed. */
  lemma NothingNamed(st: Status, reported: seq<Scraped>, annotations: map<string, string>, now: int)
    requires StatusInv(st, reported) && AckIds(annotations) == {}
    ensures AfterAck(st, {}, []) == st
    ensures MovedAre(st.active, {}, now, []) && Consumed(annotations, [], annotations)
  {
    FilterAll(st.active, NotIn({}));
    FilterNone(st.active, In({}));
    assert st.acked + [] == st.acked;
    SortedStays(st.acked, AckedAt);
    assert Cutoff(st.acked) == [];
  }

  lemma {:induction false} FilterNone(s: seq<Violation>, p: Violation -> bool)
    requires forall v | v in s :: !p(v)
    ensures Filter(s, p) == []
  {
    if s != [] {
      FilterNone(s[..|s| - 1], p);
    }
  }

  lemma {:induction false} FilterAll(s: seq<Violation>, p: Violation -> bool)
    requires forall v | v in s :: p(v)
    ensures Filter(s, p) == s
  {
    if s != [] {
      FilterAll(s[..|s| - 1], p);
      assert s == s[..|s| - 1] + [s[|s| - 1]];
    }
  }

  class WorkloadPolicy {
    var rules: map<string, ResolverState.Rules>
    var generation: nat
    var annotations: map<string, string>
    const nodes: NodeStatus.NodeTable
    var violations: seq<Violation>
    var acknowledgedViolations: seq<Acked>
    var violationCount: nat
    var activeViolationCount: nat
    var observedGeneration: nat
    /** Every record that was trimmed or cleared, or pushed off the acknowledged list. */
    ghost var gone: seq<Gone>
    /** Every event there ever was. */
    ghost var reported: seq<Scraped>

    ghost function State(): Status
      reads this
    {
      Status(violations, acknowledgedViolations, gone, violationCount)
    }

    ghost predicate Valid()
      reads this
    {
      StatusInv(State(), reported)
    }

    constructor (rules: map<string, ResolverState.Rules>)
      ensures Valid() && fresh(nodes) && reported == [] && State() == NO_STATUS
    {
      this.rules, generation, annotations := rules, 0, map[];
      nodes := new NodeStatus.NodeTable();
      violations, acknowledgedViolations, violationCount, activeViolationCount, observedGeneration := [], [], 0, 0, 0;
      gone, reported := [], [];
      NothingYet();
    }

    /** A deep copy. */
    constructor Copy(p: WorkloadPolicy)
      requires p.Valid()
      ensures Valid() && fresh(nodes) && reported == p.reported && State() == p.State()
      ensures nodes.Remembered() == p.nodes.Remembered()
      ensures rules == p.rules && generation == p.generation && annotations == p.annotations
    {
      rules, generation, annotations := p.rules, p.generation, p.annotations;
      nodes := new NodeStatus.NodeTable.Copy(p.nodes);
      violations, acknowledgedViolations, violationCount := p.violations, p.acknowledgedViolations, p.violationCount;
      activeViolationCount, observedGeneration := p.activeViolationCount, p.observedGeneration;
      gone, reported := p.gone, p.reported;
    }

    /** Positions by key, for the records there are. */
    method IndexByKey() returns (index: map<RecordKey, nat>)
      requires UniqueKeys(violations)
      ensures Indexed(index, violations)
    {
      index := map[];
      for i := 0 to |violations|
        invariant Indexed(index, violations[..i])
      {
        hide Indexed;
        assert violations[..i + 1] == violations[..i] + [violations[i]];
        PositionNew(violations, i);
        IndexedAt(index, violations[..i], violations[i].key);
        IndexedNew(index, violations[..i], violations[i]);
        index := index[violations[i].key := i];
      }
      assert violations[..|violations|] == violations;
    }

    /** Dedupes a batch against the active records, then sorts and trims them. */
    method MergeScrapedViolations(batch: seq<Scraped>)
      requires Valid()
      modifies this`violations, this`violationCount, this`gone, this`reported
      ensures Valid() && reported == old(reported) + batch && State() == AfterMerge(old(State()), batch)
    {
      hide StatusInv, Indexed, StableSort, Trimmed, Cutoff;
      ghost var t, st := Tally(violations, violationCount), State();
      InvParts(st, reported);
      MergeKeeps(st, reported, batch);
      var index := IndexByKey();
      for k := 0 to |batch|
        invariant Tally(violations, violationCount) == Merge(t, batch[..k])
        invariant Indexed(index, violations) && gone == st.gone && reported == old(reported)
      {
        assert batch[..k + 1][..k] == batch[..k];
        index := MergeEvent(batch[k], index);
      }
      assert batch[..|batch|] == batch;
      reported := reported + batch;
      gone := gone + GoneFor(Cutoff(StableSort(violations, LastSeen)), Cut);
      violations := Trimmed(StableSort(violations, LastSeen));
    }

    method MergeEvent(e: Scraped, index: map<RecordKey, nat>) returns (index': map<RecordKey, nat>)
      requires Indexed(index, violations)
      modifies this`violations, this`violationCount
      ensures Tally(violations, violationCount) == MergeOne(old(Tally(violations, violationCount)), e)
      ensures Indexed(index', violations)
    {
      hide Indexed, Position;
      index' := index;
      IndexedAt(index, violations, e.key);
      if e.key in index {
        var i := index[e.key];
        var v := violations[i];
        if e.at > v.last {
          v := v.(last := e.at);
        }
        v := v.(occurrences := v.occurrences + 1);
        IndexedSame(index, violations, violations[i := v]);
        violations := violations[i := v];
      } else {
        var v := Violation(violationCount, e.key, e.at, e.at, 1, e.origin);
        IndexedNew(index, violations, v);
        violations := violations + [v];
        index' := index'[e.key := |violations| - 1];
      }
      violationCount := violationCount + 1;
    }

    /** The records the current rules do not allow, in order. */
    method StillUnresolved() returns (kept: seq<Violation>)
      ensures kept == Filter(violations, Unresolved(rules))
    {
      kept := [];
      for i := 0 to |violations|
        invariant kept == Filter(violations[..i], Unresolved(rules))
      {
        assert violations[..i + 1][..i] == violations[..i];
        if !Allowed(rules, violations[i]) {
          kept := kept + [violations[i]];
        }
      }
      assert violations[..|violations|] == violations;
    }

    /** Drops the records the current rules allow. */
    method ClearAllowedViolations()
      requires Valid()
      modifies this`violations, this`gone
      ensures Valid() && State() == AfterClear(old(State()), rules)
      ensures ClearedExactly(old(violations), rules, violations)
    {
      hide StatusInv, ClearedExactly, Filter;
      ClearedAre(violations, rules);
      ClearKeeps(State(), reported, rules);
      var kept := StillUnresolved();
      gone := gone + GoneFor(Filter(violations, AllowedBy(rules)), Cleared);
      violations := kept;
    }

    /** Takes the named records off the active list, with the annotations that named them. */
    method TakeNamed(acks: map<int, AnnotationInfo>, now: int) returns (moved: seq<Acked>)
      modifies this`violations, this`annotations
      ensures violations == Filter(old(violations), NotIn(acks.Keys)) && moved == MovedOf(old(violations), acks, now)
      ensures annotations == old(annotations) - GoneOf(old(violations), acks)
    {
      hide GoneOf, Filter, MovedOf;
      var kept := [];
      moved := [];
      GoneNone(acks, now);
      for i := 0 to |violations|
        invariant violations == old(violations) && kept == Filter(violations[..i], NotIn(acks.Keys))
        invariant moved == MovedOf(violations[..i], acks, now)
                  && annotations == old(annotations) - GoneOf(violations[..i], acks)
      {
        var v := violations[i];
        assert violations[..i + 1] == violations[..i] + [v];
        GoneNext(violations[..i], v, acks);
        TakeNext(violations[..i], v, acks, now);
        if v.id in acks {
          annotations := annotations - {acks[v.id].key};
          moved := moved + [Acked(v, acks[v.id].reason, now)];
        } else {
          kept := kept + [v];
        }
      }
      assert violations[..|violations|] == violations;
      violations := kept;
    }

    /** Moves the records that annotations name to the acknowledged list. */
    method AcknowledgeViolationsFromAnnotations(now: int) returns (moved: seq<Acked>)
      requires Valid()
      modifies this`violations, this`acknowledgedViolations, this`annotations, this`gone
      ensures Valid() && State() == AfterAck(old(State()), AckIds(old(annotations)), moved)
      ensures MovedAre(old(violations), AckIds(old(annotations)), now, moved)
              && Consumed(old(annotations), moved, annotations)
    {
      hide StatusInv, Acknowledges, AckIds, Consumed, MovedOf, GoneOf, Filter, StableSort, Trimmed, Cutoff;
      var acks := CollectAcks(annotations);
      AckIdsAre(annotations, acks);
      if acks == map[] {
        assert AckIds(annotations) == {};
        NothingNamed(State(), reported, annotations, now);
        return [];
      }
      AcksMoved(violations, annotations, acks, now);
      AcksConsumed(violations, annotations, acks, now);
      moved := TakeNamed(acks, now);
      AckKeeps(old(State()), reported, acks.Keys, moved);
      gone := gone + GoneFor(Records(Cutoff(StableSort(acknowledgedViolations + moved, AckedAt))), PushedOff);
      acknowledgedViolations := Trimmed(StableSort(acknowledgedViolations + moved, AckedAt));
    }

    /** The whole status: nodes, then violations merged, cleared and acknowledged. */
    method RecomputeStatus(reports: seq<NodeStatus.Report>, batch: seq<Scraped>, now: int)
      returns (ok: bool, moved: seq<Acked>)
      requires Valid()
      modifies this`violations, this`acknowledgedViolations, this`violationCount, this`activeViolationCount,
               this`observedGeneration
      modifies this`annotations, this`gone, this`reported, nodes
      ensures Valid() && (ok <==> forall i | 0 <= i < |reports| :: NodeStatus.Known(reports[i].code))
      ensures reported == old(reported) + if ok then batch else []
      ensures Recomputed(old(State()), Round(reports, batch, now, rules, old(annotations)), moved, State())
      ensures !ok ==> annotations == old(annotations)
      ensures ok ==> nodes.Tallied(reports) && nodes.totalNodes == |reports|
      ensures ok && NodeStatus.Proper(reports) ==>
                NodeStatus.Follows(old(nodes.Remembered()), reports, now, nodes.Remembered())
      ensures ok ==> activeViolationCount == |violations| && observedGeneration == generation
      ensures ok ==> Consumed(old(annotations), moved, annotations)
    {
      NodeStatus.KnownCodes();
      hide StatusInv, AckIds, MovedAre, Consumed, AfterMerge, AfterClear, AfterAck;
      hide NodeStatus.Follows, NodeStatus.Proper, NodeStatus.Count, NodeStatus.Known;
      ok := nodes.ProcessPolicyNodeStatus(reports, now);
      if !ok {
        return false, [];
      }
      MergeScrapedViolations(batch);
      ClearAllowedViolations();
      moved := AcknowledgeViolationsFromAnnotations(now);
      activeViolationCount := |violations|;
      observedGeneration := generation;
    }

    /** What the command line writes to acknowledge a violation. */
    method ApplyAckAnnotation(id: nat, reason: string) returns (already: bool)
      modifies this`annotations
      ensures annotations == old(annotations)[AckKey(id) := reason]
      ensures already <==> AckKey(id) in old(annotations) && old(annotations)[AckKey(id)] == reason
    {
      var key := AckKey(id);
      if key in annotations && annotations[key] == reason {
        assert annotations == annotations[key := reason];
        return true;
      }
      annotations := annotations[key := reason];
      return false;
    }

    /**
     Acknowledging one violation, with no other annotation for it: at the next recomputation
     it moves with that reason and the annotation goes, exactly if it is still active then.
     */
    method AcknowledgeOne(id: nat, reason: string, reports: seq<NodeStatus.Report>, batch: seq<Scraped>, now: int)
      returns (ok: bool, moved: seq<Acked>)
      requires Valid() && id < INT64_LIMIT && forall k | k in annotations && Decoded(k) == Some(id) :: k == AckKey(id)
      modifies this`violations, this`acknowledgedViolations, this`violationCount, this`activeViolationCount,
               this`observedGeneration
      modifies this`annotations, this`gone, this`reported, nodes
      ensures Valid() && (ok <==> forall i | 0 <= i < |reports| :: NodeStatus.Known(reports[i].code))
      ensures ok ==>
                var active := HasId(Surviving(Tally(old(violations), old(violationCount)), batch, rules), id);
                && (active <==> HasAck(moved, id, reason, now))
                && (active <==> AckKey(id) !in annotations) && !HasId(violations, id)
                && ((forall a | a in old(acknowledgedViolations) :: a.at < now) ==>
                      (active <==> HasAck(acknowledgedViolations, id, reason, now)))
    {
      hide StatusInv, MovedAre, Consumed, Filter, AckKey, Decoded, AckIds, Trimmed, StableSort, Cutoff, Merge;
      InvParts(State(), reported);
      ghost var acked, live := acknowledgedViolations, Surviving(Tally(violations, violationCount), batch, rules);
      AckKeyDecodes(id);
      ghost var already := ApplyAckAnnotation(id, reason);
      ghost var named := annotations;
      ok, moved := RecomputeStatus(reports, batch, now);
      if ok {
        SurvivingFew(Tally(old(violations), old(violationCount)), batch, rules);
        hide Surviving, AfterMerge, AfterClear;
        OneAcknowledged(live, named, id, now, moved, annotations);
        if forall a | a in acked :: a.at < now {
          NewAcksStay(acked, live, AckIds(named), now, moved);
        }
      }
    }
  }

  /** The active records after a merge and the clearing, before acknowledgements. */
  function Surviving(t: Tally, batch: seq<Scraped>, rules: map<string, ResolverState.Rules>): seq<Violation> {
    Filter(Trimmed(StableSort(Merge(t, batch).active, LastSeen)), Unresolved(rules))
  }

  lemma SurvivingFew(t: Tally, batch: seq<Scraped>, rules: map<string, ResolverState.Rules>)
    ensures |Surviving(t, batch, rules)| <= MAX_VIOLATION_RECORDS
  {
  }

  /** How many of the acknowledged records are not older than `now`; they come first. */
  ghost function NotOlder(acked: seq<Acked>, now: int): (n: nat)
    ensures n <= |acked|
  {
    if acked == [] || acked[0].at < now then 0 else 1 + NotOlder(acked[1..], now)
  }

  lemma {:induction false} NotOlderIs(acked: seq<Acked>, now: int)
    requires NewestFirst(acked, AckedAt)
    ensures forall i | 0 <= i < |acked| :: acked[i].at >= now <==> i < NotOlder(acked, now)
  {
    if acked != [] {
      NotOlderIs(acked[1..], now);
      assert forall i | 1 <= i < |acked| :: acked[i] == acked[1..][i - 1] && AckedAt(acked[0]) >= AckedAt(acked[i]);
    }
  }

  lemma NoneAt(s: seq<Acked>, t: int)
    requires forall i | 0 <= i < |s| :: s[i].at != t
    ensures At(s, AckedAt, t) == []
  {
    AtHas(s, AckedAt, t);
  }

  /** The acknowledged records with new ones put in behind those that are not older. */
  ghost function WithNew(acked: seq<Acked>, moved: seq<Acked>, now: int): seq<Acked> {
    acked[..NotOlder(acked, now)] + moved + acked[NotOlder(acked, now)..]
  }

  lemma WithNewSorted(acked: seq<Acked>, moved: seq<Acked>, now: int)
    requires NewestFirst(acked, AckedAt) && forall a | a in moved :: a.at == now
    ensures NewestFirst(WithNew(acked, moved, now), AckedAt)
  {
    var n, sorted := NotOlder(acked, now), WithNew(acked, moved, now);
    NotOlderIs(acked, now);
    hide NotOlder;
    forall i, j | 0 <= i < j < |sorted|
      ensures AckedAt(sorted[i]) >= AckedAt(sorted[j])
    {
      var k, l := i - |moved|, j - |moved|;
      assert n <= i < n + |moved| ==> sorted[i] in moved;
      assert n <= j < n + |moved| ==> sorted[j] in moved;
      assert i < n ==> sorted[i] == acked[i];
      assert j < n ==> sorted[j] == acked[j];
      assert i >= n + |moved| ==> sorted[i] == acked[k];
      assert j >= n + |moved| ==> sorted[j] == acked[l];
    }
  }

  lemma AtThree(front: seq<Acked>, moved: seq<Acked>, back: seq<Acked>, t: int)
    ensures At(front + moved + back, AckedAt, t) == At(front, AckedAt, t) + At(moved, AckedAt, t) + At(back, AckedAt, t)
  {
    hide At;
    AtConcat(front + moved, back, AckedAt, t);
    AtConcat(front, moved, AckedAt, t);
  }

  lemma WithNewAt(acked: seq<Acked>, moved: seq<Acked>, now: int, t: int)
    requires NewestFirst(acked, AckedAt) && forall a | a in moved :: a.at == now
    ensures At(WithNew(acked, moved, now), AckedAt, t) == At(acked + moved, AckedAt, t)
  {
    hide At, NotOlder, NewestFirst;
    var n := NotOlder(acked, now);
    NotOlderIs(acked, now);
    var front, back := acked[..n], acked[n..];
    AtThree(front, moved, back, t);
    AtThree(front, back, moved, t);
    assert front + back == acked;
    if t == now {
      NoneAt(back, t);
    } else {
      assert forall i | 0 <= i < |moved| :: moved[i] in moved;
      NoneAt(moved, t);
    }
  }

  /** New acknowledgements go behind those that are not older, and before all others. */
  lemma AckOrder(acked: seq<Acked>, moved: seq<Acked>, now: int)
    requires NewestFirst(acked, AckedAt) && forall a | a in moved :: a.at == now
    ensures StableSort(acked + moved, AckedAt) == WithNew(acked, moved, now)
  {
    hide StableSort, At, WithNew, NewestFirst;
    StableSortIs(acked + moved, AckedAt);
    WithNewSorted(acked, moved, now);
    forall t
      ensures At(StableSort(acked + moved, AckedAt), AckedAt, t) == At(WithNew(acked, moved, now), AckedAt, t)
    {
      WithNewAt(acked, moved, now, t);
    }
    StableSortUnique(StableSort(acked + moved, AckedAt), WithNew(acked, moved, now), AckedAt);
  }

  lemma InFront(s: seq<Acked>, k: nat)
    requires Distinct(s, AckedId) && k < |s|
    ensures s[k] in Trimmed(s) <==> k < MAX_VIOLATION_RECORDS
  {
    var t := Trimmed(s);
    assert forall j | 0 <= j < |s| && j != k :: AckedId(s[j]) != AckedId(s[k]);
    assert forall j | 0 <= j < |t| :: t[j] == s[j];
    assert k < |t| ==> t[k] == s[k];
  }

  lemma WithNewHas(acked: seq<Acked>, moved: seq<Acked>, now: int, i: nat)
    requires i < |moved|
    ensures |WithNew(acked, moved, now)| == |acked| + |moved|
    ensures WithNew(acked, moved, now)[NotOlder(acked, now) + i] == moved[i]
  {
  }

  /** An acknowledged record is kept exactly if fewer than 100 go before it. */
  lemma KeptIff(acked: seq<Acked>, moved: seq<Acked>, now: int, i: nat)
    requires AckedListed(acked) && Distinct(acked + moved, AckedId) && i < |moved|
    requires forall a | a in moved :: a.at == now
    ensures moved[i] in Trimmed(StableSort(acked + moved, AckedAt)) <==>
            NotOlder(acked, now) + i < MAX_VIOLATION_RECORDS
  {
    hide StableSort, WithNew, Trimmed, Distinct, NewestFirst, NotOlder;
    AckOrder(acked, moved, now);
    SortDistinct(acked + moved, AckedAt, AckedId);
    WithNewHas(acked, moved, now, i);
    InFront(WithNew(acked, moved, now), NotOlder(acked, now) + i);
  }

  lemma TrimmedFront(moved: seq<Acked>, acked: seq<Acked>)
    requires |moved| <= MAX_VIOLATION_RECORDS
    ensures forall a | a in moved :: a in Trimmed(moved + acked)
    ensures forall a | a in Trimmed(moved + acked) :: a in moved || a in acked
  {
    var kept := Trimmed(moved + acked);
    forall a | a in moved
      ensures a in kept
    {
      var i :| 0 <= i < |moved| && moved[i] == a;
      assert kept[i] == a;
    }
    assert forall i | 0 <= i < |kept| :: kept[i] == (moved + acked)[i];
  }

  /** With every earlier acknowledgement older, all new ones are kept. */
  lemma NewAcksStay(acked: seq<Acked>, live: seq<Violation>, ids: set<int>, now: int, moved: seq<Acked>)
    requires NewestFirst(acked, AckedAt) && (forall a | a in acked :: a.at < now)
    requires MovedAre(live, ids, now, moved) && |live| <= MAX_VIOLATION_RECORDS
    ensures forall a :: a in moved <==> a in Trimmed(StableSort(acked + moved, AckedAt)) && a.at == now
  {
    hide StableSort, Trimmed, NewestFirst, Filter;
    assert |moved| <= |live| by {
      if moved != [] {
        MovedHas(live, ids, now, moved, moved[0].violation);
      }
    }
    AckOrder(acked, moved, now);
    assert NotOlder(acked, now) == 0;
    assert WithNew(acked, moved, now) == moved + acked;
    TrimmedFront(moved, acked);
  }

  lemma OneAcknowledged(live: seq<Violation>, before: map<string, string>, id: nat, now: int, moved: seq<Acked>,
                        after: map<string, string>)
    requires AckKey(id) in before && forall k | k in before && Decoded(k) == Some(id) :: k == AckKey(id)
    requires Decoded(AckKey(id)) == Some(id)
    requires MovedAre(live, AckIds(before), now, moved) && Consumed(before, moved, after)
    ensures HasId(live, id) <==> HasAck(moved, id, before[AckKey(id)], now)
    ensures HasId(live, id) <==> AckKey(id) !in after
    ensures !HasId(Filter(live, NotIn(AckIds(before))), id)
  {
    hide AckKey, Decoded, Filter, Distinct;
    assert id in AckIds(before);
    if HasId(live, id) {
      var i :| 0 <= i < |live| && live[i].id == id;
      assert live[i] in live;
      MovedHas(live, AckIds(before), now, moved, live[i]);
      var a :| a in moved && a.violation == live[i];
      var k :| UsedFor(before, after, k, a);
      assert k == AckKey(id);
    }
    if AckKey(id) !in after {
      var a :| a in moved && UsedFor(before, after, AckKey(id), a);
      MovedHas(live, AckIds(before), now, moved, a.violation);
    }
    if a :| a in moved && a.violation.id == id {
      MovedHas(live, AckIds(before), now, moved, a.violation);
    }
    var kept := Filter(live, NotIn(AckIds(before)));
    forall i | 0 <= i < |kept|
      ensures kept[i].id != id
    {
      assert kept[i] in kept && NotIn(AckIds(before))(kept[i]);
    }
  }

  /** A recomputation, after the user's edits. */
  datatype Round = Round(reports: seq<NodeStatus.Report>, batch: seq<Scraped>, now: int,
                         rules: map<string, ResolverState.Rules>, annotations: map<string, string>)

  predicate Readable(round: Round) {
    forall i | 0 <= i < |round.reports| :: NodeStatus.Known(round.reports[i].code)
  }

  /** The events of a run: the batches of all rounds but those with an unreadable node report. */
  ghost function Reported(rounds: seq<Round>): seq<Scraped> {
    if rounds == [] then []
    else
      var init, round := Reported(rounds[..|rounds| - 1]), rounds[|rounds| - 1];
      if Readable(round) then init + round.batch else init
  }

  /** What a round makes of a status; a round with an unreadable node report changes nothing. */
  ghost predicate Recomputed(st: Status, round: Round, moved: seq<Acked>, st': Status) {
    if !Readable(round) then st' == st && moved == []
    else
      var live, ids := AfterClear(AfterMerge(st, round.batch), round.rules), AckIds(round.annotations);
      MovedAre(live.active, ids, round.now, moved) && st' == AfterAck(live, ids, moved)
  }

  /** The rounds lead from the empty status through these states, with these records moved. */
  ghost predicate Rounds(states: seq<Status>, moves: seq<seq<Acked>>, rounds: seq<Round>) {
    && |states| == |rounds| + 1 && |moves| == |rounds| && states[0] == NO_STATUS
    && forall k | 0 <= k < |rounds| :: Recomputed(states[k], rounds[k], moves[k], states[k + 1])
  }

  lemma NothingYet()
    ensures StatusInv(NO_STATUS, [])
  {
    assert Everything(NO_STATUS) == [];
  }

  lemma RecomputedKeeps(st: Status, reported: seq<Scraped>, round: Round, moved: seq<Acked>, st': Status)
    requires StatusInv(st, reported) && Recomputed(st, round, moved, st')
    ensures StatusInv(st', reported + if Readable(round) then round.batch else [])
  {
    hide StatusInv, AfterMerge, AfterClear, AfterAck, Readable, AckIds;
    if Readable(round) {
      MergeKeeps(st, reported, round.batch);
      ClearKeeps(AfterMerge(st, round.batch), reported + round.batch, round.rules);
      AckKeeps(AfterClear(AfterMerge(st, round.batch), round.rules), reported + round.batch,
               AckIds(round.annotations), moved);
    } else {
      assert reported + [] == reported;
    }
  }

  /** Whatever the rounds: at each of them the records count exactly the events of the readable rounds so far. */
  lemma {:induction false} RoundsKeep(states: seq<Status>, moves: seq<seq<Acked>>, rounds: seq<Round>, k: nat)
    requires Rounds(states, moves, rounds) && k <= |rounds|
    ensures StatusInv(states[k], Reported(rounds[..k]))
  {
    hide StatusInv, Recomputed, Readable;
    if k == 0 {
      NothingYet();
    } else {
      RoundsKeep(states, moves, rounds, k - 1);
      assert rounds[..k][..k - 1] == rounds[..k - 1];
      RecomputedKeeps(states[k - 1], Reported(rounds[..k - 1]), rounds[k - 1], moves[k - 1], states[k]);
      assert Reported(rounds[..k - 1]) + [] == Reported(rounds[..k - 1]);
    }
  }

  /** What is over the limit is not newer than what is kept. */
  lemma CutoffOldest<T>(s: seq<T>, time: T -> int, x: T)
    requires NewestFirst(s, time) && x in Cutoff(s)
    ensures |s| > MAX_VIOLATION_RECORDS && forall y | y in Trimmed(s) :: time(x) <= time(y)
  {
    var i :| 0 <= i < |Cutoff(s)| && Cutoff(s)[i] == x;
    forall y | y in Trimmed(s)
      ensures time(x) <= time(y)
    {
      var j :| 0 <= j < |Trimmed(s)| && Trimmed(s)[j] == y;
      assert s[j] == y && s[MAX_VIOLATION_RECORDS + i] == x;
    }
  }

  /** Why a record went in a round, said of the round. */
  ghost predicate WentFor(st: Status, round: Round, moved: seq<Acked>, st': Status, g: Gone) {
    match g.why
    case Cut =>
      var merged := Merge(Tally(st.active, st.count), round.batch).active;
      && g.violation in merged && |merged| > MAX_VIOLATION_RECORDS
      && forall w | w in AfterMerge(st, round.batch).active :: g.violation.last <= w.last
    case Cleared =>
      g.violation.key.container in round.rules
      && var r := round.rules[g.violation.key.container];
      if g.violation.key.foreign then r.allowForeignRoot else g.violation.key.exe in r.allowed
    case PushedOff =>
      exists a :: a in st.acked + moved && a.violation == g.violation
                  && |st.acked + moved| > MAX_VIOLATION_RECORDS && forall b | b in st'.acked :: a.at <= b.at
  }

  lemma CutFor(st: Status, batch: seq<Scraped>, v: Violation)
    requires v in Cutoff(StableSort(Merge(Tally(st.active, st.count), batch).active, LastSeen))
    ensures var merged := Merge(Tally(st.active, st.count), batch).active;
            && v in merged && |merged| > MAX_VIOLATION_RECORDS
            && forall w | w in AfterMerge(st, batch).active :: v.last <= w.last
  {
    var merged := Merge(Tally(st.active, st.count), batch).active;
    var sorted := StableSort(merged, LastSeen);
    hide Merge, StableSort, Trimmed;
    StableSortIs(merged, LastSeen);
    CutoffOldest(sorted, LastSeen, v);
    assert v in sorted;
    SortHas(merged, LastSeen, v);
    assert forall w | w in Trimmed(sorted) :: LastSeen(v) <= LastSeen(w);
  }

  lemma PushedFor(acked: seq<Acked>, moved: seq<Acked>, v: Violation) returns (a: Acked)
    requires v in Records(Cutoff(StableSort(acked + moved, AckedAt)))
    ensures a in acked + moved && a.violation == v && |acked + moved| > MAX_VIOLATION_RECORDS
    ensures forall b | b in Trimmed(StableSort(acked + moved, AckedAt)) :: a.at <= b.at
  {
    var acks := StableSort(acked + moved, AckedAt);
    hide StableSort, Trimmed, Cutoff;
    StableSortIs(acked + moved, AckedAt);
    var i :| 0 <= i < |Cutoff(acks)| && Records(Cutoff(acks))[i] == v;
    a := Cutoff(acks)[i];
    CutoffOldest(acks, AckedAt, a);
    CutoffIn(acks, a);
    SortHas(acked + moved, AckedAt, a);
    forall b | b in Trimmed(acks)
      ensures a.at <= b.at
    {
      assert AckedAt(a) <= AckedAt(b);
    }
  }

  lemma CutoffIn<T>(s: seq<T>, x: T)
    requires x in Cutoff(s)
    ensures x in s
  {
    assert x in Trimmed(s) + Cutoff(s);
  }

  /** Every record that goes in a round goes for one of the three reasons, and what is gone stays gone. */
  lemma GoneWhy(st: Status, round: Round, moved: seq<Acked>, st': Status, i: nat)
    requires Recomputed(st, round, moved, st') && |st.gone| <= i < |st'.gone|
    ensures Readable(round) && WentFor(st, round, moved, st', st'.gone[i])
  {
    hide Merge, StableSort, Trimmed, Cutoff, Filter, MovedAre, AckIds, Readable;
    var merged := AfterMerge(st, round.batch);
    var live := AfterClear(merged, round.rules);
    var sorted := StableSort(Merge(Tally(st.active, st.count), round.batch).active, LastSeen);
    var g := st'.gone[i];
    if i < |merged.gone| {
      assert g.violation in Cutoff(sorted);
      CutFor(st, round.batch, g.violation);
    } else if i < |live.gone| {
      assert g.violation in Filter(merged.active, AllowedBy(round.rules));
    } else {
      assert g.violation in Records(Cutoff(StableSort(st.acked + moved, AckedAt)));
      var a := PushedFor(st.acked, moved, g.violation);
    }
  }

  /** After a round, whatever is still listed as active is what the hook denies under the rules of the round. */
  lemma ActiveAreDenied(st: Status, round: Round, moved: seq<Acked>, st': Status, v: Violation)
    requires Recomputed(st, round, moved, st') && Readable(round) && v in st'.active
    requires v.key.container in round.rules && 1 <= |v.key.exe| <= PathWalk.MAX_PATH_LEN
    ensures Enforcement.SpecVerdict(ResolverState.Protect, round.rules[v.key.container], v.key.foreign, v.key.exe,
                                    true) == -EPERM
  {
    hide AfterMerge, Readable, MovedAre, AckIds;
    var live := AfterClear(AfterMerge(st, round.batch), round.rules);
    assert v in live.active;
    ClearedAre(AfterMerge(st, round.batch).active, round.rules);
    Enforcement.PlainVerdict(ResolverState.Protect, round.rules[v.key.container], v.key.exe, true);
  }

  lemma GoneStays(st: Status, round: Round, moved: seq<Acked>, st': Status)
    requires Recomputed(st, round, moved, st')
    ensures st.gone <= st'.gone
  {
  }

  lemma {:induction false} MergeHasIds(t: Tally, batch: seq<Scraped>, id: nat)
    requires HasId(t.active, id)
    ensures HasId(Merge(t, batch).active, id)
  {
    if batch != [] {
      var r, e := Merge(t, batch[..|batch| - 1]), batch[|batch| - 1];
      MergeHasIds(t, batch[..|batch| - 1], id);
      var i :| 0 <= i < |r.active| && r.active[i].id == id;
      assert MergeOne(r, e).active[i].id == id;
    }
  }

  lemma HasIdIn(vs: seq<Violation>, id: nat)
    ensures HasId(vs, id) <==> id in Ids(vs)
  {
  }

  /** The ids of all records after a round are those of the merge and of what was off the active list. */
  lemma IdsAfterRound(st: Status, round: Round, moved: seq<Acked>, st': Status)
    requires Recomputed(st, round, moved, st') && Readable(round)
    ensures multiset(Everything(st')) ==
            multiset(Merge(Tally(st.active, st.count), round.batch).active + (Records(st.acked) + GoneRecords(st.gone)))
  {
    hide Merge, AfterMerge, AfterClear, AfterAck, Everything, AckIds, Readable;
    MergeRearranged(st, round.batch);
    ClearRearranged(AfterMerge(st, round.batch), round.rules);
    AckRearranged(AfterClear(AfterMerge(st, round.batch), round.rules), AckIds(round.annotations), moved);
  }

  /** A record that is on neither list after a round, and was on one before, is among those that went in it. */
  lemma LeftAreGone(st: Status, reported: seq<Scraped>, round: Round, moved: seq<Acked>, st': Status, id: nat)
    requires StatusInv(st, reported) && Recomputed(st, round, moved, st')
    requires HasId(st.active + Records(st.acked), id) && !HasId(st'.active + Records(st'.acked), id)
    ensures exists i :: |st.gone| <= i < |st'.gone| && st'.gone[i].violation.id == id
  {
    hide StatusInv, Recomputed;
    assert Readable(round) by {
      SameIfUnreadable(st, round, moved, st');
    }
    var t, rest := Tally(st.active, st.count), Records(st.acked) + GoneRecords(st.gone);
    var all := Merge(t, round.batch).active + rest;
    assert HasId(all, id) by {
      AllHave(st, round.batch, id);
    }
    IdsAfterRound(st, round, moved, st');
    SameIds(Everything(st'), all);
    HasIdIn(all, id);
    HasIdIn(Everything(st'), id);
    var i :| 0 <= i < |Everything(st')| && Everything(st')[i].id == id;
    InGone(st', id, i);
    var j := i - |st'.active| - |st'.acked|;
    GoneOnce(st, reported, round, moved, st', id, j);
  }

  lemma SameIfUnreadable(st: Status, round: Round, moved: seq<Acked>, st': Status)
    requires Recomputed(st, round, moved, st')
    ensures st' != st ==> Readable(round)
  {
  }

  lemma AllHave(st: Status, batch: seq<Scraped>, id: nat)
    requires HasId(st.active + Records(st.acked), id)
    ensures HasId(Merge(Tally(st.active, st.count), batch).active + (Records(st.acked) + GoneRecords(st.gone)), id)
  {
    var t := Tally(st.active, st.count);
    var r := Merge(t, batch).active;
    var i :| 0 <= i < |st.active + Records(st.acked)| && (st.active + Records(st.acked))[i].id == id;
    if i < |st.active| {
      assert HasId(t.active, id);
      MergeHasIds(t, batch, id);
      var j :| 0 <= j < |r| && r[j].id == id;
      assert (r + (Records(st.acked) + GoneRecords(st.gone)))[j].id == id;
    } else {
      assert (r + (Records(st.acked) + GoneRecords(st.gone)))[|r| + (i - |st.active|)].id == id;
    }
  }

  lemma OnAList(st: Status, id: nat, i: nat)
    requires i < |st.active| + |st.acked| && Everything(st)[i].id == id
    ensures HasId(st.active + Records(st.acked), id)
  {
    assert (st.active + Records(st.acked))[i] == Everything(st)[i];
  }

  lemma InGone(st: Status, id: nat, i: nat)
    requires i < |Everything(st)| && Everything(st)[i].id == id && !HasId(st.active + Records(st.acked), id)
    ensures i >= |st.active| + |st.acked| && st.gone[i - |st.active| - |st.acked|].violation.id == id
  {
    if i < |st.active| + |st.acked| {
      OnAList(st, id, i);
    }
  }

  lemma ListedNotGone(st: Status, i: nat, j: nat)
    requires DistinctIds(Everything(st)) && i < |st.active| + |st.acked| && j < |st.gone|
    ensures (st.active + Records(st.acked))[i].id != st.gone[j].violation.id
  {
    var all, on := Everything(st), st.active + Records(st.acked);
    assert all[i] == on[i] && all[|on| + j] == st.gone[j].violation;
  }

  /** What was on a list was not gone yet. */
  lemma GoneOnce(st: Status, reported: seq<Scraped>, round: Round, moved: seq<Acked>, st': Status, id: nat, j: nat)
    requires StatusInv(st, reported) && Recomputed(st, round, moved, st') && HasId(st.active + Records(st.acked), id)
    requires j < |st'.gone| && st'.gone[j].violation.id == id
    ensures j >= |st.gone|
  {
    GoneStays(st, round, moved, st');
    hide Recomputed, Counted, Listed, AckedListed;
    var on := st.active + Records(st.acked);
    var i :| 0 <= i < |on| && on[i].id == id;
    if j < |st.gone| {
      ListedNotGone(st, i, j);
    }
  }

  /** Every event ever reported is counted once: in an active, an acknowledged or a gone record, of its key. */
  lemma Conservation(st: Status, reported: seq<Scraped>, key: Option<RecordKey>)
    requires StatusInv(st, reported)
    ensures CountOf(reported, key) ==
            SumBy(st.active, Weight(key)) + SumBy(Records(st.acked), Weight(key))
            + SumBy(GoneRecords(st.gone), Weight(key))
  {
    hide SumBy, CountOf, Numbered;
    SumConcat(st.active, Records(st.acked) + GoneRecords(st.gone), Weight(key));
    SumConcat(Records(st.acked), GoneRecords(st.gone), Weight(key));
  }

  /** One round: the user's edits, then a recomputation on a copy, which is kept if the reports are readable. */
  method Perform(p: WorkloadPolicy, round: Round) returns (p': WorkloadPolicy, ghost moved: seq<Acked>)
    requires p.Valid()
    modifies p`rules, p`annotations, p`generation
    ensures p' == p || (fresh(p') && fresh(p'.nodes))
    ensures p'.Valid() && p'.reported == old(p.reported) + if Readable(round) then round.batch else []
    ensures Recomputed(old(p.State()), round, moved, p'.State())
    ensures !Readable(round) ==> p' == p && p.annotations == round.annotations
    ensures Readable(round) && NodeStatus.Proper(round.reports) ==>
              NodeStatus.Follows(old(p.nodes.Remembered()), round.reports, round.now, p'.nodes.Remembered())
  {
    hide StatusInv, Consumed, AckIds, NodeStatus.Proper, NodeStatus.Follows, AfterMerge, AfterClear, AfterAck, MovedAre;
    p.rules, p.annotations, p.generation := round.rules, round.annotations, p.generation + 1;
    var copy := new WorkloadPolicy.Copy(p);
    var ok, m := copy.RecomputeStatus(round.reports, round.batch, round.now);
    moved := m;
    p' := if ok then copy else p;
  }

  /**
   Any list of rounds, each of edits and a recomputation, is performed round by round. The count is the number of
   events of the readable rounds, and in all and key by key these are conserved over the active records, the
   acknowledged ones and those that went.
   */
  method Run(rounds: seq<Round>) returns (p: WorkloadPolicy, ghost states: seq<Status>, ghost moves: seq<seq<Acked>>)
    ensures fresh(p) && p.Valid() && Rounds(states, moves, rounds) && p.State() == states[|rounds|]
    ensures p.reported == Reported(rounds) && p.violationCount == |Reported(rounds)|
    ensures forall key ::
              CountOf(Reported(rounds), key) ==
              SumBy(p.violations, Weight(key)) + SumBy(Records(p.acknowledgedViolations), Weight(key))
              + SumBy(GoneRecords(p.gone), Weight(key))
  {
    hide StatusInv, Readable, Recomputed, SumBy, CountOf;
    p := new WorkloadPolicy(map[]);
    states, moves := [p.State()], [];
    for k := 0 to |rounds|
      invariant fresh(p) && fresh(p.nodes) && p.Valid() && p.reported == Reported(rounds[..k])
      invariant |states| == k + 1 && |moves| == k && states[0] == NO_STATUS && states[k] == p.State()
      invariant forall i | 0 <= i < k :: Recomputed(states[i], rounds[i], moves[i], states[i + 1])
    {
      ghost var moved;
      p, moved := Perform(p, rounds[k]);
      states, moves := states + [p.State()], moves + [moved];
      assert rounds[..k + 1][..k] == rounds[..k];
    }
    assert rounds[..|rounds|] == rounds;
    InvParts(p.State(), p.reported);
    forall key
      ensures CountOf(Reported(rounds), key) ==
              SumBy(p.violations, Weight(key)) + SumBy(Records(p.acknowledgedViolations), Weight(key))
              + SumBy(GoneRecords(p.gone), Weight(key))
    {
      Conservation(p.State(), p.reported, key);
    }
  }

  lemma GoneNone(acks: map<int, AnnotationInfo>, now: int)
    ensures GoneOf([], acks) == {} && Filter([], NotIn(acks.Keys)) == [] && MovedOf([], acks, now) == []
  {
  }

  lemma TakeNext(vs: seq<Violation>, v: Violation, acks: map<int, AnnotationInfo>, now: int)
    ensures Filter(vs + [v], NotIn(acks.Keys)) ==
            if v.id in acks then Filter(vs, NotIn(acks.Keys)) else Filter(vs, NotIn(acks.Keys)) + [v]
    ensures MovedOf(vs + [v], acks, now) ==
            if v.id in acks then MovedOf(vs, acks, now) + [Acked(v, acks[v.id].reason, now)] else MovedOf(vs, acks, now)
  {
    assert (vs + [v])[..|vs|] == vs;
  }

  lemma IndexedAt(index: map<RecordKey, nat>, vs: seq<Violation>, key: RecordKey)
    requires Indexed(index, vs)
    ensures (key in index <==> Position(vs, key) < |vs|)
            && (key in index ==> index[key] == Position(vs, key) && vs[index[key]].key == key)
  {
  }

  lemma IndexedSame(index: map<RecordKey, nat>, vs: seq<Violation>, vs': seq<Violation>)
    requires Indexed(index, vs) && |vs'| == |vs| && forall i | 0 <= i < |vs| :: vs'[i].key == vs[i].key
    ensures Indexed(index, vs')
  {
    SameKeys(vs, vs');
    hide Position;
  }

  lemma IndexedNew(index: map<RecordKey, nat>, vs: seq<Violation>, v: Violation)
    requires Indexed(index, vs) && v.key !in index
    ensures Indexed(index[v.key := |vs|], vs + [v])
  {
    PositionGrows(vs, v);
    hide Position;
  }

  lemma InvParts(st: Status, reported: seq<Scraped>)
    requires StatusInv(st, reported)
    ensures UniqueKeys(st.active) && NewestFirst(st.acked, AckedAt) && st.count == |reported|
  {
  }

  lemma PositionNew(vs: seq<Violation>, i: nat)
    requires UniqueKeys(vs) && i < |vs|
    ensures Position(vs[..i], vs[i].key) == i
  {
  }
}
