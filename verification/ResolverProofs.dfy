/** Lemmas on the resolver's caches: how each step of an operation keeps the join. */
module ResolverProofs {
  import opened ExecHook
  import opened BpfManager
  import opened ResolverState
  import SM = StringMaps

  datatype PodInput = PodInput(meta: PodMeta, containers: map<string, ContainerMeta>)

  /** Cgroups of the containers of a pod whose name is among `names`. */
  ghost function CgroupsNamed(pod: PodEntry, names: set<string>): set<CgroupID> {
    set c | c in pod.containers && pod.containers[c].name in names :: pod.containers[c].cgroup
  }

  ghost function CgroupsOf(pod: PodEntry): set<CgroupID> {
    set c | c in pod.containers :: pod.containers[c].cgroup
  }

  /** The input re-adds a cached container under another name or cgroup. */
  ghost predicate Conflict(pods: Pods, pod: PodInput) {
    exists c :: Cached(pods, pod.meta.id, c) && c in pod.containers
                && pods[pod.meta.id].containers[c] != pod.containers[c]
  }

  /** An order in which a loop may meet the keys of a map. */
  predicate Orders(order: seq<string>, keys: set<string>) {
    && (forall i | 0 <= i < |order| :: order[i] in keys)
    && (forall c | c in keys :: c in order)
    && (forall i, j | 0 <= i < j < |order| :: order[i] != order[j])
  }

  /** What comes from position `k` on. */
  ghost function Rest(order: seq<string>, k: nat): set<string>
    requires k <= |order|
  {
    set i | k <= i < |order| :: order[i]
  }

  lemma RestNext(order: seq<string>, keys: set<string>, k: nat)
    requires Orders(order, keys) && k < |order|
    ensures order[k] in Rest(order, k) && Rest(order, k + 1) == Rest(order, k) - {order[k]}
  {
  }

  lemma RestEnds(order: seq<string>, keys: set<string>)
    requires Orders(order, keys)
    ensures Rest(order, 0) == keys && Rest(order, |order|) == {}
  {
    forall c | c in keys
      ensures c in Rest(order, 0)
    {
      var i :| 0 <= i < |order| && order[i] == c;
    }
  }

  predicate Clashes(base: map<string, ContainerMeta>, input: map<string, ContainerMeta>, c: string) {
    c in base && c in input && base[c] != input[c]
  }

  /** The first position with a clash, or the end. */
  ghost function FirstClash(base: map<string, ContainerMeta>, input: map<string, ContainerMeta>,
                            order: seq<string>): (k: nat)
    ensures k <= |order| && (k < |order| ==> Clashes(base, input, order[k]))
    ensures forall i | 0 <= i < k :: !Clashes(base, input, order[i])
  {
    if order == [] || Clashes(base, input, order[0]) then 0 else 1 + FirstClash(base, input, order[1..])
  }

  /** The containers of the input that a clash keeps from being looked at. */
  ghost function Left(base: map<string, ContainerMeta>, input: map<string, ContainerMeta>,
                      order: seq<string>): set<string> {
    Rest(order, FirstClash(base, input, order))
  }

  lemma LeftAt(base: map<string, ContainerMeta>, input: map<string, ContainerMeta>, order: seq<string>, k: nat)
    requires k <= |order| && (forall i | 0 <= i < k :: !Clashes(base, input, order[i]))
    requires k < |order| ==> Clashes(base, input, order[k])
    ensures Left(base, input, order) == Rest(order, k)
  {
  }

  lemma ConflictIff(pods: Pods, pod: PodInput, order: seq<string>, k: nat)
    requires Orders(order, pod.containers.Keys) && k <= |order|
    requires forall i | 0 <= i < k :: !Clashes(Base(pods, pod).containers, pod.containers, order[i])
    requires k < |order| ==> Clashes(Base(pods, pod).containers, pod.containers, order[k])
    ensures Conflict(pods, pod) <==> k < |order|
  {
    if k < |order| {
      assert Cached(pods, pod.meta.id, order[k]);
    }
    if c :| Cached(pods, pod.meta.id,
                   c) && c in pod.containers && pods[pod.meta.id].containers[c] != pod.containers[c] {
      var i :| 0 <= i < |order| && order[i] == c;
      assert Clashes(Base(pods, pod).containers, pod.containers, order[i]);
    }
  }

  /** The containers of `todo` that are new bring distinct, non-zero cgroups that nobody uses. */
  predicate FreshIn(base: map<string, ContainerMeta>, input: map<string, ContainerMeta>,
                    index: map<CgroupID, string>, todo: set<string>) {
    && (forall c | c in todo && c !in base :: c in input && input[c].cgroup !in index && input[c].cgroup != 0)
    && (forall c, c' | c in todo && c' in todo && c !in base && c' !in base ::
          input[c].cgroup == input[c'].cgroup ==> c == c')
  }

  lemma FreshNext(base: map<string, ContainerMeta>, input: map<string, ContainerMeta>,
                  index: map<CgroupID, string>, todo: set<string>, c: string, p: string)
    requires FreshIn(base, input, index, todo) && c in todo
    ensures c in base ==> FreshIn(base, input, index, todo - {c})
    ensures c !in base ==> c in input && input[c].cgroup !in index && input[c].cgroup != 0
                           && FreshIn(base, input, index[input[c].cgroup := p], todo - {c})
  {
  }

  /** The entry a pod is merged into: its cached one, or an empty one with the new metadata. */
  function Base(pods: Pods, pod: PodInput): PodEntry {
    if pod.meta.id in pods then pods[pod.meta.id] else PodEntry(pod.meta, map[])
  }

  /** Live containers have distinct cgroups. */
  predicate FreshCgroups(pods: Pods, index: map<CgroupID, string>, pod: PodInput) {
    FreshIn(Base(pods, pod).containers, pod.containers, index, pod.containers.Keys)
  }

  /** One container more in a pod, with a cgroup nobody uses. */
  lemma ContainerAdded(pods: Pods, index: map<CgroupID, string>, p: string, c: string, meta: ContainerMeta)
    requires IndexOk(pods, index) && p in pods && c !in pods[p].containers && meta.cgroup !in index
    ensures IndexOk(pods[p := WithContainer(pods[p], c, meta)], index[meta.cgroup := p])
  {
    var pods', index' := pods[p := WithContainer(pods[p], c, meta)], index[meta.cgroup := p];
    RowsAfterAdd(pods, p, c, meta);
    hide WithContainer;
    assert IndexCovers(pods', index') && DistinctCgroups(pods') by {
      hide IndexSound;
      assert forall q, d | Cached(pods', q, d) && !(q == p && d == c) :: SameRow(pods, pods', q, d);
    }
    forall g | g in index'
      ensures HasCgroup(pods', index'[g], g)
    {
      hide IndexCovers, DistinctCgroups;
      if g == meta.cgroup {
        assert Cached(pods', p, c);
      } else {
        assert HasCgroup(pods, index[g], g);
        var d :| Cached(pods, index[g], d) && pods[index[g]].containers[d].cgroup == g;
        assert Cached(pods', index[g], d);
      }
    }
  }

  lemma RowsAfterAdd(pods: Pods, p: string, c: string, meta: ContainerMeta)
    requires p in pods && c !in pods[p].containers
    ensures var pods' := pods[p := WithContainer(pods[p], c, meta)];
            && Cached(pods', p, c) && pods'[p].containers[c] == meta && pods'[p].meta == pods[p].meta
            && (forall q, d :: Cached(pods', q, d) <==> Cached(pods, q, d) || (q == p && d == c))
            && (forall q, d | Cached(pods, q, d) :: SameRow(pods, pods', q, d))
  {
  }

  function WithContainer(pod: PodEntry, c: string, meta: ContainerMeta): PodEntry {
    pod.(containers := pod.containers[c := meta])
  }

  /** A container that was just cached is not bound yet. */
  lemma ContainerAddedJoin(pods: Pods, index: map<CgroupID, string>, wp: Policies, b: Bindings, u: set<CgroupID>,
                           p: string, c: string, meta: ContainerMeta)
    requires IndexOk(pods, index) && IsJoin(pods, index, wp, b, u)
    requires p in pods && c !in pods[p].containers && meta.cgroup !in index
    ensures IsJoin(pods[p := WithContainer(pods[p], c, meta)], index[meta.cgroup := p], wp, b, u + {meta.cgroup})
  {
    var pods' := pods[p := WithContainer(pods[p], c, meta)];
    RowsAfterAdd(pods, p, c, meta);
    hide WithContainer, DistinctCgroups, IndexSound, JoinRow, Lookup, Binding;
    forall q, d | Cached(pods', q, d)
      ensures JoinRow(pods', wp, b, u + {meta.cgroup}, q, d)
    {
      if q == p && d == c {
        UnboundRow(pods', wp, b, u + {meta.cgroup}, p, c);
      } else {
        JoinRowKept(pods, pods', wp, wp, b, b, u, u + {meta.cgroup}, q, d);
      }
    }
  }

  /** The caches agree with each other and with the kernel's bindings. */
  ghost predicate CacheInv(pods: Pods, index: map<CgroupID, string>, wp: Policies, b: Bindings, u: set<CgroupID>) {
    && IndexOk(pods, index) && 0 !in index
    && IsJoin(pods, index, wp, b, u)
  }

  /** Caches with the same rows satisfy the same invariant. */
  lemma SameRows(pods: Pods, pods': Pods, index: map<CgroupID, string>, wp: Policies, b: Bindings, u: set<CgroupID>)
    requires CacheInv(pods, index, wp, b, u)
    requires forall q, d :: Cached(pods', q, d) <==> Cached(pods, q, d)
    requires forall q, d | Cached(pods, q, d) :: SameRow(pods, pods', q, d)
    ensures CacheInv(pods', index, wp, b, u)
  {
    hide JoinRow, Lookup, Binding, IndexOk;
    SameRowsIndex(pods, pods', index);
    forall q, d | Cached(pods', q, d)
      ensures JoinRow(pods', wp, b, u, q, d)
    {
      JoinRowKept(pods, pods', wp, wp, b, b, u, u, q, d);
    }
  }

  lemma SameRowsIndex(pods: Pods, pods': Pods, index: map<CgroupID, string>)
    requires IndexOk(pods, index)
    requires forall q, d :: Cached(pods', q, d) <==> Cached(pods, q, d)
    requires forall q, d | Cached(pods, q, d) :: SameRow(pods, pods', q, d)
    ensures IndexOk(pods', index)
  {
    assert forall q, d | Cached(pods', q, d) :: SameRow(pods, pods', q, d);
    forall g | g in index
      ensures HasCgroup(pods', index[g], g)
    {
      hide IndexCovers, DistinctCgroups;
      assert HasCgroup(pods, index[g], g);
      var d :| Cached(pods, index[g], d) && pods[index[g]].containers[d].cgroup == g;
      assert SameRow(pods, pods', index[g], d);
    }
  }

  /** A pod without containers changes neither cache nor join. */
  lemma EmptyPodAdded(pods: Pods, index: map<CgroupID, string>, wp: Policies, b: Bindings, u: set<CgroupID>, p: string,
                      meta: PodMeta)
    requires CacheInv(pods, index, wp, b, u) && p !in pods
    ensures CacheInv(pods[p := PodEntry(meta, map[])], index, wp, b, u)
  {
    hide CacheInv;
    SameRows(pods, pods[p := PodEntry(meta, map[])], index, wp, b, u);
  }

  /** Every bound id is owned, so it has settings. */
  lemma BoundHaveSettings(pods: Pods, index: map<CgroupID, string>, wp: Policies, u: set<CgroupID>, next: nat, m: Maps)
    requires CacheInv(pods, index, wp, m.cgToPolicy, u) && DataOk(wp, next, m.settings, m.strings)
    ensures Safe(m)
  {
    forall g | g in m.cgToPolicy
      ensures m.cgToPolicy[g] in m.settings
    {
      var p := index[g];
      assert HasCgroup(pods, p, g);
      var c :| Cached(pods, p, c) && pods[p].containers[c].cgroup == g;
      assert JoinRow(pods, wp, m.cgToPolicy, u, p, c);
      assert Owns(wp, WpKey(pods[p].meta.namespace, pods[p].PolicyName()), pods[p].containers[c].name);
    }
  }

  function WithoutContainer(pods: Pods, p: string, c: string): Pods
    requires Cached(pods, p, c)
  {
    if |pods[p].containers| == 1 then pods - {p}
    else pods[p := pods[p].(containers := pods[p].containers - {c})]
  }

  /** One container is gone, and its pod exactly if it had no other; the rest is as it was. */
  ghost predicate RowsRemoved(pods: Pods, p: string, c: string, pods': Pods)
    requires Cached(pods, p, c)
  {
    && (forall q, d :: Cached(pods', q, d) <==> Cached(pods, q, d) && !(q == p && d == c))
    && (forall q, d | Cached(pods', q, d) :: SameRow(pods, pods', q, d))
    && (p in pods' <==> exists d :: d in pods[p].containers && d != c)
    && (forall q | q != p :: q in pods' <==> q in pods)
  }

  lemma RemovedRows(pods: Pods, p: string, c: string)
    requires Cached(pods, p, c)
    ensures RowsRemoved(pods, p, c, WithoutContainer(pods, p, c))
  {
    RowsAfterRemove(pods, p, c);
    var others := pods[p].containers.Keys - {c};
    assert |others| == |pods[p].containers| - 1;
    if |pods[p].containers| == 1 {
      LastOne(pods[p].containers.Keys, c);
    } else {
      assert others != {};
      var d :| d in others;
      assert d in pods[p].containers && d != c;
    }
  }

  lemma LastOne(s: set<string>, c: string)
    requires |s| == 1 && c in s
    ensures s == {c}
  {
    assert |s - {c}| == 0;
  }

  lemma RowsAfterRemove(pods: Pods, p: string, c: string)
    requires Cached(pods, p, c)
    ensures var pods' := WithoutContainer(pods, p, c);
            && (forall q, d :: Cached(pods', q, d) <==> Cached(pods, q, d) && !(q == p && d == c))
            && (forall q, d | Cached(pods', q, d) :: SameRow(pods, pods', q, d))
  {
    if |pods[p].containers| == 1 {
      assert |pods[p].containers.Keys| == 1;
      LastOne(pods[p].containers.Keys, c);
    }
  }

  lemma RemovedCovers(pods: Pods, index: map<CgroupID, string>, p: string, c: string)
    requires IndexCovers(pods, index) && DistinctCgroups(pods) && Cached(pods, p, c)
    ensures var g, pods' := pods[p].containers[c].cgroup, WithoutContainer(pods, p, c);
            && IndexCovers(pods', index - {g}) && DistinctCgroups(pods')
            && forall q, d | Cached(pods', q, d) :: Cached(pods, q, d) && pods[q].containers[d].cgroup != g
  {
    RowsAfterRemove(pods, p, c);
    var pods' := WithoutContainer(pods, p, c);
    hide WithoutContainer, Cached;
    assert forall q, d | Cached(pods', q, d) :: SameRow(pods, pods', q, d);
  }

  lemma RemovedSound(pods: Pods, index: map<CgroupID, string>, p: string, c: string)
    requires IndexSound(pods, index) && Cached(pods, p, c)
    ensures IndexSound(WithoutContainer(pods, p, c), index - {pods[p].containers[c].cgroup})
  {
    var g, pods' := pods[p].containers[c].cgroup, WithoutContainer(pods, p, c);
    RowsAfterRemove(pods, p, c);
    hide WithoutContainer, Cached;
    forall h | h in index - {g}
      ensures HasCgroup(pods', index[h], h)
    {
      assert HasCgroup(pods, index[h], h);
      var d :| Cached(pods, index[h], d) && pods[index[h]].containers[d].cgroup == h;
      assert Cached(pods', index[h], d);
    }
  }

  lemma RemovedFromIndex(pods: Pods, index: map<CgroupID, string>, p: string, c: string)
    requires IndexOk(pods, index) && Cached(pods, p, c)
    ensures IndexOk(WithoutContainer(pods, p, c), index - {pods[p].containers[c].cgroup})
    ensures forall q, d | Cached(WithoutContainer(pods, p, c), q, d) ::
              Cached(pods, q, d) && pods[q].containers[d].cgroup != pods[p].containers[c].cgroup
  {
    RemovedCovers(pods, index, p, c);
    RemovedSound(pods, index, p, c);
  }

  /** Exactly one container goes, from the caches and from the join. */
  lemma ContainerRemoved(pods: Pods, index: map<CgroupID, string>, wp: Policies, b: Bindings, u: set<CgroupID>,
                         p: string, c: string)
    requires CacheInv(pods, index, wp, b, u) && Cached(pods, p, c)
    ensures var g := pods[p].containers[c].cgroup;
            CacheInv(WithoutContainer(pods, p, c), index - {g}, wp, b - {g}, u - {g})
  {
    hide IndexOk, JoinRow, Binding, WithoutContainer;
    var g, pods' := pods[p].containers[c].cgroup, WithoutContainer(pods, p, c);
    RowsAfterRemove(pods, p, c);
    RemovedFromIndex(pods, index, p, c);
    forall q, d | Cached(pods', q, d)
      ensures JoinRow(pods', wp, b - {g}, u - {g}, q, d)
    {
      assert SameRow(pods, pods', q, d);
      JoinRowKept(pods, pods', wp, wp, b, b - {g}, u, u - {g}, q, d);
    }
  }

  /** `b'` is `b` without the bindings to `ids`. */
  ghost predicate Unbound(b: Bindings, b': Bindings, ids: set<PolicyID>) {
    Sub(b', b) && forall g | g in b :: g in b' <==> b[g] !in ids
  }

  lemma NothingUnbound(b: Bindings)
    ensures Unbound(b, b, {})
  {
  }

  lemma NothingTouched(s: map<PolicyID, Settings>, t: StringTables)
    ensures OthersSame(s, t, s, t, {})
  {
  }

  lemma UnboundNext(b0: Bindings, b: Bindings, ids: set<PolicyID>, id: PolicyID, b': Bindings)
    requires Unbound(b0, b, ids) && b' == map g | g in b && b[g] != id :: b[g]
    ensures Unbound(b0, b', ids + {id}) && forall g | g in b' :: b'[g] != id
  {
  }

  lemma TouchedNext(s0: map<PolicyID, Settings>, t0: StringTables, s: map<PolicyID, Settings>, t: StringTables,
                    s': map<PolicyID, Settings>, t': StringTables, ids: set<PolicyID>, id: PolicyID)
    requires OthersSame(s0, t0, s, t, ids) && OthersSame(s, t, s', t', {id})
    ensures OthersSame(s0, t0, s', t', ids + {id})
  {
    forall i | i !in ids + {id}
      ensures SameData(s0, t0, s', t', i)
    {
      assert SameData(s0, t0, s, t, i) && SameData(s, t, s', t', i);
    }
  }

  /** The kernel holds nothing for `ids` any more, and settings for all other ids as before. */
  ghost predicate Wiped(s0: map<PolicyID, Settings>, s: map<PolicyID, Settings>, t: StringTables, ids: set<PolicyID>) {
    s == s0 - ids && forall id | id in ids :: NoStrings(t, id)
  }

  lemma NothingWiped(s: map<PolicyID, Settings>, t: StringTables)
    ensures Wiped(s, s, t, {})
  {
  }

  lemma WipedNext(s0: map<PolicyID, Settings>, s: map<PolicyID, Settings>, t: StringTables, s': map<PolicyID, Settings>,
                  t': StringTables,
                  ids: set<PolicyID>, id: PolicyID)
    requires Wiped(s0, s, t, ids) && s' == s - {id} && NoStrings(t', id) && OthersSame(s, t, s', t', {id})
    ensures Wiped(s0, s', t', ids + {id})
  {
    hide Inner;
    forall i | i in ids && i != id
      ensures NoStrings(t', i)
    {
      assert SameData(s, t, s', t', i);
      StringsSame(t, t', i);
    }
  }

  lemma StringsSame(t: StringTables, t': StringTables, id: PolicyID)
    requires NoStrings(t, id) && Inner(t', id) == Inner(t, id)
    ensures NoStrings(t', id)
  {
  }

  /** While bindings only go, every single state has settings for all that is bound. */
  lemma SmallerIsSafe(m: Maps, trace: seq<Maps>, from: nat, m': Maps)
    requires Safe(m)
    requires Within(trace, from, m.settings, m.cgToPolicy)
    requires m'.settings == m.settings && Sub(m'.cgToPolicy, m.cgToPolicy)
    ensures SafeFrom(trace, from) && Safe(m')
  {
  }

  lemma TraceSplit(trace: seq<Maps>, from: nat, mid: nat, before: seq<Maps>)
    requires from <= mid == |before| && before <= trace
    ensures SafeFrom(trace, from) <==> SafeFrom(before, from) && SafeFrom(trace, mid)
  {
    hide Safe;
    if SafeFrom(trace, from) {
      forall k | from <= k < mid
        ensures Safe(before[k])
      {
        assert before[k] == trace[k];
      }
    }
  }

  lemma StringsSized(wp: Policies, next: nat, settings: map<PolicyID, Settings>, strings: StringTables)
    requires DataOk(wp, next, settings, strings)
    ensures |strings| == SM.NUM_SUB_MAPS
  {
  }

  lemma OwnedIds(wp: Policies, next: nat, owner: map<PolicyID, (WpKey, string)>, retired: set<PolicyID>, key: WpKey)
    requires IdsOk(wp, next, owner, retired) && key in wp
    ensures forall n | n in wp[key].polByContainer :: 1 <= wp[key].polByContainer[n] < next
    ensures forall n, n' | n in wp[key].polByContainer && n' in wp[key].polByContainer ::
              wp[key].polByContainer[n] == wp[key].polByContainer[n'] ==> n == n'
    ensures forall k, c | Owns(wp, k, c) && k != key :: wp[k].polByContainer[c] !in wp[key].polByContainer.Values
  {
    var pol := wp[key].polByContainer;
    forall n | n in pol
      ensures 1 <= pol[n] < next && owner[pol[n]] == (key, n)
    {
      assert Owns(wp, key, n);
    }
  }

  /** The caches and the issued ids after a policy is gone. */
  lemma PolicyDeleted(pods: Pods, index: map<CgroupID, string>, wp: Policies, b: Bindings, u: set<CgroupID>,
                      b': Bindings, next: nat, owner: map<PolicyID, (WpKey, string)>,
                      retired: set<PolicyID>, key: WpKey)
    requires CacheInv(pods, index, wp, b, u) && IdsOk(wp, next, owner, retired) && key in wp
    requires Unbound(b, b', wp[key].polByContainer.Values)
    ensures CacheInv(pods, index, wp - {key}, b', u)
    ensures IdsOk(wp - {key}, next, owner, retired + wp[key].polByContainer.Values)
  {
    DeletedIds(wp, next, owner, retired, key);
    OwnedIds(wp, next, owner, retired, key);
    hide IndexOk, IdsOk, JoinRow;
    forall p, c | Cached(pods, p, c)
      ensures JoinRow(pods, wp - {key}, b', u, p, c)
    {
      DeletedRow(pods, wp, b, u, b', key, p, c);
    }
  }

  lemma DeletedRow(pods: Pods, wp: Policies, b: Bindings, u: set<CgroupID>, b': Bindings, key: WpKey, p: string,
                   c: string)
    requires Cached(pods, p, c) && JoinRow(pods, wp, b, u, p, c) && key in wp
    requires Unbound(b, b', wp[key].polByContainer.Values)
    requires forall k, n | Owns(wp, k, n) && k != key :: wp[k].polByContainer[n] !in wp[key].polByContainer.Values
    ensures JoinRow(pods, wp - {key}, b', u, p, c)
  {
    var k, n := WpKey(pods[p].meta.namespace, pods[p].PolicyName()), pods[p].containers[c].name;
    if pods[p].PolicyName() != "" && Owns(wp, k, n) {
      assert k == key ==> wp[k].polByContainer[n] in wp[key].polByContainer.Values;
    }
  }

  lemma DeletedIds(wp: Policies, next: nat, owner: map<PolicyID, (WpKey, string)>, retired: set<PolicyID>, key: WpKey)
    requires IdsOk(wp, next, owner, retired) && key in wp
    ensures IdsOk(wp - {key}, next, owner, retired + wp[key].polByContainer.Values)
  {
    var wp', retired' := wp - {key}, retired + wp[key].polByContainer.Values;
    OwnedIds(wp, next, owner, retired, key);
    assert forall k, c | Owns(wp', k, c) :: Owns(wp, k, c) && k != key && wp'[k] == wp[k];
    forall id | id in retired'
      ensures 1 <= id < next
    {
      if id !in retired {
        var n :| n in wp[key].polByContainer && wp[key].polByContainer[n] == id;
        assert Owns(wp, key, n);
      }
    }
    forall id | 1 <= id < next && id !in retired'
      ensures Owns(wp', owner[id].0, owner[id].1) && wp'[owner[id].0].polByContainer[owner[id].1] == id
    {
      assert Owns(wp, owner[id].0, owner[id].1);
    }
  }

  /** What the kernel holds for the remaining policies is untouched. */
  lemma PolicyDataDeleted(wp: Policies, next: nat, owner: map<PolicyID, (WpKey, string)>, retired: set<PolicyID>,
                          specs: map<WpKey, WorkloadPolicy>, s: map<PolicyID, Settings>, t: StringTables,
                          s': map<PolicyID, Settings>, t': StringTables, longKeys: bool, key: WpKey)
    requires IdsOk(wp, next, owner, retired) && DataOk(wp, next, s, t) && ReadyOk(wp, specs, s, t, longKeys)
             && key in wp
    requires |t'| == SM.NUM_SUB_MAPS && OthersSame(s, t, s', t', wp[key].polByContainer.Values)
    ensures DataOk(wp - {key}, next, s', t') && ReadyOk(wp - {key}, specs, s', t', longKeys)
  {
    var wp' := wp - {key};
    OwnedIds(wp, next, owner, retired, key);
    forall k, c | Owns(wp', k, c)
      ensures SameData(s, t, s', t', wp'[k].polByContainer[c]) && wp'[k].polByContainer[c] in s'
    {
      assert Owns(wp, k, c);
    }
    assert DataOk(wp', next, s', t') by {
      hide ReadyOk;
      forall id | id >= next
        ensures id !in s' && NoStrings(t', id)
      {
        assert SameData(s, t, s', t', id);
      }
    }
    ReadyKept(wp, wp', specs, specs, s, t, s', t', longKeys, key);
  }

  lemma OwnedHaveSettings(wp: Policies, next: nat, settings: map<PolicyID, Settings>, strings: StringTables, k: WpKey)
    requires DataOk(wp, next, settings, strings) && k in wp
    ensures forall n | n in wp[k].polByContainer :: wp[k].polByContainer[n] in settings
  {
    assert forall n | n in wp[k].polByContainer :: Owns(wp, k, n);
  }

  lemma CacheStep(pods: Pods, index: map<CgroupID, string>, wp: Policies, b: Bindings, u: set<CgroupID>, p: string,
                  c: string, meta: ContainerMeta)
    requires CacheInv(pods, index, wp, b, u)
    requires p in pods && c !in pods[p].containers && meta.cgroup !in index && meta.cgroup != 0
    ensures CacheInv(pods[p := WithContainer(pods[p], c, meta)], index[meta.cgroup := p], wp, b,
                     u + {meta.cgroup})
  {
    ContainerAdded(pods, index, p, c, meta);
    ContainerAddedJoin(pods, index, wp, b, u, p, c, meta);
  }

  /** Cached containers, and those of the input that are not left to do. */
  ghost function Merged(base: map<string, ContainerMeta>, input: map<string, ContainerMeta>,
                        left: set<string>): map<string, ContainerMeta> {
    map c | c in base.Keys + (input.Keys - left) :: if c in base then base[c] else input[c]
  }

  /** The rows of a cache after an add: the old ones as they were, and those of the input that came in. */
  ghost predicate RowsAdded(pods: Pods, pod: PodInput, pods': Pods) {
    && (forall p, c | Cached(pods, p, c) :: SameRow(pods, pods', p, c))
    && pod.meta.id in pods' && (pod.meta.id !in pods ==> pods'[pod.meta.id].meta == pod.meta)
    && (forall p, c | Cached(pods', p, c) && !Cached(pods, p, c) ::
          p == pod.meta.id && c in pod.containers && pods'[p].containers[c] == pod.containers[c])
  }

  /** Every container of the input is cached as the input has it. */
  ghost predicate AllAdded(pod: PodInput, pods: Pods) {
    forall c | c in pod.containers ::
      Cached(pods, pod.meta.id, c) && pods[pod.meta.id].containers[c] == pod.containers[c]
  }

  lemma AddedRows(pods: Pods, pod: PodInput, left: set<string>)
    ensures var base := Base(pods, pod);
            var pods' := pods[pod.meta.id := PodEntry(base.meta, Merged(base.containers, pod.containers, left))];
            && RowsAdded(pods, pod, pods')
            && (left == {} && !Conflict(pods, pod) ==> AllAdded(pod, pods'))
  {
    var base := Base(pods, pod);
    var pods' := pods[pod.meta.id := PodEntry(base.meta, Merged(base.containers, pod.containers, left))];
    if left == {} && !Conflict(pods, pod) {
      forall c | c in pod.containers
        ensures Cached(pods', pod.meta.id, c) && pods'[pod.meta.id].containers[c] == pod.containers[c]
      {
        assert c in base.containers ==> Cached(pods, pod.meta.id, c);
      }
    }
  }

  ghost function CgroupsMerged(base: map<string, ContainerMeta>, input: map<string, ContainerMeta>,
                               left: set<string>): set<CgroupID> {
    set c | c in input && c !in left && c !in base :: input[c].cgroup
  }

  lemma MergedNext(base: map<string, ContainerMeta>, input: map<string, ContainerMeta>, left: set<string>, c: string)
    requires c in input && c in left
    ensures c in Merged(base, input, left) <==> c in base
    ensures c in base ==>
              && Merged(base, input, left)[c] == base[c]
              && Merged(base, input, left - {c}) == Merged(base, input, left)
              && CgroupsMerged(base, input, left - {c}) == CgroupsMerged(base, input, left)
    ensures c !in base ==>
              && Merged(base, input, left - {c}) == Merged(base, input, left)[c := input[c]]
              && CgroupsMerged(base, input, left - {c}) == CgroupsMerged(base, input, left) + {input[c].cgroup}
  {
    assert c !in base ==> input[c].cgroup in CgroupsMerged(base, input, left - {c});
    forall x | x in input && x !in left && x !in base
      ensures input[x].cgroup in CgroupsMerged(base, input, left - {c})
    {
      assert x !in left - {c};
    }
  }

  lemma MergedStart(base: map<string, ContainerMeta>, input: map<string, ContainerMeta>)
    ensures Merged(base, input, input.Keys) == base && CgroupsMerged(base, input, input.Keys) == {}
  {
  }

  lemma MergedCgroups(meta: PodMeta, base: map<string, ContainerMeta>, input: map<string, ContainerMeta>,
                      left: set<string>)
    ensures CgroupsMerged(base, input, left) <= CgroupsOf(PodEntry(meta, Merged(base, input, left)))
  {
    var pod := PodEntry(meta, Merged(base, input, left));
    forall c | c in input && c !in left && c !in base
      ensures input[c].cgroup in CgroupsOf(pod)
    {
      assert c in pod.containers && pod.containers[c] == input[c];
    }
  }

  /** The tracker has entries of their own for `gs`, and otherwise what it had. */
  ghost predicate TrackerGrown(t0: map<CgroupID, CgroupID>, t: map<CgroupID, CgroupID>, gs: set<CgroupID>) {
    && (forall g :: g in t <==> g in t0 || g in gs)
    && (forall g | g in t :: t[g] == if g in gs then g else t0[g])
  }

  /** A new container tracks itself, and no other entry changes. */
  lemma NewTracked(pods: Pods, pod: PodInput, left: set<string>, t0: map<CgroupID, CgroupID>,
                   t: map<CgroupID, CgroupID>)
    requires TrackerGrown(t0, t, CgroupsMerged(Base(pods, pod).containers, pod.containers, left))
    ensures forall c | c in pod.containers && c !in left && !Cached(pods, pod.meta.id, c) ::
              pod.containers[c].cgroup in t && t[pod.containers[c].cgroup] == pod.containers[c].cgroup
    ensures forall g | (forall c | c in pod.containers :: pod.containers[c].cgroup != g) ::
              (g in t <==> g in t0) && (g in t ==> t[g] == t0[g])
  {
    forall c | c in pod.containers && c !in left && !Cached(pods, pod.meta.id, c)
      ensures pod.containers[c].cgroup in CgroupsMerged(Base(pods, pod).containers, pod.containers, left)
    {
    }
  }

  lemma TrackerStart(t: map<CgroupID, CgroupID>)
    ensures TrackerGrown(t, t, {})
  {
  }

  lemma TrackerNext(t0: map<CgroupID, CgroupID>, t: map<CgroupID, CgroupID>, gs: set<CgroupID>, g: CgroupID)
    requires TrackerGrown(t0, t, gs)
    ensures TrackerGrown(t0, t[g := g], gs + {g})
  {
  }

  /** The ids of the policy a pod is labelled with; none without label or policy. */
  ghost function PolicyOf(pod: PodEntry, wp: Policies): PolicyByContainer {
    var key := WpKey(pod.meta.namespace, pod.PolicyName());
    if pod.PolicyName() != "" && key in wp then wp[key].polByContainer else map[]
  }

  /** The ids a pod's policy binds never clash with what its containers are bound to. */
  lemma NoOverlap(pods: Pods, index: map<CgroupID, string>, wp: Policies, b: Bindings, u: set<CgroupID>, next: nat,
                  owner: map<PolicyID, (WpKey, string)>, retired: set<PolicyID>, p: string)
    requires CacheInv(pods, index, wp, b, u) && IdsOk(wp, next, owner, retired) && p in pods
    ensures DistinctIn(pods[p]) && NoClash(pods[p], PolicyOf(pods[p], wp), b)
  {
    var pol := PolicyOf(pods[p], wp);
    forall c | c in pods[p].containers && pods[p].containers[c].name in pol
      ensures pol[pods[p].containers[c].name] != 0
      ensures Lookup(b, pods[p].containers[c].cgroup) in {None, Some(pol[pods[p].containers[c].name])}
    {
      assert Cached(pods, p, c) && JoinRow(pods, wp, b, u, p, c);
      assert Owns(wp, WpKey(pods[p].meta.namespace, pods[p].PolicyName()), pods[p].containers[c].name);
    }
    forall c, c' | c in pods[p].containers && c' in pods[p].containers
      ensures pods[p].containers[c].cgroup == pods[p].containers[c'].cgroup ==> c == c'
    {
      assert Cached(pods, p, c) && Cached(pods, p, c');
    }
  }

  ghost predicate DistinctIn(pod: PodEntry) {
    forall c, c' | c in pod.containers && c' in pod.containers ::
      pod.containers[c].cgroup == pod.containers[c'].cgroup ==> c == c'
  }

  ghost predicate NoClash(pod: PodEntry, applied: PolicyByContainer, b: Bindings) {
    forall c | c in pod.containers && pod.containers[c].name in applied ::
      && applied[pod.containers[c].name] != 0
      && Lookup(b, pod.containers[c].cgroup) in {None, Some(applied[pod.containers[c].name])}
  }

  lemma AppliedRow(pods: Pods, wp: Policies, b: Bindings, u: set<CgroupID>, p: string, c: string, b': Bindings)
    requires Cached(pods, p, c) && JoinRow(pods, wp, b, u, p, c)
    requires AppliedTo(pods[p], PolicyOf(pods[p], wp), pods[p].containers.Keys, b, b')
    ensures JoinRow(pods, wp, b', u - CgroupsOf(pods[p]), p, c)
  {
    assert pods[p].containers[c].cgroup in CgroupsOf(pods[p]);
  }

  /** Applying a pod's own policy completes the join for that pod. */
  lemma AppliedJoin(pods: Pods, index: map<CgroupID, string>, wp: Policies, b: Bindings, u: set<CgroupID>, p: string,
                    b': Bindings)
    requires CacheInv(pods, index, wp, b, u) && p in pods
    requires AppliedTo(pods[p], PolicyOf(pods[p], wp), pods[p].containers.Keys, b, b')
    ensures CacheInv(pods, index, wp, b', u - CgroupsOf(pods[p]))
  {
    assert forall d | d in pods[p].containers :: Cached(pods, p, d);
    hide DistinctCgroups, IndexSound, JoinRow;
    forall q, d | Cached(pods, q, d)
      ensures JoinRow(pods, wp, b', u - CgroupsOf(pods[p]), q, d)
    {
      if q == p {
        AppliedRow(pods, wp, b, u, p, d, b');
      } else {
        assert pods[q].containers[d].cgroup !in CgroupsOf(pods[p]);
        JoinRowKept(pods, pods, wp, wp, b, b', u, u - CgroupsOf(pods[p]), q, d);
      }
    }
    forall g | g in b'
      ensures g in index
    {
      if g in CgroupsOf(pods[p]) {
        var d :| d in pods[p].containers && pods[p].containers[d].cgroup == g;
        assert Cached(pods, p, d);
      } else {
        assert Lookup(b', g) == Lookup(b, g);
      }
    }
  }

  /** Nothing to apply leaves every binding alone. */
  lemma AppliedNothing(pod: PodEntry, b: Bindings)
    ensures AppliedTo(pod, map[], pod.containers.Keys, b, b)
  {
  }

  /** `b` is `b0` with the containers in `done` bound as `applied` says. */
  ghost predicate AppliedTo(pod: PodEntry, applied: PolicyByContainer, done: set<string>, b0: Bindings, b: Bindings) {
    && (forall c | c in pod.containers ::
          var meta := pod.containers[c];
          Lookup(b, meta.cgroup) ==
          if c in done && meta.name in applied then Some(applied[meta.name]) else Lookup(b0, meta.cgroup))
    && (forall g | g !in CgroupsOf(pod) :: Lookup(b, g) == Lookup(b0, g))
  }

  lemma AppliedNext(pod: PodEntry, applied: PolicyByContainer, done: set<string>, b0: Bindings, b: Bindings, c: string,
                    b': Bindings)
    requires DistinctIn(pod) && AppliedTo(pod, applied, done, b0, b) && c in pod.containers
    requires var meta := pod.containers[c];
             b' == if meta.name in applied then b[meta.cgroup := applied[meta.name]] else b
    ensures AppliedTo(pod, applied, done + {c}, b0, b')
  {
    assert pod.containers[c].cgroup in CgroupsOf(pod);
  }
}
