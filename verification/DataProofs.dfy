/** Lemmas on ids and kernel data after a reconciliation: what is retired, what stays enforced. */
module DataProofs {
  import opened ExecHook
  import opened BpfManager
  import opened ResolverState
  import opened ResolverProofs
  import opened ReconcileProofs
  import opened MoveProofs
  import SM = StringMaps

  /** A policy seen for the first time owns no ids and changes nothing. */
  lemma KeyAdded(pods: Pods, index: map<CgroupID, string>, wp: Policies, b: Bindings, u: set<CgroupID>, key: WpKey)
    requires key !in wp && CacheInv(pods, index, wp, b, u)
    ensures CacheInv(pods, index, WithInfo(wp, key, WpInfo(map[], Unset)), b, u)
  {
    var wp' := WithInfo(wp, key, WpInfo(map[], Unset));
    hide IndexOk, JoinRow;
    forall p, c | Cached(pods, p, c)
      ensures JoinRow(pods, wp', b, u, p, c)
    {
      JoinRowKept(pods, pods, wp, wp', b, b, u, u, p, c);
    }
  }

  lemma KeyAddedPolicies(wp: Policies, specs: map<WpKey, WorkloadPolicy>, retired: set<PolicyID>, now: Start,
                         longKeys: bool, key: WpKey)
    requires key !in wp && IdsOk(wp, now.next, now.owner, retired) && DataOk(wp, now.next, now.settings, now.strings)
    requires ReadyOk(wp, specs, now.settings, now.strings, longKeys)
    ensures var wp' := WithInfo(wp, key, WpInfo(map[], Unset));
            && IdsOk(wp', now.next, now.owner, retired) && DataOk(wp', now.next, now.settings, now.strings)
            && ReadyOk(wp', specs, now.settings, now.strings, longKeys)
  {
    hide NoStrings, SpecEnforced;
    var wp' := WithInfo(wp, key, WpInfo(map[], Unset));
    assert forall k, c :: Owns(wp', k, c) <==> Owns(wp, k, c);
    assert IdsOk(wp', now.next, now.owner, retired) by {
      hide DataOk, ReadyOk;
    }
    assert DataOk(wp', now.next, now.settings, now.strings) by {
      hide IdsOk, ReadyOk;
    }
    hide IdsOk, DataOk;
  }

  /** The ids of the names in `seen` are given up; every other id stays with its container. */
  lemma IdsAfter(wp: Policies, key: WpKey, retired: set<PolicyID>, fresh_: PolicyByContainer, from: Start, now: Start,
                 seen: set<string>, state: PolicyState)
    requires key in wp && IdsOk(wp, from.next, from.owner, retired)
    requires NewIds(key, wp[key].polByContainer, fresh_, from.next, now.next, from.owner, now.owner)
    requires seen <= (wp[key].polByContainer + fresh_).Keys
    ensures var pol := wp[key].polByContainer + fresh_;
            IdsOk(WithInfo(wp, key, WpInfo(pol - seen, state)), now.next, now.owner, retired + IdsNamed(pol, seen))
  {
    var pol := wp[key].polByContainer + fresh_;
    var wp' := WithInfo(wp, key, WpInfo(pol - seen, state));
    IssuedTo(wp, key, retired, fresh_, from, now);
    forall id | 1 <= id < now.next && id !in retired + IdsNamed(pol, seen)
      ensures Owns(wp', now.owner[id].0, now.owner[id].1) && wp'[now.owner[id].0].polByContainer[now.owner[id].1] == id
    {
      if id < from.next {
        assert Owns(wp, from.owner[id].0, from.owner[id].1);
      }
    }
    forall k, c | Owns(wp', k, c)
      ensures 1 <= wp'[k].polByContainer[c] < now.next && now.owner[wp'[k].polByContainer[c]] == (k, c)
      ensures wp'[k].polByContainer[c] !in retired + IdsNamed(pol, seen)
    {
      if k != key {
        assert Owns(wp, k, c);
      }
    }
  }

  lemma IssuedTo(wp: Policies, key: WpKey, retired: set<PolicyID>, fresh_: PolicyByContainer, from: Start, now: Start)
    requires key in wp && IdsOk(wp, from.next, from.owner, retired)
    requires NewIds(key, wp[key].polByContainer, fresh_, from.next, now.next, from.owner, now.owner)
    ensures var pol := wp[key].polByContainer + fresh_;
            forall n | n in pol ::
              1 <= pol[n] < now.next && pol[n] !in retired && pol[n] in now.owner && now.owner[pol[n]] == (key, n)
  {
    var pol := wp[key].polByContainer + fresh_;
    forall n | n in pol
      ensures 1 <= pol[n] < now.next && pol[n] !in retired && pol[n] in now.owner && now.owner[pol[n]] == (key, n)
    {
      if n in wp[key].polByContainer {
        assert Owns(wp, key, n);
      }
    }
  }

  /** `ids` were cleared between `mid` and `now`, and nothing else was touched. */
  ghost predicate Cleared(mid: Start, now: Start, ids: set<PolicyID>) {
    && Wiped(mid.settings, now.settings, now.strings, ids) && |now.strings| == SM.NUM_SUB_MAPS
    && OthersSame(mid.settings, mid.strings, now.settings, now.strings, ids)
  }

  /** Every id another policy owns holds what it held before. */
  lemma OthersUntouched(wp: Policies, retired: set<PolicyID>, spec: WorkloadPolicy, fresh_: PolicyByContainer,
                        from: Start, mid: Start, now: Start, done: set<string>, longKeys: bool, ids: set<PolicyID>,
                        k: WpKey, c: string)
    requires spec.key in wp && IdsOk(wp, from.next, from.owner, retired)
    requires Syncing(spec, wp[spec.key].polByContainer, fresh_, from, mid, done, longKeys)
    requires Cleared(mid, now, ids) && ids <= (wp[spec.key].polByContainer + fresh_).Values
    requires Owns(wp, k, c) && k != spec.key
    ensures wp[k].polByContainer[c] !in ids
    ensures SameData(from.settings, from.strings, now.settings, now.strings, wp[k].polByContainer[c])
  {
    hide Synced, SameData;
    var id := wp[k].polByContainer[c];
    OwnedIds(wp, from.next, from.owner, retired, spec.key);
    assert id < from.next;
    assert id !in wp[spec.key].polByContainer.Values + fresh_.Values;
    assert SameData(from.settings, from.strings, mid.settings, mid.strings, id);
    assert SameData(mid.settings, mid.strings, now.settings, now.strings, id);
    SameDataTwice(from, mid, now, id);
  }

  lemma SameDataTwice(from: Start, mid: Start, now: Start, id: PolicyID)
    requires SameData(from.settings, from.strings, mid.settings, mid.strings, id)
    requires SameData(mid.settings, mid.strings, now.settings, now.strings, id)
    ensures SameData(from.settings, from.strings, now.settings, now.strings, id)
  {
  }

  /** An id the policy keeps has its settings. */
  lemma KeptHasSettings(wp: Policies, spec: WorkloadPolicy, fresh_: PolicyByContainer, from: Start, mid: Start,
                        now: Start,
                        done: set<string>, longKeys: bool, ids: set<PolicyID>, n: string)
    requires spec.key in wp && DataOk(wp, from.next, from.settings, from.strings)
    requires Syncing(spec, wp[spec.key].polByContainer, fresh_, from, mid, done, longKeys) && Cleared(mid, now, ids)
    requires n in wp[spec.key].polByContainer + fresh_ && (wp[spec.key].polByContainer + fresh_)[n] !in ids
    requires n in fresh_ ==> n in done
    ensures (wp[spec.key].polByContainer + fresh_)[n] in now.settings
  {
    hide OthersSame, NewIds;
    if n !in fresh_ {
      assert Owns(wp, spec.key, n);
    }
  }

  lemma DataAfter(wp: Policies, retired: set<PolicyID>, spec: WorkloadPolicy, fresh_: PolicyByContainer,
                  from: Start, mid: Start, now: Start, done: set<string>, longKeys: bool, ids: set<PolicyID>,
                  seen: set<string>, state: PolicyState)
    requires spec.key in wp && IdsOk(wp, from.next, from.owner, retired)
             && DataOk(wp, from.next, from.settings, from.strings)
    requires Syncing(spec, wp[spec.key].polByContainer, fresh_, from, mid, done, longKeys)
    requires Cleared(mid, now, ids) && now.next == mid.next
             && ids <= IdsNamed(wp[spec.key].polByContainer + fresh_, seen)
    requires forall n | n in fresh_ :: n in done || n in seen
    ensures DataOk(WithInfo(wp, spec.key, WpInfo(wp[spec.key].polByContainer + fresh_ - seen, state)), now.next,
                   now.settings, now.strings)
  {
    var pol := wp[spec.key].polByContainer + fresh_;
    var wp' := WithInfo(wp, spec.key, WpInfo(pol - seen, state));
    assert Injective(pol) by {
      NewIdsInjective(spec.key, wp[spec.key].polByContainer, fresh_, from.next, mid.next, from.owner, mid.owner);
    }
    NeverIssued(wp, retired, spec, fresh_, from, mid, now, done, longKeys, ids);
    hide IdsOk, DataOk, Syncing, Cleared;
    assert ids <= pol.Values;
    forall k, c | Owns(wp', k, c)
      ensures wp'[k].polByContainer[c] in now.settings
    {
      if k == spec.key {
        assert pol[c] !in IdsNamed(pol, seen);
        KeptHasSettings(wp, spec, fresh_, from, mid, now, done, longKeys, ids, c);
      } else {
        assert Owns(wp, k, c);
        OthersUntouched(wp, retired, spec, fresh_, from, mid, now, done, longKeys, ids, k, c);
        OwnedHaveSettings(wp, from.next, from.settings, from.strings, k);
      }
    }
    DataOkIf(wp', now);
  }

  lemma DataOkIf(wp: Policies, now: Start)
    requires |now.strings| == SM.NUM_SUB_MAPS
    requires forall k, c | Owns(wp, k, c) :: wp[k].polByContainer[c] in now.settings
    requires forall id | id >= now.next :: id !in now.settings && NoStrings(now.strings, id)
    ensures DataOk(wp, now.next, now.settings, now.strings)
  {
  }

  lemma NeverIssued(wp: Policies, retired: set<PolicyID>, spec: WorkloadPolicy, fresh_: PolicyByContainer,
                    from: Start, mid: Start, now: Start, done: set<string>, longKeys: bool, ids: set<PolicyID>)
    requires spec.key in wp && DataOk(wp, from.next, from.settings, from.strings)
    requires Syncing(spec, wp[spec.key].polByContainer, fresh_, from, mid, done, longKeys)
    requires Cleared(mid, now, ids) && now.next == mid.next && ids <= (wp[spec.key].polByContainer + fresh_).Values
    ensures |now.strings| == SM.NUM_SUB_MAPS
    ensures forall id | id >= now.next :: id !in now.settings && NoStrings(now.strings, id)
  {
    var pol := wp[spec.key].polByContainer;
    hide Synced, NoStrings;
    IdsBelow(pol, spec.key, fresh_, from.next, mid.next, from.owner, mid.owner);
    TouchedBoth(from.settings, from.strings, mid.settings, mid.strings, now.settings, now.strings,
                pol.Values + fresh_.Values, ids);
    StillFresh(wp, from.next, mid.next, from.settings, from.strings, now.settings, now.strings,
               pol.Values + fresh_.Values + ids);
  }

  /** The other policies stay READY; this one is enforced as the spec says once all of the spec is compiled. */
  lemma ReadyAfter(wp: Policies, retired: set<PolicyID>, specs: map<WpKey, WorkloadPolicy>, spec: WorkloadPolicy,
                   fresh_: PolicyByContainer,
                   from: Start, mid: Start, now: Start, done: set<string>, longKeys: bool, ids: set<PolicyID>,
                   seen: set<string>, state: PolicyState)
    requires spec.key in wp && IdsOk(wp, from.next, from.owner, retired)
             && ReadyOk(wp, specs, from.settings, from.strings, longKeys)
    requires Syncing(spec, wp[spec.key].polByContainer, fresh_, from, mid, done, longKeys)
    requires Cleared(mid, now, ids) && ids <= IdsNamed(wp[spec.key].polByContainer + fresh_, seen)
    requires state.Failed? || (state.Ready? && done == spec.rules.Keys && seen !! spec.rules.Keys)
    ensures ReadyOk(WithInfo(wp, spec.key, WpInfo(wp[spec.key].polByContainer + fresh_ - seen, state)),
                    if state.Ready? then specs[spec.key := spec] else specs, now.settings, now.strings, longKeys)
  {
    var pol := wp[spec.key].polByContainer + fresh_;
    var wp' := WithInfo(wp, spec.key, WpInfo(pol - seen, state));
    var specs' := if state.Ready? then specs[spec.key := spec] else specs;
    assert ids <= pol.Values;
    StringsAfter(mid, now, ids);
    hide IdsOk, Syncing, ReadyOk, SpecEnforced, SameData, Cleared;
    forall k, c | k != spec.key && Owns(wp', k, c)
      ensures SameData(from.settings, from.strings, now.settings, now.strings, wp'[k].polByContainer[c])
    {
      assert Owns(wp, k, c);
      OthersUntouched(wp, retired, spec, fresh_, from, mid, now, done, longKeys, ids, k, c);
    }
    ReadyKept(wp, wp', specs, specs', from.settings, from.strings, now.settings, now.strings, longKeys, spec.key);
    if state.Ready? {
      SpecReady(wp, spec, fresh_, from, mid, now, longKeys, ids, seen);
    }
    ReadyOkIf(wp', specs', now, longKeys);
  }

  lemma StringsAfter(mid: Start, now: Start, ids: set<PolicyID>)
    requires Cleared(mid, now, ids)
    ensures |now.strings| == SM.NUM_SUB_MAPS
  {
  }

  lemma ReadyOkIf(wp: Policies, specs: map<WpKey, WorkloadPolicy>, now: Start, longKeys: bool)
    requires forall k | k in wp && wp[k].state.Ready? ::
               k in specs && specs[k].key == k && SpecEnforced(wp[k], specs[k], now.settings, now.strings, longKeys)
    ensures ReadyOk(wp, specs, now.settings, now.strings, longKeys)
  {
  }

  lemma SpecReady(wp: Policies, spec: WorkloadPolicy, fresh_: PolicyByContainer, from: Start, mid: Start, now: Start,
                  longKeys: bool, ids: set<PolicyID>, seen: set<string>)
    requires spec.key in wp && Syncing(spec, wp[spec.key].polByContainer, fresh_, from, mid, spec.rules.Keys, longKeys)
    requires Cleared(mid, now, ids) && ids <= IdsNamed(wp[spec.key].polByContainer + fresh_, seen)
             && seen !! spec.rules.Keys
    ensures SpecEnforced(WpInfo(wp[spec.key].polByContainer + fresh_ - seen, Ready), spec, now.settings, now.strings,
                         longKeys)
  {
    var pol := wp[spec.key].polByContainer + fresh_;
    NewIdsInjective(spec.key, wp[spec.key].polByContainer, fresh_, from.next, mid.next, from.owner, mid.owner);
    hide NewIds, Enforced, SameData;
    forall c | c in spec.rules
      ensures c in pol - seen && Enforced(pol[c], spec.mode, spec.rules[c], now.settings, now.strings, longKeys)
    {
      assert SameData(mid.settings, mid.strings, now.settings, now.strings, pol[c]);
      EnforcedKept(pol[c], spec.mode, spec.rules[c], mid.settings, mid.strings, now.settings, now.strings, longKeys);
    }
  }

  /** Two cached containers of matching pods carry the name. */
  ghost predicate TwoCarry(pods: Pods, key: WpKey, n: string) {
    exists p, c, p', c' :: Carries(pods, key, n, p, c) && Carries(pods, key, n, p', c') && !(p == p' && c == c')
  }

  ghost predicate Carries(pods: Pods, key: WpKey, n: string, p: string, c: string) {
    Matching(pods, key, p, c) && pods[p].containers[c].name == n
  }

  /** Whoever is bound to an id of a policy is a container the id was issued to. */
  lemma HolderCarries(pods: Pods, index: map<CgroupID, string>, wp: Policies, b: Bindings, u: set<CgroupID>,
                      next: nat, owner: map<PolicyID, (WpKey, string)>, retired: set<PolicyID>, key: WpKey, n: string,
                      g: CgroupID)
    returns (p: string, c: string)
    requires CacheInv(pods, index, wp, b, u) && IdsOk(wp, next, owner, retired)
    requires Owns(wp, key, n) && Lookup(b, g) == Some(wp[key].polByContainer[n])
    ensures Carries(pods, key, n, p, c) && pods[p].containers[c].cgroup == g && g !in u
  {
    hide IdsOk, Binding;
    p := index[g];
    assert HasCgroup(pods, p, g);
    c :| Cached(pods, p, c) && pods[p].containers[c].cgroup == g;
    assert JoinRow(pods, wp, b, u, p, c);
    hide CacheInv;
    BoundUnder(pods[p], wp, next, owner, retired, key, n, pods[p].containers[c].name);
  }

  lemma BoundUnder(pod: PodEntry, wp: Policies, next: nat, owner: map<PolicyID, (WpKey, string)>,
                   retired: set<PolicyID>,
                   key: WpKey, n: string, name: string)
    requires IdsOk(wp, next, owner, retired) && Owns(wp, key, n)
             && Binding(pod, wp, name) == Some(wp[key].polByContainer[n])
    ensures pod.MatchPolicy(key) && name == n
  {
    assert Owns(wp, WpKey(pod.meta.namespace, pod.PolicyName()), name);
  }

  /** Two cgroups share a dropped id exactly when two matching containers carry its name. */
  lemma SharedIffTwoCarry(pods: Pods, index: map<CgroupID, string>, wp: Policies, b: Bindings,
                          next: nat, owner: map<PolicyID, (WpKey, string)>, retired: set<PolicyID>, key: WpKey,
                          removed: PolicyByContainer, n: string)
    requires CacheInv(pods, index, wp, b, {}) && IdsOk(wp, next, owner, retired) && key.name != ""
    requires key in wp && SubPolicy(removed, wp[key].polByContainer) && n in removed
    ensures (exists g1, g2 :: Shared(b, removed, n, g1, g2)) <==> TwoCarry(pods, key, n)
  {
    hide IdsOk, CacheInv, Carries;
    assert Owns(wp, key, n);
    if p, c, p', c' :| Carries(pods, key, n, p, c) && Carries(pods, key, n, p', c') && !(p == p' && c == c') {
      CarrierBound(pods, index, wp, b, key, n, p, c);
      CarrierBound(pods, index, wp, b, key, n, p', c');
      CarriersApart(pods, index, wp, b, key, n, p, c, p', c');
      assert Shared(b, removed, n, pods[p].containers[c].cgroup, pods[p'].containers[c'].cgroup);
    }
    if g1, g2 :| Shared(b, removed, n, g1, g2) {
      var p, c := HolderCarries(pods, index, wp, b, {}, next, owner, retired, key, n, g1);
      var p', c' := HolderCarries(pods, index, wp, b, {}, next, owner, retired, key, n, g2);
      assert !(p == p' && c == c');
    }
  }

  lemma CarrierBound(pods: Pods, index: map<CgroupID, string>, wp: Policies, b: Bindings,
                     key: WpKey, n: string, p: string, c: string)
    requires CacheInv(pods, index, wp, b, {}) && key.name != "" && Owns(wp, key, n) && Carries(pods, key, n, p, c)
    ensures Cached(pods, p, c) && Lookup(b, pods[p].containers[c].cgroup) == Some(wp[key].polByContainer[n])
  {
    assert JoinRow(pods, wp, b, {}, p, c);
    assert WpKey(pods[p].meta.namespace, pods[p].PolicyName()) == key;
  }

  lemma CarriersApart(pods: Pods, index: map<CgroupID, string>, wp: Policies, b: Bindings,
                      key: WpKey, n: string, p: string, c: string, p': string, c': string)
    requires CacheInv(pods, index, wp, b, {}) && Carries(pods, key, n, p, c) && Carries(pods, key, n, p', c')
    requires !(p == p' && c == c')
    ensures pods[p].containers[c].cgroup != pods[p'].containers[c'].cgroup
  {
  }

  /** Once every pod has been moved nothing is bound to a dropped id. */
  lemma NoneLeft(pods: Pods, index: map<CgroupID, string>, wp: Policies, key: WpKey, applied: PolicyByContainer,
                 removed: PolicyByContainer, done: set<string>, u0: set<CgroupID>, b: Bindings, u: set<CgroupID>,
                 next: nat, owner: map<PolicyID, (WpKey, string)>, retired: set<PolicyID>,
                 n: string, g1: CgroupID, g2: CgroupID)
    requires Moving(pods, index, wp, key, applied, removed, done, u0, b, u) && AllMoved(pods, key, done)
    requires IdsOk(wp, next, owner, retired)
    ensures !Shared(b, removed, n, g1, g2)
  {
    hide CacheInv, IdsOk, OthersAsBefore, Outside, Waiting;
    if n in removed && Lookup(b, g1) == Some(removed[n]) {
      assert Owns(wp, key, n);
      var p, c := HolderCarries(pods, index, wp, b, u, next, owner, retired, key, n, g1);
      assert false;
    }
  }

  function OldPolicy(wp: Policies, key: WpKey): PolicyByContainer {
    if key in wp then wp[key].polByContainer else map[]
  }

  /** Ids, kernel data and readiness after a sync and the clearing of `ids`, the names in `seen` being given up. */
  lemma PoliciesAfter(wp: Policies, retired: set<PolicyID>, specs: map<WpKey, WorkloadPolicy>, spec: WorkloadPolicy,
                      fresh_: PolicyByContainer,
                      from: Start, mid: Start, now: Start, done: set<string>, longKeys: bool, ids: set<PolicyID>,
                      seen: set<string>, state: PolicyState)
    requires spec.key in wp && IdsOk(wp, from.next, from.owner, retired)
             && DataOk(wp, from.next, from.settings, from.strings)
    requires ReadyOk(wp, specs, from.settings, from.strings, longKeys)
    requires Syncing(spec, wp[spec.key].polByContainer, fresh_, from, mid, done, longKeys)
    requires Cleared(mid, now, ids) && now.next == mid.next && now.owner == mid.owner
    requires ids <= IdsNamed(wp[spec.key].polByContainer + fresh_, seen)
             && seen <= (wp[spec.key].polByContainer + fresh_).Keys
    requires || (state.Failed? && fresh_.Keys <= seen)
             || (state.Ready? && done == spec.rules.Keys && seen !! spec.rules.Keys && fresh_.Keys <= spec.rules.Keys)
    ensures var pol := wp[spec.key].polByContainer + fresh_;
            var wp' := WithInfo(wp, spec.key, WpInfo(pol - seen, state));
            && IdsOk(wp', now.next, now.owner, retired + IdsNamed(pol, seen))
            && DataOk(wp', now.next, now.settings, now.strings)
            && ReadyOk(wp', if state.Ready? then specs[spec.key := spec] else specs, now.settings, now.strings,
                       longKeys)
  {
    SyncingIds(spec, wp[spec.key].polByContainer, fresh_, from, mid, done, longKeys);
    hide IdsOk, DataOk, ReadyOk, Syncing, Cleared, IdsNamed, NewIds, WithInfo;
    IdsAfter(wp, spec.key, retired, fresh_, from, now, seen, state);
    DataAfter(wp, retired, spec, fresh_, from, mid, now, done, longKeys, ids, seen, state);
    ReadyAfter(wp, retired, specs, spec, fresh_, from, mid, now, done, longKeys, ids, seen, state);
  }

  lemma SyncingIds(spec: WorkloadPolicy, pol: PolicyByContainer, fresh_: PolicyByContainer, from: Start, now: Start,
                   done: set<string>, longKeys: bool)
    requires Syncing(spec, pol, fresh_, from, now, done, longKeys)
    ensures NewIds(spec.key, pol, fresh_, from.next, now.next, from.owner, now.owner) && fresh_.Keys !! pol.Keys
            && Injective(pol + fresh_)
    ensures forall c | c in done :: c in pol + fresh_ && (pol + fresh_)[c] in now.settings
    ensures |now.strings| == SM.NUM_SUB_MAPS
  {
    NewIdsInjective(spec.key, pol, fresh_, from.next, now.next, from.owner, now.owner);
  }

  /** A change of state alone is not visible to the join. */
  lemma SameBindings(pods: Pods, index: map<CgroupID, string>, wp: Policies, b: Bindings, u: set<CgroupID>,
                     key: WpKey, state: PolicyState)
    requires CacheInv(pods, index, wp, b, u) && key in wp
    ensures CacheInv(pods, index, WithInfo(wp, key, WpInfo(wp[key].polByContainer, state)), b, u)
  {
    var wp' := WithInfo(wp, key, WpInfo(wp[key].polByContainer, state));
    assert forall k :: k in wp' <==> k in wp;
    assert forall k | k in wp :: wp'[k].polByContainer == wp[k].polByContainer;
    hide IndexOk, JoinRow, WithInfo;
    forall p, c | Cached(pods, p, c)
      ensures JoinRow(pods, wp', b, u, p, c)
    {
      JoinRowKept(pods, pods, wp, wp', b, b, u, u, p, c);
    }
  }

  /** No dropped id is shared exactly when no two matching containers carry one dropped name. */
  lemma NoneSharedIff(pods: Pods, index: map<CgroupID, string>, wp: Policies, b: Bindings,
                      next: nat, owner: map<PolicyID, (WpKey, string)>, retired: set<PolicyID>, key: WpKey,
                      removed: PolicyByContainer)
    requires CacheInv(pods, index, wp, b, {}) && IdsOk(wp, next, owner, retired) && key.name != ""
    requires key in wp && SubPolicy(removed, wp[key].polByContainer)
    ensures NoneShared(b, removed) <==> forall n | n in removed :: !TwoCarry(pods, key, n)
  {
    hide CacheInv, IdsOk, TwoCarry, SubPolicy;
    forall n | n in removed
      ensures (exists g1, g2 :: Shared(b, removed, n, g1, g2)) <==> TwoCarry(pods, key, n)
    {
      SharedIffTwoCarry(pods, index, wp, b, next, owner, retired, key, removed, n);
    }
  }

  /** The dropped names given up in the end are those a matching pod carries. */
  lemma GivenUpAll(pods: Pods, key: WpKey, removed: PolicyByContainer, done: set<string>, seen: set<string>)
    requires AllMoved(pods, key, done) && GivenUp(pods, key, removed, done, seen)
    ensures forall n :: n in seen <==> n in removed && Carried(pods, key, n)
  {
    forall n | n in removed && Carried(pods, key, n)
      ensures CarriedIn(pods, key, done, n)
    {
      var p, c :| Matching(pods, key, p, c) && pods[p].containers[c].name == n;
      assert p in done;
    }
  }

  /** A shared pair does not survive the move. */
  lemma NoneLeftAfter(pods: Pods, index: map<CgroupID, string>, wp: Policies, key: WpKey, fresh_: PolicyByContainer,
                      applied: PolicyByContainer,
                      removed: PolicyByContainer, done: set<string>, u0: set<CgroupID>, b: Bindings, u: set<CgroupID>,
                      retired: set<PolicyID>, from: Start, now: Start, n: string, g1: CgroupID, g2: CgroupID)
    requires key in wp && IdsOk(wp, from.next, from.owner, retired)
    requires NewIds(key, wp[key].polByContainer, fresh_, from.next, now.next, from.owner, now.owner)
    requires Moving(pods, index, WithPol(wp, key, wp[key].polByContainer + fresh_), key, applied, removed, done, u0, b,
                    u)
    requires AllMoved(pods, key, done)
    ensures !Shared(b, removed, n, g1, g2)
  {
    hide IdsOk, NewIds, Moving, Shared, AllMoved, IdsNamed;
    var pol := wp[key].polByContainer + fresh_;
    IdsAfter(wp, key, retired, fresh_, from, now, {}, wp[key].state);
    assert pol - {} == pol;
    NoneLeft(pods, index, WithPol(wp, key, pol), key, applied, removed, done, u0, b, u, now.next, now.owner,
             retired + IdsNamed(pol, {}), n, g1, g2);
  }

  /** The same ids, named by the split or by the whole policy. */
  lemma RemovedIds(pol: PolicyByContainer, removed: PolicyByContainer, seen: set<string>)
    requires SubPolicy(removed, pol) && seen <= removed.Keys
    ensures IdsNamed(removed, seen) == IdsNamed(pol, seen) && seen <= pol.Keys
  {
    forall n | n in seen
      ensures removed[n] in IdsNamed(pol, seen) && pol[n] in IdsNamed(removed, seen)
    {
      assert n in removed && n in pol;
    }
  }

  /** A sync only adds owners. */
  lemma SyncingOwners(spec: WorkloadPolicy, wp: Policies, fresh_: PolicyByContainer, from: Start, now: Start,
                      done: set<string>,
                      longKeys: bool, retired: set<PolicyID>)
    requires spec.key in wp && IdsOk(wp, from.next, from.owner, retired)
    requires Syncing(spec, wp[spec.key].polByContainer, fresh_, from, now, done, longKeys)
    ensures forall id | id in from.owner :: id in now.owner && now.owner[id] == from.owner[id]
  {
    hide OthersSame, Synced;
  }

  /** The names a reconciled policy has ids for: those of the spec, and dropped ones that no matching pod carries. */
  ghost predicate Reconciled(pods: Pods, key: WpKey, pol0: PolicyByContainer, rules: map<string, Rules>,
                             pol: PolicyByContainer) {
    && (forall n :: n in pol <==> n in rules || (n in pol0 && !Carried(pods, key, n)))
    && (forall n | n in pol0 && n in pol :: pol[n] == pol0[n])
  }

  /** The kernel holds nothing for the ids a policy has given up. */
  ghost predicate GivenUpWiped(pol0: PolicyByContainer, pol: PolicyByContainer, s: map<PolicyID, Settings>,
                               t: StringTables) {
    forall n | n in pol0 && n !in pol :: pol0[n] !in s && NoStrings(t, pol0[n])
  }

  /** No cgroup is bound to the id of a container that the spec drops. */
  ghost predicate NoneHeld(b: Bindings, pol: PolicyByContainer, rules: map<string, Rules>) {
    forall g, n | g in b && n in pol && n !in rules :: b[g] != pol[n]
  }

  /** Moving the pods of a policy deletes the settings of dropped ids alone, and binds others that have settings. */
  lemma MoveFinds(e: Epoch, trace: seq<Maps>, from: nat, start: Maps, pol: PolicyByContainer,
                  applied: PolicyByContainer, removed: PolicyByContainer, rules: map<string, Rules>)
    requires Covers(e, trace) && Safe(start) && Injective(pol) && Split(pol, applied, removed)
    requires Later(Epoch(from, start, start, start.cgToPolicy.Values, {}), e, applied.Values, removed.Values)
    requires removed.Keys == pol.Keys - rules.Keys && NoneHeld(start.cgToPolicy, pol, rules)
    requires forall c | c in applied :: applied[c] in start.settings
    ensures TwoReads(start, trace, from, |trace|, e.last)
  {
    forall id | id in e.bound
      ensures id in start.settings && id !in removed.Values
    {
      if id in start.cgToPolicy.Values {
        var g :| g in start.cgToPolicy && start.cgToPolicy[g] == id;
      } else {
        var c :| c in applied && applied[c] == id;
      }
    }
    EpochFinds(e, trace);
  }

  lemma HolderGone(pods: Pods, index: map<CgroupID, string>, wp: Policies, u: set<CgroupID>, start: Maps, next: nat,
                   owner: map<PolicyID, (WpKey, string)>, retired: set<PolicyID>, key: WpKey,
                   rules: map<string, Rules>, pol: PolicyByContainer, end: Maps, g: CgroupID, n: string)
    requires CacheInv(pods, index, wp, start.cgToPolicy, u) && IdsOk(wp, next, owner, retired) && key in wp
    requires Reconciled(pods, key, wp[key].polByContainer, rules, pol)
    requires GivenUpWiped(wp[key].polByContainer, pol, end.settings, end.strings)
    requires Owns(wp, key, n) && n !in rules && Lookup(start.cgToPolicy, g) == Some(wp[key].polByContainer[n])
    ensures !Finds(start, end)
  {
    hide CacheInv, IdsOk;
    var p, c := HolderCarries(pods, index, wp, start.cgToPolicy, u, next, owner, retired, key, n, g);
    assert Carried(pods, key, n);
  }

  /** A dropped id that was bound has no settings once the policy is reconciled. */
  lemma HeldGone(pods: Pods, index: map<CgroupID, string>, wp: Policies, u: set<CgroupID>, start: Maps, next: nat,
                 owner: map<PolicyID, (WpKey, string)>, retired: set<PolicyID>, key: WpKey,
                 rules: map<string, Rules>, pol: PolicyByContainer, end: Maps)
    requires CacheInv(pods, index, wp, start.cgToPolicy, u) && IdsOk(wp, next, owner, retired) && key in wp
    requires Reconciled(pods, key, wp[key].polByContainer, rules, pol)
    requires GivenUpWiped(wp[key].polByContainer, pol, end.settings, end.strings)
    ensures Finds(start, end) ==> NoneHeld(start.cgToPolicy, wp[key].polByContainer, rules)
  {
    hide CacheInv, IdsOk, Reconciled, GivenUpWiped, Finds;
    var b, pol0 := start.cgToPolicy, wp[key].polByContainer;
    if g, n :| g in b && n in pol0 && n !in rules && b[g] == pol0[n] {
      HolderGone(pods, index, wp, u, start, next, owner, retired, key, rules, pol, end, g, n);
    }
  }

  /** Both lookups find settings throughout a move exactly if nothing is bound to what the spec drops. */
  lemma MoveIff(pods: Pods, index: map<CgroupID, string>, wp: Policies, u: set<CgroupID>, start: Maps, from: Start,
                retired: set<PolicyID>, spec: WorkloadPolicy, fresh_: PolicyByContainer, pol: PolicyByContainer,
                trace: seq<Maps>, n0: nat, end: Maps)
    requires CacheInv(pods, index, wp, start.cgToPolicy, u) && IdsOk(wp, from.next, from.owner, retired)
    requires spec.key in wp && fresh_.Keys <= spec.rules.Keys
    requires Reconciled(pods, spec.key, wp[spec.key].polByContainer, spec.rules, pol)
    requires GivenUpWiped(wp[spec.key].polByContainer, pol, end.settings, end.strings)
    requires NoneHeld(start.cgToPolicy, wp[spec.key].polByContainer + fresh_, spec.rules) ==>
               TwoReads(start, trace, n0, |trace|, end)
    ensures TwoReads(start, trace, n0, |trace|, end) <==>
            NoneHeld(start.cgToPolicy, wp[spec.key].polByContainer, spec.rules)
    ensures Finds(start, end) ==> NoneHeld(start.cgToPolicy, wp[spec.key].polByContainer, spec.rules)
  {
    hide CacheInv, IdsOk, Reconciled, GivenUpWiped;
    HeldGone(pods, index, wp, u, start, from.next, from.owner, retired, spec.key, spec.rules, pol, end);
  }

  /** Nothing was deleted, and what was bound had settings. */
  lemma NothingDropped(e: Epoch, trace: seq<Maps>, from: nat, start: Maps)
    requires Covers(e, trace) && Safe(start)
    requires Later(Epoch(from, start, start, start.cgToPolicy.Values, {}), e, start.settings.Keys, {})
    ensures TwoReads(start, trace, from, |trace|, e.last) && SafeFrom(trace, from) && Safe(e.last)
    ensures e.bound <= start.cgToPolicy.Values + start.settings.Keys
  {
    forall id | id in e.bound
      ensures id in start.settings
    {
      if id in start.cgToPolicy.Values {
        var g :| g in start.cgToPolicy && start.cgToPolicy[g] == id;
      }
    }
    EpochFinds(e, trace);
  }

  /** Nothing was deleted and nothing else was bound. */
  lemma NothingBoundDropped(e: Epoch, trace: seq<Maps>, from: nat, start: Maps)
    requires Covers(e, trace) && Safe(start) && Later(Epoch(from, start, start, start.cgToPolicy.Values, {}), e, {}, {})
    ensures TwoReads(start, trace, from, |trace|, e.last) && SafeFrom(trace, from) && Safe(e.last)
    ensures e.mark == from && e.start == start && e.bound <= start.cgToPolicy.Values
  {
    LaterMore(Epoch(from, start, start, start.cgToPolicy.Values, {}), e, {}, {}, start.settings.Keys, {});
    NothingDropped(e, trace, from, start);
  }

  /** A whole reconciliation: the sync binds and deletes nothing, so the move decides. */
  lemma ReconcileIff(pods: Pods, index: map<CgroupID, string>, wp: Policies, u: set<CgroupID>, e: Epoch,
                     before: seq<Maps>, n0: nat, start: Maps, from: Start, retired: set<PolicyID>, spec: WorkloadPolicy,
                     fresh_: PolicyByContainer, pol: PolicyByContainer, trace: seq<Maps>, end: Maps)
    requires CacheInv(pods, index, wp, start.cgToPolicy, u) && IdsOk(wp, from.next, from.owner, retired)
    requires Covers(e, before) && Safe(start) && before <= trace && e.last.cgToPolicy == start.cgToPolicy
    requires Later(Epoch(n0, start, start, start.cgToPolicy.Values, {}), e, {}, {})
    requires spec.key in wp && fresh_.Keys <= spec.rules.Keys
    requires Reconciled(pods, spec.key, wp[spec.key].polByContainer, spec.rules, pol)
    requires GivenUpWiped(wp[spec.key].polByContainer, pol, end.settings, end.strings)
    requires NoneHeld(start.cgToPolicy, wp[spec.key].polByContainer + fresh_, spec.rules) ==>
               TwoReads(e.last, trace, |before|, |trace|, end)
    ensures TwoReads(start, trace, n0, |trace|, end) <==>
            NoneHeld(start.cgToPolicy, wp[spec.key].polByContainer, spec.rules)
    ensures Finds(start, end) ==> NoneHeld(start.cgToPolicy, wp[spec.key].polByContainer, spec.rules)
  {
    hide CacheInv, IdsOk, Reconciled, GivenUpWiped, TwoReads, NoneHeld, Covers, Later;
    NothingBoundDropped(e, before, n0, start);
    TwoPhases(e, before, trace, end);
    MoveIff(pods, index, wp, u, e.last, from, retired, spec, fresh_, pol, trace, |before|, end);
  }

  lemma NothingHeld(b: Bindings)
    ensures NoneHeld(b, map[], map[])
  {
  }

  /** Forgetting a policy: both lookups find settings throughout exactly if nothing is bound to it. */
  lemma DeleteIff(e: Epoch, trace: seq<Maps>, from: nat, start: Maps, pol: PolicyByContainer)
    requires Covers(e, trace) && Safe(start)
    requires Later(Epoch(from, start, start, start.cgToPolicy.Values, {}), e, {}, pol.Values)
    requires Wiped(start.settings, e.last.settings, e.last.strings, pol.Values)
    ensures TwoReads(start, trace, from, |trace|, e.last) <==> NoneHeld(start.cgToPolicy, pol, map[])
    ensures Finds(start, e.last) ==> NoneHeld(start.cgToPolicy, pol, map[])
  {
    if NoneHeld(start.cgToPolicy, pol, map[]) {
      forall id | id in e.bound
        ensures id in start.settings && id !in pol.Values
      {
        var g :| g in start.cgToPolicy && start.cgToPolicy[g] == id;
      }
      EpochFinds(e, trace);
    }
    if g, n :| g in start.cgToPolicy && n in pol && start.cgToPolicy[g] == pol[n] {
      assert pol[n] in pol.Values && !Finds(start, e.last);
    }
  }

  lemma SeenWiped(pol0: PolicyByContainer, fresh_: PolicyByContainer, removed: PolicyByContainer, seen: set<string>,
                  s0: map<PolicyID, Settings>, s: map<PolicyID, Settings>, t: StringTables)
    requires fresh_.Keys !! pol0.Keys && SubPolicy(removed, pol0 + fresh_) && seen <= removed.Keys
             && Wiped(s0, s, t, IdsNamed(removed, seen))
    ensures GivenUpWiped(pol0, pol0 + fresh_ - seen, s, t)
  {
    hide NoStrings;
    forall n | n in pol0 && n in seen
      ensures pol0[n] in IdsNamed(removed, seen)
    {
      assert removed[n] == pol0[n];
    }
  }

  /** No two matching containers carry one name that the spec drops. */
  ghost predicate NoSharedDrop(pods: Pods, key: WpKey, pol0: PolicyByContainer, rules: map<string, Rules>) {
    forall n | n in pol0 && n !in rules :: !TwoCarry(pods, key, n)
  }

  lemma FinalNames(pods: Pods, key: WpKey, pol: PolicyByContainer, fresh_: PolicyByContainer, rules: map<string, Rules>,
                   removed: PolicyByContainer, done: set<string>, seen: set<string>)
    requires fresh_.Keys <= rules.Keys <= (pol + fresh_).Keys && removed.Keys == (pol + fresh_).Keys - rules.Keys
             && fresh_.Keys !! pol.Keys
    requires AllMoved(pods, key, done) && GivenUp(pods, key, removed, done, seen)
    ensures seen <= removed.Keys && seen !! rules.Keys
    ensures Reconciled(pods, key, pol, rules, pol + fresh_ - seen)
  {
    hide Carried, GivenUp, AllMoved;
    GivenUpAll(pods, key, removed, done, seen);
  }

  /** Everything that holds once the last pod has been moved. */
  lemma Finish(pods: Pods, index: map<CgroupID, string>, wp: Policies, retired: set<PolicyID>,
               specs: map<WpKey, WorkloadPolicy>,
               spec: WorkloadPolicy, fresh_: PolicyByContainer, from: Start, mid: Start, now: Start, longKeys: bool,
               applied: PolicyByContainer, removed: PolicyByContainer, done: set<string>, u0: set<CgroupID>,
               b: Bindings, u: set<CgroupID>, seen: set<string>)
    requires spec.key in wp && IdsOk(wp, from.next, from.owner, retired)
             && DataOk(wp, from.next, from.settings, from.strings)
    requires ReadyOk(wp, specs, from.settings, from.strings, longKeys)
    requires Syncing(spec, wp[spec.key].polByContainer, fresh_, from, mid, spec.rules.Keys, longKeys)
             && fresh_.Keys <= spec.rules.Keys
    requires SubPolicy(removed, wp[spec.key].polByContainer + fresh_)
    requires removed.Keys == (wp[spec.key].polByContainer + fresh_).Keys - spec.rules.Keys
    requires Moving(pods, index, WithPol(wp, spec.key, wp[spec.key].polByContainer + fresh_), spec.key, applied,
                    removed, done, u0, b, u)
    requires AllMoved(pods, spec.key, done) && GivenUp(pods, spec.key, removed, done, seen)
    requires Cleared(mid, now, IdsNamed(removed, seen)) && now.next == mid.next && now.owner == mid.owner
    ensures var pol := wp[spec.key].polByContainer + fresh_;
            var wp' := WithInfo(wp, spec.key, WpInfo(pol - seen, Ready));
            && CacheInv(pods, index, wp', b, u0 - MatchingCgroups(pods, spec.key))
            && IdsOk(wp', now.next, now.owner, retired + IdsNamed(pol, seen))
            && DataOk(wp', now.next, now.settings, now.strings)
            && ReadyOk(wp', specs[spec.key := spec], now.settings, now.strings, longKeys)
    ensures Reconciled(pods, spec.key, wp[spec.key].polByContainer, spec.rules,
                       wp[spec.key].polByContainer + fresh_ - seen)
    ensures GivenUpWiped(wp[spec.key].polByContainer, wp[spec.key].polByContainer + fresh_ - seen, now.settings,
                         now.strings)
  {
    hide CacheInv, IdsOk, DataOk, ReadyOk, Syncing, Reconciled, GivenUpWiped, MatchingCgroups, Moving, AllMoved,
      GivenUp, IdsNamed, Injective,
      NewIds, SubPolicy, Wiped, OthersSame;
    var key, pol := spec.key, wp[spec.key].polByContainer + fresh_;
    SyncingIds(spec, wp[key].polByContainer, fresh_, from, mid, spec.rules.Keys, longKeys);
    FinalNames(pods, key, wp[key].polByContainer, fresh_, spec.rules, removed, done, seen);
    RemovedIds(pol, removed, seen);
    SeenWiped(wp[key].polByContainer, fresh_, removed, seen, mid.settings, now.settings, now.strings);
    MovingEnd(pods, index, WithPol(wp, key, pol), key, applied, removed, done, u0, b, u, seen, Ready);
    var info := WpInfo(pol - seen, Ready);
    assert WithInfo(WithPol(wp, key, pol), key, info) == WithInfo(wp, key, info);
    PoliciesAfter(wp, retired, specs, spec, fresh_, from, mid, now, spec.rules.Keys, longKeys, IdsNamed(removed, seen),
                  seen, Ready);
  }

  /** In some state a dropped id is bound without settings exactly when two matching containers carried its name. */
  lemma SafeIff(pods: Pods, index: map<CgroupID, string>, wp: Policies, key: WpKey, fresh_: PolicyByContainer,
                rules: map<string, Rules>,
                applied: PolicyByContainer, removed: PolicyByContainer, done: set<string>, b0: Bindings, b: Bindings,
                u: set<CgroupID>, retired: set<PolicyID>, from: Start, now: Start, n: string, g1: CgroupID,
                g2: CgroupID, safe: bool)
    requires key in wp && key.name != "" && CacheInv(pods, index, wp, b0, {})
             && IdsOk(wp, from.next, from.owner, retired)
    requires NewIds(key, wp[key].polByContainer, fresh_, from.next, now.next, from.owner, now.owner)
             && fresh_.Keys <= rules.Keys
    requires Moving(pods, index, WithPol(wp, key, wp[key].polByContainer + fresh_), key, applied, removed, done, {}, b,
                    u)
    requires AllMoved(pods, key, done) && SubPolicy(removed, wp[key].polByContainer + fresh_)
    requires removed.Keys == (wp[key].polByContainer + fresh_).Keys - rules.Keys
    requires !NoneShared(b0, removed) ==> Shared(b0, removed, n, g1, g2)
    requires NoneShared(b0, removed) ==> safe
    requires Shared(b0, removed, n, g1, g2) && safe ==> Shared(b, removed, n, g1, g2)
    ensures safe <==> NoSharedDrop(pods, key, wp[key].polByContainer, rules)
  {
    hide CacheInv, IdsOk, NewIds, Moving, AllMoved, Shared, NoneShared, TwoCarry;
    NoneLeftAfter(pods, index, wp, key, fresh_, applied, removed, done, {}, b, u, retired, from, now, n, g1, g2);
    NoneSharedIff(pods, index, wp, b0, from.next, from.owner, retired, key, removed);
  }

  /** Every id issued by a sync that failed is lost. */
  lemma LostIds(spec: WorkloadPolicy, pol: PolicyByContainer, fresh_: PolicyByContainer, from: Start, now: Start,
                done: set<string>, longKeys: bool)
    requires Syncing(spec, pol, fresh_, from, now, done, longKeys)
    ensures forall id | from.next <= id < now.next :: id in IdsNamed(pol + fresh_, fresh_.Keys)
  {
    forall id | from.next <= id < now.next
      ensures id in IdsNamed(pol + fresh_, fresh_.Keys)
    {
      assert now.owner[id].1 in fresh_ && (pol + fresh_)[now.owner[id].1] == id;
    }
  }
}
