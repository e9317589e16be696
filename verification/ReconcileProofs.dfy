/** Lemmas on one reconciliation: compiling a spec, then moving every matching pod over to it. */
module ReconcileProofs {
  import opened ExecHook
  import opened BpfManager
  import opened ResolverState
  import opened ResolverProofs
  import SM = StringMaps

  ghost predicate SpecValid(spec: WorkloadPolicy, longKeys: bool) {
    forall c | c in spec.rules :: SM.ValidValues(spec.rules[c].allowed, longKeys)
  }

  ghost predicate Injective(pol: PolicyByContainer) {
    forall c, c' | c in pol && c' in pol :: pol[c] == pol[c'] ==> c == c'
  }

  /** The containers in `done` are enforced under the ids of `cur`. */
  ghost predicate Synced(spec: WorkloadPolicy, cur: PolicyByContainer, done: set<string>,
                         s: map<PolicyID, Settings>, t: StringTables, longKeys: bool) {
    forall c | c in done ::
      c in spec.rules && c in cur && Enforced(cur[c], spec.mode, spec.rules[c], s, t, longKeys)
  }

  /** The ids issued since `n0`: one for each new container of the policy. */
  ghost predicate NewIds(key: WpKey, pol: PolicyByContainer, fresh_: PolicyByContainer, n0: nat, next: nat,
                         owner0: map<PolicyID, (WpKey, string)>, owner: map<PolicyID, (WpKey, string)>) {
    && n0 <= next && fresh_.Keys !! pol.Keys
    && (forall c | c in pol :: pol[c] < n0)
    && (forall c | c in fresh_ :: n0 <= fresh_[c] < next)
    && (forall id | n0 <= id < next ::
          id in owner && owner[id].0 == key && owner[id].1 in fresh_ && fresh_[owner[id].1] == id)
    && (forall c | c in fresh_ :: owner[fresh_[c]] == (key, c))
    && (forall id | id < n0 :: id in owner <==> id in owner0)
    && (forall id | id in owner0 && id < n0 :: owner[id] == owner0[id])
    && (forall id | id in owner :: id < next)
  }

  lemma NewIdsInjective(key: WpKey, pol: PolicyByContainer, fresh_: PolicyByContainer, n0: nat, next: nat,
                        owner0: map<PolicyID, (WpKey, string)>, owner: map<PolicyID, (WpKey, string)>)
    requires NewIds(key, pol, fresh_, n0, next, owner0, owner) && Injective(pol)
    ensures Injective(pol + fresh_)
  {
  }

  lemma NewId(key: WpKey, pol: PolicyByContainer, fresh_: PolicyByContainer, n0: nat, next: nat,
              owner0: map<PolicyID, (WpKey, string)>, owner: map<PolicyID, (WpKey, string)>, c: string)
    requires NewIds(key, pol, fresh_, n0, next, owner0, owner) && c !in pol && c !in fresh_
    ensures NewIds(key, pol, fresh_[c := next], n0, next + 1, owner0, owner[next := (key, c)])
  {
  }

  /** One more container upserted: the ones before keep their data. */
  lemma SyncedNext(spec: WorkloadPolicy, cur: PolicyByContainer, cur': PolicyByContainer, done: set<string>, c: string,
                   s: map<PolicyID, Settings>, t: StringTables, s': map<PolicyID, Settings>, t': StringTables,
                   longKeys: bool)
    requires Synced(spec, cur, done, s, t, longKeys) && c in spec.rules && c in cur' && c !in done
    requires Injective(cur') && forall d | d in cur :: d in cur' && cur'[d] == cur[d]
    requires |t'| == SM.NUM_SUB_MAPS && OthersSame(s, t, s', t', {cur'[c]})
    requires Enforced(cur'[c], spec.mode, spec.rules[c], s', t', longKeys)
    ensures Synced(spec, cur', done + {c}, s', t', longKeys)
  {
    hide Enforced;
    forall d | d in done
      ensures Enforced(cur'[d], spec.mode, spec.rules[d], s', t', longKeys)
    {
      assert SameData(s, t, s', t', cur[d]);
      EnforcedKept(cur[d], spec.mode, spec.rules[d], s, t, s', t', longKeys);
    }
  }

  /** Ids that were never issued hold nothing, whatever was written to issued ones. */
  lemma StillFresh(wp: Policies, n0: nat, next: nat, s: map<PolicyID, Settings>, t: StringTables,
                   s': map<PolicyID, Settings>, t': StringTables, touched: set<PolicyID>)
    requires DataOk(wp, n0, s, t) && n0 <= next && OthersSame(s, t, s', t', touched)
    requires forall id | id in touched :: id < next
    ensures forall id | id >= next :: id !in s' && NoStrings(t', id)
  {
    forall id | id >= next
      ensures id !in s' && NoStrings(t', id)
    {
      assert SameData(s, t, s', t', id);
    }
  }

  lemma TouchedMore(s0: map<PolicyID, Settings>, t0: StringTables, s: map<PolicyID, Settings>, t: StringTables,
                    s': map<PolicyID, Settings>, t': StringTables, ids: set<PolicyID>, id: PolicyID,
                    ids': set<PolicyID>)
    requires OthersSame(s0, t0, s, t, ids) && OthersSame(s, t, s', t', {id}) && ids <= ids' && id in ids'
    ensures OthersSame(s0, t0, s', t', ids')
  {
    TouchedNext(s0, t0, s, t, s', t', ids, id);
    forall i | i !in ids'
      ensures SameData(s0, t0, s', t', i)
    {
      assert i !in ids + {id};
    }
  }

  lemma IdsBelow(pol: PolicyByContainer, key: WpKey, fresh_: PolicyByContainer, n0: nat, next: nat,
                 owner0: map<PolicyID, (WpKey, string)>, owner: map<PolicyID, (WpKey, string)>)
    requires NewIds(key, pol, fresh_, n0, next, owner0, owner)
    ensures n0 <= next && forall id | id in pol.Values + fresh_.Values :: id < next
  {
  }

  lemma ValuesGrow(pol: PolicyByContainer, c: string, id: PolicyID)
    requires c !in pol
    ensures pol[c := id].Values == pol.Values + {id}
  {
    assert pol[c := id][c] == id;
    forall d | d in pol
      ensures pol[d] in pol[c := id].Values
    {
      assert pol[c := id][d] == pol[d];
    }
  }

  /** What a sync knows about its start: the next id, the ids' owners and the kernel's data. */
  datatype Start = Start(next: nat, owner: map<PolicyID, (WpKey, string)>, settings: map<PolicyID, Settings>,
                         strings: StringTables)

  /** A sync in progress, with the containers in `done` compiled. */
  ghost predicate Syncing(spec: WorkloadPolicy, pol: PolicyByContainer, fresh_: PolicyByContainer, from: Start,
                          now: Start,
                          done: set<string>, longKeys: bool) {
    && Injective(pol) && NewIds(spec.key, pol, fresh_, from.next, now.next, from.owner, now.owner)
    && OthersSame(from.settings, from.strings, now.settings, now.strings, pol.Values + fresh_.Values)
    && Synced(spec, pol + fresh_, done, now.settings, now.strings, longKeys)
    && |now.strings| == SM.NUM_SUB_MAPS && from.settings.Keys <= now.settings.Keys
  }

  lemma SyncStart(wp: Policies, retired: set<PolicyID>,
                  now: Start, spec: WorkloadPolicy, longKeys: bool)
    requires IdsOk(wp, now.next, now.owner, retired) && DataOk(wp, now.next, now.settings, now.strings)
             && spec.key in wp
    ensures Syncing(spec, wp[spec.key].polByContainer, map[], now, now, {}, longKeys)
            && |now.strings| == SM.NUM_SUB_MAPS
  {
    OwnedIds(wp, now.next, now.owner, retired, spec.key);
  }

  lemma NewDisjoint(spec: WorkloadPolicy, pol: PolicyByContainer, fresh_: PolicyByContainer, from: Start, now: Start,
                    done: set<string>, longKeys: bool)
    requires Syncing(spec, pol, fresh_, from, now, done, longKeys)
    ensures fresh_.Keys !! pol.Keys
  {
  }

  /** An id for container `c`: the one it has, or a new one. */
  lemma SyncingId(spec: WorkloadPolicy, wp: Policies, fresh_: PolicyByContainer, from: Start, now: Start,
                  done: set<string>, longKeys: bool, c: string)
    requires spec.key in wp && DataOk(wp, from.next, from.settings, from.strings)
    requires Syncing(spec, wp[spec.key].polByContainer, fresh_, from, now, done, longKeys)
    requires c !in wp[spec.key].polByContainer && c !in fresh_
    ensures Syncing(spec, wp[spec.key].polByContainer, fresh_[c := now.next], from,
                    now.(next := now.next + 1, owner := now.owner[now.next := (spec.key, c)]), done, longKeys)
    ensures NoStrings(now.strings, now.next)
  {
    var pol := wp[spec.key].polByContainer;
    assert NoStrings(now.strings, now.next) by {
      IdsBelow(pol, spec.key, fresh_, from.next, now.next, from.owner, now.owner);
      StillFresh(wp, from.next, now.next, from.settings, from.strings, now.settings, now.strings,
                 pol.Values + fresh_.Values);
    }
    hide DataOk, Enforced, SameData, NoStrings;
    ValuesGrow(fresh_, c, now.next);
    NewId(spec.key, pol, fresh_, from.next, now.next, from.owner, now.owner, c);
    hide NewIds;
    assert forall d | d in pol + fresh_ ::
        d in pol + fresh_[c := now.next] && (pol + fresh_[c := now.next])[d] == (pol + fresh_)[d];
  }

  /** Container `c` compiled. */
  lemma SyncingData(spec: WorkloadPolicy, pol: PolicyByContainer, fresh_: PolicyByContainer, from: Start, now: Start,
                    then_: Start,
                    done: set<string>, longKeys: bool, c: string)
    requires Syncing(spec, pol, fresh_, from, now, done, longKeys)
    requires c in spec.rules && c !in done && c in pol + fresh_
    requires then_.next == now.next && then_.owner == now.owner && |then_.strings| == SM.NUM_SUB_MAPS
    requires OthersSame(now.settings, now.strings, then_.settings, then_.strings, {(pol + fresh_)[c]})
    requires now.settings.Keys <= then_.settings.Keys
    requires Enforced((pol + fresh_)[c], spec.mode, spec.rules[c], then_.settings, then_.strings, longKeys)
    ensures Syncing(spec, pol, fresh_, from, then_, done + {c}, longKeys)
  {
    hide Enforced, SameData;
    var id := (pol + fresh_)[c];
    assert id in pol.Values + fresh_.Values;
    TouchedMore(from.settings, from.strings, now.settings, now.strings, then_.settings, then_.strings,
                pol.Values + fresh_.Values, id, pol.Values + fresh_.Values);
    NewIdsInjective(spec.key, pol, fresh_, from.next, now.next, from.owner, now.owner);
    hide OthersSame, NewIds;
    SyncedNext(spec, pol + fresh_, pol + fresh_, done, c, now.settings, now.strings, then_.settings, then_.strings,
               longKeys);
  }

  /** Names, cgroups and ids of the containers in `cs` that `removed` names. */
  ghost function NamesOf(pod: PodEntry, cs: set<string>, removed: PolicyByContainer): set<string> {
    set c | c in cs && c in pod.containers && pod.containers[c].name in removed :: pod.containers[c].name
  }

  ghost function GroupsOf(pod: PodEntry, cs: set<string>, removed: PolicyByContainer): set<CgroupID> {
    set c | c in cs && c in pod.containers && pod.containers[c].name in removed :: pod.containers[c].cgroup
  }

  ghost function IdsOf(pod: PodEntry, cs: set<string>, removed: PolicyByContainer): set<PolicyID> {
    set c | c in cs && c in pod.containers && pod.containers[c].name in removed :: removed[pod.containers[c].name]
  }

  lemma OneMore(pod: PodEntry, cs: set<string>, removed: PolicyByContainer, c: string)
    requires c in pod.containers
    ensures var named := pod.containers[c].name in removed;
            && NamesOf(pod, cs + {c}, removed) ==
               NamesOf(pod, cs, removed) + (if named then {pod.containers[c].name} else {})
            && GroupsOf(pod, cs + {c}, removed) ==
               GroupsOf(pod, cs, removed) + (if named then {pod.containers[c].cgroup} else {})
            && IdsOf(pod, cs + {c}, removed) ==
               IdsOf(pod, cs, removed) + (if named then {removed[pod.containers[c].name]} else {})
  {
    var cs' := cs + {c};
    if pod.containers[c].name in removed {
      assert c in cs';
      assert pod.containers[c].name in NamesOf(pod, cs', removed);
      assert pod.containers[c].cgroup in GroupsOf(pod, cs', removed);
      assert removed[pod.containers[c].name] in IdsOf(pod, cs', removed);
    }
    forall d | d in cs && d in pod.containers && pod.containers[d].name in removed
      ensures pod.containers[d].name in NamesOf(pod, cs', removed)
      ensures pod.containers[d].cgroup in GroupsOf(pod, cs', removed)
      ensures removed[pod.containers[d].name] in IdsOf(pod, cs', removed)
    {
      assert d in cs';
    }
  }

  /** Whoever is bound to the id of a dropped container of this pod is that container. */
  ghost predicate SoleHolders(b: Bindings, pod: PodEntry, removed: PolicyByContainer) {
    forall c, g | c in pod.containers && pod.containers[c].name in removed
                  && g in b && b[g] == removed[pod.containers[c].name] ::
      g == pod.containers[c].cgroup
  }

  /** Two cgroups bound to the id of one dropped container name. */
  ghost predicate Shared(b: Bindings, removed: PolicyByContainer, n: string, g1: CgroupID, g2: CgroupID) {
    n in removed && g1 != g2 && Lookup(b, g1) == Some(removed[n]) && Lookup(b, g2) == Some(removed[n])
  }

  /** A container of the pod is bound to a dropped id only as the container of that name. */
  ghost predicate OwnBindings(b: Bindings, pod: PodEntry, removed: PolicyByContainer) {
    && Injective(removed)
    && forall c | c in pod.containers && pod.containers[c].cgroup in b
                  && b[pod.containers[c].cgroup] in removed.Values ::
         pod.containers[c].name in removed && removed[pod.containers[c].name] == b[pod.containers[c].cgroup]
  }

  /** Removing one container of the pod keeps a shared pair, unless it carries the shared name. */
  lemma SharedKept(b: Bindings, b': Bindings, pod: PodEntry, removed: PolicyByContainer, n: string, g1: CgroupID,
                   g2: CgroupID, c: string)
    requires Shared(b, removed, n, g1, g2) && OwnBindings(b, pod, removed) && c in pod.containers
    requires pod.containers[c].name in removed && b' == b - {pod.containers[c].cgroup}
    ensures pod.containers[c].name != n ==> Shared(b', removed, n, g1, g2)
    ensures pod.containers[c].name == n ==> exists g :: g in b' && b'[g] == removed[n]
  {
    assert removed[n] in removed.Values;
    if pod.containers[c].name == n {
      var g := if g1 == pod.containers[c].cgroup then g2 else g1;
      assert g in b' && b'[g] == removed[n];
    }
  }

  /** The containers in `cs` have been stripped of what `removed` names, and nothing else has changed. */
  ghost predicate Stripped(pod: PodEntry, removed: PolicyByContainer, cs: set<string>, pol0: PolicyByContainer,
                           pol: PolicyByContainer,
                           m0: Maps, m: Maps) {
    && pol == pol0 - NamesOf(pod, cs, removed)
    && m.cgToPolicy == m0.cgToPolicy - GroupsOf(pod, cs, removed)
    && Wiped(m0.settings, m.settings, m.strings, IdsOf(pod, cs, removed)) && |m.strings| == SM.NUM_SUB_MAPS
    && OthersSame(m0.settings, m0.strings, m.settings, m.strings, IdsOf(pod, cs, removed))
  }

  lemma StrippedNone(pod: PodEntry, removed: PolicyByContainer, pol: PolicyByContainer, m: Maps)
    requires |m.strings| == SM.NUM_SUB_MAPS
    ensures Stripped(pod, removed, {}, pol, pol, m, m)
  {
    hide OthersSame, Wiped;
    NothingTouched(m.settings, m.strings);
    NothingWiped(m.settings, m.strings);
    assert IdsOf(pod, {}, removed) == {};
  }

  lemma StrippedNext(pod: PodEntry, removed: PolicyByContainer, cs: set<string>, pol0: PolicyByContainer,
                     pol: PolicyByContainer,
                     m0: Maps, m: Maps, c: string, m': Maps)
    requires Stripped(pod, removed, cs, pol0, pol, m0, m) && c in pod.containers
    requires pod.containers[c].name !in removed ==> m' == m
    requires pod.containers[c].name in removed ==>
               && m'.cgToPolicy == m.cgToPolicy - {pod.containers[c].cgroup}
               && m'.settings == m.settings - {removed[pod.containers[c].name]} && |m'.strings| == SM.NUM_SUB_MAPS
               && NoStrings(m'.strings, removed[pod.containers[c].name])
               && OthersSame(m.settings, m.strings, m'.settings, m'.strings, {removed[pod.containers[c].name]})
    ensures Stripped(pod, removed, cs + {c}, pol0,
                     if pod.containers[c].name in removed then pol - {pod.containers[c].name} else pol, m0, m')
  {
    OneMore(pod, cs, removed, c);
    hide NamesOf, GroupsOf, IdsOf, OthersSame, Wiped, NoStrings;
    if pod.containers[c].name in removed {
      TouchedNext(m0.settings, m0.strings, m.settings, m.strings, m'.settings, m'.strings, IdsOf(pod, cs, removed),
                  removed[pod.containers[c].name]);
      WipedNext(m0.settings, m.settings, m.strings, m'.settings, m'.strings, IdsOf(pod, cs, removed),
                removed[pod.containers[c].name]);
    }
  }

  /** A shared pair meets the pod: either one of its containers was cleared under the other, or it is intact. */
  ghost predicate SharedOutcome(b0: Bindings, b: Bindings, pod: PodEntry, removed: PolicyByContainer, cs: set<string>,
                                n: string, g1: CgroupID, g2: CgroupID, safe: bool) {
    Shared(b0, removed, n, g1, g2) && OwnBindings(b0, pod, removed) ==>
      if n in NamesOf(pod, cs, removed) then !safe
      else Shared(b, removed, n, g1, g2) && OwnBindings(b, pod, removed)
  }

  lemma SharedOutcomeNext(b0: Bindings, b: Bindings, pod: PodEntry, removed: PolicyByContainer, cs: set<string>,
                          n: string, g1: CgroupID, g2: CgroupID, safe: bool, c: string, b': Bindings, safe': bool)
    requires SharedOutcome(b0, b, pod, removed, cs, n, g1, g2, safe) && c in pod.containers && (safe' ==> safe)
    requires pod.containers[c].name !in removed ==> b' == b
    requires pod.containers[c].name in removed && OwnBindings(b, pod, removed) ==>
               && OwnBindings(b', pod, removed)
               && (Shared(b, removed, n, g1, g2) ==>
                     if pod.containers[c].name == n then !safe' else Shared(b', removed, n, g1, g2))
    ensures SharedOutcome(b0, b', pod, removed, cs + {c}, n, g1, g2, safe')
  {
    OneMore(pod, cs, removed, c);
    hide NamesOf, GroupsOf, IdsOf, Shared, OwnBindings;
  }
}
