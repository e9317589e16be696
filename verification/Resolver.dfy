/**
 The resolver: pods and containers reported by the container runtime, workload
 policies reconciled from the API server, and the kernel maps they drive
 (internal/resolver/nri_api.go, internal/resolver/policy.go,
 internal/resolver/export_views.go).
 */
module Resolver {
  import opened ExecHook
  import opened BpfManager
  import opened DataProofs
  import opened MoveProofs
  import opened ReconcileProofs
  import opened ResolverProofs
  import opened ResolverState
  import SM = StringMaps

  datatype NriResult = Added | Conflicting | NoSuchPolicy

  datatype ContainerView = ContainerView(podMeta: PodMeta, id: string, meta: ContainerMeta)

  /** Splits a policy's ids into those still in the spec and those dropped from it. */
  method SplitPolicy(pol: PolicyByContainer, rules: map<string, Rules>)
    returns (applied: PolicyByContainer, removed: PolicyByContainer)
    ensures Split(pol, applied, removed) && applied.Keys == pol.Keys * rules.Keys
            && removed.Keys == pol.Keys - rules.Keys
  {
    applied, removed := map[], map[];
    var todo := pol.Keys;
    while todo != {}
      invariant todo <= pol.Keys && SubPolicy(applied, pol) && SubPolicy(removed, pol)
      invariant applied.Keys == (pol.Keys - todo) * rules.Keys && removed.Keys == pol.Keys - todo - rules.Keys
    {
      var c :| c in todo;
      if c in rules {
        applied := applied[c := pol[c]];
      } else {
        removed := removed[c := pol[c]];
      }
      todo := todo - {c};
    }
  }

  class ResolverCache {
    const m: Manager
    var podCache: Pods
    var cgroupIDToPodID: map<CgroupID, string>
    var nextPolicyID: PolicyID
    var wpState: Policies

    /** Containers cached by a re-add that was then rejected, and so not bound yet. */
    ghost var unbound: set<CgroupID>
    /** The spec each READY policy was last reconciled with. */
    ghost var specs: map<WpKey, WorkloadPolicy>
    /** Whom every id ever issued was issued to, and the ids given up since. */
    ghost var owner: map<PolicyID, (WpKey, string)>
    ghost var retired: set<PolicyID>

    ghost predicate CachesOk()
      reads this, m
    {
      CacheInv(podCache, cgroupIDToPodID, wpState, m.cgToPolicy, unbound)
    }

    ghost predicate PoliciesOk()
      reads this, m
    {
      && IdsOk(wpState, nextPolicyID, owner, retired)
      && DataOk(wpState, nextPolicyID, m.settings, m.strings)
      && ReadyOk(wpState, specs, m.settings, m.strings, m.longKeys)
    }

    ghost predicate Valid()
      reads this, m
    {
      CachesOk() && PoliciesOk() && m.InEpoch()
    }

    constructor (longKeys: bool)
      ensures Valid() && fresh(m) && m.longKeys == longKeys
      ensures podCache == map[] && cgroupIDToPodID == map[] && wpState == map[] && m.cgToPolicy == map[]
              && nextPolicyID == 1
      ensures unbound == {} && specs == map[] && m.trace == []
    {
      m := new Manager(longKeys);
      podCache, cgroupIDToPodID, wpState := map[], map[], map[];
      nextPolicyID := 1;
      unbound, specs, owner, retired := {}, map[], map[], {};
    }

    /** Binds the containers of a pod that `applied` names. */
    method ApplyPolicyToPod(pod: PodEntry, applied: PolicyByContainer) returns (ok: bool)
      requires DistinctIn(pod) && m.InEpoch()
      modifies m`cgToPolicy, m`trace, m`epoch
      ensures NoClash(pod, applied, old(m.cgToPolicy)) ==> ok
      ensures ok ==> AppliedTo(pod, applied, pod.containers.Keys, old(m.cgToPolicy), m.cgToPolicy)
      ensures old(m.trace) <= m.trace
      ensures Safe(old(m.Current())) && (forall n | n in applied :: applied[n] in m.settings) ==>
                SafeFrom(m.trace, |old(m.trace)|) && Safe(m.Current())
      ensures m.InEpoch() && Later(old(m.epoch), m.epoch, applied.Values, {})
    {
      hide Covers, Later;
      LaterItself(m.epoch, applied.Values);
      var todo := pod.containers.Keys;
      while todo != {}
        invariant todo <= pod.containers.Keys
        invariant m.InEpoch() && Later(old(m.epoch), m.epoch, applied.Values, {})
        invariant AppliedTo(pod, applied, pod.containers.Keys - todo, old(m.cgToPolicy), m.cgToPolicy)
        invariant old(m.trace) <= m.trace
        invariant Safe(old(m.Current())) && (forall n | n in applied :: applied[n] in m.settings) ==>
                    SafeFrom(m.trace, |old(m.trace)|) && Safe(m.Current())
      {
        var c :| c in todo;
        ghost var done, b := pod.containers.Keys - todo, m.cgToPolicy;
        todo := todo - {c};
        assert pod.containers.Keys - todo == done + {c};
        var meta := pod.containers[c];
        if meta.name in applied {
          ghost var e := m.epoch;
          var added := m.BindCgroup(applied[meta.name], meta.cgroup);
          LaterMore(e, m.epoch, {applied[meta.name]}, {}, applied.Values, {});
          LaterTwice(old(m.epoch), e, m.epoch, applied.Values, {});
          if !added {
            return false;
          }
        }
        AppliedNext(pod, applied, done, old(m.cgToPolicy), b, c, m.cgToPolicy);
      }
      assert pod.containers.Keys - todo == pod.containers.Keys;
      return true;
    }

    /** The pod's policy, if it carries the label and the policy is known. */
    method ApplyPolicyToPodIfPresent(p: string) returns (known: bool)
      requires Valid() && p in podCache
      modifies m`cgToPolicy, m`trace, m`epoch, this`unbound
      ensures known <==>
              podCache[p].PolicyName() == "" || WpKey(podCache[p].meta.namespace, podCache[p].PolicyName()) in wpState
      ensures unbound == old(unbound) - CgroupsOf(podCache[p])
      ensures CachesOk()
      ensures old(m.trace) <= m.trace && SafeFrom(m.trace, |old(m.trace)|)
      ensures m.InEpoch() && Later(old(m.epoch), m.epoch, m.settings.Keys, {})
    {
      hide CacheInv, IdsOk, DataOk, ReadyOk, AppliedTo, CgroupsOf, NoClash, Covers, Later;
      LaterItself(m.epoch, m.settings.Keys);
      var pod := podCache[p];
      var key := WpKey(pod.meta.namespace, pod.PolicyName());
      ghost var b := m.cgToPolicy;
      if pod.PolicyName() == "" || key !in wpState {
        AppliedNothing(pod, b);
        AppliedJoin(podCache, cgroupIDToPodID, wpState, b, unbound, p, b);
        unbound := unbound - CgroupsOf(pod);
        return pod.PolicyName() == "";
      }
      BoundHaveSettings(podCache, cgroupIDToPodID, wpState, unbound, nextPolicyID, m.Current());
      NoOverlap(podCache, cgroupIDToPodID, wpState, b, unbound, nextPolicyID, owner, retired, p);
      OwnedHaveSettings(wpState, nextPolicyID, m.settings, m.strings, key);
      var ok := ApplyPolicyToPod(pod, wpState[key].polByContainer);
      if !ok {
        assert false; // overlapping policies cannot happen
      }
      LaterMore(old(m.epoch), m.epoch, wpState[key].polByContainer.Values, {}, m.settings.Keys, {});
      AppliedJoin(podCache, cgroupIDToPodID, wpState, b, unbound, p, m.cgToPolicy);
      unbound := unbound - CgroupsOf(pod);
      return true;
    }

    /** What the resolver knows about policies, in its own state and in the kernel. */
    twostate predicate PoliciesUntouched()
      reads this, m
    {
      && wpState == old(wpState) && nextPolicyID == old(nextPolicyID)
      && specs == old(specs) && owner == old(owner) && retired == old(retired)
      && m.settings == old(m.settings) && m.strings == old(m.strings)
    }

    /**
     Caches the containers of a pod in some order until one of them conflicts. A cached
     entry is extended in place, so what was added before a conflict stays.
     */
    method CacheContainers(pod: PodInput, order: seq<string>) returns (state: PodEntry, conflict: bool)
      requires Valid() && FreshCgroups(podCache, cgroupIDToPodID, pod) && Orders(order, pod.containers.Keys)
      modifies this`cgroupIDToPodID, this`unbound, m`cgTracker, m`trace, m`epoch
      ensures conflict <==> Conflict(podCache, pod)
      ensures var base := Base(podCache, pod);
              var left := Left(base.containers, pod.containers, order);
              && (!conflict ==> left == {})
              && state == PodEntry(base.meta, Merged(base.containers, pod.containers, left))
              && unbound == old(unbound) + CgroupsMerged(base.containers, pod.containers, left)
              && TrackerGrown(old(m.cgTracker), m.cgTracker, CgroupsMerged(base.containers, pod.containers, left))
      ensures CacheInv(podCache[pod.meta.id := state], cgroupIDToPodID, wpState, m.cgToPolicy, unbound)
      ensures old(m.trace) <= m.trace && m.InEpoch() && Later(old(m.epoch), m.epoch, {}, {})
    {
      hide CacheInv, IdsOk, DataOk, ReadyOk, FreshIn, Merged, CgroupsMerged, TrackerGrown, Rest, FirstClash, Left,
        Orders, Conflict, Covers, Later;
      LaterNone(m.epoch, {});
      var podID := pod.meta.id;
      if podID in podCache {
        state := podCache[podID];
        assert podCache[podID := state] == podCache;
      } else {
        state := PodEntry(pod.meta, map[]);
        EmptyPodAdded(podCache, cgroupIDToPodID, wpState, m.cgToPolicy, unbound, podID, pod.meta);
      }
      ghost var base := state.containers;
      ghost var todo := pod.containers.Keys;
      MergedStart(base, pod.containers);
      TrackerStart(m.cgTracker);
      RestEnds(order, pod.containers.Keys);
      for k := 0 to |order|
        invariant todo == Rest(order, k) && todo <= pod.containers.Keys
        invariant state == PodEntry(Base(podCache, pod).meta, Merged(base, pod.containers, todo))
        invariant forall i | 0 <= i < k :: !Clashes(base, pod.containers, order[i])
        invariant FreshIn(base, pod.containers, cgroupIDToPodID, todo)
        invariant unbound == old(unbound) + CgroupsMerged(base, pod.containers, todo)
        invariant TrackerGrown(old(m.cgTracker), m.cgTracker, CgroupsMerged(base, pod.containers, todo))
        invariant old(m.trace) <= m.trace && m.InEpoch() && Later(old(m.epoch), m.epoch, {}, {})
        invariant CacheInv(podCache[podID := state], cgroupIDToPodID, wpState, m.cgToPolicy, unbound)
      {
        var c := order[k];
        RestNext(order, pod.containers.Keys, k);
        var meta := pod.containers[c];
        FreshNext(base, pod.containers, cgroupIDToPodID, todo, c, podID);
        MergedNext(base, pod.containers, todo, c);
        if c in state.containers {
          if state.containers[c] != meta {
            LeftAt(base, pod.containers, order, k);
            ConflictIff(podCache, pod, order, k);
            return state, true;
          }
        } else {
          CacheStep(podCache[podID := state], cgroupIDToPodID, wpState, m.cgToPolicy, unbound, podID, c, meta);
          ghost var grown := WithContainer(state, c, meta);
          assert podCache[podID := state][podID := grown] == podCache[podID := grown];
          state := WithContainer(state, c, meta);
          cgroupIDToPodID := cgroupIDToPodID[meta.cgroup := podID];
          TrackerNext(old(m.cgTracker), m.cgTracker, CgroupsMerged(base, pod.containers, todo), meta.cgroup);
          ghost var e := m.epoch;
          m.UpdateCgTracker(meta.cgroup);
          LaterTwice(old(m.epoch), e, m.epoch, {}, {});
          unbound := unbound + {meta.cgroup};
        }
        todo := todo - {c};
      }
      LeftAt(base, pod.containers, order, |order|);
      ConflictIff(podCache, pod, order, |order|);
      return state, false;
    }

    /** NRI reports a container, or all containers of a pod again, in some order. */
    method AddPodContainerFromNri(pod: PodInput, order: seq<string>) returns (r: NriResult)
      requires Valid() && FreshCgroups(podCache, cgroupIDToPodID, pod) && Orders(order, pod.containers.Keys)
      modifies this, m
      ensures Valid() && PoliciesUntouched()
      ensures r.Conflicting? <==> old(Conflict(podCache, pod))
      ensures r.Conflicting? <==>
              exists c :: && Cached(old(podCache), pod.meta.id, c) && c in pod.containers
                          && old(podCache)[pod.meta.id].containers[c] != pod.containers[c]
      ensures RowsAdded(old(podCache), pod, podCache) && (!r.Conflicting? ==> AllAdded(pod, podCache))
      ensures !r.Conflicting? ==>
                forall c | c in pod.containers && !Cached(old(podCache), pod.meta.id, c) ::
                  var g := pod.containers[c].cgroup; g in m.cgTracker && m.cgTracker[g] == g
      ensures forall g | (forall c | c in pod.containers :: pod.containers[c].cgroup != g) ::
                (g in m.cgTracker <==> g in old(m.cgTracker))
                && (g in m.cgTracker ==> m.cgTracker[g] == old(m.cgTracker)[g])
      ensures var base := Base(old(podCache), pod);
              var left := Left(base.containers, pod.containers, order);
              && (!r.Conflicting? ==> left == {})
              && podCache ==
                 old(podCache)[pod.meta.id := PodEntry(base.meta, Merged(base.containers, pod.containers, left))]
              && TrackerGrown(old(m.cgTracker), m.cgTracker, CgroupsMerged(base.containers, pod.containers, left))
              && (r.Conflicting? ==> m.cgToPolicy == old(m.cgToPolicy))
              && (r.Conflicting? ==> unbound == old(unbound) + CgroupsMerged(base.containers, pod.containers, left))
      ensures !r.Conflicting? ==> unbound == old(unbound) - CgroupsOf(podCache[pod.meta.id])
      ensures !r.Conflicting? ==>
                var entry := podCache[pod.meta.id];
                r.NoSuchPolicy? <==>
                entry.PolicyName() != "" && WpKey(entry.meta.namespace, entry.PolicyName()) !in wpState
      ensures old(m.trace) <= m.trace && SafeFrom(m.trace, |old(m.trace)|)
      ensures TwoReads(old(m.Current()), m.trace, |old(m.trace)|, |m.trace|, m.Current())
    {
      hide CacheInv, IdsOk, DataOk, ReadyOk, FreshIn, Merged, CgroupsMerged, CgroupsOf, TrackerGrown, Left, Orders,
        Covers, TwoReads, SafeFrom, Safe, RowsAdded, AllAdded;
      ghost var base := Base(podCache, pod);
      AddedRows(podCache, pod, Left(base.containers, pod.containers, order));
      BoundHaveSettings(podCache, cgroupIDToPodID, wpState, unbound, nextPolicyID, m.Current());
      m.Mark();
      var state, conflict := CacheContainers(pod, order);
      NewTracked(podCache, pod, Left(base.containers, pod.containers, order), old(m.cgTracker), m.cgTracker);
      podCache := podCache[pod.meta.id := state];
      if conflict {
        NothingDropped(m.epoch, m.trace, |old(m.trace)|, old(m.Current()));
        return Conflicting;
      }
      MergedCgroups(state.meta, Base(old(podCache), pod).containers, pod.containers, {});
      var known := ApplyPolicyToPodIfPresent(pod.meta.id);
      NothingDropped(m.epoch, m.trace, |old(m.trace)|, old(m.Current()));
      r := if known then Added else NoSuchPolicy;
    }

    /** NRI reports that a container is gone. */
    method RemovePodContainerFromNri(podID: string, containerID: string) returns (ok: bool)
      requires Valid()
      modifies this`podCache, this`cgroupIDToPodID, this`unbound, m`cgToPolicy, m`trace, m`epoch
      ensures Valid() && ok
      ensures old(Cached(podCache, podID, containerID)) ==>
                var g := old(podCache)[podID].containers[containerID].cgroup;
                && podCache == WithoutContainer(old(podCache), podID, containerID)
                && RowsRemoved(old(podCache), podID, containerID, podCache)
                && cgroupIDToPodID == old(cgroupIDToPodID) - {g} && m.cgToPolicy == old(m.cgToPolicy) - {g}
                && unbound == old(unbound) - {g}
      ensures !old(Cached(podCache, podID, containerID)) ==>
                && podCache == old(podCache) && cgroupIDToPodID == old(cgroupIDToPodID)
                && m.cgToPolicy == old(m.cgToPolicy) && unbound == old(unbound)
      ensures old(m.trace) <= m.trace && SafeFrom(m.trace, |old(m.trace)|)
      ensures TwoReads(old(m.Current()), m.trace, |old(m.trace)|, |m.trace|, m.Current())
    {
      hide CacheInv, IdsOk, DataOk, ReadyOk, Safe, Covers, TwoReads;
      BoundHaveSettings(podCache, cgroupIDToPodID, wpState, unbound, nextPolicyID, m.Current());
      m.Mark();
      NothingDropped(m.epoch, m.trace, |old(m.trace)|, old(m.Current()));
      if podID !in podCache || containerID !in podCache[podID].containers {
        return true;
      }
      ContainerRemoved(podCache, cgroupIDToPodID, wpState, m.cgToPolicy, unbound, podID, containerID);
      RemovedRows(podCache, podID, containerID);
      hide RowsRemoved;
      var state := podCache[podID];
      var g := state.containers[containerID].cgroup;
      if |state.containers| == 1 {
        podCache := podCache - {podID};
      } else {
        podCache := podCache[podID := state.(containers := state.containers - {containerID})];
      }
      cgroupIDToPodID := cgroupIDToPodID - {g};
      m.UnbindCgroup(g);
      NothingDropped(m.epoch, m.trace, |old(m.trace)|, old(m.Current()));
      unbound := unbound - {g};
      return true;
    }

    /** The container behind a cgroup, for any container of the cache and for nothing else. */
    method GetContainerView(g: CgroupID) returns (view: Option<ContainerView>)
      requires Valid()
      ensures forall p, c | Cached(podCache, p, c) && podCache[p].containers[c].cgroup == g ::
                view == Some(ContainerView(podCache[p].meta, c, podCache[p].containers[c]))
      ensures (forall p, c | Cached(podCache, p, c) :: podCache[p].containers[c].cgroup != g) ==> view == None
    {
      if g !in cgroupIDToPodID {
        return None;
      }
      var podID := cgroupIDToPodID[g];
      if podID !in podCache {
        return None;
      }
      var pod := podCache[podID];
      var todo := pod.containers.Keys;
      while todo != {}
        invariant todo <= pod.containers.Keys
        invariant forall c | c in pod.containers && c !in todo :: pod.containers[c].cgroup != g
      {
        var c :| c in todo;
        if pod.containers[c].cgroup == g {
          assert Cached(podCache, podID, c);
          return Some(ContainerView(pod.meta, c, ContainerMeta(pod.containers[c].name, g)));
        }
        todo := todo - {c};
      }
      return None;
    }

    /** Writes everything a policy id stands for. */
    method UpsertPolicyIDInBPF(id: PolicyID, rules: Rules, mode: Mode, replace: bool) returns (ok: bool)
      requires |m.strings| == SM.NUM_SUB_MAPS && m.InEpoch()
      modifies m`settings, m`strings, m`trace, m`epoch
      ensures ok == SM.ValidValues(rules.allowed, m.longKeys)
      ensures !ok ==> m.settings == old(m.settings) && m.strings == old(m.strings) && m.trace == old(m.trace)
      ensures |m.strings| == SM.NUM_SUB_MAPS && OthersSame(old(m.settings), old(m.strings), m.settings, m.strings, {id})
      ensures ok
              && (replace || NoStrings(old(m.strings), id)) ==>
                Enforced(id, mode, rules, m.settings, m.strings, m.longKeys)
      ensures m.settings.Keys == old(m.settings).Keys + if ok then {id} else {}
      ensures replace ==> MixedFrom(old(m.Current()), m.trace, |old(m.trace)|, m.Current(), id)
      ensures old(m.trace) <= m.trace
      ensures Safe(old(m.Current())) ==> SafeFrom(m.trace, |old(m.trace)|) && Safe(m.Current())
      ensures m.InEpoch() && Later(old(m.epoch), m.epoch, {}, {})
    {
      hide Inner, SM.ValidValues, Compiled, Covers;
      if replace {
        ok := m.ReplaceBPFMaps(id, rules.allowed);
      } else {
        ok := m.GenerateBPFMaps(id, rules.allowed);
      }
      if ok {
        m.UpdatePolicySettings(id, mode.Code(), rules.allowForeignRoot);
      }
    }

    /** Removes everything a policy id stands for; safe exactly when nothing is bound to it any more. */
    method ClearPolicyIDFromBPF(id: PolicyID)
      requires |m.strings| == SM.NUM_SUB_MAPS && m.InEpoch()
      modifies m`settings, m`strings, m`trace, m`epoch
      ensures m.settings == old(m.settings) - {id} && |m.strings| == SM.NUM_SUB_MAPS && NoStrings(m.strings, id)
      ensures OthersSame(old(m.settings), old(m.strings), m.settings, m.strings, {id})
      ensures old(m.trace) < m.trace && m.trace[|m.trace| - 1] == m.Current()
      ensures Safe(old(m.Current())) && (forall g | g in m.cgToPolicy :: m.cgToPolicy[g] != id) ==>
                SafeFrom(m.trace, |old(m.trace)|) && Safe(m.Current())
      ensures m.InEpoch() && Later(old(m.epoch), m.epoch, {}, {id})
    {
      hide Inner, Covers;
      m.RemoveBPFMaps(id);
      m.DeletePolicySettings(id);
    }

    /** Forgets one id: first what is bound to it, then what it stands for. */
    method ForgetID(id: PolicyID)
      requires |m.strings| == SM.NUM_SUB_MAPS && m.InEpoch() && id != 0
      modifies m`cgToPolicy, m`settings, m`strings, m`trace, m`epoch
      ensures m.cgToPolicy == map g | g in old(m.cgToPolicy) && old(m.cgToPolicy)[g] != id :: old(m.cgToPolicy)[g]
      ensures m.settings == old(m.settings) - {id} && |m.strings| == SM.NUM_SUB_MAPS && NoStrings(m.strings, id)
      ensures OthersSame(old(m.settings), old(m.strings), m.settings, m.strings, {id})
      ensures old(m.trace) <= m.trace
      ensures Safe(old(m.Current())) ==> SafeFrom(m.trace, |old(m.trace)|) && Safe(m.Current())
      ensures m.InEpoch() && Later(old(m.epoch), m.epoch, {}, {id})
    {
      hide OthersSame, NoStrings, Covers, Within;
      var ok := m.RemovePolicyFromCgroups(id);
      label unbound_:
      if Safe(old(m.Current())) {
        SmallerIsSafe(old(m.Current()), m.trace, |old(m.trace)|, m.Current());
      }
      ClearPolicyIDFromBPF(id);
      TraceSplit(m.trace, |old(m.trace)|, |old@unbound_(m.trace)|, old@unbound_(m.trace));
    }

    /** Forgets a policy: first its bindings, then what its ids stand for. */
    method HandleWPDelete(key: WpKey)
      requires Valid()
      modifies this`wpState, this`retired, m`cgToPolicy, m`settings, m`strings, m`trace, m`epoch
      ensures Valid() && wpState == old(wpState) - {key}
      ensures retired == old(retired) + OldPolicy(old(wpState), key).Values
      ensures key !in old(wpState) ==> m.cgToPolicy == old(m.cgToPolicy)
      ensures key in old(wpState) ==> Unbound(old(m.cgToPolicy), m.cgToPolicy, old(wpState)[key].polByContainer.Values)
      ensures key in old(wpState) ==>
                Wiped(old(m.settings), m.settings, m.strings, old(wpState)[key].polByContainer.Values)
      ensures old(m.trace) <= m.trace && SafeFrom(m.trace, |old(m.trace)|)
      ensures TwoReads(old(m.Current()), m.trace, |old(m.trace)|, |m.trace|, m.Current()) <==>
              NoneHeld(old(m.cgToPolicy), OldPolicy(old(wpState), key), map[])
      ensures Finds(old(m.Current()), m.Current()) ==> NoneHeld(old(m.cgToPolicy), OldPolicy(old(wpState), key), map[])
    {
      hide CacheInv, IdsOk, DataOk, ReadyOk, Safe, OthersSame, Unbound, Wiped, NoStrings, Covers, TwoReads, NoneHeld,
        Finds;
      BoundHaveSettings(podCache, cgroupIDToPodID, wpState, unbound, nextPolicyID, m.Current());
      StringsSized(wpState, nextPolicyID, m.settings, m.strings);
      m.Mark();
      if key !in wpState {
        assert wpState - {key} == wpState;
        NothingDropped(m.epoch, m.trace, |old(m.trace)|, old(m.Current()));
        NothingHeld(m.cgToPolicy);
        return;
      }
      var pol := wpState[key].polByContainer;
      OwnedIds(wpState, nextPolicyID, owner, retired, key);
      wpState := wpState - {key};
      ForgetAll(pol);
      DeleteIff(m.epoch, m.trace, |old(m.trace)|, old(m.Current()), pol);
      retired := retired + pol.Values;
      PolicyDeleted(podCache, cgroupIDToPodID, old(wpState), old(m.cgToPolicy), unbound, m.cgToPolicy,
                    nextPolicyID, owner, old(retired), key);
      PolicyDataDeleted(old(wpState), nextPolicyID, owner, old(retired), specs, old(m.settings), old(m.strings),
                        m.settings, m.strings, m.longKeys, key);
    }

    /** Forgets the ids of a policy, in any order. */
    method ForgetAll(pol: PolicyByContainer)
      requires |m.strings| == SM.NUM_SUB_MAPS && m.InEpoch() && Safe(m.Current()) && forall n | n in pol :: pol[n] != 0
      modifies m`cgToPolicy, m`settings, m`strings, m`trace, m`epoch
      ensures Unbound(old(m.cgToPolicy), m.cgToPolicy, pol.Values)
      ensures OthersSame(old(m.settings), old(m.strings), m.settings, m.strings, pol.Values)
      ensures |m.strings| == SM.NUM_SUB_MAPS && Wiped(old(m.settings), m.settings, m.strings, pol.Values)
      ensures old(m.trace) <= m.trace && SafeFrom(m.trace, |old(m.trace)|)
      ensures m.InEpoch() && Later(old(m.epoch), m.epoch, {}, pol.Values)
    {
      hide Safe, OthersSame, Unbound, Wiped, NoStrings, Covers, Later;
      ghost var ids: set<PolicyID> := {};
      NothingUnbound(m.cgToPolicy);
      NothingTouched(m.settings, m.strings);
      NothingWiped(m.settings, m.strings);
      LaterNone(m.epoch, pol.Values);
      var todo := pol.Keys;
      while todo != {}
        invariant todo <= pol.Keys && ids == set n | n in pol && n !in todo :: pol[n]
        invariant Unbound(old(m.cgToPolicy), m.cgToPolicy, ids)
        invariant OthersSame(old(m.settings), old(m.strings), m.settings, m.strings, ids)
                  && |m.strings| == SM.NUM_SUB_MAPS
        invariant Wiped(old(m.settings), m.settings, m.strings, ids)
        invariant old(m.trace) <= m.trace && SafeFrom(m.trace, |old(m.trace)|) && Safe(m.Current())
        invariant m.InEpoch() && Later(old(m.epoch), m.epoch, {}, pol.Values)
      {
        var n :| n in todo;
        label before:
        ForgetID(pol[n]);
        UnboundNext(old(m.cgToPolicy), old@before(m.cgToPolicy), ids, pol[n], m.cgToPolicy);
        TouchedNext(old(m.settings), old(m.strings), old@before(m.settings), old@before(m.strings), m.settings,
                    m.strings, ids, pol[n]);
        WipedNext(old(m.settings), old@before(m.settings), old@before(m.strings), m.settings, m.strings, ids, pol[n]);
        LaterMore(old@before(m.epoch), m.epoch, {}, {pol[n]}, {}, pol.Values);
        LaterTwice(old(m.epoch), old@before(m.epoch), m.epoch, {}, pol.Values);
        todo, ids := todo - {n}, ids + {pol[n]};
      }
      assert ids == pol.Values;
    }

    method AllocPolicyID(ghost key: WpKey, ghost c: string) returns (id: PolicyID)
      modifies this`nextPolicyID, this`owner
      ensures id == old(nextPolicyID) && nextPolicyID == id + 1 && owner == old(owner)[id := (key, c)]
    {
      id := nextPolicyID;
      nextPolicyID := nextPolicyID + 1;
      owner := owner[id := (key, c)];
    }

    ghost function Now(): Start
      reads this, m
    {
      Start(nextPolicyID, owner, m.settings, m.strings)
    }

    /** Compiles every container of the spec, issuing ids to the new ones; stops at the first bad string. */
    method SyncWorkloadPolicy(spec: WorkloadPolicy)
      returns (ok: bool, newContainers: PolicyByContainer, ghost done: set<string>)
      requires PoliciesOk() && spec.key in wpState && m.InEpoch()
      modifies this`nextPolicyID, this`owner, m`settings, m`strings, m`trace, m`epoch
      ensures ok <==> SpecValid(spec, m.longKeys)
      ensures newContainers.Keys <= spec.rules.Keys && (ok ==> done == spec.rules.Keys)
      ensures Syncing(spec, wpState[spec.key].polByContainer, newContainers, old(Now()), Now(), done, m.longKeys)
      ensures old(m.trace) <= m.trace && m.InEpoch() && Later(old(m.epoch), m.epoch, {}, {})
    {
      hide IdsOk, DataOk, ReadyOk, Safe, SafeFrom, OthersSame, Syncing, Enforced, SM.ValidValues, Covers, Later;
      LaterNone(m.epoch, {});
      var pol := wpState[spec.key].polByContainer;
      newContainers, done := map[], {};
      SyncStart(wpState, retired, Now(), spec, m.longKeys);
      var todo := spec.rules.Keys;
      while todo != {}
        invariant todo <= spec.rules.Keys && done == spec.rules.Keys - todo && newContainers.Keys <= done
        invariant forall c | c in done :: SM.ValidValues(spec.rules[c].allowed, m.longKeys)
        invariant Syncing(spec, pol, newContainers, old(Now()), Now(), done, m.longKeys)
                  && |m.strings| == SM.NUM_SUB_MAPS
        invariant old(m.trace) <= m.trace && m.InEpoch() && Later(old(m.epoch), m.epoch, {}, {})
      {
        var c :| c in todo;
        var id;
        if c in pol {
          id := pol[c];
        } else {
          SyncingId(spec, wpState, newContainers, old(Now()), Now(), done, m.longKeys, c);
          id := AllocPolicyID(spec.key, c);
          newContainers := newContainers[c := id];
        }
        ghost var now, e := Now(), m.epoch;
        var put := UpsertPolicyIDInBPF(id, spec.rules[c], spec.mode, c in pol);
        LaterTwice(old(m.epoch), e, m.epoch, {}, {});
        if !put {
          assert Now() == now;
          return false, newContainers, done;
        }
        NewDisjoint(spec, pol, newContainers, old(Now()), now, done, m.longKeys);
        SyncingData(spec, pol, newContainers, old(Now()), now, Now(), done, m.longKeys, c);
        todo, done := todo - {c}, done + {c};
      }
      return true, newContainers, done;
    }

    /**
     Unbinds the containers of a pod that the spec dropped, and clears their ids at once
     although containers of other pods may still be bound to them.
     */
    method RemovePolicyFromPod(pod: PodEntry, polByContainer: PolicyByContainer, removed: PolicyByContainer,
                               ghost n: string, ghost g1: CgroupID, ghost g2: CgroupID)
      returns (pol: PolicyByContainer)
      requires |m.strings| == SM.NUM_SUB_MAPS && m.InEpoch()
      modifies m`cgToPolicy, m`settings, m`strings, m`trace, m`epoch
      ensures Stripped(pod, removed, pod.containers.Keys, polByContainer, pol, old(m.Current()), m.Current())
      ensures old(m.trace) <= m.trace
      ensures Safe(old(m.Current())) && SoleHolders(old(m.cgToPolicy), pod, removed) ==>
                SafeFrom(m.trace, |old(m.trace)|) && Safe(m.Current())
      ensures SharedOutcome(old(m.cgToPolicy), m.cgToPolicy, pod, removed, pod.containers.Keys, n, g1, g2,
                            SafeFrom(m.trace, |old(m.trace)|))
      ensures m.InEpoch() && Later(old(m.epoch), m.epoch, {}, removed.Values)
    {
      hide Stripped, Shared, OwnBindings, Safe, OthersSame, SoleHolders, NoStrings, Covers, Later;
      LaterNone(m.epoch, removed.Values);
      pol := polByContainer;
      StrippedNone(pod, removed, pol, m.Current());
      ghost var done: set<string> := {};
      var todo := pod.containers.Keys;
      while todo != {}
        invariant todo <= pod.containers.Keys && done == pod.containers.Keys - todo && |m.strings| == SM.NUM_SUB_MAPS
        invariant Stripped(pod, removed, done, polByContainer, pol, old(m.Current()), m.Current())
        invariant old(m.trace) <= m.trace
        invariant Safe(old(m.Current())) && SoleHolders(old(m.cgToPolicy), pod, removed) ==>
                    SafeFrom(m.trace, |old(m.trace)|) && Safe(m.Current()) && SoleHolders(m.cgToPolicy, pod, removed)
        invariant SharedOutcome(old(m.cgToPolicy), m.cgToPolicy, pod, removed, done, n, g1, g2,
                                SafeFrom(m.trace, |old(m.trace)|))
        invariant m.InEpoch() && Later(old(m.epoch), m.epoch, {}, removed.Values)
      {
        hide SharedOutcome;
        var c :| c in todo;
        var meta := pod.containers[c];
        label before:
        if meta.name in removed {
          RemoveContainer(pod, removed, c, n, g1, g2);
          LaterTwice(old(m.epoch), old@before(m.epoch), m.epoch, {}, removed.Values);
          TraceSplit(m.trace, |old(m.trace)|, |old@before(m.trace)|, old@before(m.trace));
        }
        StrippedNext(pod, removed, done, polByContainer, pol, old(m.Current()), old@before(m.Current()), c,
                     m.Current());
        SharedOutcomeNext(old(m.cgToPolicy), old@before(m.cgToPolicy), pod, removed, done, n, g1, g2,
                          SafeFrom(old@before(m.trace), |old(m.trace)|), c, m.cgToPolicy,
                          SafeFrom(m.trace, |old(m.trace)|));
        if meta.name in removed {
          pol := pol - {meta.name};
        }
        todo, done := todo - {c}, done + {c};
      }
      assert done == pod.containers.Keys;
    }

    /** One dropped container: its binding, then everything its id stands for. */
    method RemoveContainer(pod: PodEntry, removed: PolicyByContainer, c: string, ghost n: string, ghost g1: CgroupID,
                           ghost g2: CgroupID)
      requires |m.strings| == SM.NUM_SUB_MAPS && c in pod.containers && pod.containers[c].name in removed && m.InEpoch()
      modifies m`cgToPolicy, m`settings, m`strings, m`trace, m`epoch
      ensures m.cgToPolicy == old(m.cgToPolicy) - {pod.containers[c].cgroup}
      ensures m.settings == old(m.settings) - {removed[pod.containers[c].name]} && |m.strings| == SM.NUM_SUB_MAPS
      ensures NoStrings(m.strings, removed[pod.containers[c].name])
      ensures OthersSame(old(m.settings), old(m.strings), m.settings, m.strings, {removed[pod.containers[c].name]})
      ensures old(m.trace) <= m.trace
      ensures Safe(old(m.Current())) && SoleHolders(old(m.cgToPolicy), pod, removed) ==>
                SafeFrom(m.trace, |old(m.trace)|) && Safe(m.Current()) && SoleHolders(m.cgToPolicy, pod, removed)
      ensures OwnBindings(old(m.cgToPolicy), pod, removed) ==> OwnBindings(m.cgToPolicy, pod, removed)
      ensures OwnBindings(old(m.cgToPolicy), pod, removed) && Shared(old(m.cgToPolicy), removed, n, g1, g2) ==>
                if pod.containers[c].name == n then !SafeFrom(m.trace, |old(m.trace)|)
                else Shared(m.cgToPolicy, removed, n, g1, g2)
      ensures m.InEpoch() && Later(old(m.epoch), m.epoch, {}, removed.Values)
    {
      hide OthersSame, NoStrings, Covers;
      var meta := pod.containers[c];
      label before:
      m.UnbindCgroup(meta.cgroup);
      if Shared(old(m.cgToPolicy), removed, n, g1, g2) && OwnBindings(old(m.cgToPolicy), pod, removed) {
        SharedKept(old(m.cgToPolicy), m.cgToPolicy, pod, removed, n, g1, g2, c);
      }
      ClearPolicyIDFromBPF(removed[meta.name]);
    }

    /** Moves one matching pod over to the spec: strips what was dropped, then binds what is in it. */
    method MovePod(p: string, key: WpKey, polByContainer: PolicyByContainer, applied: PolicyByContainer,
                   removed: PolicyByContainer,
                   ghost wp: Policies, ghost done: set<string>, ghost u0: set<CgroupID>, ghost u: set<CgroupID>,
                   ghost n: string, ghost g1: CgroupID, ghost g2: CgroupID)
      returns (pol: PolicyByContainer, ghost mid: Maps)
      requires Moving(podCache, cgroupIDToPodID, wp, key, applied, removed, done, u0, m.cgToPolicy, u)
      requires p in podCache && podCache[p].MatchPolicy(key) && p !in done && Injective(wp[key].polByContainer)
      requires (forall c | c in applied :: applied[c] != 0 && applied[c] in m.settings)
               && |m.strings| == SM.NUM_SUB_MAPS && m.InEpoch()
      modifies m`cgToPolicy, m`settings, m`strings, m`trace, m`epoch
      ensures Stripped(podCache[p], removed, podCache[p].containers.Keys, polByContainer, pol, old(m.Current()), mid)
      ensures AppliedTo(podCache[p], applied, podCache[p].containers.Keys, mid.cgToPolicy, m.cgToPolicy)
      ensures m.settings == mid.settings && m.strings == mid.strings
              && forall c | c in applied :: applied[c] in m.settings
      ensures old(m.trace) <= m.trace
      ensures u0 == {} && NoneShared(old(m.cgToPolicy), removed) && Safe(old(m.Current())) ==>
                NoneShared(m.cgToPolicy, removed) && SafeFrom(m.trace, |old(m.trace)|) && Safe(m.Current())
      ensures Shared(old(m.cgToPolicy), removed, n, g1, g2) && SafeFrom(m.trace, |old(m.trace)|) ==>
                Shared(m.cgToPolicy, removed, n, g1, g2)
      ensures m.InEpoch() && Later(old(m.epoch), m.epoch, applied.Values, removed.Values)
    {
      hide CacheInv, Moved, Outside, Waiting, OthersAsBefore, Split, Injective, Safe, Shared, NoneShared, SafeFrom,
        OthersSame, NoStrings, GroupsOf, NamesOf, IdsOf, AppliedTo, NoClash, SoleHolders, OwnBindings, Covers, Later;
      var pod := podCache[p];
      ghost var b, gs := m.cgToPolicy, GroupsOf(pod, pod.containers.Keys, removed);
      WaitingHolders(podCache, cgroupIDToPodID, wp, key, applied, removed, done, u0, b, u, p);
      pol := RemovePolicyFromPod(pod, polByContainer, removed, n, g1, g2);
      mid := m.Current();
      assert mid.cgToPolicy == b - gs;
      StripJoin(podCache, cgroupIDToPodID, wp, b, u, gs);
      SplitSub(wp[key].polByContainer, applied, removed);
      MovingNoClash(podCache, cgroupIDToPodID, wp, b - gs, u + gs, key, applied, p);
      AppliedSurvive(pod, wp[key].polByContainer, applied, removed, old(m.settings), m.settings);
      label stripped:
      var ok := ApplyPolicyToPod(pod, applied);
      if !ok {
        assert false; // overlapping policies cannot happen
      }
      TraceSplit(m.trace, |old(m.trace)|, |old@stripped(m.trace)|, old@stripped(m.trace));
      LaterMore(old(m.epoch), old@stripped(m.epoch), {}, removed.Values, applied.Values, removed.Values);
      LaterMore(old@stripped(m.epoch), m.epoch, applied.Values, {}, applied.Values, removed.Values);
      LaterTwice(old(m.epoch), old@stripped(m.epoch), m.epoch, applied.Values, removed.Values);
      if NoneShared(b, removed) {
        NoneSharedKept(b, pod, wp[key].polByContainer, applied, removed, gs, m.cgToPolicy);
      }
      if Shared(mid.cgToPolicy, removed, n, g1, g2) {
        SharedApplied(mid.cgToPolicy, pod, wp[key].polByContainer, applied, removed, m.cgToPolicy, n, g1, g2);
      }
    }

    /** Moves every matching pod over to the spec, in any order. */
    method MovePods(key: WpKey, polByContainer: PolicyByContainer, applied: PolicyByContainer,
                    removed: PolicyByContainer,
                    ghost wp: Policies, ghost u0: set<CgroupID>, ghost u: set<CgroupID>, ghost n: string,
                    ghost g1: CgroupID, ghost g2: CgroupID)
      returns (pol: PolicyByContainer, ghost done: set<string>, ghost seen: set<string>, ghost u': set<CgroupID>)
      requires Moving(podCache, cgroupIDToPodID, wp, key, applied, removed, {}, u0, m.cgToPolicy, u)
      requires Injective(wp[key].polByContainer) && Safe(m.Current()) && |m.strings| == SM.NUM_SUB_MAPS && m.InEpoch()
      requires forall c | c in applied :: applied[c] != 0 && applied[c] in m.settings
      modifies m`cgToPolicy, m`settings, m`strings, m`trace, m`epoch
      ensures Moving(podCache, cgroupIDToPodID, wp, key, applied, removed, done, u0, m.cgToPolicy, u')
      ensures AllMoved(podCache, key, done)
      ensures Underway(podCache, key, polByContainer, removed, done, seen, pol, old(m.Current()), m.Current())
      ensures old(m.trace) <= m.trace
      ensures u0 == {} && NoneShared(old(m.cgToPolicy), removed) ==> SafeFrom(m.trace, |old(m.trace)|)
      ensures Shared(old(m.cgToPolicy), removed, n, g1, g2) && SafeFrom(m.trace, |old(m.trace)|) ==>
                Shared(m.cgToPolicy, removed, n, g1, g2)
      ensures m.InEpoch() && Later(old(m.epoch), m.epoch, applied.Values, removed.Values)
    {
      hide Moving, Injective, Safe, Shared, NoneShared, Underway, Stripped, AppliedTo, Covers, Later;
      LaterNone(m.epoch, removed.Values);
      LaterMore(m.epoch, m.epoch, {}, removed.Values, applied.Values, removed.Values);
      pol, done, seen, u' := polByContainer, {}, {}, u;
      UnderwayStart(podCache, key, pol, removed, m.Current());
      var todo := podCache.Keys;
      while todo != {}
        invariant todo <= podCache.Keys && done !! todo && |m.strings| == SM.NUM_SUB_MAPS
        invariant forall p | p in podCache && podCache[p].MatchPolicy(key) :: p in done || p in todo
        invariant Moving(podCache, cgroupIDToPodID, wp, key, applied, removed, done, u0, m.cgToPolicy, u')
        invariant Underway(podCache, key, polByContainer, removed, done, seen, pol, old(m.Current()), m.Current())
        invariant forall c | c in applied :: applied[c] in m.settings
        invariant old(m.trace) <= m.trace
        invariant u0 == {} && NoneShared(old(m.cgToPolicy), removed) ==>
                    NoneShared(m.cgToPolicy, removed) && SafeFrom(m.trace, |old(m.trace)|) && Safe(m.Current())
        invariant Shared(old(m.cgToPolicy), removed, n, g1, g2) && SafeFrom(m.trace, |old(m.trace)|) ==>
                    Shared(m.cgToPolicy, removed, n, g1, g2)
        invariant m.InEpoch() && Later(old(m.epoch), m.epoch, applied.Values, removed.Values)
      {
        var p :| p in todo;
        todo := todo - {p};
        if podCache[p].MatchPolicy(key) {
          label before:
          ghost var was := pol;
          ghost var mid;
          pol, mid := MovePod(p, key, pol, applied, removed, wp, done, u0, u', n, g1, g2);
          LaterTwice(old(m.epoch), old@before(m.epoch), m.epoch, applied.Values, removed.Values);
          StrippedBindings(podCache[p], removed, was, pol, old@before(m.Current()), mid);
          TraceSplit(m.trace, |old(m.trace)|, |old@before(m.trace)|, old@before(m.trace));
          MovingNext(podCache, cgroupIDToPodID, wp, key, applied, removed, done, u0, old@before(m.cgToPolicy), u', p,
                     m.cgToPolicy);
          UnderwayNext(podCache, key, polByContainer, removed, done, seen, was, old(m.Current()),
                       old@before(m.Current()), p, pol, mid, m.Current());
          seen := seen + NamesOf(podCache[p], podCache[p].containers.Keys, removed);
          u', done := After(podCache[p], applied, removed, u'), done + {p};
        }
      }
    }

    /** Splits the policy and moves every matching pod over to the spec. */
    method SplitAndMove(spec: WorkloadPolicy, newContainers: PolicyByContainer, ghost from: Start)
      returns (pol: PolicyByContainer, ghost applied: PolicyByContainer, ghost removed: PolicyByContainer,
               ghost done: set<string>,
               ghost seen: set<string>, ghost u: set<CgroupID>, ghost n: string, ghost g1: CgroupID, ghost g2: CgroupID)
      requires CachesOk() && spec.key in wpState && spec.key.name != "" && Safe(m.Current())
      requires IdsOk(wpState, from.next, from.owner, retired) && newContainers.Keys <= spec.rules.Keys
      requires Syncing(spec, wpState[spec.key].polByContainer, newContainers, from, Now(), spec.rules.Keys, m.longKeys)
      modifies m`cgToPolicy, m`settings, m`strings, m`trace, m`epoch
      ensures SubPolicy(removed, wpState[spec.key].polByContainer + newContainers)
      ensures removed.Keys == (wpState[spec.key].polByContainer + newContainers).Keys - spec.rules.Keys
      ensures Moving(podCache, cgroupIDToPodID,
                     WithPol(wpState, spec.key, wpState[spec.key].polByContainer + newContainers), spec.key,
                     applied, removed, done, unbound, m.cgToPolicy, u)
      ensures AllMoved(podCache, spec.key, done)
      ensures Underway(podCache, spec.key, wpState[spec.key].polByContainer + newContainers, removed, done, seen, pol,
                       old(m.Current()), m.Current())
      ensures old(m.trace) <= m.trace
      ensures !NoneShared(old(m.cgToPolicy), removed) ==> Shared(old(m.cgToPolicy), removed, n, g1, g2)
      ensures unbound == {} && NoneShared(old(m.cgToPolicy), removed) ==> SafeFrom(m.trace, |old(m.trace)|)
      ensures Shared(old(m.cgToPolicy), removed, n, g1, g2) && SafeFrom(m.trace, |old(m.trace)|) ==>
                Shared(m.cgToPolicy, removed, n, g1, g2)
      ensures m.InEpoch()
      ensures NoneHeld(old(m.cgToPolicy), wpState[spec.key].polByContainer + newContainers, spec.rules) ==>
                TwoReads(old(m.Current()), m.trace, |old(m.trace)|, |m.trace|, m.Current())
    {
      hide CacheInv, IdsOk, Safe, SafeFrom, Syncing, MatchingCgroups, Moving, Shared, NoneShared,
        AllMoved, Underway, Injective, Split, SubPolicy, NewIds, Covers, Later, TwoReads, NoneHeld;
      m.Mark();
      pol := wpState[spec.key].polByContainer + newContainers;
      SyncingIds(spec, wpState[spec.key].polByContainer, newContainers, from, Now(), spec.rules.Keys, m.longKeys);
      IssuedTo(wpState, spec.key, retired, newContainers, from, Now());
      var applied', removed' := SplitPolicy(pol, spec.rules);
      applied, removed := applied', removed';
      SplitSub(pol, applied, removed);
      AppliedIssued(pol, applied, m.settings, spec.rules);
      MovingStart(podCache, cgroupIDToPodID, wpState, m.cgToPolicy, unbound, spec.key, newContainers, applied, removed);
      n, g1, g2 := PickShared(m.cgToPolicy, removed);
      pol, done, seen, u := MovePods(spec.key, pol, applied', removed', WithPol(wpState, spec.key, pol), unbound,
                                     unbound + (MatchingCgroups(podCache, spec.key) - m.cgToPolicy.Keys), n, g1, g2);
      ghost var all := wpState[spec.key].polByContainer + newContainers;
      if NoneHeld(old(m.cgToPolicy), all, spec.rules) {
        MoveFinds(m.epoch, m.trace, |old(m.trace)|, old(m.Current()), all, applied, removed, spec.rules);
      }
    }

    /** After a successful sync: moves the pods and marks the policy READY. */
    method MoveMatching(spec: WorkloadPolicy, newContainers: PolicyByContainer, ghost from: Start)
      requires CachesOk() && spec.key in wpState && spec.key.name != "" && Safe(m.Current())
      requires IdsOk(wpState, from.next, from.owner, retired) && DataOk(wpState, from.next, from.settings, from.strings)
      requires ReadyOk(wpState, specs, from.settings, from.strings, m.longKeys)
      requires Syncing(spec, wpState[spec.key].polByContainer, newContainers, from, Now(), spec.rules.Keys, m.longKeys)
      requires newContainers.Keys <= spec.rules.Keys
      modifies this`wpState, this`unbound, this`specs, this`retired, m`cgToPolicy, m`settings, m`strings, m`trace,
               m`epoch
      ensures Valid() && spec.key in wpState && wpState == old(wpState)[spec.key := wpState[spec.key]]
      ensures wpState[spec.key].state.Ready? && specs == old(specs)[spec.key := spec]
      ensures unbound == old(unbound) - MatchingCgroups(podCache, spec.key)
      ensures Reconciled(podCache, spec.key, old(wpState)[spec.key].polByContainer, spec.rules,
                         wpState[spec.key].polByContainer)
      ensures GivenUpWiped(old(wpState)[spec.key].polByContainer, wpState[spec.key].polByContainer, m.settings,
                           m.strings)
      ensures old(retired) <= retired && old(m.trace) <= m.trace
      ensures old(unbound) == {} ==>
                (SafeFrom(m.trace, |old(m.trace)|) <==>
                 NoSharedDrop(podCache, spec.key, old(wpState)[spec.key].polByContainer, spec.rules))
      ensures NoneHeld(old(m.cgToPolicy), old(wpState)[spec.key].polByContainer + newContainers, spec.rules) ==>
                TwoReads(old(m.Current()), m.trace, |old(m.trace)|, |m.trace|, m.Current())
    {
      hide CacheInv, IdsOk, DataOk, ReadyOk, Safe, SafeFrom, Syncing, Reconciled, GivenUpWiped, NoSharedDrop,
        MatchingCgroups, Moving, Shared,
        NoneShared, AllMoved, GivenUp, IdsNamed, OthersSame, SubPolicy, NewIds, Injective, Wiped, Covers, TwoReads,
        NoneHeld;
      ghost var mid, b := Now(), m.cgToPolicy;
      SyncingIds(spec, wpState[spec.key].polByContainer, newContainers, from, mid, spec.rules.Keys, m.longKeys);
      var pol;
      ghost var applied, removed, done, seen, u, n, g1, g2;
      pol, applied, removed, done, seen, u, n, g1, g2 := SplitAndMove(spec, newContainers, from);
      Finish(podCache, cgroupIDToPodID, wpState, retired, specs, spec, newContainers, from, mid, Now(), m.longKeys,
             applied, removed, done, unbound, m.cgToPolicy, u, seen);
      if unbound == {} {
        SafeIff(podCache, cgroupIDToPodID, wpState, spec.key, newContainers, spec.rules, applied, removed, done, b,
                m.cgToPolicy, u,
                retired, from, mid, n, g1, g2, SafeFrom(m.trace, |old(m.trace)|));
      }
      retired := retired + IdsNamed(wpState[spec.key].polByContainer + newContainers, seen);
      wpState := WithInfo(wpState, spec.key, WpInfo(pol, Ready));
      specs := specs[spec.key := spec];
      unbound := unbound - MatchingCgroups(podCache, spec.key);
    }

    /** Enforces a workload policy as its spec says, on every matching pod. */
    method ReconcileWP(spec: WorkloadPolicy) returns (ok: bool)
      requires Valid() && spec.key.name != ""
      modifies this`wpState, this`nextPolicyID, this`unbound, this`specs, this`owner, this`retired
      modifies m`cgToPolicy, m`settings, m`strings, m`trace, m`epoch
      ensures Valid() && (ok <==> SpecValid(spec, m.longKeys))
      ensures spec.key in wpState && wpState == old(wpState)[spec.key := wpState[spec.key]]
      ensures ok ==> wpState[spec.key].state.Ready? && specs == old(specs)[spec.key := spec]
      ensures ok ==> unbound == old(unbound) - MatchingCgroups(podCache, spec.key)
      ensures ok ==>
                Reconciled(podCache, spec.key, OldPolicy(old(wpState), spec.key), spec.rules,
                           wpState[spec.key].polByContainer)
      ensures ok ==>
                GivenUpWiped(OldPolicy(old(wpState), spec.key), wpState[spec.key].polByContainer, m.settings, m.strings)
      ensures !ok ==> wpState[spec.key] == WpInfo(OldPolicy(old(wpState), spec.key), Failed)
      ensures !ok ==> specs == old(specs) && unbound == old(unbound) && m.cgToPolicy == old(m.cgToPolicy)
      ensures forall id | id in old(owner) :: id in owner && owner[id] == old(owner)[id]
      ensures old(retired) <= retired && old(m.trace) <= m.trace
      ensures !ok ==>
                SafeFrom(m.trace, |old(m.trace)|) && forall id | old(nextPolicyID) <= id < nextPolicyID :: id in retired
      ensures ok && old(unbound) == {} ==>
                (SafeFrom(m.trace, |old(m.trace)|) <==>
                 NoSharedDrop(podCache, spec.key, OldPolicy(old(wpState), spec.key), spec.rules))
      ensures TwoReads(old(m.Current()), m.trace, |old(m.trace)|, |m.trace|, m.Current()) <==>
              !ok || NoneHeld(old(m.cgToPolicy), OldPolicy(old(wpState), spec.key), spec.rules)
      ensures ok && Finds(old(m.Current()), m.Current()) ==>
                NoneHeld(old(m.cgToPolicy), OldPolicy(old(wpState), spec.key), spec.rules)
    {
      hide CacheInv, IdsOk, DataOk, ReadyOk, Safe, SafeFrom, Syncing, SpecValid, Reconciled, GivenUpWiped, NoSharedDrop,
        MatchingCgroups, Covers, TwoReads, NoneHeld, Later, Finds;
      Register(spec.key);
      m.Mark();
      label start:
      BoundHaveSettings(podCache, cgroupIDToPodID, wpState, unbound, nextPolicyID, m.Current());
      ghost var from := Now();
      var newContainers;
      ghost var done;
      ok, newContainers, done := SyncWorkloadPolicy(spec);
      SyncingOwners(spec, wpState, newContainers, from, Now(), done, m.longKeys, retired);
      ghost var e := m.epoch;
      NothingBoundDropped(e, m.trace, |old(m.trace)|, old(m.Current()));
      if !ok {
        Reject(spec, newContainers, from, done);
        return;
      }
      label synced:
      MoveMatching(spec, newContainers, from);
      ReconcileIff(podCache, cgroupIDToPodID, old@synced(wpState), old(unbound), e, old@synced(m.trace),
                   |old(m.trace)|, old(m.Current()), from, old(retired), spec, newContainers,
                   wpState[spec.key].polByContainer, m.trace, m.Current());
      TraceSplit(m.trace, |old(m.trace)|, |old@synced(m.trace)|, old@synced(m.trace));
    }

    /** An entry for a policy seen for the first time. */
    method Register(key: WpKey)
      requires Valid()
      modifies this`wpState
      ensures Valid() && key in wpState && wpState[key].polByContainer == OldPolicy(old(wpState), key)
      ensures wpState == old(wpState)[key := wpState[key]]
    {
      hide CacheInv, IdsOk, DataOk, ReadyOk;
      if key !in wpState {
        KeyAdded(podCache, cgroupIDToPodID, wpState, m.cgToPolicy, unbound, key);
        KeyAddedPolicies(wpState, specs, retired, Now(), m.longKeys, key);
        wpState := WithInfo(wpState, key, WpInfo(map[], Unset));
      }
    }

    /** After a failed sync: the ids it issued are lost, nothing is bound to them. */
    method Reject(spec: WorkloadPolicy, newContainers: PolicyByContainer, ghost from: Start, ghost done: set<string>)
      requires CachesOk() && spec.key in wpState
      requires IdsOk(wpState, from.next, from.owner, retired) && DataOk(wpState, from.next, from.settings, from.strings)
      requires ReadyOk(wpState, specs, from.settings, from.strings, m.longKeys)
      requires Syncing(spec, wpState[spec.key].polByContainer, newContainers, from, Now(), done, m.longKeys)
               && m.InEpoch()
      modifies this`wpState, this`retired
      ensures Valid() && wpState == old(wpState)[spec.key := WpInfo(old(wpState)[spec.key].polByContainer, Failed)]
      ensures old(retired) <= retired && forall id | from.next <= id < nextPolicyID :: id in retired
    {
      hide CacheInv, IdsOk, DataOk, ReadyOk, Syncing, IdsNamed, OthersSame, Covers;
      var pol := wpState[spec.key].polByContainer;
      SyncingIds(spec, pol, newContainers, from, Now(), done, m.longKeys);
      LostIds(spec, pol, newContainers, from, Now(), done, m.longKeys);
      NothingTouched(m.settings, m.strings);
      PoliciesAfter(wpState, retired, specs, spec, newContainers, from, Now(), Now(), done, m.longKeys, {},
                    newContainers.Keys, Failed);
      SameBindings(podCache, cgroupIDToPodID, wpState, m.cgToPolicy, unbound, spec.key, Failed);
      assert pol + newContainers - newContainers.Keys == pol;
      retired := retired + IdsNamed(pol + newContainers, newContainers.Keys);
      wpState := WithInfo(wpState, spec.key, WpInfo(pol, Failed));
    }
  }
}
