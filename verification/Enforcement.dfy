/**
 What the parts give together: the verdict of the exec hook is the one the workload
 policy specifies, over any run of the resolver.
 */
module Enforcement {
  import opened Bytes
  import opened ExecHook
  import opened BpfManager
  import opened DataProofs
  import opened MoveProofs
  import opened ReconcileProofs
  import opened ResolverState
  import opened ResolverProofs
  import opened Resolver
  import CT = CgTracker
  import PW = PathWalk
  import SM = StringMaps

  /** The verdict a workload policy asks for, said without any map. */
  ghost function SpecVerdict(mode: Mode, rules: Rules, foreign: bool, path: Str, longKeys: bool): int
    requires |path| >= 1
  {
    var breaks := if foreign then !rules.allowForeignRoot
                  else (longKeys || |path| % U16 <= 512) && !HookListed(rules.allowed, path);
    if breaks && mode.Protect? && |path| != PW.PATH_END then -EPERM else 0
  }

  /** Up to 4096 bytes this is plain membership, but for the lengths 121 to 144; without long keys up to 512. */
  lemma PlainVerdict(mode: Mode, rules: Rules, path: Str, longKeys: bool)
    requires 1 <= |path| <= PW.MAX_PATH_LEN
    ensures SpecVerdict(mode, rules, false, path, longKeys) ==
            if mode.Protect? && (longKeys || |path| <= 512) && (path !in rules.allowed || 121 <= |path| <= 144)
            then -EPERM else 0
    ensures SpecVerdict(mode, rules, true, path, longKeys) ==
            if mode.Protect? && !rules.allowForeignRoot then -EPERM else 0
  {
  }

  ghost predicate NulFreeRules(rules: Rules) {
    forall v | v in rules.allowed :: NulFree(v)
  }

  /** Under an id that enforces some rules the hook decides as those rules say. */
  lemma VerdictUnderId(m: Maps, e: Exec, path: Str, longKeys: bool, id: PolicyID, mode: Mode, rules: Rules)
    requires Enforced(id, mode, rules, m.settings, m.strings, longKeys) && NulFreeRules(rules)
    requires |path| >= 1 && NulFree(path)
    requires TrackerId(m, e.cgroup) != 0 && Lookup(m.cgToPolicy, TrackerId(m, e.cgroup)) == Some(id)
    ensures Verdict(m, e, Some(path), longKeys) ==
            if e.bootstrap then 0 else SpecVerdict(mode, rules, e.foreign, path, longKeys)
  {
    hide HookMatch, HookListed, SM.Denotes, SM.ValidValues;
    HookLookupExact(Inner(m.strings, id), rules.allowed, path, longKeys);
  }

  /**
   While an id is written anew, from one mode and rules to others: the hook goes by the mode and the flag of
   one of the two, and by the list of one of the two.
   */
  lemma VerdictDuringUpsert(a: Maps, x: Maps, b: Maps, id: PolicyID, mode: Mode, rules: Rules, mode': Mode,
                            rules': Rules, e: Exec, path: Str, longKeys: bool)
    requires Mixed(a, x, b, id) && id in x.settings && |x.strings| == SM.NUM_SUB_MAPS
    requires Enforced(id, mode, rules, a.settings, a.strings, longKeys) && NulFreeRules(rules)
    requires Enforced(id, mode', rules', b.settings, b.strings, longKeys) && NulFreeRules(rules')
    requires |path| >= 1 && NulFree(path)
    requires TrackerId(x, e.cgroup) != 0 && Lookup(x.cgToPolicy, TrackerId(x, e.cgroup)) == Some(id)
    ensures e.bootstrap ==> Verdict(x, e, Some(path), longKeys) == 0
    ensures var f, f' := rules.allowForeignRoot, rules'.allowForeignRoot;
            !e.bootstrap ==> Verdict(x, e, Some(path), longKeys) in
                               {SpecVerdict(mode, Rules(rules.allowed, f), e.foreign, path, longKeys),
                                SpecVerdict(mode, Rules(rules'.allowed, f), e.foreign, path, longKeys),
                                SpecVerdict(mode', Rules(rules.allowed, f'), e.foreign, path, longKeys),
                                SpecVerdict(mode', Rules(rules'.allowed, f'), e.foreign, path, longKeys)}
  {
    hide HookMatch, HookListed, SM.Denotes, SM.ValidValues, Between;
    HookLookupExact(Inner(a.strings, id), rules.allowed, path, longKeys);
    HookLookupExact(Inner(b.strings, id), rules'.allowed, path, longKeys);
    LookupDuringReplace(Inner(a.strings, id), Inner(x.strings, id), Inner(b.strings, id), path,
                        Zeros(PW.MAX_PATH_LEN));
  }

  /** The pod carries the policy label with this value. */
  ghost predicate Labelled(meta: PodMeta, policy: string) {
    POLICY_LABEL_KEY in meta.labels && meta.labels[POLICY_LABEL_KEY] == policy
  }

  /** The pod asks for no policy, or for one that is not there or has nothing for the container. */
  ghost predicate Uncovered(meta: PodMeta, wp: Policies, name: string) {
    forall policy | Labelled(meta, policy) && policy != "" && WpKey(meta.namespace, policy) in wp ::
      name !in wp[WpKey(meta.namespace, policy)].polByContainer
  }

  /** A container its READY policy covers, and that no rejected re-add left unbound. */
  ghost predicate Covered(pods: Pods, wp: Policies, specs: map<WpKey, WorkloadPolicy>, u: set<CgroupID>, key: WpKey,
                          p: string, c: string) {
    && Cached(pods, p, c) && Labelled(pods[p].meta, key.name) && pods[p].meta.namespace == key.namespace
    && key.name != "" && key in wp && wp[key].state.Ready? && key in specs
    && pods[p].containers[c].name in specs[key].rules && pods[p].containers[c].cgroup !in u
  }

  /** End to end: the hook's verdict on an exec in a covered container is the one of the spec. */
  lemma EnforcedAsSpecified(pods: Pods, index: map<CgroupID, string>, wp: Policies, u: set<CgroupID>,
                            specs: map<WpKey, WorkloadPolicy>,
                            m: Maps, longKeys: bool, key: WpKey, p: string, c: string, e: Exec, path: Str)
    requires CacheInv(pods, index, wp, m.cgToPolicy, u) && ReadyOk(wp, specs, m.settings, m.strings, longKeys)
    requires |m.strings| == SM.NUM_SUB_MAPS && Covered(pods, wp, specs, u, key, p, c)
    requires NulFreeRules(specs[key].rules[pods[p].containers[c].name])
    requires TrackerId(m, e.cgroup) == pods[p].containers[c].cgroup && |path| >= 1 && NulFree(path)
    ensures Verdict(m, e, Some(path), longKeys) ==
            if e.bootstrap then 0 else
            SpecVerdict(specs[key].mode, specs[key].rules[pods[p].containers[c].name], e.foreign, path, longKeys)
  {
    hide Enforced, Verdict, SpecVerdict, NulFreeRules;
    var n := pods[p].containers[c].name;
    assert JoinRow(pods, wp, m.cgToPolicy, u, p, c);
    assert WpKey(pods[p].meta.namespace, pods[p].PolicyName()) == key;
    assert SpecEnforced(wp[key], specs[key], m.settings, m.strings, longKeys);
    VerdictUnderId(m, e, path, longKeys, wp[key].polByContainer[n], specs[key].mode, specs[key].rules[n]);
  }

  /** The same for every cgroup of the container's subtree, once the walk of the subtree has made the tracker exact. */
  lemma EnforcedInSubtree(pods: Pods, index: map<CgroupID, string>, wp: Policies, u: set<CgroupID>,
                          specs: map<WpKey, WorkloadPolicy>,
                          m: Maps, longKeys: bool, key: WpKey, p: string, c: string, e: Exec, path: Str,
                          f: CT.Fs, root: CT.Path, x: CT.Path)
    requires CacheInv(pods, index, wp, m.cgToPolicy, u) && ReadyOk(wp, specs, m.settings, m.strings, longKeys)
    requires |m.strings| == SM.NUM_SUB_MAPS && Covered(pods, wp, specs, u, key, p, c)
    requires NulFreeRules(specs[key].rules[pods[p].containers[c].name]) && |path| >= 1 && NulFree(path)
    requires CT.Exact(f, root, pods[p].containers[c].cgroup) && CT.Alive(f, root, pods[p].containers[c].cgroup)
    requires x in f.live && root <= x && f.live[x] != 0 && m.cgTracker == f.tracker && e.cgroup == f.live[x]
    ensures Verdict(m, e, Some(path), longKeys) ==
            if e.bootstrap then 0 else
            SpecVerdict(specs[key].mode, specs[key].rules[pods[p].containers[c].name], e.foreign, path, longKeys)
  {
    hide ReadyOk, Verdict, SpecVerdict, NulFreeRules, CT.Exact, IsJoin;
    assert pods[p].containers[c].cgroup in index;
    CT.TrackerIdExact(f, root, pods[p].containers[c].cgroup, x, m);
    EnforcedAsSpecified(pods, index, wp, u, specs, m, longKeys, key, p, c, e, path);
  }

  /** A container that no policy binds runs whatever it wants. */
  lemma UnboundRuns(pods: Pods, index: map<CgroupID, string>, wp: Policies, u: set<CgroupID>, m: Maps, longKeys: bool,
                    p: string, c: string, e: Exec, path: Option<Str>)
    requires CacheInv(pods, index, wp, m.cgToPolicy, u) && |m.strings| == SM.NUM_SUB_MAPS
    requires Cached(pods, p, c) && TrackerId(m, e.cgroup) == pods[p].containers[c].cgroup
    requires Uncovered(pods[p].meta, wp, pods[p].containers[c].name) && (path.Some? ==> |path.value| >= 1)
    ensures Verdict(m, e, path, longKeys) == 0
  {
    hide HookMatch, IndexOk;
    assert JoinRow(pods, wp, m.cgToPolicy, u, p, c);
    assert pods[p].PolicyName() != "" ==> Labelled(pods[p].meta, pods[p].PolicyName());
  }

  /** The kernel's bindings depend only on pods and policies, not on how they got there. */
  lemma BindingsDetermined(pods: Pods, index: map<CgroupID, string>, index': map<CgroupID, string>, wp: Policies,
                           b: Bindings, b': Bindings)
    requires CacheInv(pods, index, wp, b, {}) && CacheInv(pods, index', wp, b', {})
    ensures index == index' && b == b'
  {
    hide IndexOk, IsJoin;
    IndexContained(pods, index, index');
    IndexContained(pods, index', index);
    assert index == index';
    hide CacheInv;
    BindingsContained(pods, index, wp, b, b');
    BindingsContained(pods, index, wp, b', b);
    assert b == b';
  }

  lemma IndexContained(pods: Pods, index: map<CgroupID, string>, index': map<CgroupID, string>)
    requires IndexOk(pods, index) && IndexOk(pods, index')
    ensures forall g | g in index :: g in index' && index'[g] == index[g]
  {
    forall g | g in index
      ensures g in index' && index'[g] == index[g]
    {
      assert HasCgroup(pods, index[g], g);
    }
  }

  lemma BindingsContained(pods: Pods, index: map<CgroupID, string>, wp: Policies, b: Bindings, b': Bindings)
    requires CacheInv(pods, index, wp, b, {}) && CacheInv(pods, index, wp, b', {})
    ensures Sub(b, b')
  {
    forall g | g in b
      ensures g in b' && b'[g] == b[g]
    {
      assert HasCgroup(pods, index[g], g);
      var c :| Cached(pods, index[g], c) && pods[index[g]].containers[c].cgroup == g;
      assert JoinRow(pods, wp, b, {}, index[g], c) && JoinRow(pods, wp, b', {}, index[g], c);
    }
  }

  /** Whatever is bound is owned: never 0, never a retired id. */
  lemma BoundIdsLive(pods: Pods, index: map<CgroupID, string>, wp: Policies, b: Bindings, u: set<CgroupID>,
                     next: nat, owner: map<PolicyID, (WpKey, string)>, retired: set<PolicyID>, g: CgroupID)
    requires CacheInv(pods, index, wp, b, u) && IdsOk(wp, next, owner, retired) && g in b
    ensures 1 <= b[g] < next && b[g] !in retired && Owns(wp, owner[b[g]].0, owner[b[g]].1)
  {
    assert HasCgroup(pods, index[g], g);
    var c :| Cached(pods, index[g], c) && pods[index[g]].containers[c].cgroup == g;
    assert JoinRow(pods, wp, b, u, index[g], c);
    assert Owns(wp, WpKey(pods[index[g]].meta.namespace, pods[index[g]].PolicyName()),
                pods[index[g]].containers[c].name);
  }

  /** The reconciled policy has ids for the spec's containers alone exactly when every dropped name was carried. */
  lemma NoStaleIff(pods: Pods, key: WpKey, pol0: PolicyByContainer, rules: map<string, Rules>, pol: PolicyByContainer)
    requires Reconciled(pods, key, pol0, rules, pol)
    ensures pol.Keys == rules.Keys <==> forall n | n in pol0 && n !in rules :: Carried(pods, key, n)
  {
    if pol.Keys != rules.Keys {
      var n :| n in pol && n !in rules;
      assert n in pol0 && !Carried(pods, key, n);
    }
    if n :| n in pol0 && n !in rules && !Carried(pods, key, n) {
      assert n in pol.Keys && n !in rules.Keys;
    }
  }

  /** An operation on the resolver, or a write to the tracker by the kernel's hooks and the walks. */
  datatype Op =
    | Add(pod: PodInput, order: seq<string>)
    | Remove(podID: string, containerID: string)
    | Reconcile(spec: WorkloadPolicy)
    | Delete(key: WpKey)
    | Track(tracker: map<CgroupID, CgroupID>)

  /** What a run is about: the caches, the specs last reconciled, and the bindings in the kernel. */
  datatype State = State(
    pods: Pods,
    index: map<CgroupID, string>,
    policies: Policies,
    specs: map<WpKey, WorkloadPolicy>,
    bindings: Bindings,
    unbound: set<CgroupID>)

  const EMPTY: State := State(map[], map[], map[], map[], map[], {})

  ghost function StateOf(r: ResolverCache): State
    reads r, r.m
  {
    State(r.podCache, r.cgroupIDToPodID, r.wpState, r.specs, r.m.cgToPolicy, r.unbound)
  }

  /** The kernel's bindings are the join of pods and policies. */
  ghost predicate Joined(st: State) {
    CacheInv(st.pods, st.index, st.policies, st.bindings, st.unbound)
  }

  /** Operations that can happen: live cgroups are distinct and not 0, policies have names. */
  predicate Possible(op: Op, pods: Pods, index: map<CgroupID, string>) {
    match op
    case Add(pod, order) => FreshCgroups(pods, index, pod) && Orders(order, pod.containers.Keys)
    case Reconcile(spec) => spec.key.name != ""
    case _ => true
  }

  ghost predicate AddNext(st: State, pod: PodInput, order: seq<string>, st': State) {
    var base := Base(st.pods, pod);
    var left := Left(base.containers, pod.containers, order);
    && st'.policies == st.policies && st'.specs == st.specs
    && st'.pods == st.pods[pod.meta.id := PodEntry(base.meta, Merged(base.containers, pod.containers, left))]
    && if Conflict(st.pods, pod)
       then st'.bindings == st.bindings
            && st'.unbound == st.unbound + CgroupsMerged(base.containers, pod.containers, left)
       else left == {} && st'.unbound == st.unbound - CgroupsOf(st'.pods[pod.meta.id])
  }

  ghost predicate RemoveNext(st: State, podID: string, containerID: string, st': State) {
    if Cached(st.pods, podID, containerID)
    then
      var g := st.pods[podID].containers[containerID].cgroup;
      st' == State(WithoutContainer(st.pods, podID, containerID), st.index - {g}, st.policies, st.specs,
                   st.bindings - {g}, st.unbound - {g})
    else st' == st
  }

  ghost predicate ReconcileNext(st: State, spec: WorkloadPolicy, st': State, longKeys: bool) {
    var pol := OldPolicy(st.policies, spec.key);
    && st'.pods == st.pods && st'.index == st.index
    && spec.key in st'.policies && st'.policies == st.policies[spec.key := st'.policies[spec.key]]
    && if SpecValid(spec, longKeys)
       then
         && st'.policies[spec.key].state.Ready? && st'.specs == st.specs[spec.key := spec]
         && Reconciled(st.pods, spec.key, pol, spec.rules, st'.policies[spec.key].polByContainer)
         && st'.unbound == st.unbound - MatchingCgroups(st.pods, spec.key)
       else
         && st'.policies[spec.key] == WpInfo(pol, Failed) && st'.specs == st.specs
         && st'.bindings == st.bindings && st'.unbound == st.unbound
  }

  ghost predicate DeleteNext(st: State, key: WpKey, st': State) {
    && st' == st.(policies := st.policies - {key}, bindings := st'.bindings)
    && if key in st.policies then Unbound(st.bindings, st'.bindings, st.policies[key].polByContainer.Values)
       else st'.bindings == st.bindings
  }

  /** What an operation makes of a state; one that cannot happen changes nothing. */
  ghost predicate Next(st: State, op: Op, st': State, longKeys: bool) {
    if !Possible(op, st.pods, st.index) then st' == st
    else
      match op
      case Add(pod, order) => AddNext(st, pod, order, st')
      case Remove(podID, containerID) => RemoveNext(st, podID, containerID, st')
      case Reconcile(spec) => ReconcileNext(st, spec, st', longKeys)
      case Delete(key) => DeleteNext(st, key, st')
      case Track(_) => st' == st
  }

  /** The operation re-adds a cached container under another name or cgroup. */
  ghost predicate Rejects(st: State, op: Op) {
    op.Add? && Possible(op, st.pods, st.index) && Conflict(st.pods, op.pod)
  }

  /** The operation drops a container name that two matching containers carry. */
  ghost predicate SharedDrop(st: State, op: Op, longKeys: bool) {
    && op.Reconcile? && Possible(op, st.pods, st.index) && SpecValid(op.spec, longKeys)
    && !NoSharedDrop(st.pods, op.spec.key, OldPolicy(st.policies, op.spec.key), op.spec.rules)
  }

  /** The operation deletes the settings of an id that is bound when it begins. */
  ghost predicate Straddled(st: State, op: Op, longKeys: bool) {
    && Possible(op, st.pods, st.index)
    && match op
       case Reconcile(spec) =>
         SpecValid(spec, longKeys) && !NoneHeld(st.bindings, OldPolicy(st.policies, spec.key), spec.rules)
       case Delete(key) => !NoneHeld(st.bindings, OldPolicy(st.policies, key), map[])
       case _ => false
  }

  /** The kernel maps before an operation, and how much of the trace there was. */
  datatype View = View(maps: Maps, len: nat)

  /**
   Within each operation, and with the states before and after it: a hook finds the settings of the id it has
   found, in whatever later state it looks, exactly if the operation is not straddled. If it is, one that finds
   the id before the operation and looks for the settings after it misses them.
   */
  ghost predicate Views(views: seq<View>, trace: seq<Maps>, states: seq<State>, ops: seq<Op>, longKeys: bool) {
    && |views| == |states| == |ops| + 1
    && (forall k | 0 <= k < |views| :: views[k].len <= |trace|)
    && forall k | 0 <= k < |ops| ::
         && (Straddled(states[k], ops[k], longKeys) ==> !Finds(views[k].maps, views[k + 1].maps))
         && (!Straddled(states[k], ops[k], longKeys) ==>
               TwoReads(views[k].maps, trace, views[k].len, views[k + 1].len, views[k + 1].maps))
  }

  lemma ViewsNext(views: seq<View>, before: seq<Maps>, states: seq<State>, ops: seq<Op>, longKeys: bool,
                  op: Op, st': State, trace: seq<Maps>, maps: Maps)
    requires Views(views, before, states, ops, longKeys) && before <= trace && views[|ops|].len == |before|
    requires if Straddled(states[|ops|], op, longKeys) then !Finds(views[|ops|].maps, maps)
             else TwoReads(views[|ops|].maps, trace, |before|, |trace|, maps)
    ensures Views(views + [View(maps, |trace|)], trace, states + [st'], ops + [op], longKeys)
  {
    hide TwoReads, Straddled, Finds;
    var views', states', ops' := views + [View(maps, |trace|)], states + [st'], ops + [op];
    forall k | 0 <= k < |ops'|
      ensures if Straddled(states'[k], ops'[k], longKeys) then !Finds(views'[k].maps, views'[k + 1].maps)
              else TwoReads(views'[k].maps, trace, views'[k].len, views'[k + 1].len, views'[k + 1].maps)
    {
      if k < |ops| {
        TwoReadsPrefix(views[k].maps, before, trace, views[k].len, views[k + 1].len, views[k + 1].maps);
      }
    }
  }

  /** The operations lead from the empty resolver through these states, and every state is a join. */
  ghost predicate Trace(states: seq<State>, ops: seq<Op>, longKeys: bool) {
    && |states| == |ops| + 1 && states[0] == EMPTY
    && (forall k | 0 <= k < |ops| :: Next(states[k], ops[k], states[k + 1], longKeys))
    && (forall k | 0 <= k < |states| :: Joined(states[k]))
  }

  ghost predicate NoneRejected(states: seq<State>, ops: seq<Op>) {
    forall k | 0 <= k < |ops| && k < |states| :: !Rejects(states[k], ops[k])
  }

  ghost predicate NoSharedDrops(states: seq<State>, ops: seq<Op>, longKeys: bool) {
    forall k | 0 <= k < |ops| && k < |states| :: !SharedDrop(states[k], ops[k], longKeys)
  }

  lemma TraceNext(states: seq<State>, ops: seq<Op>, op: Op, st': State, longKeys: bool)
    requires Trace(states, ops, longKeys) && Next(states[|ops|], op, st', longKeys) && Joined(st')
    ensures Trace(states + [st'], ops + [op], longKeys)
    ensures NoneRejected(states + [st'], ops + [op]) <==> NoneRejected(states, ops) && !Rejects(states[|ops|], op)
    ensures NoSharedDrops(states + [st'], ops + [op], longKeys) <==>
            NoSharedDrops(states, ops, longKeys) && !SharedDrop(states[|ops|], op, longKeys)
  {
    hide Next, Joined, Rejects, SharedDrop;
    var states', ops' := states + [st'], ops + [op];
    assert forall k | 0 <= k < |states| :: states'[k] == states[k];
    assert forall k | 0 <= k < |ops| :: ops'[k] == ops[k];
    assert ops'[|ops|] == op && states'[|states|] == st';
    assert NoneRejected(states', ops') ==> NoneRejected(states, ops) && !Rejects(states[|ops|], op) by {
      assert NoneRejected(states', ops') ==> forall k | 0 <= k < |ops| :: !Rejects(states'[k], ops'[k]);
    }
    assert NoSharedDrops(states', ops', longKeys) ==>
        NoSharedDrops(states, ops, longKeys) && !SharedDrop(states[|ops|], op, longKeys) by {
      assert NoSharedDrops(states', ops', longKeys) ==>
          forall k | 0 <= k < |ops| :: !SharedDrop(states'[k], ops'[k], longKeys);
    }
  }

  /** A resolver with its run: all that was done to it, and the states it went through. */
  class System {
    const r: ResolverCache
    ghost var ops: seq<Op>
    ghost var states: seq<State>
    ghost var views: seq<View>

    /**
     The states are those the operations lead to, and the resolver is in the last one. Lookups of a hook that
     fall into different states of one operation miss settings exactly if the operation is straddled. Unless
     a re-add was rejected, no container is unbound, and every single state there has been since the beginning
     had settings for all that was bound exactly if no reconciliation dropped a shared name.
     */
    ghost predicate Valid()
      reads this, r, r.m
    {
      && r.Valid() && Trace(states, ops, r.m.longKeys) && states[|ops|] == StateOf(r)
      && Views(views, r.m.trace, states, ops, r.m.longKeys) && views[|ops|] == View(r.m.Current(), |r.m.trace|)
      && (NoneRejected(states, ops) ==>
            r.unbound == {} && (SafeFrom(r.m.trace, 0) <==> NoSharedDrops(states, ops, r.m.longKeys)))
    }

    constructor (longKeys: bool)
      ensures Valid() && fresh(r) && fresh(r.m) && ops == [] && StateOf(r) == EMPTY && r.m.longKeys == longKeys
    {
      r := new ResolverCache(longKeys);
      new;
      ops, states, views := [], [StateOf(r)], [View(r.m.Current(), 0)];
    }

    /** Any one operation. */
    method Step(op: Op)
      requires Valid()
      modifies this`ops, this`states, this`views, r, r.m
      ensures Valid() && ops == old(ops) + [op] && states == old(states) + [StateOf(r)]
      ensures Next(old(StateOf(r)), op, StateOf(r), r.m.longKeys)
      ensures NoneRejected(states, ops) <==> old(NoneRejected(states, ops)) && !Rejects(old(StateOf(r)), op)
      ensures NoSharedDrops(states, ops, r.m.longKeys) <==>
              old(NoSharedDrops(states, ops, r.m.longKeys)) && !SharedDrop(old(StateOf(r)), op, r.m.longKeys)
      ensures views == old(views) + [View(r.m.Current(), |r.m.trace|)] && old(r.m.trace) <= r.m.trace
      ensures old(r.retired) <= r.retired
              && forall id | id in old(r.owner) :: id in r.owner && r.owner[id] == old(r.owner)[id]
    {
      hide CacheInv, IdsOk, DataOk, ReadyOk, Safe, SafeFrom, Rejects, SharedDrop, Trace, Next, NoneRejected,
        NoSharedDrops, Views, Straddled, TwoReads, Covers, Finds;
      TraceEnds(states, ops, r.m.longKeys);
      ViewsEnd(views, r.m.trace, states, ops, r.m.longKeys);
      ghost var st := StateOf(r);
      label before:
      if Possible(op, r.podCache, r.cgroupIDToPodID) {
        Perform(r, op);
        TraceSplit(r.m.trace, 0, |old@before(r.m.trace)|, old@before(r.m.trace));
      } else {
        Impossible(st, op, r.m.longKeys);
        BoundHaveSettings(r.podCache, r.cgroupIDToPodID, r.wpState, r.unbound, r.nextPolicyID, r.m.Current());
        NothingRead(r.m.Current(), r.m.trace);
      }
      TraceNext(states, ops, op, StateOf(r), r.m.longKeys);
      ViewsNext(views, old(r.m.trace), states, ops, r.m.longKeys, op, StateOf(r), r.m.trace, r.m.Current());
      views := views + [View(r.m.Current(), |r.m.trace|)];
      ops, states := ops + [op], states + [StateOf(r)];
    }
  }

  lemma TraceEnds(states: seq<State>, ops: seq<Op>, longKeys: bool)
    requires Trace(states, ops, longKeys)
    ensures |states| == |ops| + 1
  {
  }

  lemma ViewsEnd(views: seq<View>, trace: seq<Maps>, states: seq<State>, ops: seq<Op>, longKeys: bool)
    requires Views(views, trace, states, ops, longKeys)
    ensures |views| == |ops| + 1
  {
  }

  lemma NothingRead(m: Maps, trace: seq<Maps>)
    requires Safe(m)
    ensures TwoReads(m, trace, |trace|, |trace|, m)
  {
  }

  lemma Impossible(st: State, op: Op, longKeys: bool)
    requires !Possible(op, st.pods, st.index)
    ensures Next(st, op, st, longKeys) && !Rejects(st, op) && !SharedDrop(st, op, longKeys)
    ensures !Straddled(st, op, longKeys)
  {
  }

  method Perform(r: ResolverCache, op: Op)
    requires r.Valid() && Possible(op, r.podCache, r.cgroupIDToPodID)
    modifies r, r.m
    ensures r.Valid() && old(r.m.trace) <= r.m.trace && old(r.retired) <= r.retired
    ensures forall id | id in old(r.owner) :: id in r.owner && r.owner[id] == old(r.owner)[id]
    ensures Next(old(StateOf(r)), op, StateOf(r), r.m.longKeys)
    ensures old(r.unbound) == {} && !Rejects(old(StateOf(r)), op) ==>
              && r.unbound == {}
              && (SafeFrom(r.m.trace, |old(r.m.trace)|) <==> !SharedDrop(old(StateOf(r)), op, r.m.longKeys))
    ensures if Straddled(old(StateOf(r)), op, r.m.longKeys) then !Finds(old(r.m.Current()), r.m.Current())
            else TwoReads(old(r.m.Current()), r.m.trace, |old(r.m.trace)|, |r.m.trace|, r.m.Current())
  {
    hide CacheInv, IdsOk, DataOk, ReadyOk, SafeFrom, Conflict, NoSharedDrop, SpecValid, FreshCgroups, Orders, Left,
      Merged, CgroupsMerged, CgroupsOf, RowsAdded, AllAdded, RowsRemoved, Reconciled, GivenUpWiped, MatchingCgroups,
      Unbound, TrackerGrown, Wiped, WithoutContainer, TwoReads, NoneHeld, Covers, Finds;
    match op {
      case Add(pod, order) =>
        var _ := r.AddPodContainerFromNri(pod, order);
      case Remove(podID, containerID) =>
        var _ := r.RemovePodContainerFromNri(podID, containerID);
      case Reconcile(spec) =>
        var _ := r.ReconcileWP(spec);
      case Delete(key) =>
        r.HandleWPDelete(key);
      case Track(tracker) =>
        BoundHaveSettings(r.podCache, r.cgroupIDToPodID, r.wpState, r.unbound, r.nextPolicyID, r.m.Current());
        r.m.Mark();
        r.m.SetTracker(tracker);
        NothingBoundDropped(r.m.epoch, r.m.trace, |old(r.m.trace)|, old(r.m.Current()));
    }
  }

  /** Any run from the empty resolver: it is the run of these operations, and all that holds of a system holds of it. */
  method Run(ops: seq<Op>, longKeys: bool) returns (s: System)
    ensures s.Valid() && s.ops == ops && s.r.m.longKeys == longKeys && fresh(s) && fresh(s.r) && fresh(s.r.m)
  {
    hide CacheInv, IdsOk, DataOk, ReadyOk, SafeFrom, Trace, NoneRejected, NoSharedDrops, Views, Covers;
    s := new System(longKeys);
    for k := 0 to |ops|
      invariant s.Valid() && s.ops == ops[..k] && s.r.m.longKeys == longKeys && fresh(s) && fresh(s.r) && fresh(s.r.m)
    {
      s.Step(ops[k]);
      assert ops[..k + 1] == ops[..k] + [ops[k]];
    }
    assert ops[..|ops|] == ops;
  }

  /** The hook itself, on the maps the resolver wrote: the verdict of the spec for the path of the file. */
  method Decide(r: ResolverCache, evt: ProcessEvt, e: Exec, c: Config, ghost key: WpKey, ghost p: string,
                ghost d: string) returns (verdict: int)
    requires r.Valid() && evt.Valid() && evt.Clean() && ValidConfig(c) && c.longKeys == r.m.longKeys
    requires !Dirties(r.m.Current(), e, c)
    requires Covered(r.podCache, r.wpState, r.specs, r.unbound, key, p, d)
    requires NulFreeRules(r.specs[key].rules[r.podCache[p].containers[d].name])
    requires TrackerId(r.m.Current(), e.cgroup) == r.podCache[p].containers[d].cgroup
    modifies evt, evt.path
    ensures verdict ==
            if e.bootstrap || Resolved(e, c).None? then 0 else
            SpecVerdict(r.specs[key].mode, r.specs[key].rules[r.podCache[p].containers[d].name], e.foreign,
                        Resolved(e, c).value, c.longKeys)
  {
    hide CacheInv, IdsOk, DataOk, ReadyOk, Dirties, Resolved, SpecVerdict, VerdictOver, NulFreeRules, Reports;
    CleanPadding(evt.path[..]);
    StringsSized(r.wpState, r.nextPolicyID, r.m.settings, r.m.strings);
    if Resolved(e, c).Some? {
      EnforcedAsSpecified(r.podCache, r.cgroupIDToPodID, r.wpState, r.unbound, r.specs, r.m.Current(), c.longKeys, key,
                          p, d, e, Resolved(e, c).value);
    }
    var out;
    verdict, out := EnforceCgroupPolicy(evt, r.m.Current(), e, c);
    Exempt(r.m.Current(), e, Resolved(e, c), c, PW.Padding(evt.path[..]), out);
  }

  /** A pod of policy `key`. */
  function PodOf(key: WpKey, podID: string, containers: map<string, ContainerMeta>): PodInput {
    PodInput(PodMeta(podID, key.namespace, podID, "", "", map[POLICY_LABEL_KEY := key.name]), containers)
  }

  /** No cached container has the cgroup, so the cgroup cache does not know it either. */
  lemma UnusedCgroup(st: State, g: CgroupID)
    requires Joined(st) && forall p, c | Cached(st.pods, p, c) :: st.pods[p].containers[c].cgroup != g
    ensures g !in st.index
  {
    assert g in st.index ==> HasCgroup(st.pods, st.index[g], g);
  }

  /** Adding a new pod with one container caches it, and binds it if the policy has an id for it. */
  method AddOnePod(s: System, key: WpKey, podID: string, containerID: string, name: string, g: CgroupID)
    requires s.Valid() && NoneRejected(s.states, s.ops) && key.name != "" && key in s.r.wpState
             && podID !in s.r.podCache && g != 0
    requires forall p, c | Cached(s.r.podCache, p, c) :: s.r.podCache[p].containers[c].cgroup != g
    modifies s, s.r, s.r.m
    ensures s.Valid() && NoneRejected(s.states, s.ops) && s.r.specs == old(s.r.specs) && s.r.wpState == old(s.r.wpState)
    ensures old(NoSharedDrops(s.states, s.ops, s.r.m.longKeys)) ==> NoSharedDrops(s.states, s.ops, s.r.m.longKeys)
    ensures var pod := PodOf(key, podID, map[containerID := ContainerMeta(name, g)]);
            s.r.podCache == old(s.r.podCache)[podID := PodEntry(pod.meta, pod.containers)]
    ensures Carries(s.r.podCache, key, name, podID, containerID)
    ensures Owns(s.r.wpState, key, name) ==> Lookup(s.r.m.cgToPolicy, g) == Some(s.r.wpState[key].polByContainer[name])
  {
    hide CacheInv, IdsOk, DataOk, ReadyOk, SafeFrom, CgroupsMerged, CgroupsOf, Trace, NoneRejected, NoSharedDrops,
      Views, Covers;
    var pod := PodOf(key, podID, map[containerID := ContainerMeta(name, g)]);
    UnusedCgroup(StateOf(s.r), g);
    NewPod(StateOf(s.r), pod, containerID);
    hide Joined, FreshCgroups, Conflict, Left, Merged, Orders;
    s.Step(Add(pod, [containerID]));
    if Owns(s.r.wpState, key, name) {
      CarrierBound(s.r.podCache, s.r.cgroupIDToPodID, s.r.wpState, s.r.m.cgToPolicy, key, name, podID, containerID);
    }
  }

  lemma NewPod(st: State, pod: PodInput, c: string)
    requires pod.meta.id !in st.pods && pod.containers.Keys == {c} && pod.containers[c].cgroup !in st.index
             && pod.containers[c].cgroup != 0
    ensures Possible(Add(pod, [c]), st.pods, st.index) && !Conflict(st.pods, pod)
    ensures Left(Base(st.pods, pod).containers, pod.containers, [c]) == {}
    ensures PodEntry(pod.meta, Merged(Base(st.pods, pod).containers, pod.containers, {})) ==
            PodEntry(pod.meta, pod.containers)
  {
    LeftAt(map[], pod.containers, [c], 1);
    assert Merged(map[], pod.containers, {}) == pod.containers;
  }

  /** A system with one policy, for container "a". */
  method OnePolicy(key: WpKey, longKeys: bool) returns (s: System)
    requires key.name != ""
    ensures fresh(s) && fresh(s.r) && fresh(s.r.m) && s.Valid() && NoneRejected(s.states, s.ops)
    ensures NoSharedDrops(s.states, s.ops, s.r.m.longKeys)
    ensures s.r.podCache == map[] && Owns(s.r.wpState, key, "a")
  {
    hide CacheInv, IdsOk, DataOk, ReadyOk, SafeFrom, Trace, MatchingCgroups, Carried, Joined, Views, Covers;
    s := new System(longKeys);
    assert NoneRejected(s.states, s.ops) && NoSharedDrops(s.states, s.ops, s.r.m.longKeys);
    hide NoneRejected, NoSharedDrops;
    s.Step(Reconcile(WorkloadPolicy(key, Protect, map["a" := Rules([], false)])));
  }

  /** The spec drops container "a" while no pod carries it; a later pod is bound to its old id all the same. */
  method DroppedNameBindsLater(key: WpKey, longKeys: bool) returns (s: System)
    requires key.name != ""
    ensures s.Valid() && NoneRejected(s.states, s.ops)
    ensures key in s.r.specs && s.r.specs[key].rules == map[] && Owns(s.r.wpState, key, "a")
            && s.r.wpState[key].state.Ready?
    ensures Lookup(s.r.m.cgToPolicy, 7) == Some(s.r.wpState[key].polByContainer["a"])
  {
    hide CacheInv, IdsOk, DataOk, ReadyOk, SafeFrom, Trace, NoneRejected, NoSharedDrops, SharedDrop, MatchingCgroups,
      Joined;
    s := OnePolicy(key, longKeys);
    s.Step(Reconcile(WorkloadPolicy(key, Protect, map[])));
    hide Next;
    AddOnePod(s, key, "pod", "c", "a", 7);
  }

  /**
   Two pods carry container "a" when the spec drops it: in some state in between a policy id is bound without settings.
   */
  method SharedNameDropped(key: WpKey, longKeys: bool) returns (s: System)
    requires key.name != ""
    ensures s.Valid() && NoneRejected(s.states, s.ops) && !SafeFrom(s.r.m.trace, 0)
  {
    hide CacheInv, IdsOk, DataOk, ReadyOk, SafeFrom, Trace, NoneRejected, NoSharedDrops, MatchingCgroups, Joined, Next,
      NoSharedDrop, Lookup;
    s := OnePolicy(key, longKeys);
    AddOnePod(s, key, "pod1", "c", "a", 7);
    AddOnePod(s, key, "pod2", "c", "a", 8);
    Replicas(s.r.podCache, key, "a", "pod1", "pod2", "c", s.r.wpState);
    s.Step(Reconcile(WorkloadPolicy(key, Protect, map[])));
  }

  /**
   A policy is deleted while a container is bound to it: every single state has settings for all that is bound,
   but a hook that has found the id before misses its settings after.
   */
  method DeletedUnderneath(key: WpKey, longKeys: bool) returns (s: System)
    requires key.name != ""
    ensures s.Valid() && NoneRejected(s.states, s.ops) && SafeFrom(s.r.m.trace, 0)
    ensures |s.ops| > 0 && s.ops[|s.ops| - 1] == Delete(key)
    ensures var before, after := s.views[|s.ops| - 1].maps, s.views[|s.ops|].maps;
            && Safe(before) && Safe(after) && 7 in before.cgToPolicy
            && !Finds(before, after) && after == s.r.m.Current()
  {
    hide CacheInv, IdsOk, DataOk, ReadyOk, SafeFrom, Trace, NoneRejected, NoSharedDrops, MatchingCgroups, Joined, Next,
      NoSharedDrop, Views, Covers, Finds;
    s := OnePolicy(key, longKeys);
    AddOnePod(s, key, "pod", "c", "a", 7);
    BoundHaveSettings(s.r.podCache, s.r.cgroupIDToPodID, s.r.wpState, s.r.unbound, s.r.nextPolicyID, s.r.m.Current());
    ViewsEnd(s.views, s.r.m.trace, s.states, s.ops, s.r.m.longKeys);
    s.Step(Delete(key));
    ViewsAt(s.views, s.r.m.trace, s.states, s.ops, s.r.m.longKeys, |s.ops| - 1);
    BoundHaveSettings(s.r.podCache, s.r.cgroupIDToPodID, s.r.wpState, s.r.unbound, s.r.nextPolicyID, s.r.m.Current());
  }

  lemma ViewsAt(views: seq<View>, trace: seq<Maps>, states: seq<State>, ops: seq<Op>, longKeys: bool, k: nat)
    requires Views(views, trace, states, ops, longKeys) && k < |ops|
    ensures |views| == |states| == |ops| + 1
    ensures Straddled(states[k], ops[k], longKeys) ==> !Finds(views[k].maps, views[k + 1].maps)
  {
  }

  lemma Replicas(pods: Pods, key: WpKey, n: string, p: string, p': string, c: string, wp: Policies)
    requires Carries(pods, key, n, p, c) && Carries(pods, key, n, p', c) && p != p' && Owns(wp, key, n)
    ensures !NoSharedDrop(pods, key, OldPolicy(wp, key), map[])
  {
    assert TwoCarry(pods, key, n);
  }

  /** Every cached container is bound as its pod's policy says. */
  ghost predicate Complete(st: State) {
    forall p, c | Cached(st.pods, p, c) ::
      Lookup(st.bindings, st.pods[p].containers[c].cgroup) ==
      Binding(st.pods[p], st.policies, st.pods[p].containers[c].name)
  }

  lemma CompleteIff(st: State)
    requires Joined(st)
    ensures Complete(st) <==>
            forall p, c | Cached(st.pods, p, c) && st.pods[p].containers[c].cgroup in st.unbound ::
              Binding(st.pods[p], st.policies, st.pods[p].containers[c].name).None?
  {
    hide IndexOk, Binding, Lookup;
    assert forall p, c | Cached(st.pods, p, c) :: JoinRow(st.pods, st.policies, st.bindings, st.unbound, p, c);
  }

  /** Containers cached before a clash, in the order the loop met them. */
  ghost predicate BeforeClash(st: State, pod: PodInput, order: seq<string>, c: string) {
    var base := Base(st.pods, pod).containers;
    Conflict(st.pods, pod) && c in pod.containers && c !in base && c !in Left(base, pod.containers, order)
  }

  /** A container is unbound after an add exactly if it was cached before a clash. */
  lemma UnboundAfterAdd(st: State, pod: PodInput, order: seq<string>, st': State, p: string, c: string)
    requires st.unbound == {} && Joined(st') && AddNext(st, pod, order, st') && Cached(st'.pods, p, c)
    ensures st'.pods[p].containers[c].cgroup in st'.unbound <==> p == pod.meta.id && BeforeClash(st, pod, order, c)
    ensures st'.pods[pod.meta.id].meta == Base(st.pods, pod).meta
    ensures BeforeClash(st, pod, order, c) && p == pod.meta.id ==> st'.pods[p].containers[c] == pod.containers[c]
  {
    hide Left, Conflict;
    var base := Base(st.pods, pod).containers;
    var left := Left(base, pod.containers, order);
    if Conflict(st.pods, pod) {
      if p == pod.meta.id && BeforeClash(st, pod, order, c) {
        assert pod.containers[c].cgroup in CgroupsMerged(base, pod.containers, left);
      }
      if st'.pods[p].containers[c].cgroup in st'.unbound {
        var d :| d in pod.containers && d !in left && d !in base
                 && pod.containers[d].cgroup == st'.pods[p].containers[c].cgroup;
        assert Cached(st'.pods, pod.meta.id, d);
        SameCgroup(st'.pods, st'.index, p, c, pod.meta.id, d);
      }
    }
  }

  lemma SameCgroup(pods: Pods, index: map<CgroupID, string>, p: string, c: string, p': string, c': string)
    requires IndexOk(pods, index) && Cached(pods, p, c) && Cached(pods, p', c')
    requires pods[p].containers[c].cgroup == pods[p'].containers[c'].cgroup
    ensures p == p' && c == c'
  {
  }

  /** After an add the join is complete exactly if no container cached before a clash is one the policy names. */
  lemma AddCompleteIff(st: State, pod: PodInput, order: seq<string>, st': State)
    requires st.unbound == {} && Joined(st') && AddNext(st, pod, order, st')
    ensures Complete(st') <==>
            forall c | BeforeClash(st, pod, order, c) ::
              Binding(Base(st.pods, pod), st.policies, pod.containers[c].name).None?
  {
    hide Complete, AddNext, Joined, Left, Conflict, Binding;
    CompleteIff(st');
    AddedParts(st, pod, order, st');
    if Complete(st') {
      forall c | BeforeClash(st, pod, order, c)
        ensures Binding(Base(st.pods, pod), st.policies, pod.containers[c].name).None?
      {
        ClashRow(st, pod, order, st', pod.meta.id, c);
      }
    }
    if forall c | BeforeClash(st, pod, order, c) ::
        Binding(Base(st.pods, pod), st.policies, pod.containers[c].name).None? {
      forall p, c | Cached(st'.pods, p, c) && st'.pods[p].containers[c].cgroup in st'.unbound
        ensures Binding(st'.pods[p], st'.policies, st'.pods[p].containers[c].name).None?
      {
        UnboundAfterAdd(st, pod, order, st', p, c);
        ClashRow(st, pod, order, st', p, c);
      }
    }
  }

  lemma AddedParts(st: State, pod: PodInput, order: seq<string>, st': State)
    requires AddNext(st, pod, order, st')
    ensures forall c | BeforeClash(st, pod, order, c) :: Cached(st'.pods, pod.meta.id, c)
  {
    hide Left, Conflict;
  }

  lemma ClashRow(st: State, pod: PodInput, order: seq<string>, st': State, p: string, c: string)
    requires st.unbound == {} && Joined(st') && AddNext(st, pod, order, st') && Cached(st'.pods, p, c)
    requires p == pod.meta.id && BeforeClash(st, pod, order, c)
    ensures st'.pods[p].containers[c].cgroup in st'.unbound
    ensures Binding(st'.pods[p], st'.policies, st'.pods[p].containers[c].name) ==
            Binding(Base(st.pods, pod), st.policies, pod.containers[c].name)
  {
    UnboundAfterAdd(st, pod, order, st', p, c);
    assert st'.policies == st.policies;
    hide Joined, AddNext, BeforeClash, Base;
  }

  /** A re-add that is rejected leaves a container of the policy cached and unbound. */
  method RejectedReAdd(key: WpKey, longKeys: bool) returns (s: System)
    requires key.name != ""
    ensures s.Valid() && !NoneRejected(s.states, s.ops) && !Complete(StateOf(s.r))
    ensures Carries(s.r.podCache, key, "a", "pod", "c2") && Owns(s.r.wpState, key, "a") && 8 !in s.r.m.cgToPolicy
  {
    hide CacheInv, IdsOk, DataOk, ReadyOk, SafeFrom, Trace, NoneRejected, NoSharedDrops, SharedDrop, Complete;
    s := OnePolicy(key, longKeys);
    AddOnePod(s, key, "pod", "c1", "x", 7);
    var pod := PodOf(key, "pod", map["c1" := ContainerMeta("x", 9), "c2" := ContainerMeta("a", 8)]);
    UnusedCgroup(StateOf(s.r), 8);
    ghost var st := StateOf(s.r);
    ClashLast(st, pod);
    hide FreshCgroups, Orders, Conflict, Left;
    s.Step(Add(pod, ["c2", "c1"]));
    CachedUnbound(st, pod, StateOf(s.r), key);
  }

  lemma ClashLast(st: State, pod: PodInput)
    requires 8 !in st.index && pod.meta.id in st.pods
             && st.pods[pod.meta.id].containers == map["c1" := ContainerMeta("x", 7)]
    requires pod.containers == map["c1" := ContainerMeta("x", 9), "c2" := ContainerMeta("a", 8)]
    ensures Possible(Add(pod, ["c2", "c1"]), st.pods, st.index) && Conflict(st.pods, pod)
    ensures Left(Base(st.pods, pod).containers, pod.containers, ["c2", "c1"]) == {"c1"}
  {
    assert Cached(st.pods, pod.meta.id, "c1");
    var base := Base(st.pods, pod).containers;
    LeftAt(base, pod.containers, ["c2", "c1"], 1);
    assert "c2" != "c1" && ["c2", "c1"][1] == "c1" && Rest(["c2", "c1"], 1) == {"c1"};
  }

  lemma CachedUnbound(st: State, pod: PodInput, st': State, key: WpKey)
    requires st.unbound == {} && Joined(st') && AddNext(st, pod, ["c2", "c1"], st') && Conflict(st.pods, pod)
             && key.name != ""
    requires pod.containers == map["c1" := ContainerMeta("x", 9), "c2" := ContainerMeta("a", 8)]
             && "c2" !in Base(st.pods, pod).containers
    requires Left(Base(st.pods, pod).containers, pod.containers, ["c2", "c1"]) == {"c1"}
    requires Base(st.pods, pod).MatchPolicy(key) && Owns(st.policies, key, "a")
    ensures Carries(st'.pods, key, "a", pod.meta.id, "c2") && 8 !in st'.bindings && !Complete(st')
  {
    hide Conflict, Left;
    assert "c2" != "c1" && BeforeClash(st, pod, ["c2", "c1"], "c2");
    UnboundAfterAdd(st, pod, ["c2", "c1"], st', pod.meta.id, "c2");
    assert JoinRow(st'.pods, st'.policies, st'.bindings, st'.unbound, pod.meta.id, "c2");
    AddCompleteIff(st, pod, ["c2", "c1"], st');
  }
}
