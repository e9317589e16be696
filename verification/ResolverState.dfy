/**
 The resolver's data and the invariants that tie its caches to the kernel maps
 (internal/resolver/resolver.go, internal/resolver/podentry.go).
 */
module ResolverState {
  import opened Bytes
  import opened ExecHook
  import opened BpfManager
  import SM = StringMaps

  const POLICY_LABEL_KEY := "runtimeenforcer.kubewarden.io/policy"

  datatype PodMeta = PodMeta(
    id: string,
    namespace: string,
    name: string,
    workloadName: string,
    workloadType: string,
    labels: map<string, string>)

  datatype ContainerMeta = ContainerMeta(name: string, cgroup: CgroupID)

  datatype PodEntry = PodEntry(meta: PodMeta, containers: map<string, ContainerMeta>) {
    function PolicyName(): string {
      if POLICY_LABEL_KEY in meta.labels then meta.labels[POLICY_LABEL_KEY] else ""
    }

    predicate MatchPolicy(key: WpKey) {
      PolicyName() == key.name && meta.namespace == key.namespace
    }
  }

  /** "namespace/name"; kept as a pair since a namespace holds no slash. */
  datatype WpKey = WpKey(namespace: string, name: string)

  datatype Mode = Monitor | Protect {
    function Code(): Byte {
      if Monitor? then POLICY_MODE_MONITOR else POLICY_MODE_PROTECT
    }
  }

  datatype Rules = Rules(allowed: seq<Str>, allowForeignRoot: bool)

  datatype WorkloadPolicy = WorkloadPolicy(key: WpKey, mode: Mode, rules: map<string, Rules>)

  datatype PolicyState = Unset | Ready | Failed

  type PolicyByContainer = map<string, PolicyID>

  datatype WpInfo = WpInfo(polByContainer: PolicyByContainer, state: PolicyState)

  type Pods = map<string, PodEntry>

  type Policies = map<WpKey, WpInfo>

  type Bindings = map<CgroupID, PolicyID>

  ghost predicate Cached(pods: Pods, p: string, c: string) {
    p in pods && c in pods[p].containers
  }

  ghost function Lookup(b: Bindings, g: CgroupID): Option<PolicyID> {
    if g in b then Some(b[g]) else None
  }

  /** The policy id a container should run under: its pod's policy, its own name. */
  ghost function Binding(pod: PodEntry, wp: Policies, name: string): Option<PolicyID> {
    var key := WpKey(pod.meta.namespace, pod.PolicyName());
    if pod.PolicyName() != "" && key in wp && name in wp[key].polByContainer
    then Some(wp[key].polByContainer[name]) else None
  }

  ghost predicate IndexCovers(pods: Pods, index: map<CgroupID, string>) {
    forall p, c | Cached(pods, p, c) ::
      pods[p].containers[c].cgroup in index && index[pods[p].containers[c].cgroup] == p
  }

  ghost predicate DistinctCgroups(pods: Pods) {
    forall p, c, c' | Cached(pods, p, c) && Cached(pods, p, c') ::
      pods[p].containers[c].cgroup == pods[p].containers[c'].cgroup ==> c == c'
  }

  ghost predicate HasCgroup(pods: Pods, p: string, g: CgroupID) {
    exists c :: Cached(pods, p, c) && pods[p].containers[c].cgroup == g
  }

  ghost predicate IndexSound(pods: Pods, index: map<CgroupID, string>) {
    forall g | g in index :: HasCgroup(pods, index[g], g)
  }

  /** The cgroup cache is exactly the inverse of the pod cache. */
  ghost predicate IndexOk(pods: Pods, index: map<CgroupID, string>) {
    IndexCovers(pods, index) && DistinctCgroups(pods) && IndexSound(pods, index)
  }

  /** A cached container that two caches agree on. */
  ghost predicate SameRow(pods: Pods, pods': Pods, p: string, c: string) {
    && Cached(pods, p, c) && Cached(pods', p, c)
    && pods'[p].containers[c] == pods[p].containers[c] && pods'[p].meta == pods[p].meta
  }

  /** One row of the join. */
  ghost predicate JoinRow(pods: Pods, wp: Policies, b: Bindings, unbound: set<CgroupID>, p: string, c: string)
    requires Cached(pods, p, c)
  {
    var meta := pods[p].containers[c];
    Lookup(b, meta.cgroup) == if meta.cgroup in unbound then None else Binding(pods[p], wp, meta.name)
  }

  /**
   The cgroup-to-policy map is the join of pods and policies, nothing missing but
   the cgroups in `unbound` and nothing extra.
   */
  ghost predicate IsJoin(pods: Pods, index: map<CgroupID, string>, wp: Policies, b: Bindings, unbound: set<CgroupID>) {
    && (forall p, c | Cached(pods, p, c) :: JoinRow(pods, wp, b, unbound, p, c))
    && (forall g | g in b :: g in index)
  }

  ghost predicate Owns(wp: Policies, k: WpKey, c: string) {
    k in wp && c in wp[k].polByContainer
  }

  /** Ids are issued once, from 1 on, each to one container of one policy; a retired id is never owned again. */
  ghost predicate IdsOk(wp: Policies, next: nat, owner: map<PolicyID, (WpKey, string)>, retired: set<PolicyID>) {
    && next >= 1
    && (forall id :: id in owner <==> 1 <= id < next)
    && (forall k, c | Owns(wp, k, c) ::
          var id := wp[k].polByContainer[c];
          1 <= id < next && owner[id] == (k, c) && id !in retired)
    && (forall id | id in retired :: 1 <= id < next)
    && (forall id | 1 <= id < next && id !in retired ::
          var (k, c) := owner[id];
          Owns(wp, k, c) && wp[k].polByContainer[c] == id)
  }

  /** Every owned id has its settings; ids not issued yet have nothing. */
  ghost predicate DataOk(wp: Policies, next: nat, settings: map<PolicyID, Settings>, strings: StringTables) {
    && |strings| == SM.NUM_SUB_MAPS
    && (forall k, c | Owns(wp, k, c) :: wp[k].polByContainer[c] in settings)
    && (forall id | id >= next :: id !in settings && NoStrings(strings, id))
  }

  /** The kernel enforces the rules of one container under policy id `id`. */
  ghost predicate Enforced(id: PolicyID, mode: Mode, rules: Rules,
                           settings: map<PolicyID, Settings>, strings: StringTables, longKeys: bool) {
    && id in settings && settings[id] == Settings(mode.Code(), rules.allowForeignRoot)
    && SM.ValidValues(rules.allowed, longKeys) && Compiled(strings, id, rules.allowed)
  }

  /** The kernel enforces a whole spec. */
  ghost predicate SpecEnforced(info: WpInfo, spec: WorkloadPolicy,
                               settings: map<PolicyID, Settings>, strings: StringTables, longKeys: bool) {
    forall c | c in spec.rules ::
      c in info.polByContainer
      && Enforced(info.polByContainer[c], spec.mode, spec.rules[c], settings, strings, longKeys)
  }

  /** A READY policy is enforced as its last reconciled spec says. */
  ghost predicate ReadyOk(wp: Policies, specs: map<WpKey, WorkloadPolicy>,
                          settings: map<PolicyID, Settings>, strings: StringTables, longKeys: bool) {
    forall k | k in wp && wp[k].state.Ready? ::
      k in specs && specs[k].key == k && SpecEnforced(wp[k], specs[k], settings, strings, longKeys)
  }

  /** The kernel maps hold the same for a policy id. */
  ghost predicate SameData(s: map<PolicyID, Settings>, t: StringTables, s': map<PolicyID, Settings>, t': StringTables,
                           id: PolicyID) {
    && (id in s <==> id in s') && (id in s ==> s[id] == s'[id]) && Inner(t, id) == Inner(t', id)
  }

  /** Nothing changed but for the ids in `touched`. */
  ghost predicate OthersSame(s: map<PolicyID, Settings>, t: StringTables, s': map<PolicyID, Settings>, t': StringTables,
                             touched: set<PolicyID>) {
    forall id | id !in touched :: SameData(s, t, s', t', id)
  }

  lemma EnforcedKept(id: PolicyID, mode: Mode, rules: Rules, s: map<PolicyID, Settings>, t: StringTables,
                     s': map<PolicyID, Settings>, t': StringTables, longKeys: bool)
    requires Enforced(id, mode, rules, s, t, longKeys) && |t'| == SM.NUM_SUB_MAPS && SameData(s, t, s', t', id)
    ensures Enforced(id, mode, rules, s', t', longKeys)
  {
  }

  /** Readiness survives any change to ids that READY policies of the other keys do not own. */
  lemma ReadyKept(wp: Policies, wp': Policies, specs: map<WpKey, WorkloadPolicy>, specs': map<WpKey, WorkloadPolicy>,
                  s: map<PolicyID, Settings>, t: StringTables, s': map<PolicyID, Settings>, t': StringTables,
                  longKeys: bool, key: WpKey)
    requires ReadyOk(wp, specs, s, t, longKeys) && |t'| == SM.NUM_SUB_MAPS
    requires forall k | k != key ::
               (k in wp' ==> k in wp && wp'[k] == wp[k]) && (k in specs ==> k in specs' && specs'[k] == specs[k])
    requires forall k, c | k != key && Owns(wp', k, c) :: SameData(s, t, s', t', wp'[k].polByContainer[c])
    ensures forall k | k != key && k in wp' && wp'[k].state.Ready? ::
              k in specs' && specs'[k].key == k && SpecEnforced(wp'[k], specs'[k], s', t', longKeys)
  {
    forall k, c | k != key && k in wp' && wp'[k].state.Ready? && c in specs[k].rules
      ensures c in wp'[k].polByContainer
      ensures Enforced(wp'[k].polByContainer[c], specs[k].mode, specs[k].rules[c], s', t', longKeys)
    {
      assert SpecEnforced(wp[k], specs[k], s, t, longKeys);
      assert Owns(wp', k, c);
      EnforcedKept(wp[k].polByContainer[c], specs[k].mode, specs[k].rules[c], s, t, s', t', longKeys);
    }
  }

  /** A row of the join only looks at its own container, binding and policy. */
  lemma JoinRowKept(pods: Pods, pods': Pods, wp: Policies, wp': Policies, b: Bindings, b': Bindings,
                    u: set<CgroupID>, u': set<CgroupID>, p: string, c: string)
    requires SameRow(pods, pods', p, c) && JoinRow(pods, wp, b, u, p, c)
    requires var g := pods[p].containers[c].cgroup; Lookup(b', g) == Lookup(b, g) && (g in u' <==> g in u)
    requires Binding(pods[p], wp', pods[p].containers[c].name) == Binding(pods[p], wp, pods[p].containers[c].name)
    ensures JoinRow(pods', wp', b', u', p, c)
  {
  }

  lemma UnboundRow(pods: Pods, wp: Policies, b: Bindings, u: set<CgroupID>, p: string, c: string)
    requires Cached(pods, p, c) && pods[p].containers[c].cgroup in u && pods[p].containers[c].cgroup !in b
    ensures JoinRow(pods, wp, b, u, p, c)
  {
  }
}
