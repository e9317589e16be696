/** Lemmas on moving the matching pods over to a reconciled policy, pod by pod. */
module MoveProofs {
  import opened ExecHook
  import opened BpfManager
  import opened ResolverState
  import opened ResolverProofs
  import opened ReconcileProofs
  import SM = StringMaps

  ghost predicate Matching(pods: Pods, key: WpKey, p: string, c: string) {
    Cached(pods, p, c) && pods[p].MatchPolicy(key)
  }

  ghost function MatchingCgroups(pods: Pods, key: WpKey): set<CgroupID> {
    set p, c | p in pods && c in pods[p].containers && Matching(pods, key, p, c) :: pods[p].containers[c].cgroup
  }

  /** Some cached container of a matching pod has this name. */
  ghost predicate Carried(pods: Pods, key: WpKey, n: string) {
    exists p, c :: Matching(pods, key, p, c) && pods[p].containers[c].name == n
  }

  function WithPol(wp: Policies, key: WpKey, pol: PolicyByContainer): Policies
    requires key in wp
  {
    wp[key := WpInfo(pol, wp[key].state)]
  }

  /** New ids for a policy leave the rows of the join as they were, not yet bound ones counting as unbound. */
  lemma PendingJoin(pods: Pods, index: map<CgroupID, string>, wp: Policies, b: Bindings, u: set<CgroupID>, key: WpKey,
                    fresh_: PolicyByContainer)
    requires CacheInv(pods, index, wp, b, u) && key in wp && key.name != ""
             && fresh_.Keys !! wp[key].polByContainer.Keys
    ensures CacheInv(pods, index, WithPol(wp, key, wp[key].polByContainer + fresh_), b,
                     u + (MatchingCgroups(pods, key) - b.Keys))
  {
    var u' := u + (MatchingCgroups(pods, key) - b.Keys);
    var wp' := WithPol(wp, key, wp[key].polByContainer + fresh_);
    hide IndexOk, JoinRow, MatchingCgroups, WithPol;
    forall p, c | Cached(pods, p, c)
      ensures JoinRow(pods, wp', b, u', p, c)
    {
      PendingRow(pods, wp, b, u, key, fresh_, p, c);
    }
  }

  lemma PendingRow(pods: Pods, wp: Policies, b: Bindings, u: set<CgroupID>, key: WpKey, fresh_: PolicyByContainer,
                   p: string, c: string)
    requires Cached(pods, p, c) && JoinRow(pods, wp, b, u, p, c)
    requires key in wp && key.name != "" && fresh_.Keys !! wp[key].polByContainer.Keys
    ensures JoinRow(pods, WithPol(wp, key, wp[key].polByContainer + fresh_), b,
                    u + (MatchingCgroups(pods, key) - b.Keys), p, c)
  {
    var u' := u + (MatchingCgroups(pods, key) - b.Keys);
    assert Matching(pods, key, p, c) ==> pods[p].containers[c].cgroup in MatchingCgroups(pods, key);
    if pods[p].containers[c].cgroup in u' {
      UnboundRow(pods, WithPol(wp, key, wp[key].polByContainer + fresh_), b, u', p, c);
    }
  }

  /** Stripping a pod unbinds exactly the containers it strips. */
  lemma StripJoin(pods: Pods, index: map<CgroupID, string>, wp: Policies, b: Bindings, u: set<CgroupID>,
                  gs: set<CgroupID>)
    requires CacheInv(pods, index, wp, b, u)
    ensures CacheInv(pods, index, wp, b - gs, u + gs)
  {
    hide IndexOk, JoinRow, Binding;
    forall p, c | Cached(pods, p, c)
      ensures JoinRow(pods, wp, b - gs, u + gs, p, c)
    {
      if pods[p].containers[c].cgroup in gs {
        UnboundRow(pods, wp, b - gs, u + gs, p, c);
      } else {
        JoinRowKept(pods, pods, wp, wp, b, b - gs, u, u + gs, p, c);
      }
    }
  }

  ghost predicate SubPolicy(a: PolicyByContainer, pol: PolicyByContainer) {
    forall n | n in a :: n in pol && a[n] == pol[n]
  }

  /** Applying part of a pod's policy binds exactly the containers it names. */
  lemma ApplyJoin(pods: Pods, index: map<CgroupID, string>, wp: Policies, b: Bindings, u: set<CgroupID>, p: string,
                  applied: PolicyByContainer, b': Bindings)
    requires CacheInv(pods, index, wp, b, u) && p in pods && SubPolicy(applied, PolicyOf(pods[p], wp))
    requires AppliedTo(pods[p], applied, pods[p].containers.Keys, b, b')
    ensures CacheInv(pods, index, wp, b', u - CgroupsNamed(pods[p], applied.Keys))
  {
    var gs := CgroupsNamed(pods[p], applied.Keys);
    assert forall d | d in pods[p].containers :: Cached(pods, p, d);
    AppliedInIndex(pods, index, p, applied, b, b');
    hide IndexOk, JoinRow, AppliedTo, CgroupsNamed, SubPolicy, PolicyOf;
    forall q, d | Cached(pods, q, d)
      ensures JoinRow(pods, wp, b', u - gs, q, d)
    {
      if q == p {
        ApplyRow(pods, index, wp, b, u, p, d, applied, b');
      } else {
        ElsewhereRow(pods, index, wp, b, u, p, q, d, applied, b');
      }
    }
  }

  lemma AppliedInIndex(pods: Pods, index: map<CgroupID, string>, p: string, applied: PolicyByContainer, b: Bindings,
                       b': Bindings)
    requires IndexOk(pods, index) && p in pods && AppliedTo(pods[p], applied, pods[p].containers.Keys, b, b')
    requires forall g | g in b :: g in index
    ensures forall g | g in b' :: g in index
  {
    forall g | g in b'
      ensures g in index
    {
      if g in CgroupsOf(pods[p]) {
        var d :| d in pods[p].containers && pods[p].containers[d].cgroup == g;
        assert Cached(pods, p, d);
      } else {
        assert Lookup(b', g) == Lookup(b, g);
      }
    }
  }

  /** Different pods have different cgroups. */
  lemma Elsewhere(pods: Pods, index: map<CgroupID, string>, p: string, q: string, d: string)
    requires IndexOk(pods, index) && p in pods && Cached(pods, q, d) && q != p
    ensures pods[q].containers[d].cgroup !in CgroupsOf(pods[p])
  {
    assert forall c | c in pods[p].containers :: Cached(pods, p, c);
  }

  lemma ElsewhereRow(pods: Pods, index: map<CgroupID, string>, wp: Policies, b: Bindings, u: set<CgroupID>, p: string,
                     q: string, d: string,
                     applied: PolicyByContainer, b': Bindings)
    requires IndexOk(pods, index) && p in pods && Cached(pods, q, d) && q != p && JoinRow(pods, wp, b, u, q, d)
    requires AppliedTo(pods[p], applied, pods[p].containers.Keys, b, b')
    ensures JoinRow(pods, wp, b', u - CgroupsNamed(pods[p], applied.Keys), q, d)
  {
    Elsewhere(pods, index, p, q, d);
    assert pods[q].containers[d].cgroup !in CgroupsNamed(pods[p], applied.Keys);
    JoinRowKept(pods, pods, wp, wp, b, b', u, u - CgroupsNamed(pods[p], applied.Keys), q, d);
  }

  lemma ApplyRow(pods: Pods, index: map<CgroupID, string>, wp: Policies, b: Bindings, u: set<CgroupID>, p: string,
                 c: string,
                 applied: PolicyByContainer, b': Bindings)
    requires IndexOk(pods, index) && Cached(pods, p, c) && JoinRow(pods, wp, b, u, p, c)
    requires SubPolicy(applied, PolicyOf(pods[p], wp)) && AppliedTo(pods[p], applied, pods[p].containers.Keys, b, b')
    ensures JoinRow(pods, wp, b', u - CgroupsNamed(pods[p], applied.Keys), p, c)
  {
    NamedExactly(pods, index, p, c, applied.Keys);
  }

  lemma NamedExactly(pods: Pods, index: map<CgroupID, string>, p: string, c: string, names: set<string>)
    requires IndexOk(pods, index) && Cached(pods, p, c)
    ensures pods[p].containers[c].cgroup in CgroupsNamed(pods[p], names) <==> pods[p].containers[c].name in names
  {
    assert forall d | d in pods[p].containers :: Cached(pods, p, d);
  }

  /** The split of a policy's ids into those still in the spec and those dropped from it. */
  ghost predicate Split(pol: PolicyByContainer, applied: PolicyByContainer, removed: PolicyByContainer) {
    && SubPolicy(applied, pol) && SubPolicy(removed, pol)
    && (forall n | n in pol :: n in applied <==> n !in removed)
  }

  /** In a pod that has been moved, exactly the containers outside the spec are unbound. */
  ghost predicate Moved(pods: Pods, key: WpKey, applied: PolicyByContainer, done: set<string>, u: set<CgroupID>) {
    forall p, c | Matching(pods, key, p, c) && p in done ::
      pods[p].containers[c].cgroup in u <==> pods[p].containers[c].name !in applied
  }

  /** Unless a re-add was rejected before, dropped containers stay bound until their pod's turn. */
  ghost predicate Waiting(pods: Pods, key: WpKey, removed: PolicyByContainer, done: set<string>, u: set<CgroupID>) {
    forall p, c | Matching(pods, key, p, c) && p !in done && pods[p].containers[c].name in removed ::
      pods[p].containers[c].cgroup !in u
  }

  ghost predicate OthersAsBefore(pods: Pods, key: WpKey, u0: set<CgroupID>, u: set<CgroupID>) {
    forall p, c | Cached(pods, p, c) && !pods[p].MatchPolicy(key) ::
      pods[p].containers[c].cgroup in u <==> pods[p].containers[c].cgroup in u0
  }

  /** A container the policy does not name at all counts as unbound. */
  ghost predicate Outside(pods: Pods, key: WpKey, pol: PolicyByContainer, done: set<string>, u: set<CgroupID>) {
    forall p, c | Matching(pods, key, p, c) && p !in done && pods[p].containers[c].name !in pol ::
      pods[p].containers[c].cgroup in u
  }

  /** The cgroups in `u` after pod `p` has been stripped and then applied. */
  ghost function After(pod: PodEntry, applied: PolicyByContainer, removed: PolicyByContainer,
                       u: set<CgroupID>): set<CgroupID> {
    u + GroupsOf(pod, pod.containers.Keys, removed) - CgroupsNamed(pod, applied.Keys)
  }

  lemma AfterElsewhere(pods: Pods, index: map<CgroupID, string>, applied: PolicyByContainer, removed: PolicyByContainer,
                       u: set<CgroupID>, p: string, q: string, c: string)
    requires IndexOk(pods, index) && p in pods && Cached(pods, q, c) && q != p
    ensures pods[q].containers[c].cgroup in After(pods[p], applied, removed, u) <==> pods[q].containers[c].cgroup in u
  {
    Elsewhere(pods, index, p, q, c);
    assert GroupsOf(pods[p], pods[p].containers.Keys, removed) <= CgroupsOf(pods[p]);
    assert CgroupsNamed(pods[p], applied.Keys) <= CgroupsOf(pods[p]);
  }

  lemma AfterHere(pods: Pods, index: map<CgroupID, string>, key: WpKey, pol: PolicyByContainer,
                  applied: PolicyByContainer,
                  removed: PolicyByContainer, done: set<string>, u: set<CgroupID>, p: string, c: string)
    requires IndexOk(pods, index) && Matching(pods, key, p, c) && p !in done
    requires Split(pol, applied, removed) && Outside(pods, key, pol, done, u)
    ensures pods[p].containers[c].cgroup in After(pods[p], applied, removed, u) <==>
            pods[p].containers[c].name !in applied
  {
    NamedExactly(pods, index, p, c, applied.Keys);
    if pods[p].containers[c].name in removed {
      assert pods[p].containers[c].cgroup in GroupsOf(pods[p], pods[p].containers.Keys, removed);
    }
  }

  /** The pods in `done` have been moved over to the spec. */
  ghost predicate Moving(pods: Pods, index: map<CgroupID, string>, wp: Policies, key: WpKey, applied: PolicyByContainer,
                         removed: PolicyByContainer, done: set<string>, u0: set<CgroupID>, b: Bindings,
                         u: set<CgroupID>) {
    && CacheInv(pods, index, wp, b, u)
    && key in wp && key.name != "" && Split(wp[key].polByContainer, applied, removed)
    && Moved(pods, key, applied, done, u) && OthersAsBefore(pods, key, u0, u)
    && Outside(pods, key, wp[key].polByContainer, done, u)
    && (u0 == {} ==> Waiting(pods, key, removed, done, u))
  }

  /** One pod stripped and applied: its containers' fate, and nobody else's. */
  lemma MovedNext(pods: Pods, index: map<CgroupID, string>, key: WpKey, pol: PolicyByContainer,
                  applied: PolicyByContainer,
                  removed: PolicyByContainer, done: set<string>, u0: set<CgroupID>, u: set<CgroupID>, p: string)
    requires IndexOk(pods, index) && p in pods && pods[p].MatchPolicy(key) && p !in done
    requires Split(pol, applied, removed)
    requires Moved(pods, key, applied, done, u) && OthersAsBefore(pods, key, u0, u) && Outside(pods, key, pol, done, u)
    ensures var u' := After(pods[p], applied, removed, u);
            && Moved(pods, key, applied, done + {p}, u') && OthersAsBefore(pods, key, u0, u')
            && Outside(pods, key, pol, done + {p}, u')
            && (Waiting(pods, key, removed, done, u) ==> Waiting(pods, key, removed, done + {p}, u'))
  {
    hide After, IndexOk, Split;
    AfterAll(pods, index, key, pol, applied, removed, done, u, p);
  }

  lemma AfterAll(pods: Pods, index: map<CgroupID, string>, key: WpKey, pol: PolicyByContainer,
                 applied: PolicyByContainer,
                 removed: PolicyByContainer, done: set<string>, u: set<CgroupID>, p: string)
    requires IndexOk(pods, index) && p in pods && pods[p].MatchPolicy(key) && p !in done
    requires Split(pol, applied, removed) && Outside(pods, key, pol, done, u)
    ensures var u' := After(pods[p], applied, removed, u);
            forall q, c | Cached(pods, q, c) ::
              var meta := pods[q].containers[c];
              meta.cgroup in u' <==> if q == p then meta.name !in applied else meta.cgroup in u
  {
    hide After, IndexOk, Split, Outside;
    forall q, c | Cached(pods, q, c)
      ensures var meta := pods[q].containers[c];
              meta.cgroup in After(pods[p], applied, removed, u) <==>
                             if q == p then meta.name !in applied else meta.cgroup in u
    {
      if q == p {
        AfterHere(pods, index, key, pol, applied, removed, done, u, p, c);
      } else {
        AfterElsewhere(pods, index, applied, removed, u, p, q, c);
      }
    }
  }

  lemma MovingNext(pods: Pods, index: map<CgroupID, string>, wp: Policies, key: WpKey, applied: PolicyByContainer,
                   removed: PolicyByContainer, done: set<string>, u0: set<CgroupID>, b: Bindings, u: set<CgroupID>,
                   p: string, b': Bindings)
    requires Moving(pods, index, wp, key, applied, removed, done, u0, b, u)
    requires p in pods && pods[p].MatchPolicy(key) && p !in done
    requires AppliedTo(pods[p], applied, pods[p].containers.Keys,
                       b - GroupsOf(pods[p], pods[p].containers.Keys, removed), b')
    ensures Moving(pods, index, wp, key, applied, removed, done + {p}, u0, b', After(pods[p], applied, removed, u))
  {
    var gs := GroupsOf(pods[p], pods[p].containers.Keys, removed);
    MovedNext(pods, index, key, wp[key].polByContainer, applied, removed, done, u0, u, p);
    StripJoin(pods, index, wp, b, u, gs);
    ApplyJoin(pods, index, wp, b - gs, u + gs, p, applied, b');
  }

  /** Before the first pod: exactly the containers the new ids have not reached are unbound. */
  lemma MovingStart(pods: Pods, index: map<CgroupID, string>, wp: Policies, b: Bindings, u: set<CgroupID>, key: WpKey,
                    fresh_: PolicyByContainer, applied: PolicyByContainer, removed: PolicyByContainer)
    requires CacheInv(pods, index, wp, b, u) && key in wp && key.name != ""
             && fresh_.Keys !! wp[key].polByContainer.Keys
    requires Split(wp[key].polByContainer + fresh_, applied, removed) && removed.Keys !! fresh_.Keys
    ensures Moving(pods, index, WithPol(wp, key, wp[key].polByContainer + fresh_), key, applied, removed, {}, u, b,
                   u + (MatchingCgroups(pods, key) - b.Keys))
  {
    hide CacheInv, MatchingCgroups;
    var u' := u + (MatchingCgroups(pods, key) - b.Keys);
    PendingJoin(pods, index, wp, b, u, key, fresh_);
    forall p, c | Cached(pods, p, c)
      ensures !pods[p].MatchPolicy(key) ==> (pods[p].containers[c].cgroup in u' <==> pods[p].containers[c].cgroup in u)
      ensures Matching(pods, key, p, c) && pods[p].containers[c].name !in wp[key].polByContainer ==>
                pods[p].containers[c].cgroup in u'
      ensures Matching(pods, key, p, c) && pods[p].containers[c].name in wp[key].polByContainer && u == {} ==>
                pods[p].containers[c].cgroup !in u'
    {
      StartRow(pods, index, wp, b, u, key, p, c);
    }
  }

  lemma StartRow(pods: Pods, index: map<CgroupID, string>, wp: Policies, b: Bindings, u: set<CgroupID>, key: WpKey,
                 p: string, c: string)
    requires CacheInv(pods, index, wp, b, u) && key in wp && key.name != "" && Cached(pods, p, c)
    ensures var u', g, n := u + (MatchingCgroups(pods, key) - b.Keys), pods[p].containers[c].cgroup,
                            pods[p].containers[c].name;
            && (!pods[p].MatchPolicy(key) ==> (g in u' <==> g in u))
            && (Matching(pods, key, p, c) && n !in wp[key].polByContainer ==> g in u')
            && (Matching(pods, key, p, c) && n in wp[key].polByContainer && u == {} ==> g !in u')
  {
    assert JoinRow(pods, wp, b, u, p, c);
    var g := pods[p].containers[c].cgroup;
    if pods[p].MatchPolicy(key) {
      assert Matching(pods, key, p, c) && g in MatchingCgroups(pods, key);
    } else {
      forall q, d | Matching(pods, key, q, d)
        ensures pods[q].containers[d].cgroup != g
      {
        assert Cached(pods, q, d);
      }
    }
  }

  /** What the pods' containers are bound to never clashes with the ids still in the spec. */
  lemma MovingNoClash(pods: Pods, index: map<CgroupID, string>, wp: Policies, b: Bindings, u: set<CgroupID>, key: WpKey,
                      applied: PolicyByContainer, p: string)
    requires CacheInv(pods, index, wp, b, u) && key in wp && key.name != "" && p in pods && pods[p].MatchPolicy(key)
    requires SubPolicy(applied, wp[key].polByContainer) && forall n | n in applied :: applied[n] != 0
    ensures DistinctIn(pods[p]) && NoClash(pods[p], applied, b)
  {
    forall c | c in pods[p].containers && pods[p].containers[c].name in applied
      ensures Lookup(b, pods[p].containers[c].cgroup) in {None, Some(applied[pods[p].containers[c].name])}
    {
      assert Cached(pods, p, c) && JoinRow(pods, wp, b, u, p, c);
    }
    forall c, c' | c in pods[p].containers && c' in pods[p].containers
      ensures pods[p].containers[c].cgroup == pods[p].containers[c'].cgroup ==> c == c'
    {
      assert Cached(pods, p, c) && Cached(pods, p, c');
    }
  }

  ghost predicate NoneShared(b: Bindings, removed: PolicyByContainer) {
    forall n, g1, g2 :: !Shared(b, removed, n, g1, g2)
  }

  /** In a pod still waiting, dropped ids are held by containers of that name, and by one alone if none is shared. */
  lemma WaitingHolders(pods: Pods, index: map<CgroupID, string>, wp: Policies, key: WpKey, applied: PolicyByContainer,
                       removed: PolicyByContainer, done: set<string>, u0: set<CgroupID>, b: Bindings, u: set<CgroupID>,
                       p: string)
    requires Moving(pods, index, wp, key, applied, removed, done, u0, b, u)
    requires p in pods && pods[p].MatchPolicy(key) && p !in done && Injective(wp[key].polByContainer)
    ensures OwnBindings(b, pods[p], removed)
    ensures u0 == {} && NoneShared(b, removed) ==> SoleHolders(b, pods[p], removed)
  {
    hide Moved, Outside, OthersAsBefore, CacheInv, Waiting;
    forall c | c in pods[p].containers
      ensures HeldRow(pods[p], wp[key].polByContainer, removed, b, u0 == {}, c)
    {
      WaitingRow(pods, index, wp, key, applied, removed, done, u0, b, u, p, c);
    }
    HoldersOf(pods[p], wp[key].polByContainer, removed, b, u0 == {});
  }

  /** Container `c` is bound to its own id or not at all; if `all`, a dropped one is bound. */
  ghost predicate HeldRow(pod: PodEntry, pol: PolicyByContainer, removed: PolicyByContainer, b: Bindings, all: bool,
                          c: string)
    requires c in pod.containers
  {
    var meta := pod.containers[c];
    && (meta.cgroup in b ==> meta.name in pol && b[meta.cgroup] == pol[meta.name])
    && (all && meta.name in removed ==> Lookup(b, meta.cgroup) == Some(removed[meta.name]))
  }

  lemma WaitingRow(pods: Pods, index: map<CgroupID, string>, wp: Policies, key: WpKey, applied: PolicyByContainer,
                   removed: PolicyByContainer, done: set<string>, u0: set<CgroupID>, b: Bindings, u: set<CgroupID>,
                   p: string, c: string)
    requires Moving(pods, index, wp, key, applied, removed, done, u0, b, u)
    requires Matching(pods, key, p, c) && p !in done
    ensures HeldRow(pods[p], wp[key].polByContainer, removed, b, u0 == {}, c)
  {
    assert JoinRow(pods, wp, b, u, p, c);
  }

  lemma HoldersOf(pod: PodEntry, pol: PolicyByContainer, removed: PolicyByContainer, b: Bindings, all: bool)
    requires Injective(pol) && SubPolicy(removed, pol)
    requires forall c | c in pod.containers :: HeldRow(pod, pol, removed, b, all, c)
    ensures OwnBindings(b, pod, removed)
    ensures all && NoneShared(b, removed) ==> SoleHolders(b, pod, removed)
  {
    forall c | c in pod.containers && pod.containers[c].cgroup in b && b[pod.containers[c].cgroup] in removed.Values
      ensures pod.containers[c].name in removed && removed[pod.containers[c].name] == b[pod.containers[c].cgroup]
    {
      assert HeldRow(pod, pol, removed, b, all, c);
      var n :| n in removed && removed[n] == b[pod.containers[c].cgroup];
      assert n == pod.containers[c].name;
    }
    if all && NoneShared(b, removed) {
      forall c, g | c in pod.containers && pod.containers[c].name in removed
                    && g in b && b[g] == removed[pod.containers[c].name]
        ensures g == pod.containers[c].cgroup
      {
        assert HeldRow(pod, pol, removed, b, all, c);
        assert !Shared(b, removed, pod.containers[c].name, g, pod.containers[c].cgroup);
      }
    }
  }

  /** A cgroup bound to a dropped id after a pod has been moved was bound to it before. */
  lemma HolderKept(b: Bindings, pod: PodEntry, pol: PolicyByContainer, applied: PolicyByContainer,
                   removed: PolicyByContainer,
                   gs: set<CgroupID>, b': Bindings, n: string, g: CgroupID)
    requires Split(pol, applied, removed) && Injective(pol) && n in removed
    requires AppliedTo(pod, applied, pod.containers.Keys, b - gs, b') && Lookup(b', g) == Some(removed[n])
    ensures Lookup(b, g) == Some(removed[n])
  {
    if g in CgroupsOf(pod) {
      var c :| c in pod.containers && pod.containers[c].cgroup == g;
      assert pod.containers[c].name !in applied;
    }
  }

  lemma NoneSharedKept(b: Bindings, pod: PodEntry, pol: PolicyByContainer, applied: PolicyByContainer,
                       removed: PolicyByContainer,
                       gs: set<CgroupID>, b': Bindings)
    requires Split(pol, applied, removed) && Injective(pol) && NoneShared(b, removed)
    requires AppliedTo(pod, applied, pod.containers.Keys, b - gs, b')
    ensures NoneShared(b', removed)
  {
    hide Split, Injective, AppliedTo;
    forall n, g1, g2 | n in removed && Lookup(b', g1) == Some(removed[n]) && Lookup(b', g2) == Some(removed[n])
      ensures g1 == g2
    {
      HolderKept(b, pod, pol, applied, removed, gs, b', n, g1);
      HolderKept(b, pod, pol, applied, removed, gs, b', n, g2);
      assert !Shared(b, removed, n, g1, g2);
    }
  }

  /** Applying what is in the spec does not touch a cgroup bound to a dropped id. */
  lemma SharedApplied(b: Bindings, pod: PodEntry, pol: PolicyByContainer, applied: PolicyByContainer,
                      removed: PolicyByContainer,
                      b': Bindings, n: string, g1: CgroupID, g2: CgroupID)
    requires Split(pol, applied, removed) && Injective(pol) && NoClash(pod, applied, b) && Shared(b, removed, n, g1, g2)
    requires AppliedTo(pod, applied, pod.containers.Keys, b, b')
    ensures Shared(b', removed, n, g1, g2)
  {
    forall g | g in {g1, g2}
      ensures Lookup(b', g) == Some(removed[n])
    {
      if g in CgroupsOf(pod) {
        var c :| c in pod.containers && pod.containers[c].cgroup == g;
        assert pod.containers[c].name !in applied;
      }
    }
  }

  lemma AppliedSurvive(pod: PodEntry, pol: PolicyByContainer, applied: PolicyByContainer, removed: PolicyByContainer,
                       s: map<PolicyID, Settings>, s': map<PolicyID, Settings>)
    requires Split(pol, applied, removed) && Injective(pol)
    requires forall n | n in applied :: applied[n] in s
    requires s' == s - IdsOf(pod, pod.containers.Keys, removed)
    ensures forall n | n in applied :: applied[n] in s'
  {
  }

  /** Some cached container of a matching pod in `done` has this name. */
  ghost predicate CarriedIn(pods: Pods, key: WpKey, done: set<string>, n: string) {
    exists p, c :: Matching(pods, key, p, c) && p in done && pods[p].containers[c].name == n
  }

  ghost function IdsNamed(pol: PolicyByContainer, names: set<string>): set<PolicyID> {
    set n | n in names && n in pol :: pol[n]
  }

  /** The dropped names given up so far: those the pods in `done` carry. */
  ghost predicate GivenUp(pods: Pods, key: WpKey, removed: PolicyByContainer, done: set<string>, seen: set<string>) {
    forall n :: n in seen <==> n in removed && CarriedIn(pods, key, done, n)
  }

  lemma GivenUpNext(pods: Pods, key: WpKey, removed: PolicyByContainer, done: set<string>, seen: set<string>, p: string)
    requires GivenUp(pods, key, removed, done, seen) && p in pods && pods[p].MatchPolicy(key)
    ensures GivenUp(pods, key, removed, done + {p}, seen + NamesOf(pods[p], pods[p].containers.Keys, removed))
  {
    var names := NamesOf(pods[p], pods[p].containers.Keys, removed);
    forall n | n in removed
      ensures CarriedIn(pods, key, done + {p}, n) <==> CarriedIn(pods, key, done, n) || n in names
    {
      if CarriedIn(pods, key, done + {p}, n) {
        var q, c :| Matching(pods, key, q, c) && q in done + {p} && pods[q].containers[c].name == n;
        assert q == p ==> n in names;
      }
      if n in names {
        var c :| c in pods[p].containers && pods[p].containers[c].name == n;
        assert Matching(pods, key, p, c);
      }
      if CarriedIn(pods, key, done, n) {
        var q, c :| Matching(pods, key, q, c) && q in done && pods[q].containers[c].name == n;
        assert q in done + {p};
      }
    }
  }

  /** The state after some pods: the dropped names they carry are gone from the policy, their ids from the kernel. */
  ghost predicate Underway(pods: Pods, key: WpKey, pol0: PolicyByContainer, removed: PolicyByContainer,
                           done: set<string>,
                           seen: set<string>, pol: PolicyByContainer, m0: Maps, m: Maps) {
    && GivenUp(pods, key, removed, done, seen) && pol == pol0 - seen
    && Wiped(m0.settings, m.settings, m.strings, IdsNamed(removed, seen)) && |m.strings| == SM.NUM_SUB_MAPS
    && OthersSame(m0.settings, m0.strings, m.settings, m.strings, IdsNamed(removed, seen))
  }

  lemma UnderwayStart(pods: Pods, key: WpKey, pol: PolicyByContainer, removed: PolicyByContainer, m: Maps)
    requires |m.strings| == SM.NUM_SUB_MAPS
    ensures Underway(pods, key, pol, removed, {}, {}, pol, m, m)
  {
    NothingTouched(m.settings, m.strings);
    NothingWiped(m.settings, m.strings);
    assert IdsNamed(removed, {}) == {};
  }

  lemma UnderwayNext(pods: Pods, key: WpKey, pol0: PolicyByContainer, removed: PolicyByContainer, done: set<string>,
                     seen: set<string>, pol: PolicyByContainer, m0: Maps, m: Maps, p: string, pol': PolicyByContainer,
                     mid: Maps, m': Maps)
    requires Underway(pods, key, pol0, removed, done, seen, pol, m0, m) && p in pods && pods[p].MatchPolicy(key)
    requires Stripped(pods[p], removed, pods[p].containers.Keys, pol, pol', m, mid)
    requires m'.settings == mid.settings && m'.strings == mid.strings
    ensures Underway(pods, key, pol0, removed, done + {p}, seen + NamesOf(pods[p], pods[p].containers.Keys, removed),
                     pol', m0, m')
  {
    hide GivenUp, OthersSame, IdsNamed, NamesOf, GroupsOf, IdsOf, Wiped;
    var cs := pods[p].containers.Keys;
    GivenUpNext(pods, key, removed, done, seen, p);
    MoreIds(pods[p], cs, removed, seen);
    TouchedBoth(m0.settings, m0.strings, m.settings, m.strings, m'.settings, m'.strings, IdsNamed(removed, seen),
                IdsOf(pods[p], cs, removed));
    WipedBoth(m0.settings, m.settings, m.strings, m'.settings, m'.strings, IdsNamed(removed, seen),
              IdsOf(pods[p], cs, removed));
  }

  lemma WipedBoth(s0: map<PolicyID, Settings>, s: map<PolicyID, Settings>, t: StringTables, s': map<PolicyID, Settings>,
                  t': StringTables,
                  ids: set<PolicyID>, ids': set<PolicyID>)
    requires Wiped(s0, s, t, ids) && Wiped(s, s', t', ids') && OthersSame(s, t, s', t', ids')
    ensures Wiped(s0, s', t', ids + ids')
  {
    hide Inner;
    forall i | i in ids && i !in ids'
      ensures NoStrings(t', i)
    {
      assert SameData(s, t, s', t', i);
      StringsSame(t, t', i);
    }
  }

  lemma MoreIds(pod: PodEntry, cs: set<string>, removed: PolicyByContainer, seen: set<string>)
    ensures IdsNamed(removed, seen + NamesOf(pod, cs, removed)) == IdsNamed(removed, seen) + IdsOf(pod, cs, removed)
  {
    var names := NamesOf(pod, cs, removed);
    forall id | id in IdsOf(pod, cs, removed)
      ensures id in IdsNamed(removed, seen + names)
    {
      var c :| c in cs && c in pod.containers && pod.containers[c].name in removed
               && removed[pod.containers[c].name] == id;
      assert pod.containers[c].name in names;
    }
    forall n | n in seen && n in removed
      ensures removed[n] in IdsNamed(removed, seen + names)
    {
      assert n in seen + names;
    }
  }

  lemma TouchedBoth(s0: map<PolicyID, Settings>, t0: StringTables, s: map<PolicyID, Settings>, t: StringTables,
                    s': map<PolicyID, Settings>, t': StringTables, ids: set<PolicyID>, ids': set<PolicyID>)
    requires OthersSame(s0, t0, s, t, ids) && OthersSame(s, t, s', t', ids')
    ensures OthersSame(s0, t0, s', t', ids + ids')
  {
    forall i | i !in ids + ids'
      ensures SameData(s0, t0, s', t', i)
    {
      assert SameData(s0, t0, s, t, i) && SameData(s, t, s', t', i);
    }
  }

  ghost predicate AllMoved(pods: Pods, key: WpKey, done: set<string>) {
    forall p | p in pods && pods[p].MatchPolicy(key) :: p in done
  }

  function WithInfo(wp: Policies, key: WpKey, info: WpInfo): Policies {
    wp[key := info]
  }

  /** After the last pod the join is complete for every matching container, whatever was unbound before. */
  lemma MovingEnd(pods: Pods, index: map<CgroupID, string>, wp: Policies, key: WpKey, applied: PolicyByContainer,
                  removed: PolicyByContainer, done: set<string>, u0: set<CgroupID>, b: Bindings, u: set<CgroupID>,
                  seen: set<string>, state: PolicyState)
    requires Moving(pods, index, wp, key, applied, removed, done, u0, b, u)
    requires AllMoved(pods, key, done) && GivenUp(pods, key, removed, done, seen)
    ensures CacheInv(pods, index, WithInfo(wp, key, WpInfo(wp[key].polByContainer - seen, state)), b,
                     u0 - MatchingCgroups(pods, key))
  {
    hide Moved, OthersAsBefore, Outside, Waiting, Split, AllMoved, GivenUp, IndexOk, JoinRow, WithInfo, MatchingCgroups;
    var wp', u' := WithInfo(wp, key, WpInfo(wp[key].polByContainer - seen, state)), u0 - MatchingCgroups(pods, key);
    forall p, c | Cached(pods, p, c)
      ensures JoinRow(pods, wp', b, u', p, c)
    {
      if pods[p].MatchPolicy(key) {
        EndRow(pods, wp, key, applied, removed, done, u0, b, u, seen, state, p, c);
      } else {
        OtherRow(pods, index, wp, key, u0, b, u, seen, state, p, c);
      }
    }
  }

  lemma EndRow(pods: Pods, wp: Policies, key: WpKey, applied: PolicyByContainer, removed: PolicyByContainer,
               done: set<string>,
               u0: set<CgroupID>, b: Bindings, u: set<CgroupID>, seen: set<string>, state: PolicyState, p: string,
               c: string)
    requires key in wp && key.name != "" && Split(wp[key].polByContainer, applied, removed)
             && Moved(pods, key, applied, done, u)
    requires AllMoved(pods, key, done) && GivenUp(pods, key, removed, done, seen)
    requires Matching(pods, key, p, c) && JoinRow(pods, wp, b, u, p, c)
    ensures JoinRow(pods, WithInfo(wp, key, WpInfo(wp[key].polByContainer - seen, state)), b,
                    u0 - MatchingCgroups(pods, key), p, c)
  {
    var meta := pods[p].containers[c];
    assert p in done && (meta.cgroup in u <==> meta.name !in applied);
    assert meta.cgroup in MatchingCgroups(pods, key);
    assert CarriedIn(pods, key, done, meta.name);
    assert WpKey(pods[p].meta.namespace, pods[p].PolicyName()) == key;
  }

  lemma OtherRow(pods: Pods, index: map<CgroupID, string>, wp: Policies, key: WpKey, u0: set<CgroupID>, b: Bindings,
                 u: set<CgroupID>,
                 seen: set<string>, state: PolicyState, p: string, c: string)
    requires key in wp && key.name != "" && OthersAsBefore(pods, key, u0, u) && IndexOk(pods, index)
    requires Cached(pods, p, c) && !pods[p].MatchPolicy(key) && JoinRow(pods, wp, b, u, p, c)
    ensures JoinRow(pods, WithInfo(wp, key, WpInfo(wp[key].polByContainer - seen, state)), b,
                    u0 - MatchingCgroups(pods, key), p, c)
  {
    var wp' := WithInfo(wp, key, WpInfo(wp[key].polByContainer - seen, state));
    NotMatching(pods, index, key, p, c);
    assert Binding(pods[p], wp', pods[p].containers[c].name) == Binding(pods[p], wp, pods[p].containers[c].name);
    JoinRowKept(pods, pods, wp, wp', b, b, u, u0 - MatchingCgroups(pods, key), p, c);
  }

  lemma NotMatching(pods: Pods, index: map<CgroupID, string>, key: WpKey, p: string, c: string)
    requires IndexOk(pods, index) && Cached(pods, p, c) && !pods[p].MatchPolicy(key)
    ensures pods[p].containers[c].cgroup !in MatchingCgroups(pods, key)
  {
    forall q, d | Matching(pods, key, q, d)
      ensures pods[q].containers[d].cgroup != pods[p].containers[c].cgroup
    {
      assert Cached(pods, q, d);
    }
  }

  lemma SplitSub(pol: PolicyByContainer, applied: PolicyByContainer, removed: PolicyByContainer)
    requires Split(pol, applied, removed)
    ensures SubPolicy(applied, pol) && SubPolicy(removed, pol)
  {
  }

  lemma StrippedBindings(pod: PodEntry, removed: PolicyByContainer, pol0: PolicyByContainer, pol: PolicyByContainer,
                         m0: Maps, m: Maps)
    requires Stripped(pod, removed, pod.containers.Keys, pol0, pol, m0, m)
    ensures m.cgToPolicy == m0.cgToPolicy - GroupsOf(pod, pod.containers.Keys, removed)
            && |m.strings| == SM.NUM_SUB_MAPS
  {
  }

  /** A shared pair, if there is one. */
  lemma PickShared(b: Bindings, removed: PolicyByContainer) returns (n: string, g1: CgroupID, g2: CgroupID)
    ensures !NoneShared(b, removed) ==> Shared(b, removed, n, g1, g2)
  {
    if !NoneShared(b, removed) {
      n, g1, g2 :| Shared(b, removed, n, g1, g2);
    } else {
      n, g1, g2 := "", 0, 0;
    }
  }

  lemma AppliedIssued(pol: PolicyByContainer, applied: PolicyByContainer, settings: map<PolicyID, Settings>,
                      rules: map<string, Rules>)
    requires SubPolicy(applied, pol) && applied.Keys <= rules.Keys
    requires forall n | n in pol :: 1 <= pol[n]
    requires forall c | c in rules :: c in pol && pol[c] in settings
    ensures forall c | c in applied :: applied[c] != 0 && applied[c] in settings
  {
  }
}
