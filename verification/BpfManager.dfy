/**
 The agent's writes to the kernel maps (internal/bpf/policy_values.go,
 internal/bpf/policy_settings_operation.go, internal/bpf/cgroup_policy.go). Every
 write to a kernel map is one step that an exec hook on another CPU can observe;
 `trace` records what the hook would read after each of them.
 */
module BpfManager {
  import opened Bytes
  import opened ExecHook
  import SM = StringMaps

  type StringTables = seq<map<PolicyID, set<Str>>>

  /** The inner maps of `id` are those of an allow-list. */
  ghost predicate Compiled(strings: StringTables, id: PolicyID, values: seq<Str>) {
    |strings| == SM.NUM_SUB_MAPS && SM.Denotes(Inner(strings, id), values)
  }

  ghost predicate OthersKept(before: StringTables, after: StringTables, id: PolicyID) {
    |before| == |after| && forall other | other != id :: Inner(after, other) == Inner(before, other)
  }

  ghost predicate NoStrings(strings: StringTables, id: PolicyID) {
    forall i | 0 <= i < |strings| :: Inner(strings, id)[i] == {}
  }

  /** Every binding of `a` is one of `b`. */
  ghost predicate Sub(a: map<CgroupID, PolicyID>, b: map<CgroupID, PolicyID>) {
    forall c | c in a :: c in b && b[c] == a[c]
  }

  /** A hook that looks up a binding in `a` and settings in `b` finds the settings of the id it has found. */
  ghost predicate Finds(a: Maps, b: Maps) {
    forall g | g in a.cgToPolicy :: a.cgToPolicy[g] in b.settings
  }

  /** A hook that makes both lookups in one state finds the settings of every id it finds. */
  ghost predicate Safe(m: Maps) {
    forall g | g in m.cgToPolicy :: m.cgToPolicy[g] in m.settings
  }

  ghost predicate SafeFrom(trace: seq<Maps>, from: nat) {
    forall k | from <= k < |trace| :: Safe(trace[k])
  }

  /**
   The lookups of a hook are not one step: between `from` and `to`, and before and after, it may find a
   binding in one state and look for the settings in a later one.
   */
  ghost predicate TwoReads(start: Maps, trace: seq<Maps>, from: nat, to: nat, end: Maps) {
    && Finds(start, start) && Finds(start, end) && Finds(end, end)
    && (forall k | from <= k < to && k < |trace| :: Finds(start, trace[k]) && Finds(trace[k], end))
    && (forall i, j | from <= i <= j < to && j < |trace| :: Finds(trace[i], trace[j]))
  }

  /** What happened since `mark`: the ids that were bound at any time, and those whose settings were deleted. */
  datatype Epoch = Epoch(mark: nat, start: Maps, last: Maps, bound: set<PolicyID>, dropped: set<PolicyID>)

  ghost predicate Tracked(e: Epoch, m: Maps) {
    m.cgToPolicy.Values <= e.bound && e.start.settings.Keys - e.dropped <= m.settings.Keys
  }

  ghost predicate Covers(e: Epoch, trace: seq<Maps>) {
    && e.mark <= |trace| && Tracked(e, e.start) && Tracked(e, e.last)
    && forall k | e.mark <= k < |trace| :: Tracked(e, trace[k])
  }

  /** The epoch went on: at most these ids were bound, and at most those settings deleted. */
  ghost predicate Later(e: Epoch, e': Epoch, ids: set<PolicyID>, gone: set<PolicyID>) {
    && e'.mark == e.mark && e'.start == e.start
    && e'.bound <= e.bound + ids && e'.dropped <= e.dropped + gone
  }

  lemma LaterItself(e: Epoch, ids: set<PolicyID>)
    ensures Later(e, e, ids, {})
  {
  }

  lemma LaterNone(e: Epoch, gone: set<PolicyID>)
    ensures Later(e, e, {}, gone)
  {
  }

  lemma LaterTwice(e: Epoch, e1: Epoch, e2: Epoch, ids: set<PolicyID>, gone: set<PolicyID>)
    requires Later(e, e1, ids, gone) && Later(e1, e2, ids, gone)
    ensures Later(e, e2, ids, gone)
  {
  }

  lemma LaterMore(e: Epoch, e': Epoch, ids: set<PolicyID>, gone: set<PolicyID>, ids': set<PolicyID>,
                  gone': set<PolicyID>)
    requires Later(e, e', ids, gone) && ids <= ids' && gone <= gone'
    ensures Later(e, e', ids', gone')
  {
  }

  lemma BoundCovered(e: Epoch, trace: seq<Maps>)
    requires Covers(e, trace)
    ensures e.last.cgToPolicy.Values <= e.bound
  {
  }

  lemma ValuesWith(b: map<CgroupID, PolicyID>, c: CgroupID, id: PolicyID)
    ensures b[c := id].Values <= b.Values + {id}
  {
  }

  lemma NextCovers(e: Epoch, trace: seq<Maps>, m: Maps)
    requires Covers(e, trace)
    ensures var gone := e.last.settings.Keys - m.settings.Keys;
            Covers(e.(last := m, bound := e.bound + m.cgToPolicy.Values, dropped := e.dropped + gone), trace + [m])
  {
  }

  /** Whatever was bound had settings from the start, and kept them. */
  lemma EpochFinds(e: Epoch, trace: seq<Maps>)
    requires Covers(e, trace) && e.bound <= e.start.settings.Keys && e.bound !! e.dropped
    ensures TwoReads(e.start, trace, e.mark, |trace|, e.last) && SafeFrom(trace, e.mark)
  {
    forall a, b | Tracked(e, a) && Tracked(e, b)
      ensures Finds(a, b)
    {
      assert forall g | g in a.cgToPolicy :: a.cgToPolicy[g] in a.cgToPolicy.Values;
    }
    assert forall k | e.mark <= k < |trace| :: Finds(trace[k], trace[k]);
  }

  /** If nothing was bound in the first phase but what is bound at its end, the second phase decides. */
  lemma TwoPhases(e: Epoch, before: seq<Maps>, trace: seq<Maps>, end: Maps)
    requires Covers(e, before) && before <= trace && TwoReads(e.start, before, e.mark, |before|, e.last)
    requires e.bound <= e.start.cgToPolicy.Values && e.start.cgToPolicy == e.last.cgToPolicy
    ensures TwoReads(e.start, trace, e.mark, |trace|, end) <==> TwoReads(e.last, trace, |before|, |trace|, end)
  {
    assert forall k | 0 <= k < |before| :: trace[k] == before[k];
    if TwoReads(e.last, trace, |before|, |trace|, end) {
      forall a, b | Tracked(e, a) && Finds(e.last, b)
        ensures Finds(a, b)
      {
        FindsMore(a, e.last, b);
      }
      forall i, j | e.mark <= i <= j < |trace|
        ensures Finds(trace[i], trace[j])
      {
        assert i < |before| ==> Tracked(e, trace[i]);
        assert j < |before| ==> Finds(before[i], before[j]);
      }
    }
  }

  /** A later part of the trace does not matter. */
  lemma TwoReadsPrefix(start: Maps, before: seq<Maps>, trace: seq<Maps>, from: nat, to: nat, end: Maps)
    requires to <= |before| && before <= trace
    ensures TwoReads(start, trace, from, to, end) <==> TwoReads(start, before, from, to, end)
  {
    assert forall k | 0 <= k < |before| :: trace[k] == before[k];
    if TwoReads(start, trace, from, to, end) {
      forall i, j | from <= i <= j < to
        ensures Finds(before[i], before[j])
      {
        assert Finds(trace[i], trace[j]);
      }
      forall k | from <= k < to
        ensures Finds(start, before[k]) && Finds(before[k], end)
      {
        assert Finds(start, trace[k]) && Finds(trace[k], end);
      }
    }
  }

  lemma FindsMore(a: Maps, a': Maps, b: Maps)
    requires a.cgToPolicy.Values <= a'.cgToPolicy.Values && Finds(a', b)
    ensures Finds(a, b)
  {
    forall g | g in a.cgToPolicy
      ensures a.cgToPolicy[g] in b.settings
    {
      assert a.cgToPolicy[g] in a'.cgToPolicy.Values;
    }
  }

  /** Every bucket of `x` is that of `a` or that of `b`. */
  ghost predicate Between(a: seq<set<Str>>, x: seq<set<Str>>, b: seq<set<Str>>) {
    |a| == |x| == |b| && forall j | 0 <= j < |x| :: x[j] == a[j] || x[j] == b[j]
  }

  /** A lookup during a replacement gives what the old list or the new list gives. */
  lemma LookupDuringReplace(a: seq<set<Str>>, x: seq<set<Str>>, b: seq<set<Str>>, path: Str, padding: Str)
    requires Between(a, x, b) && |x| == SM.NUM_SUB_MAPS && |path| >= 1 && |padding| == SM.MAX_STRING_SIZE
    ensures HookMatch(x, path, padding) in {HookMatch(a, path, padding), HookMatch(b, path, padding)}
  {
    var i := SM.KernelIndex(|path| % U16);
    assert 0 <= i < SM.NUM_SUB_MAPS ==> x[i] == a[i] || x[i] == b[i];
  }

  /** Since `from`, every state had each bucket of `id` from one of the two tables. */
  ghost predicate Replacing(trace: seq<Maps>, from: nat, before: StringTables, after: seq<set<Str>>, id: PolicyID) {
    forall k | from <= k < |trace| :: Between(Inner(before, id), Inner(trace[k].strings, id), after)
  }

  /** What `id` stands for in `x`: its settings as in one of the two states, each of its buckets as in one of them. */
  ghost predicate Mixed(a: Maps, x: Maps, b: Maps, id: PolicyID) {
    && Between(Inner(a.strings, id), Inner(x.strings, id), Inner(b.strings, id))
    && (id in x.settings ==> (id in a.settings && x.settings[id] == a.settings[id])
                             || (id in b.settings && x.settings[id] == b.settings[id]))
  }

  ghost predicate MixedFrom(a: Maps, trace: seq<Maps>, from: nat, b: Maps, id: PolicyID) {
    forall k | from <= k < |trace| :: Mixed(a, trace[k], b, id)
  }

  function With(table: map<PolicyID, set<Str>>, id: PolicyID, inner: set<Str>): map<PolicyID, set<Str>> {
    table[id := inner]
  }

  /** None of the cgroups is bound to another id. */
  ghost predicate Free(b: map<CgroupID, PolicyID>, cgroups: seq<CgroupID>, id: PolicyID) {
    forall c | c in cgroups :: c in b ==> b[c] == id
  }

  ghost function AllBound(b: map<CgroupID, PolicyID>, cgroups: seq<CgroupID>, id: PolicyID): map<CgroupID, PolicyID> {
    b + map c | c in cgroups :: id
  }

  /** Since `from` the settings were these, and the bindings at most those. */
  ghost predicate Within(trace: seq<Maps>, from: nat, s: map<PolicyID, Settings>, b: map<CgroupID, PolicyID>) {
    forall k | from <= k < |trace| :: trace[k].settings == s && Sub(trace[k].cgToPolicy, b)
  }

  lemma NothingBound(b: map<CgroupID, PolicyID>, trace: seq<Maps>, s: map<PolicyID, Settings>, id: PolicyID)
    ensures Free(b, [], id) && AllBound(b, [], id) == b && Within(trace, |trace|, s, b)
  {
  }

  lemma BoundNext(b: map<CgroupID, PolicyID>, cs: seq<CgroupID>, c: CgroupID, id: PolicyID)
    requires Free(b, cs, id)
    ensures var b' := AllBound(b, cs, id);
            if c !in b' then Free(b, cs + [c], id) && AllBound(b, cs + [c], id) == b'[c := id]
            else if b'[c] == id then Free(b, cs + [c], id) && AllBound(b, cs + [c], id) == b'
            else c in b && b[c] != id
  {
  }

  lemma NotFree(b: map<CgroupID, PolicyID>, cs: seq<CgroupID>, c: CgroupID, id: PolicyID)
    requires c in cs && c in b && b[c] != id
    ensures !Free(b, cs, id)
  {
  }

  lemma AllBoundIs(b: map<CgroupID, PolicyID>, cs: seq<CgroupID>, id: PolicyID)
    requires Free(b, cs, id)
    ensures Sub(b, AllBound(b, cs, id))
    ensures forall c | c in AllBound(b, cs, id) && c !in b :: c in cs && AllBound(b, cs, id)[c] == id
  {
  }

  lemma WithinNext(trace: seq<Maps>, from: nat, m: Maps, c: CgroupID, id: PolicyID)
    requires Within(trace, from, m.settings, m.cgToPolicy) && c !in m.cgToPolicy
    ensures var b := m.cgToPolicy[c := id];
            Within(trace + [m.(cgToPolicy := b)], from, m.settings, b)
  {
  }

  class Manager {
    const longKeys: bool
    var cgTracker: map<CgroupID, CgroupID>
    var cgToPolicy: map<CgroupID, PolicyID>
    var settings: map<PolicyID, Settings>
    var strings: StringTables
    ghost var trace: seq<Maps>
    ghost var epoch: Epoch

    constructor (longKeys: bool)
      ensures this.longKeys == longKeys && cgTracker == map[] && cgToPolicy == map[] && settings == map[]
      ensures |strings| == SM.NUM_SUB_MAPS && trace == [] && (forall id :: NoStrings(strings, id)) && InEpoch()
    {
      this.longKeys := longKeys;
      cgTracker, cgToPolicy, settings := map[], map[], map[];
      strings := seq(SM.NUM_SUB_MAPS, _ => map[]);
      trace := [];
      var none := Maps(map[], map[], map[], seq(SM.NUM_SUB_MAPS, _ => map[]));
      epoch := Epoch(0, none, none, {}, {});
    }

    function Current(): Maps
      reads this
    {
      Maps(cgTracker, cgToPolicy, settings, strings)
    }

    ghost predicate InEpoch()
      reads this
    {
      Covers(epoch, trace) && epoch.last == Current()
    }

    /** A new epoch begins. */
    ghost method Mark()
      modifies this`epoch
      ensures InEpoch() && epoch == Epoch(|trace|, Current(), Current(), cgToPolicy.Values, {})
    {
      epoch := Epoch(|trace|, Current(), Current(), cgToPolicy.Values, {});
    }

    /** One write that bound at most `ids` and deleted the settings of at most `gone`. */
    ghost method Observe(ids: set<PolicyID>, gone: set<PolicyID>)
      requires Covers(epoch, trace)
      requires cgToPolicy.Values <= epoch.bound + ids && epoch.last.settings.Keys - settings.Keys <= gone
      modifies this`trace, this`epoch
      ensures trace == old(trace) + [Current()] && InEpoch() && Later(old(epoch), epoch, ids, gone)
    {
      NextCovers(epoch, trace, Current());
      trace := trace + [Current()];
      epoch := epoch.(last := Current(), bound := epoch.bound + cgToPolicy.Values,
      dropped := epoch.dropped + (epoch.last.settings.Keys - settings.Keys));
    }

    /** One insert into the map of bindings. */
    method Bind(id: PolicyID, g: CgroupID)
      requires InEpoch() && g !in cgToPolicy
      modifies this`cgToPolicy, this`trace, this`epoch
      ensures cgToPolicy == old(cgToPolicy)[g := id] && trace == old(trace) + [Current()]
      ensures InEpoch() && Later(old(epoch), epoch, {id}, {})
    {
      BoundCovered(epoch, trace);
      ValuesWith(cgToPolicy, g, id);
      hide Covers;
      cgToPolicy := cgToPolicy[g := id];
      Observe({id}, {});
    }

    /** Binds cgroups to a policy; a cgroup bound to another policy is an error. */
    method AddPolicyToCgroups(id: PolicyID, cgroups: seq<CgroupID>) returns (ok: bool)
      requires InEpoch()
      modifies this`cgToPolicy, this`trace, this`epoch
      ensures ok <==> id != 0 && Free(old(cgToPolicy), cgroups, id)
      ensures ok ==> cgToPolicy == AllBound(old(cgToPolicy), cgroups, id)
      ensures Sub(old(cgToPolicy), cgToPolicy)
      ensures forall c | c in cgToPolicy && c !in old(cgToPolicy) :: c in cgroups && cgToPolicy[c] == id
      ensures old(trace) <= trace && Within(trace, |old(trace)|, settings, cgToPolicy)
      ensures InEpoch() && Later(old(epoch), epoch, {id}, {})
    {
      hide Covers, Later, AllBound, Within, Free;
      LaterItself(epoch, {id});
      NothingBound(cgToPolicy, trace, settings, id);
      if id == 0 {
        return false;
      }
      for i := 0 to |cgroups|
        invariant Free(old(cgToPolicy), cgroups[..i], id) && cgToPolicy == AllBound(old(cgToPolicy), cgroups[..i], id)
        invariant old(trace) <= trace && Within(trace, |old(trace)|, settings, cgToPolicy)
        invariant InEpoch() && Later(old(epoch), epoch, {id}, {})
      {
        var c := cgroups[i];
        assert cgroups[..i + 1] == cgroups[..i] + [c];
        BoundNext(old(cgToPolicy), cgroups[..i], c, id);
        if c !in cgToPolicy {
          ghost var e := epoch;
          WithinNext(trace, |old(trace)|, Current(), c, id);
          Bind(id, c);
          LaterTwice(old(epoch), e, epoch, {id}, {});
        } else if cgToPolicy[c] != id {
          NotFree(old(cgToPolicy), cgroups, c, id);
          AllBoundIs(old(cgToPolicy), cgroups[..i], id);
          return false;
        }
      }
      assert cgroups[..|cgroups|] == cgroups;
      AllBoundIs(old(cgToPolicy), cgroups, id);
      return true;
    }

    /** One cgroup; binding it to an id that has settings leaves no hook without them. */
    method BindCgroup(id: PolicyID, g: CgroupID) returns (ok: bool)
      requires InEpoch()
      modifies this`cgToPolicy, this`trace, this`epoch
      ensures ok <==> id != 0 && (g in old(cgToPolicy) ==> old(cgToPolicy)[g] == id)
      ensures ok ==> cgToPolicy == old(cgToPolicy)[g := id]
      ensures old(trace) <= trace
      ensures Safe(old(Current())) && id in settings ==> SafeFrom(trace, |old(trace)|) && Safe(Current())
      ensures InEpoch() && Later(old(epoch), epoch, {id}, {})
    {
      hide Covers;
      ok := AddPolicyToCgroups(id, [g]);
      assert ok ==> cgToPolicy == old(cgToPolicy)[g := id];
    }

    /** Unbinds every cgroup of a policy: collect, then delete. */
    method RemovePolicyFromCgroups(id: PolicyID) returns (ok: bool)
      requires InEpoch()
      modifies this`cgToPolicy, this`trace, this`epoch
      ensures ok <==> id != 0
      ensures cgToPolicy ==
              if ok then map c | c in old(cgToPolicy) && old(cgToPolicy)[c] != id :: old(cgToPolicy)[c]
              else old(cgToPolicy)
      ensures old(trace) <= trace && Within(trace, |old(trace)|, settings, old(cgToPolicy))
      ensures InEpoch() && Later(old(epoch), epoch, {}, {})
    {
      hide Covers;
      if id == 0 {
        return false;
      }
      var bound := set c | c in cgToPolicy && cgToPolicy[c] == id;
      while bound != {}
        invariant forall c | c in bound :: c in cgToPolicy && cgToPolicy[c] == id
        invariant forall c | c in cgToPolicy :: c in bound || cgToPolicy[c] != id
        invariant forall c :: c in cgToPolicy <==> c in old(cgToPolicy) && (c in bound || old(cgToPolicy)[c] != id)
        invariant Sub(cgToPolicy, old(cgToPolicy))
        invariant old(trace) <= trace && Within(trace, |old(trace)|, settings, old(cgToPolicy))
        invariant InEpoch() && Later(old(epoch), epoch, {}, {})
      {
        var c :| c in bound;
        bound := bound - {c};
        Unbind(c);
      }
      return true;
    }

    /** One delete from the map of bindings. */
    method Unbind(g: CgroupID)
      requires InEpoch()
      modifies this`cgToPolicy, this`trace, this`epoch
      ensures cgToPolicy == old(cgToPolicy) - {g} && trace == old(trace) + [Current()]
      ensures InEpoch() && Later(old(epoch), epoch, {}, {})
    {
      BoundCovered(epoch, trace);
      hide Covers;
      cgToPolicy := cgToPolicy - {g};
      assert cgToPolicy.Values <= old(cgToPolicy).Values;
      Observe({}, {});
    }

    /** Unbinds cgroups whatever they are bound to. */
    method RemoveCgroups(id: PolicyID, cgroups: seq<CgroupID>) returns (ok: bool)
      requires InEpoch()
      modifies this`cgToPolicy, this`trace, this`epoch
      ensures ok <==> id == 0
      ensures cgToPolicy == if ok then old(cgToPolicy) - (set c | c in cgroups) else old(cgToPolicy)
      ensures old(trace) <= trace && Within(trace, |old(trace)|, settings, old(cgToPolicy))
      ensures InEpoch() && Later(old(epoch), epoch, {}, {})
    {
      hide Covers;
      if id != 0 {
        return false;
      }
      for i := 0 to |cgroups|
        invariant cgToPolicy == old(cgToPolicy) - (set c | c in cgroups[..i])
        invariant old(trace) <= trace && Within(trace, |old(trace)|, settings, old(cgToPolicy))
        invariant InEpoch() && Later(old(epoch), epoch, {}, {})
      {
        assert cgroups[..i + 1] == cgroups[..i] + [cgroups[i]];
        Unbind(cgroups[i]);
      }
      assert cgroups[..|cgroups|] == cgroups;
      return true;
    }

    method UnbindCgroup(g: CgroupID)
      requires InEpoch()
      modifies this`cgToPolicy, this`trace, this`epoch
      ensures cgToPolicy == old(cgToPolicy) - {g}
      ensures old(trace) <= trace
      ensures Safe(old(Current())) ==> SafeFrom(trace, |old(trace)|) && Safe(Current())
      ensures InEpoch() && Later(old(epoch), epoch, {}, {})
    {
      hide Covers;
      var ok := RemoveCgroups(0, [g]);
      assert (set c | c in [g]) == {g};
    }

    method UpdatePolicySettings(id: PolicyID, mode: Byte, allowForeignRoot: bool)
      requires InEpoch()
      modifies this`settings, this`trace, this`epoch
      ensures settings == old(settings)[id := Settings(mode, allowForeignRoot)]
      ensures trace == old(trace) + [Current()]
      ensures InEpoch() && Later(old(epoch), epoch, {}, {})
    {
      BoundCovered(epoch, trace);
      hide Covers;
      settings := settings[id := Settings(mode, allowForeignRoot)];
      Observe({}, {});
    }

    method DeletePolicySettings(id: PolicyID)
      requires InEpoch()
      modifies this`settings, this`trace, this`epoch
      ensures settings == old(settings) - {id}
      ensures trace == old(trace) + [Current()]
      ensures InEpoch() && Later(old(epoch), epoch, {}, {id})
    {
      BoundCovered(epoch, trace);
      hide Covers;
      settings := settings - {id};
      Observe({}, {id});
    }

    /** Only the string maps changed since `before`, also at every step in between. */
    twostate predicate OnlyStringsWritten()
      reads this
    {
      && old(trace) <= trace && InEpoch() && Later(old(epoch), epoch, {}, {})
      && forall k | |old(trace)| <= k < |trace| ::
           trace[k].settings == settings && trace[k].cgToPolicy == cgToPolicy
    }

    /** One write to the string map of a bucket. */
    method WriteBucket(i: nat, table: map<PolicyID, set<Str>>)
      requires InEpoch() && i < |strings|
      modifies this`strings, this`trace, this`epoch
      ensures strings == old(strings)[i := table] && trace == old(trace) + [Current()]
      ensures InEpoch() && Later(old(epoch), epoch, {}, {})
    {
      BoundCovered(epoch, trace);
      hide Covers;
      strings := strings[i := table];
      Observe({}, {});
    }

    /** Fills a new inner map with keys cut to the bucket's size. */
    method BuildInner(i: nat, subMap: set<Str>, ghost values: seq<Str>) returns (inner: set<Str>)
      requires i < SM.NUM_SUB_MAPS && subMap == SM.PaddedAt(values, i, SM.MAX_STRING_SIZE)
      ensures inner == SM.Bucket(values, i)
    {
      inner := {};
      var todo := subMap;
      while todo != {}
        invariant todo <= subMap
        invariant inner == set raw | raw in subMap - todo :: Pad(raw, SM.SIZES[i])
      {
        var raw :| raw in todo;
        todo := todo - {raw};
        assert subMap - todo == (subMap - todo - {raw}) + {raw};
        inner := inner + {raw[..SM.SIZES[i]]};
        assert raw[..SM.SIZES[i]] == Pad(raw, SM.SIZES[i]);
      }
      assert subMap - todo == subMap;
      SM.TruncatedKeys(values, i);
    }

    /** Writes the buckets that hold a value; a bad string is refused before the first write. */
    method GenerateBPFMaps(id: PolicyID, values: seq<Str>) returns (ok: bool)
      requires |strings| == SM.NUM_SUB_MAPS && InEpoch()
      modifies this`strings, this`trace, this`epoch
      ensures ok == SM.ValidValues(values, longKeys)
      ensures !ok ==> strings == old(strings) && trace == old(trace)
      ensures OthersKept(old(strings), strings, id) && OnlyStringsWritten()
      ensures ok && NoStrings(old(strings), id) ==> Compiled(strings, id, values)
    {
      hide SM.Bucket, SM.PaddedAt, Covers;
      var subMaps;
      ok, subMaps := SM.ConvertValues(values, longKeys);
      if !ok {
        return;
      }
      for i := 0 to SM.NUM_SUB_MAPS
        invariant |strings| == SM.NUM_SUB_MAPS && OnlyStringsWritten()
        invariant OthersKept(old(strings), strings, id)
        invariant forall j | i <= j < SM.NUM_SUB_MAPS :: strings[j] == old(strings)[j]
        invariant forall j | 0 <= j < i ::
            || Inner(strings, id)[j] == SM.Bucket(values, j)
            || (subMaps[j] == {} && Inner(strings, id)[j] == Inner(old(strings), id)[j])
      {
        if subMaps[i] != {} {
          var inner := BuildInner(i, subMaps[i], values);
          WriteBucket(i, With(strings[i], id, inner));
        }
      }
      EmptyBuckets(values, subMaps);
    }

    /** Replaces every bucket, deleting those without a value. */
    method ReplaceBPFMaps(id: PolicyID, values: seq<Str>) returns (ok: bool)
      requires |strings| == SM.NUM_SUB_MAPS && InEpoch()
      modifies this`strings, this`trace, this`epoch
      ensures ok == SM.ValidValues(values, longKeys)
      ensures !ok ==> strings == old(strings) && trace == old(trace)
      ensures OthersKept(old(strings), strings, id) && OnlyStringsWritten()
      ensures ok ==>
                Compiled(strings, id, values) && Replacing(trace, |old(trace)|, old(strings), Inner(strings, id), id)
    {
      hide SM.Bucket, SM.PaddedAt, Covers;
      var subMaps;
      ok, subMaps := SM.ConvertValues(values, longKeys);
      if !ok {
        return;
      }
      EmptyBuckets(values, subMaps);
      ghost var goal := seq(SM.NUM_SUB_MAPS, i requires 0 <= i < SM.NUM_SUB_MAPS => SM.Bucket(values, i));
      for i := 0 to SM.NUM_SUB_MAPS
        invariant |strings| == SM.NUM_SUB_MAPS && OnlyStringsWritten()
        invariant OthersKept(old(strings), strings, id) && Replacing(trace, |old(trace)|, old(strings), goal, id)
        invariant forall j | 0 <= j < SM.NUM_SUB_MAPS ::
            Inner(strings, id)[j] == if j < i then goal[j] else Inner(old(strings), id)[j]
      {
        if subMaps[i] == {} {
          WriteBucket(i, strings[i] - {id});
        } else {
          var inner := BuildInner(i, subMaps[i], values);
          WriteBucket(i, With(strings[i], id, inner));
        }
      }
      assert Inner(strings, id) == goal;
    }

    method RemoveBPFMaps(id: PolicyID)
      requires |strings| == SM.NUM_SUB_MAPS && InEpoch()
      modifies this`strings, this`trace, this`epoch
      ensures OthersKept(old(strings), strings, id) && OnlyStringsWritten()
      ensures NoStrings(strings, id) && |strings| == SM.NUM_SUB_MAPS
    {
      hide Covers;
      for i := 0 to SM.NUM_SUB_MAPS
        invariant |strings| == SM.NUM_SUB_MAPS && OnlyStringsWritten()
        invariant OthersKept(old(strings), strings, id)
        invariant forall j | 0 <= j < i :: id !in strings[j]
      {
        WriteBucket(i, strings[i] - {id});
      }
    }

    /** The kernel's hooks and the walks write the tracker. */
    method SetTracker(tracker: map<CgroupID, CgroupID>)
      requires InEpoch()
      modifies this`cgTracker, this`trace, this`epoch
      ensures cgTracker == tracker && trace == old(trace) + [Current()]
      ensures InEpoch() && Later(old(epoch), epoch, {}, {})
    {
      BoundCovered(epoch, trace);
      hide Covers;
      cgTracker := tracker;
      Observe({}, {});
    }

    /** The container's own cgroup tracks itself. */
    method UpdateCgTracker(cgroup: CgroupID)
      requires InEpoch()
      modifies this`cgTracker, this`trace, this`epoch
      ensures cgTracker == old(cgTracker)[cgroup := cgroup] && trace == old(trace) + [Current()]
      ensures InEpoch() && Later(old(epoch), epoch, {}, {})
    {
      SetTracker(cgTracker[cgroup := cgroup]);
    }
  }

  lemma EmptyBuckets(values: seq<Str>, subMaps: seq<set<Str>>)
    requires |subMaps| == SM.NUM_SUB_MAPS
    requires forall i | 0 <= i < SM.NUM_SUB_MAPS :: subMaps[i] == SM.PaddedAt(values, i, SM.MAX_STRING_SIZE)
    ensures forall i | 0 <= i < SM.NUM_SUB_MAPS :: subMaps[i] == {} ==> SM.Bucket(values, i) == {}
  {
    forall i | 0 <= i < SM.NUM_SUB_MAPS
      ensures subMaps[i] == {} ==> SM.Bucket(values, i) == {}
    {
      SM.TruncatedKeys(values, i);
    }
  }
}
