/**
 The allow-list index shared by the agent and the exec hook: eleven hash maps of
 fixed key size holding NUL-padded strings (internal/bpf/policy_values.go,
 bpf/string_maps.h, bpf/main.c).
 */
module StringMaps {
  import opened Bytes

  const NUM_SUB_MAPS: nat := 11
  const KEY_INC_SIZE: nat := 24
  const MAX_STRING_SIZE: nat := 4096
  const SIZES: seq<nat> := [24, 48, 72, 96, 120, 144, 256, 512, 1024, 2048, 4096]

  /** The agent's rounding of a string length to a key size. */
  function PaddedLen(s: nat): nat {
    if s <= 6 * KEY_INC_SIZE then
      if s % KEY_INC_SIZE != 0 then (s / KEY_INC_SIZE + 1) * KEY_INC_SIZE else s
    else if s <= 256 then 256
    else if s <= 512 then 512
    else if s <= 1024 then 1024
    else if s <= 2048 then 2048
    else 4096
  }

  /** The hook's rounding; its first test is strict. */
  function KernelPaddedLen(len: nat): nat {
    if len < 144 then
      if len % KEY_INC_SIZE != 0 then (len / KEY_INC_SIZE + 1) * KEY_INC_SIZE else len
    else if len <= 256 then 256
    else if len <= 512 then 512
    else if len <= 1024 then 1024
    else if len <= 2048 then 2048
    else 4096
  }

  /** The hook's choice of map; a padded length it does not list falls to the last one. */
  function KernelMapIndex(paddedLen: nat): int {
    if paddedLen < 144 then paddedLen / KEY_INC_SIZE - 1
    else if paddedLen == 256 then 6
    else if paddedLen == 512 then 7
    else if paddedLen == 1024 then 8
    else if paddedLen == 2048 then 9
    else 10
  }

  function KernelIndex(len: nat): int {
    KernelMapIndex(KernelPaddedLen(len))
  }

  /** The map whose key size is the padded length of a string of length `len`. */
  ghost function AgentIndex(len: nat): (i: nat)
    requires 1 <= len
    ensures i < NUM_SUB_MAPS && SIZES[i] == PaddedLen(len)
    ensures len <= MAX_STRING_SIZE ==> len <= SIZES[i]
  {
    if len <= 144 then (len - 1) / 24
    else if len <= 256 then 6
    else if len <= 512 then 7
    else if len <= 1024 then 8
    else if len <= 2048 then 9
    else 10
  }

  /** Both sides pick the same map exactly outside 121..144. */
  lemma IndexAgreement(len: nat)
    requires 1 <= len
    ensures 0 <= KernelIndex(len) < NUM_SUB_MAPS
    ensures KernelIndex(len) == AgentIndex(len) <==> !(121 <= len <= 144)
    ensures 121 <= len <= 144 ==> AgentIndex(len) == 5 && KernelIndex(len) in {6, 10}
  {
  }

  /** Longest allowed string: 512 bytes on kernels before 5.11. */
  function SizeLimit(longKeys: bool): nat {
    if longKeys then MAX_STRING_SIZE else 512
  }

  predicate ValidValue(v: Str, longKeys: bool) {
    1 <= |v| <= SizeLimit(longKeys)
  }

  predicate ValidValues(values: seq<Str>, longKeys: bool) {
    forall v | v in values :: ValidValue(v, longKeys)
  }

  datatype Selector = Selected(raw: Str, size: nat) | Rejected

  /** The 4096-byte key and its padded length, or an error for a bad length. */
  function SelectorValue(v: Str, longKeys: bool): Selector {
    if |v| == 0 || |v| > SizeLimit(longKeys) then Rejected
    else Selected(Pad(v, MAX_STRING_SIZE), PaddedLen(|v|))
  }

  /** Strings of the list that belong to sub-map `i`, padded to `n` bytes. */
  ghost function PaddedAt(values: seq<Str>, i: nat, n: nat): set<Str> {
    set v | v in values && |v| >= 1 && AgentIndex(|v|) == i :: Pad(v, n)
  }

  /** What the inner map of bucket `i` must hold for an allow-list. */
  ghost function Bucket(values: seq<Str>, i: nat): set<Str>
    requires i < NUM_SUB_MAPS
  {
    PaddedAt(values, i, SIZES[i])
  }

  /** Puts a value in the one sub-map of its size. */
  method PutValueInMap(m: array<set<Str>>, v: Str, longKeys: bool) returns (ok: bool)
    requires m.Length == NUM_SUB_MAPS
    modifies m
    ensures ok == ValidValue(v, longKeys)
    ensures ok <==> 1 <= |v| <= if longKeys then 4096 else 512
    ensures !ok ==> m[..] == old(m[..])
    ensures ok ==> m[..] == old(m[..])[AgentIndex(|v|) := old(m[AgentIndex(|v|)]) + {Pad(v, MAX_STRING_SIZE)}]
  {
    match SelectorValue(v, longKeys) {
      case Rejected => return false;
      case Selected(value, size) =>
        for sizeIdx := 0 to NUM_SUB_MAPS
          invariant m[..] == old(m[..])
          invariant sizeIdx <= AgentIndex(|v|)
        {
          if size == SIZES[sizeIdx] {
            m[sizeIdx] := m[sizeIdx] + {value};
            return true;
          }
        }
        return false;
    }
  }

  ghost predicate Filled(maps: seq<set<Str>>, values: seq<Str>) {
    && |maps| == NUM_SUB_MAPS
    && forall i | 0 <= i < NUM_SUB_MAPS :: maps[i] == PaddedAt(values, i, MAX_STRING_SIZE)
  }

  lemma FilledNext(maps: seq<set<Str>>, values: seq<Str>, v: Str)
    requires Filled(maps, values) && |v| >= 1
    ensures Filled(maps[AgentIndex(|v|) := maps[AgentIndex(|v|)] + {Pad(v, MAX_STRING_SIZE)}], values + [v])
  {
    hide PaddedAt, Pad;
    PaddedAtSnoc(values, v, MAX_STRING_SIZE);
  }

  /** Compiles an allow-list into the eleven sub-maps, or fails on the first bad string. */
  method ConvertValues(values: seq<Str>, longKeys: bool) returns (ok: bool, maps: seq<set<Str>>)
    ensures ok == ValidValues(values, longKeys)
    ensures |maps| == NUM_SUB_MAPS
    ensures ok ==> forall i | 0 <= i < NUM_SUB_MAPS :: maps[i] == PaddedAt(values, i, MAX_STRING_SIZE)
  {
    var m := new set<Str>[NUM_SUB_MAPS](_ => {});
    for k := 0 to |values|
      invariant ValidValues(values[..k], longKeys) && Filled(m[..], values[..k])
    {
      hide Filled, AgentIndex, ValidValue, Pad;
      ghost var before := m[..];
      var put := PutValueInMap(m, values[k], longKeys);
      if !put {
        assert values[k] in values;
        return false, m[..];
      }
      FilledNext(before, values[..k], values[k]);
      assert values[..k + 1] == values[..k] + [values[k]];
    }
    assert values[..|values|] == values;
    return true, m[..];
  }

  lemma PaddedAtSnoc(values: seq<Str>, v: Str, n: nat)
    requires |v| >= 1
    ensures forall i: nat | i < NUM_SUB_MAPS ::
              PaddedAt(values + [v], i, n) ==
              PaddedAt(values, i, n) + (if AgentIndex(|v|) == i then {Pad(v, n)} else {})
  {
    var w := values + [v];
    forall i: nat | i < NUM_SUB_MAPS
      ensures PaddedAt(w, i, n) == PaddedAt(values, i, n) + (if AgentIndex(|v|) == i then {Pad(v, n)} else {})
    {
      assert forall x :: x in w <==> x in values || x == v;
      assert AgentIndex(|v|) == i ==> Pad(v, n) in PaddedAt(w, i, n);
      forall x | x in values && |x| >= 1 && AgentIndex(|x|) == i
        ensures Pad(x, n) in PaddedAt(w, i, n)
      {
        assert x in w;
      }
    }
  }

  /** Cutting the raw keys of a sub-map to its key size gives the padded strings. */
  lemma TruncatedKeys(values: seq<Str>, i: nat)
    requires i < NUM_SUB_MAPS
    ensures (set raw | raw in PaddedAt(values, i, MAX_STRING_SIZE) :: Pad(raw, SIZES[i])) == Bucket(values, i)
  {
    var cut := set raw | raw in PaddedAt(values, i, MAX_STRING_SIZE) :: Pad(raw, SIZES[i]);
    forall v | v in values && |v| >= 1 && AgentIndex(|v|) == i
      ensures Pad(Pad(v, MAX_STRING_SIZE), SIZES[i]) == Pad(v, SIZES[i])
      ensures Pad(v, MAX_STRING_SIZE) in PaddedAt(values, i, MAX_STRING_SIZE)
    {
    }
    assert forall k :: k in cut <==> k in Bucket(values, i);
  }

  /** The hook's lookup: the key is read from the path's first byte on, NULs follow the path. */
  ghost predicate KernelMatch(inner: seq<set<Str>>, path: Str)
    requires |inner| == NUM_SUB_MAPS && |path| >= 1
  {
    IndexAgreement(|path|);
    var i := KernelIndex(|path|);
    Pad(path, SIZES[i]) in inner[i]
  }

  ghost predicate Denotes(inner: seq<set<Str>>, values: seq<Str>)
    requires |inner| == NUM_SUB_MAPS
  {
    forall i | 0 <= i < NUM_SUB_MAPS :: inner[i] == Bucket(values, i)
  }

  /** What the hook decides, said without maps: membership, blind at 121..144, cut at 4096. */
  predicate Listed(values: seq<Str>, path: Str) {
    if |path| > MAX_STRING_SIZE then path[..MAX_STRING_SIZE] in values
    else path in values && !(121 <= |path| <= 144)
  }

  lemma BucketMember(values: seq<Str>, i: nat, p: Str)
    requires i < NUM_SUB_MAPS && |p| <= SIZES[i]
    requires NulFree(p) && forall v | v in values :: NulFree(v) && 1 <= |v| <= MAX_STRING_SIZE
    ensures Pad(p, SIZES[i]) in Bucket(values, i) <==> p in values && AgentIndex(|p|) == i
  {
    if Pad(p, SIZES[i]) in Bucket(values, i) {
      var v :| v in values && |v| >= 1 && AgentIndex(|v|) == i && Pad(v, SIZES[i]) == Pad(p, SIZES[i]);
      PadInjective(v, p, SIZES[i]);
    }
  }

  /** The bucketed index refines plain set membership, exactly. */
  lemma KernelLookupExact(inner: seq<set<Str>>, values: seq<Str>, path: Str, longKeys: bool)
    requires |inner| == NUM_SUB_MAPS && Denotes(inner, values)
    requires ValidValues(values, longKeys) && forall v | v in values :: NulFree(v)
    requires |path| >= 1 && NulFree(path)
    ensures KernelMatch(inner, path) <==> Listed(values, path)
  {
    IndexAgreement(|path|);
    var i := KernelIndex(|path|);
    var p := if |path| > MAX_STRING_SIZE then path[..MAX_STRING_SIZE] else path;
    assert Pad(path, SIZES[i]) == Pad(p, SIZES[i]);
    assert forall v | v in values :: ValidValue(v, longKeys);
    BucketMember(values, i, p);
  }
}
