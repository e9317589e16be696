/**
 The exec hook (enforce_cgroup_policy in bpf/main.c), its per-CPU event, and the
 agent's decoding of the events it sends (internal/bpf/events_common.go).
 */
module ExecHook {
  import opened Bytes
  import opened PathWalk
  import SM = StringMaps

  type CgroupID = c: nat | c < U64

  type PolicyID = nat

  const POLICY_MODE_MONITOR: Byte := 1
  const POLICY_MODE_PROTECT: Byte := 2
  const EPERM: int := 1
  const U16: nat := 0x1_0000
  const U64: nat := 0x1_0000_0000_0000_0000
  const HEADER_LEN: nat := 12
  const EVENT_FIXED_LEN: nat := 19

  datatype Option<+T> = None | Some(value: T)

  datatype Settings = Settings(mode: Byte, allowForeignRoot: bool)

  /** The kernel maps the hook reads. */
  datatype Maps = Maps(
    cgTracker: map<CgroupID, CgroupID>,
    cgToPolicy: map<CgroupID, PolicyID>,
    settings: map<PolicyID, Settings>,
    strings: seq<map<PolicyID, set<Str>>>)

  /** The inner string maps of one policy; a missing one matches nothing. */
  ghost function Inner(strings: seq<map<PolicyID, set<Str>>>, id: PolicyID): (r: seq<set<Str>>)
    ensures |r| == |strings|
    ensures forall i | 0 <= i < |strings| :: r[i] == if id in strings[i] then strings[i][id] else {}
  {
    seq(|strings|, i requires 0 <= i < |strings| => if id in strings[i] then strings[i][id] else {})
  }

  datatype File = File(pos: Pos, unhashed: bool)

  /** One exec: the process's cgroup, what the kernel says about it, and its file. */
  datatype Exec = Exec(cgroup: CgroupID, bootstrap: bool, foreign: bool, file: Option<File>, root: Pos)

  datatype Config = Config(learning: bool, longKeys: bool, iterations: nat)

  predicate ValidConfig(c: Config) {
    c.iterations in {PATH_ITERATIONS, FALLBACK_PATH_ITERATIONS}
  }

  /** The path of the executed file, if the walk gets to the top. */
  ghost function Resolved(e: Exec, c: Config): (r: Option<Str>)
    ensures r.Some? ==> |r.value| >= 1 && NulFree(r.value)
  {
    if e.file.None? || Steps(e.root, e.file.value.pos) >= c.iterations then None
    else
      FilePathIsCString(e.root, e.file.value.pos, e.file.value.unhashed);
      Some(FilePath(e.root, e.file.value.pos, e.file.value.unhashed))
  }

  function TrackerId(m: Maps, cgroup: CgroupID): CgroupID {
    if cgroup != 0 && cgroup in m.cgTracker then m.cgTracker[cgroup] else 0
  }

  /** The exec's cgroup belongs to no container the agent tracks. */
  ghost predicate Untracked(m: Maps, e: Exec) {
    e.cgroup == 0 || e.cgroup !in m.cgTracker || m.cgTracker[e.cgroup] == 0
  }

  function Denial(s: Settings): int {
    if s.mode == POLICY_MODE_MONITOR then 0 else -EPERM
  }

  /** The hook's lookup: the map is chosen by the length modulo 2^16, the key runs on into the padding. */
  ghost predicate HookMatch(inner: seq<set<Str>>, path: Str, padding: Str)
    requires |inner| == SM.NUM_SUB_MAPS && |path| >= 1 && |padding| == MAX_PATH_LEN
  {
    var i := SM.KernelIndex(|path| % U16);
    0 <= i < SM.NUM_SUB_MAPS && (path[..Visible(|path|)] + padding)[..SM.SIZES[i]] in inner[i]
  }

  /** The exec breaks the policy bound to its container. */
  ghost predicate Violation(m: Maps, e: Exec, path: Option<Str>, longKeys: bool, padding: Str)
    requires |m.strings| == SM.NUM_SUB_MAPS && |padding| == MAX_PATH_LEN
    requires path.Some? ==> |path.value| >= 1
  {
    var t := TrackerId(m, e.cgroup);
    && t != 0 && !e.bootstrap && t in m.cgToPolicy && path.Some? && |path.value| != PATH_END
    && var id := m.cgToPolicy[t];
    && id in m.settings
    && if e.foreign then !m.settings[id].allowForeignRoot
       else (longKeys || |path.value| % U16 <= 512) && !HookMatch(Inner(m.strings, id), path.value, padding)
  }

  /** -EPERM for a violation unless the policy only monitors. */
  ghost function VerdictOver(m: Maps, e: Exec, path: Option<Str>, longKeys: bool, padding: Str): int
    requires |m.strings| == SM.NUM_SUB_MAPS && |padding| == MAX_PATH_LEN
    requires path.Some? ==> |path.value| >= 1
  {
    if Violation(m, e, path, longKeys, padding) then Denial(m.settings[m.cgToPolicy[TrackerId(m, e.cgroup)]]) else 0
  }

  /** The verdict with a padding of NULs, as the hook is meant to have. */
  ghost function Verdict(m: Maps, e: Exec, path: Option<Str>, longKeys: bool): int
    requires |m.strings| == SM.NUM_SUB_MAPS
    requires path.Some? ==> |path.value| >= 1
  {
    VerdictOver(m, e, path, longKeys, Zeros(MAX_PATH_LEN))
  }

  /** An exec without policy that the agent is told about. */
  ghost predicate Learnable(m: Maps, e: Exec, path: Option<Str>, learning: bool) {
    var t := TrackerId(m, e.cgroup);
    && t != 0 && !e.bootstrap && t !in m.cgToPolicy && learning
    && (e.foreign || (path.Some? && |path.value| != PATH_END))
  }

  lemma ZerosPad(path: Str, size: nat)
    requires size <= MAX_PATH_LEN
    ensures (path + Zeros(MAX_PATH_LEN))[..size] == Pad(path, size)
  {
  }

  /** With clean padding, a path of fewer than 8192 bytes is looked up NUL-padded. */
  lemma PlainMatch(inner: seq<set<Str>>, path: Str)
    requires |inner| == SM.NUM_SUB_MAPS && 1 <= |path| < PATH_END
    ensures HookMatch(inner, path, Zeros(MAX_PATH_LEN)) <==> SM.KernelMatch(inner, path)
  {
    hide Pad, Zeros, SM.KernelIndex, Visible;
    SM.IndexAgreement(|path|);
    assert path[..|path|] == path;
    ZerosPad(path, SM.SIZES[SM.KernelIndex(|path|)]);
  }

  /** What the hook decides with clean padding, said without maps: from 8192 bytes on, on the piece it can see. */
  ghost predicate HookListed(values: seq<Str>, path: Str)
    requires |path| >= 1
  {
    if |path| < PATH_END then SM.Listed(values, path)
    else
      var i := SM.KernelIndex(|path| % U16);
      && 0 <= i < SM.NUM_SUB_MAPS
      && var seen := path[..if Visible(|path|) < SM.SIZES[i] then Visible(|path|) else SM.SIZES[i]];
      seen in values && SM.AgentIndex(|seen|) == i
  }

  /** The bucketed index refines the plain list, exactly, for paths of any length. */
  lemma HookLookupExact(inner: seq<set<Str>>, values: seq<Str>, path: Str, longKeys: bool)
    requires |inner| == SM.NUM_SUB_MAPS && SM.Denotes(inner, values)
    requires SM.ValidValues(values, longKeys) && forall v | v in values :: NulFree(v)
    requires |path| >= 1 && NulFree(path)
    ensures HookMatch(inner, path, Zeros(MAX_PATH_LEN)) <==> HookListed(values, path)
  {
    if |path| < PATH_END {
      PlainMatch(inner, path);
      SM.KernelLookupExact(inner, values, path, longKeys);
    } else {
      var i := SM.KernelIndex(|path| % U16);
      if 0 <= i < SM.NUM_SUB_MAPS {
        var seen := path[..if Visible(|path|) < SM.SIZES[i] then Visible(|path|) else SM.SIZES[i]];
        assert (path[..Visible(|path|)] + Zeros(MAX_PATH_LEN))[..SM.SIZES[i]] == Pad(seen, SM.SIZES[i]);
        assert forall v | v in values :: SM.ValidValue(v, longKeys);
        SM.BucketMember(values, i, seen);
      }
    }
  }

  datatype Emitted = Silent | Learning(record: Str) | Monitoring(record: Str)

  datatype Header = Header(cgTrackerId: CgroupID, pathLen: nat, mode: Byte, foreign: Byte)

  /** The event as it lies in memory. */
  function EventBytes(h: Header, path: Str): (r: Str)
    ensures |r| == HEADER_LEN + |path|
  {
    LittleEndian(h.cgTrackerId, 8) + LittleEndian(h.pathLen, 2) + [h.mode, h.foreign] + path
  }

  datatype ProcessEvent = ProcessEvent(cgTrackerId: nat, mode: Byte, exePath: Str, foreignRoot: bool)

  /** The agent's decoding; a record shorter than the path it announces is filled with NULs. */
  function Decode(record: Str): Option<ProcessEvent> {
    if |record| < HEADER_LEN then None
    else
      var pathLen := FromLittleEndian(record[8..10]);
      var payload := record[HEADER_LEN..];
      if pathLen > MAX_PATH_LEN || (payload == [] && pathLen > 0) then None
      else Some(ProcessEvent(FromLittleEndian(record[..8]), record[10], Pad(payload, pathLen), record[11] != 0))
  }

  /** A length masked to the size of a segment. */
  function SafeLen(n: nat): (r: nat)
    ensures r < MAX_PATH_LEN && (n < MAX_PATH_LEN ==> r == n)
    ensures MAX_PATH_LEN <= n < 2 * MAX_PATH_LEN ==> r == n - MAX_PATH_LEN
  {
    n % MAX_PATH_LEN
  }

  /** The first segment after the resolved path has been copied over what it held. */
  function CopiedOut(buf: Str, off: nat, pathLen: nat): (r: Str)
    requires |buf| == BUF_LEN
    ensures |r| == BUF_LEN
  {
    var src := off % PATH_END;
    Write(buf, 0, buf[src..src + SafeLen(pathLen + 1)])
  }

  lemma CopiedPadding(buf: Str, off: nat, pathLen: nat)
    requires |buf| == BUF_LEN
    ensures Padding(CopiedOut(buf, off, pathLen)) == Padding(buf)
  {
  }

  function Record(h: Header, buf: Str): Str
    requires |buf| == BUF_LEN
  {
    EventBytes(h, buf)[..EVENT_FIXED_LEN + SafeLen(h.pathLen)]
  }

  /** The per-CPU scratch event; it survives from one exec to the next. */
  class ProcessEvt {
    var cgTrackerId: CgroupID
    var pathLen: nat
    var mode: Byte
    var foreign: Byte
    const path: array<Byte>

    ghost predicate Valid()
      reads this
    {
      path.Length == BUF_LEN && pathLen < U16
    }

    ghost predicate Clean()
      requires Valid()
      reads this, path
    {
      PaddingClean(path[..])
    }

    function GetHeader(): Header
      reads this
    {
      Header(cgTrackerId, pathLen, mode, foreign)
    }

    constructor ()
      ensures Valid() && Clean() && fresh(path)
    {
      path := new Byte[BUF_LEN](_ => NUL);
      pathLen := 0;
    }

    method PopulateWithPath(e: Exec, c: Config) returns (off: nat)
      requires Valid() && ValidConfig(c)
      modifies this`pathLen, path
      ensures Valid()
      ensures off == 0 <==> Resolved(e, c).None? || |Resolved(e, c).value| == PATH_END
      ensures off == 0 ==> pathLen == old(pathLen)
      ensures off != 0 ==>
                |Resolved(e, c).value| < U32 && off == Sub32(PATH_END, |Resolved(e, c).value|)
                && pathLen == |Resolved(e, c).value| % U16
      ensures off != 0 && |Resolved(e, c).value| < PATH_END ==>
                path[..] == Write(old(path[..]), off, Resolved(e, c).value)
      ensures off != 0 ==> Shows(path[..], Resolved(e, c).value)
      ensures if CleanExec(e, c) then Padding(path[..]) == Padding(old(path[..])) else Padding(path[..])[0] != NUL
    {
      hide CleanWalk, Shows, Steps, FilePath, Write;
      if e.file.None? {
        return 0;
      }
      var f := e.file.value;
      FilePathIsCString(e.root, f.pos, f.unhashed);
      if Steps(e.root, f.pos) < c.iterations {
        FilePathBound(e.root, f.pos, f.unhashed);
      }
      off := BpfDPathApprox(e.root, f.pos, f.unhashed, c.iterations, path);
      if off == 0 || off == PATH_END {
        return 0;
      }
      pathLen := Sub32(PATH_END, off) % U16;
    }

    method CopyOut(off: nat)
      requires Valid()
      modifies path
      ensures path[..] == CopiedOut(old(path[..]), off, pathLen)
      ensures Padding(path[..]) == Padding(old(path[..]))
    {
      hide Padding, Write, SafeLen;
      var buf, src := path[..], off % PATH_END;
      ProbeRead(path, 0, buf[src..src + SafeLen(pathLen + 1)]);
      CopiedPadding(buf, off, pathLen);
    }
  }

  /** No step of the walk for this exec writes into the padding. */
  ghost predicate CleanExec(e: Exec, c: Config) {
    e.file.Some? ==>
      CleanWalk(e.file.value.pos, e.file.value.unhashed, StepsTaken(e.root, e.file.value.pos, c.iterations))
  }

  /** The hook gets as far as resolving the path. */
  predicate Walks(m: Maps, e: Exec, learning: bool) {
    var t := TrackerId(m, e.cgroup);
    t != 0 && !e.bootstrap && (t in m.cgToPolicy || (learning && !e.foreign))
  }

  /** Exactly these execs leave something other than NULs in the padding. */
  ghost predicate Dirties(m: Maps, e: Exec, c: Config) {
    Walks(m, e, c.learning) && !CleanExec(e, c)
  }

  /** How many bytes the walk writes for an exec, resolved or not. */
  ghost function Rendered(e: Exec, c: Config): nat {
    if e.file.None? then 0
    else |Written(e.file.value.pos, e.file.value.unhashed, StepsTaken(e.root, e.file.value.pos, c.iterations))|
  }

  /** Up to 8192 bytes no exec dirties the padding. */
  lemma ShortExecIsClean(e: Exec, c: Config)
    requires Rendered(e, c) <= PATH_END
    ensures CleanExec(e, c)
  {
    if e.file.Some? {
      ShortIsClean(e.file.value.pos, e.file.value.unhashed, StepsTaken(e.root, e.file.value.pos, c.iterations));
    }
  }

  /** A file below 32 directories with names of 255 bytes: resolved, clean, and never denied. */
  lemma NeverDenied(m: Maps, e: Exec, c: Config, name: Name)
    requires |m.strings| == SM.NUM_SUB_MAPS && ValidConfig(c) && |name| == 255 && e.root.d.addr > 32
    requires e.file == Some(File(Pos(Chain(32, name), GlobalMount(0, Chain(0, name))), false))
    ensures Resolved(e, c).Some? && |Resolved(e, c).value| == PATH_END && CleanExec(e, c)
    ensures Verdict(m, e, Resolved(e, c), c.longKeys) == 0
  {
    var p := e.file.value.pos;
    ChainSteps(e.root, 32, name);
    ChainWalk(32, name, 32);
    WrittenPath(e.root, p, false);
    ShortIsClean(p, false, 32);
  }

  /** What the agent makes of a record, whatever lies in the buffer. */
  lemma DecodeRecord(h: Header, buf: Str)
    requires |buf| == BUF_LEN && h.pathLen < U16
    ensures Decode(Record(h, buf)) ==
            if h.pathLen > MAX_PATH_LEN then None
            else Some(ProcessEvent(h.cgTrackerId, h.mode,
                                   Pad(buf[..EVENT_FIXED_LEN - HEADER_LEN + SafeLen(h.pathLen)], h.pathLen),
                                   h.foreign != 0))
  {
    var r := Record(h, buf);
    Pow256Values();
    LittleEndianRoundTrip(h.cgTrackerId, 8);
    LittleEndianRoundTrip(h.pathLen, 2);
    assert r[..8] == LittleEndian(h.cgTrackerId, 8);
    assert r[8..10] == LittleEndian(h.pathLen, 2);
    assert r[10] == h.mode && r[11] == h.foreign;
    assert r[HEADER_LEN..] == buf[..EVENT_FIXED_LEN - HEADER_LEN + SafeLen(h.pathLen)];
  }

  /**
   The path as it arrives, over what the first segment held: up to 4094 bytes of length modulo 2^16 as many
   bytes of the path, at 4095 none of them, at 4096 only the first.
   */
  ghost function Delivered(path: Str, buf: Str): (r: Str)
    requires |buf| == BUF_LEN && 1 <= |path| && |path| % U16 <= MAX_PATH_LEN
    ensures |r| == |path| % U16
  {
    var n := |path| % U16;
    if n <= MAX_PATH_LEN - 2 then path[..n]
    else if n == MAX_PATH_LEN - 1 then buf[..n]
    else [path[0]] + buf[1..EVENT_FIXED_LEN - HEADER_LEN] + Zeros(n - (EVENT_FIXED_LEN - HEADER_LEN))
  }

  /** What the agent makes of a record of the path that was copied over `buf`. */
  ghost predicate TellsOver(record: Str, id: CgroupID, mode: Byte, path: Str, foreign: bool, buf: Str)
    requires |path| >= 1
  {
    && |buf| == BUF_LEN
    && Decode(record) ==
       if |path| % U16 > MAX_PATH_LEN then None else Some(ProcessEvent(id, mode, Delivered(path, buf), foreign))
  }

  /** The record tells of the path, over some leftovers. */
  ghost predicate Tells(record: Str, id: CgroupID, mode: Byte, path: Str, foreign: bool)
    requires |path| >= 1
  {
    exists buf :: TellsOver(record, id, mode, path, foreign, buf)
  }

  /** Up to 4094 bytes a record tells the path and nothing else. */
  lemma TellsWhole(record: Str, id: CgroupID, mode: Byte, path: Str, foreign: bool)
    requires 1 <= |path| <= MAX_PATH_LEN - 2 && Tells(record, id, mode, path, foreign)
    ensures Decode(record) == Some(ProcessEvent(id, mode, path, foreign))
  {
    var buf :| TellsOver(record, id, mode, path, foreign, buf);
    assert path[..|path| % U16] == path;
  }

  /** A path whose length modulo 2^16 is short is seen from its first byte on. */
  lemma SeenFromFront(path: Str)
    requires 1 <= |path| && |path| % U16 <= MAX_PATH_LEN
    ensures Visible(|path|) >= |path| % U16 && Visible(|path|) >= 1
  {
    var n := |path| % U16;
    Remainder(|path| / U16 * 8, n);
    assert |path| == |path| / U16 * 8 * PATH_END + n;
  }

  /** The record of any path that the buffer shows. */
  function Sent(h: Header, buf: Str, path: Str): Str
    requires |buf| == BUF_LEN
  {
    Record(h, CopiedOut(buf, Sub32(PATH_END, |path|), h.pathLen))
  }

  lemma CopiedBytes(buf: Str, path: Str, n: nat, k: nat)
    requires |buf| == BUF_LEN && 1 <= |path| < U32 && Shows(buf, path)
    requires k < SafeLen(n + 1) && k < Visible(|path|)
    ensures CopiedOut(buf, Sub32(PATH_END, |path|), n)[k] == path[k]
  {
    OffsetPlace(|path|);
    hide Place, Sub32, Visible;
    var at, size := Place(|path|), SafeLen(n + 1);
    assert Write(buf, 0, buf[at..at + size])[k] == buf[at..at + size][k] == buf[at + k];
  }

  /** The rest of the first segment stays. */
  lemma CopiedRest(buf: Str, off: nat, pathLen: nat, k: nat)
    requires |buf| == BUF_LEN && SafeLen(pathLen + 1) <= k < BUF_LEN
    ensures CopiedOut(buf, off, pathLen)[k] == buf[k]
  {
  }

  lemma DeliveredByte(buf: Str, path: Str, n: nat, out: Str, k: nat)
    requires |buf| == |out| == BUF_LEN && 1 <= |path| < U32 && Shows(buf, path) && n == |path| % U16
    requires k < n <= MAX_PATH_LEN && out == CopiedOut(buf, Sub32(PATH_END, |path|), n)
    ensures Delivered(path, buf)[k] == if k < EVENT_FIXED_LEN - HEADER_LEN + SafeLen(n) then out[k] else NUL
  {
    SeenFromFront(path);
    var off := Sub32(PATH_END, |path|);
    if k < SafeLen(n + 1) {
      CopiedBytes(buf, path, n, k);
    } else {
      CopiedRest(buf, off, n, k);
    }
    hide CopiedOut, Shows, Visible, Sub32, SafeLen;
  }

  /** A path of any length is delivered as said, over whatever the first segment held. */
  lemma DeliveredPath(h: Header, buf: Str, path: Str)
    requires |buf| == BUF_LEN && 1 <= |path| < U32 && Shows(buf, path) && h.pathLen == |path| % U16
    ensures TellsOver(Sent(h, buf, path), h.cgTrackerId, h.mode, path, h.foreign != 0, buf)
  {
    var n := |path| % U16;
    var out := CopiedOut(buf, Sub32(PATH_END, |path|), n);
    DecodeRecord(h, out);
    hide CopiedOut, Shows, Decode, Record, Delivered, Sub32, Visible, SafeLen;
    if n <= MAX_PATH_LEN {
      forall k | 0 <= k < n
        ensures Pad(out[..EVENT_FIXED_LEN - HEADER_LEN + SafeLen(n)], n)[k] == Delivered(path, buf)[k]
      {
        DeliveredByte(buf, path, n, out, k);
      }
      assert Pad(out[..EVENT_FIXED_LEN - HEADER_LEN + SafeLen(n)], n) == Delivered(path, buf);
    }
  }

  /** A buffer that shows the path between NULs. */
  ghost function Showing(path: Str): (buf: Str)
    requires |path| >= 1
    ensures |buf| == BUF_LEN && Shows(buf, path)
    ensures forall i | 0 <= i < Place(|path|) :: buf[i] == NUL
  {
    var at, v := Place(|path|), Visible(|path|);
    Zeros(at) + path[..v] + Zeros(BUF_LEN - at - v)
  }

  /** A path of any length arrives whole, whatever the first segment held, exactly up to 4094 bytes. */
  lemma DeliveryLimit(h: Header, path: Str)
    requires 1 <= |path| < U32 && h.pathLen == |path| % U16 && NulFree(path)
    ensures (forall buf | |buf| == BUF_LEN && Shows(buf, path) ::
               Decode(Sent(h, buf, path)) == Some(ProcessEvent(h.cgTrackerId, h.mode, path, h.foreign != 0)))
       <==> |path| <= MAX_PATH_LEN - 2
  {
    hide Decode, Sent, Shows;
    if |path| <= MAX_PATH_LEN - 2 {
      forall buf | |buf| == BUF_LEN && Shows(buf, path)
        ensures Decode(Sent(h, buf, path)) == Some(ProcessEvent(h.cgTrackerId, h.mode, path, h.foreign != 0))
      {
        DeliveredPath(h, buf, path);
        TellsWhole(Sent(h, buf, path), h.cgTrackerId, h.mode, path, h.foreign != 0);
      }
    } else {
      TooLong(h, path);
    }
  }

  /** From 4095 bytes on, a clean buffer already loses the path. */
  lemma TooLong(h: Header, path: Str)
    requires MAX_PATH_LEN - 1 <= |path| < U32 && h.pathLen == |path| % U16 && NulFree(path)
    ensures Decode(Sent(h, Showing(path), path)) !=
            Some(ProcessEvent(h.cgTrackerId, h.mode, path, h.foreign != 0))
  {
    var buf := Showing(path);
    DeliveredPath(h, buf, path);
    hide Decode, Sent, Showing, Shows;
    if |path| <= MAX_PATH_LEN {
      assert |path| % U16 == |path| && 1 < Place(|path|);
      assert Delivered(path, buf)[1] == buf[1] == NUL && path[1] != NUL;
    } else {
      assert |path| % U16 <= MAX_PATH_LEN ==> |Delivered(path, buf)| != |path|;
    }
  }

  /** What the agent is told about an exec. */
  ghost predicate Reports(out: Emitted, m: Maps, e: Exec, path: Option<Str>, c: Config, padding: Str)
    requires |m.strings| == SM.NUM_SUB_MAPS && |padding| == MAX_PATH_LEN
    requires path.Some? ==> |path.value| >= 1
  {
    var t := TrackerId(m, e.cgroup);
    && (out.Monitoring? <==> Violation(m, e, path, c.longKeys, padding))
    && (out.Learning? <==> Learnable(m, e, path, c.learning))
    && (out.Monitoring? ==> Tells(out.record, t, m.settings[m.cgToPolicy[t]].mode, path.value, e.foreign))
    && (out.Learning? && e.foreign ==> Decode(out.record) == Some(ProcessEvent(t, 0, [], true)))
    && (out.Learning? && !e.foreign ==> Tells(out.record, t, 0, path.value, false))
  }

  /** The event shows `path`, as the walk leaves it. */
  ghost predicate Populated(evt: ProcessEvt, off: nat, path: Str)
    reads evt, evt.path
  {
    && evt.Valid() && 1 <= |path| < U32 && |path| != PATH_END
    && evt.pathLen == |path| % U16 && off == Sub32(PATH_END, |path|) && Shows(evt.path[..], path)
  }

  /** Looking a key up at the resolved offset reads the path, then the padding. */
  lemma KeyAtOffset(buf: Str, path: Str, size: nat)
    requires |buf| == BUF_LEN && 1 <= |path| < U32 && Shows(buf, path) && size <= MAX_PATH_LEN
    ensures var at := Sub32(PATH_END, |path|) % PATH_END;
            buf[at..at + size] == (path[..Visible(|path|)] + Padding(buf))[..size]
  {
    OffsetPlace(|path|);
    hide Place, Sub32;
    var at, v := Place(|path|), Visible(|path|);
    forall i | 0 <= i < size
      ensures buf[at + i] == (path[..v] + Padding(buf))[i]
    {
      assert i >= v ==> Padding(buf)[i - v] == buf[at + i];
    }
  }

  /** Copies the path out and makes the record of it. */
  method CopyRecord(evt: ProcessEvt, off: nat, ghost path: Str) returns (record: Str)
    requires evt.Valid()
    modifies evt.path
    ensures Padding(evt.path[..]) == Padding(old(evt.path[..]))
    ensures old(Populated(evt, off, path)) ==>
              TellsOver(record, evt.cgTrackerId, evt.mode, path, evt.foreign != 0, old(evt.path[..]))
  {
    hide Decode, EventBytes, LittleEndian, Pad, Shows, TellsOver;
    ghost var before := evt.path[..];
    evt.CopyOut(off);
    record := Record(evt.GetHeader(), evt.path[..]);
    if old(Populated(evt, off, path)) {
      DeliveredPath(evt.GetHeader(), before, path);
    }
  }

  /** An exec in a tracked container without policy. */
  method LearnExec(evt: ProcessEvt, m: Maps, e: Exec, c: Config) returns (out: Emitted)
    requires evt.Valid() && ValidConfig(c) && |m.strings| == SM.NUM_SUB_MAPS
    requires TrackerId(m, e.cgroup) != 0 && !e.bootstrap && TrackerId(m, e.cgroup) !in m.cgToPolicy
    modifies evt, evt.path
    ensures evt.Valid()
    ensures if Dirties(m, e, c) then Padding(evt.path[..])[0] != NUL
            else Padding(evt.path[..]) == Padding(old(evt.path[..]))
    ensures Reports(out, m, e, Resolved(e, c), c, Padding(evt.path[..]))
    ensures out.Learning? <==>
            c.learning && (e.foreign || (Resolved(e, c).Some? && |Resolved(e, c).value| != PATH_END))
    ensures !out.Monitoring?
  {
    hide Resolved, Shows, Padding, CleanExec, Decode, EventBytes, LittleEndian, Pad, HookMatch, Write, Sub32, TellsOver;
    if !c.learning {
      return Silent;
    }
    evt.cgTrackerId, evt.mode := TrackerId(m, e.cgroup), 0;
    if e.foreign {
      evt.foreign, evt.pathLen := 1, 0;
      DecodeRecord(evt.GetHeader(), evt.path[..]);
      return Learning(Record(evt.GetHeader(), evt.path[..]));
    }
    evt.foreign := 0;
    var off := evt.PopulateWithPath(e, c);
    if off == 0 {
      return Silent;
    }
    assert Populated(evt, off, Resolved(e, c).value);
    var record := CopyRecord(evt, off, Resolved(e, c).value);
    out := Learning(record);
  }

  /** The hook's lookup of the path at `off` in the string maps of a policy. */
  method Matches(evt: ProcessEvt, m: Maps, id: PolicyID, off: nat, ghost path: Str) returns (found: bool)
    requires evt.Valid() && |m.strings| == SM.NUM_SUB_MAPS
    ensures Populated(evt, off, path) ==> (found <==> HookMatch(Inner(m.strings, id), path, Padding(evt.path[..])))
  {
    hide Shows, Padding, Sub32, Visible;
    var index := SM.KernelMapIndex(SM.KernelPaddedLen(evt.pathLen));
    if evt.pathLen >= 1 {
      SM.IndexAgreement(evt.pathLen);
    }
    if index < 0 || id !in m.strings[index] {
      return false;
    }
    if Populated(evt, off, path) {
      KeyAtOffset(evt.path[..], path, SM.SIZES[index]);
    }
    var key := evt.path[off % PATH_END..off % PATH_END + SM.SIZES[index]];
    found := key in m.strings[index][id];
  }

  /** A foreign-root exec under policy `id`. */
  method CheckForeign(evt: ProcessEvt, m: Maps, id: PolicyID, off: nat, ghost path: Str)
    returns (verdict: int, out: Emitted)
    requires evt.Valid()
    modifies evt`mode, evt.path
    ensures Padding(evt.path[..]) == Padding(old(evt.path[..])) && !out.Learning?
    ensures out.Monitoring? <==> id in m.settings && !m.settings[id].allowForeignRoot
    ensures verdict == if out.Monitoring? then Denial(m.settings[id]) else 0
    ensures out.Monitoring? && old(Populated(evt, off, path)) ==>
              Tells(out.record, evt.cgTrackerId, m.settings[id].mode, path, evt.foreign != 0)
  {
    hide Shows, Padding, Sub32, TellsOver;
    if id !in m.settings || m.settings[id].allowForeignRoot {
      return 0, Silent;
    }
    evt.mode := m.settings[id].mode;
    var record := CopyRecord(evt, off, path);
    out := Monitoring(record);
    verdict := Denial(m.settings[id]);
  }

  /** An exec of a file of the container's own under policy `id`. */
  method CheckLocal(evt: ProcessEvt, m: Maps, id: PolicyID, off: nat, longKeys: bool, ghost path: Str)
    returns (verdict: int, out: Emitted)
    requires evt.Valid() && |m.strings| == SM.NUM_SUB_MAPS
    modifies evt`mode, evt.path
    ensures Padding(evt.path[..]) == Padding(old(evt.path[..])) && !out.Learning?
    ensures out.Monitoring? ==> id in m.settings
    ensures verdict == if out.Monitoring? then Denial(m.settings[id]) else 0
    ensures old(Populated(evt, off, path)) ==>
              (out.Monitoring? <==>
               && id in m.settings && (longKeys || |path| % U16 <= 512)
               && !HookMatch(Inner(m.strings, id), path, Padding(old(evt.path[..]))))
    ensures out.Monitoring? && old(Populated(evt, off, path)) ==>
              Tells(out.record, evt.cgTrackerId, m.settings[id].mode, path, evt.foreign != 0)
  {
    hide Shows, Padding, Sub32, HookMatch, TellsOver;
    if !longKeys && evt.pathLen > 512 {
      return 0, Silent;
    }
    var found := Matches(evt, m, id, off, path);
    if found {
      return 0, Silent;
    }
    if id !in m.settings {
      evt.CopyOut(off);
      return 0, Silent;
    }
    evt.mode := m.settings[id].mode;
    var record := CopyRecord(evt, off, path);
    out := Monitoring(record);
    verdict := Denial(m.settings[id]);
  }

  /**
   One run of the hook on this CPU's event: verdict and report are those of this exec over the padding
   it leaves, which is the one it found exactly if none of its components straddles it.
   */
  method EnforceCgroupPolicy(evt: ProcessEvt, m: Maps, e: Exec, c: Config) returns (verdict: int, out: Emitted)
    requires evt.Valid() && ValidConfig(c) && |m.strings| == SM.NUM_SUB_MAPS
    modifies evt, evt.path
    ensures evt.Valid()
    ensures if Dirties(m, e, c) then Padding(evt.path[..])[0] != NUL
            else Padding(evt.path[..]) == Padding(old(evt.path[..]))
    ensures verdict == VerdictOver(m, e, Resolved(e, c), c.longKeys, Padding(evt.path[..]))
    ensures Reports(out, m, e, Resolved(e, c), c, Padding(evt.path[..]))
    ensures e.bootstrap || Untracked(m, e) ==> verdict == 0 && out == Silent && evt.path[..] == old(evt.path[..])
  {
    hide Resolved, Shows, Padding, CleanExec, Tells, HookMatch, Write, Sub32, Inner;
    var t := TrackerId(m, e.cgroup);
    if t == 0 || e.bootstrap {
      return 0, Silent;
    }
    if t !in m.cgToPolicy {
      out := LearnExec(evt, m, e, c);
      return 0, out;
    }
    var id := m.cgToPolicy[t];
    evt.cgTrackerId, evt.foreign := t, if e.foreign then 1 else 0;
    var off := evt.PopulateWithPath(e, c);
    if off == 0 {
      return 0, Silent;
    }
    assert Populated(evt, off, Resolved(e, c).value);
    if e.foreign {
      verdict, out := CheckForeign(evt, m, id, off, Resolved(e, c).value);
    } else {
      verdict, out := CheckLocal(evt, m, id, off, c.longKeys, Resolved(e, c).value);
    }
  }

  /** Execs that no policy can deny, and what the agent is told of them, over any padding and for any path. */
  lemma Exempt(m: Maps, e: Exec, path: Option<Str>, c: Config, padding: Str, out: Emitted)
    requires |m.strings| == SM.NUM_SUB_MAPS && |padding| == MAX_PATH_LEN && (path.Some? ==> |path.value| >= 1)
    requires Reports(out, m, e, path, c, padding)
    ensures e.bootstrap || Untracked(m, e) ==>
              VerdictOver(m, e, path, c.longKeys, padding) == 0 && out == Silent && !Dirties(m, e, c)
    ensures !Untracked(m, e) && m.cgTracker[e.cgroup] !in m.cgToPolicy ==>
              VerdictOver(m, e, path, c.longKeys, padding) == 0 && !out.Monitoring? && (!c.learning ==> out == Silent)
    ensures !Untracked(m, e) && m.cgTracker[e.cgroup] in m.cgToPolicy ==>
              var id := m.cgToPolicy[m.cgTracker[e.cgroup]];
              && !out.Learning?
              && (id !in m.settings ==> VerdictOver(m, e, path, c.longKeys, padding) == 0 && out == Silent)
              && (id in m.settings && m.settings[id].mode == POLICY_MODE_MONITOR ==>
                    VerdictOver(m, e, path, c.longKeys, padding) == 0)
              && (id in m.settings && e.foreign && m.settings[id].allowForeignRoot ==>
                    VerdictOver(m, e, path, c.longKeys, padding) == 0 && out == Silent)
    ensures path.None? || |path.value| == PATH_END ==>
              VerdictOver(m, e, path, c.longKeys, padding) == 0 && !out.Monitoring? && (!e.foreign ==> out == Silent)
  {
    hide HookMatch, TellsOver, Decode, CleanExec, Inner;
  }

  /** An exec is judged and reported on its own: verdict and report are as over a padding of NULs. */
  ghost predicate OnItsOwn(m: Maps, e: Exec, c: Config, verdict: int, out: Emitted)
    requires |m.strings| == SM.NUM_SUB_MAPS
  {
    && verdict == Verdict(m, e, Resolved(e, c), c.longKeys)
    && Reports(out, m, e, Resolved(e, c), c, Zeros(MAX_PATH_LEN))
  }

  ghost predicate NoneDirties(maps: seq<Maps>, execs: seq<Exec>, c: Config, n: nat)
    requires n <= |maps| == |execs|
  {
    forall i | 0 <= i < n :: !Dirties(maps[i], execs[i], c)
  }

  lemma CleanPadding(buf: Str)
    requires |buf| == BUF_LEN
    ensures PaddingClean(buf) <==> Padding(buf) == Zeros(MAX_PATH_LEN)
  {
    assert forall i | 0 <= i < MAX_PATH_LEN :: Padding(buf)[i] == buf[PATH_END + i];
  }

  /** From one padding to the next: an exec leaves it alone, or puts a byte of a name at its front. */
  ghost predicate PaddingAfter(m: Maps, e: Exec, c: Config, before: Str, after: Str)
    requires |after| == MAX_PATH_LEN
  {
    if Dirties(m, e, c) then after[0] != NUL else after == before
  }

  /** Each exec is judged and reported over the padding it leaves. */
  ghost predicate Judged(m: Maps, e: Exec, c: Config, verdict: int, out: Emitted, padding: Str)
    requires |m.strings| == SM.NUM_SUB_MAPS && |padding| == MAX_PATH_LEN
  {
    && verdict == VerdictOver(m, e, Resolved(e, c), c.longKeys, padding)
    && Reports(out, m, e, Resolved(e, c), c, padding)
  }

  /** One exec, as it finds and leaves the padding. */
  method EnforceNext(evt: ProcessEvt, m: Maps, e: Exec, c: Config) returns (verdict: int, out: Emitted)
    requires evt.Valid() && ValidConfig(c) && |m.strings| == SM.NUM_SUB_MAPS
    modifies evt, evt.path
    ensures evt.Valid() && PaddingAfter(m, e, c, Padding(old(evt.path[..])), Padding(evt.path[..]))
    ensures Judged(m, e, c, verdict, out, Padding(evt.path[..]))
  {
    hide Padding, Dirties, Resolved, VerdictOver, Reports;
    verdict, out := EnforceCgroupPolicy(evt, m, e, c);
  }

  ghost predicate Paddings(maps: seq<Maps>, execs: seq<Exec>, c: Config, paddings: seq<Str>)
    requires |maps| == |execs|
  {
    && |paddings| == |execs| + 1 && paddings[0] == Zeros(MAX_PATH_LEN)
    && (forall i | 0 <= i < |paddings| :: |paddings[i]| == MAX_PATH_LEN)
    && forall i | 0 <= i < |execs| :: PaddingAfter(maps[i], execs[i], c, paddings[i], paddings[i + 1])
  }

  /** The padding is one of NULs exactly until an exec dirties it; from then on it begins with another byte. */
  lemma {:induction false} CleanUntil(maps: seq<Maps>, execs: seq<Exec>, c: Config, paddings: seq<Str>, n: nat)
    requires n <= |maps| == |execs| && Paddings(maps, execs, c, paddings)
    ensures if NoneDirties(maps, execs, c, n) then paddings[n] == Zeros(MAX_PATH_LEN) else paddings[n][0] != NUL
  {
    hide Dirties;
    if n > 0 {
      CleanUntil(maps, execs, c, paddings, n - 1);
      assert PaddingAfter(maps[n - 1], execs[n - 1], c, paddings[n - 1], paddings[n]);
    }
  }

  lemma OwnVerdicts(maps: seq<Maps>, execs: seq<Exec>, c: Config, verdicts: seq<int>, outs: seq<Emitted>,
                    paddings: seq<Str>)
    requires |maps| == |execs| == |verdicts| == |outs| && Paddings(maps, execs, c, paddings)
    requires forall i | 0 <= i < |maps| :: |maps[i].strings| == SM.NUM_SUB_MAPS
    requires forall i | 0 <= i < |execs| :: Judged(maps[i], execs[i], c, verdicts[i], outs[i], paddings[i + 1])
    ensures forall i | 0 <= i < |execs| && NoneDirties(maps, execs, c, i + 1) ::
              OnItsOwn(maps[i], execs[i], c, verdicts[i], outs[i])
  {
    hide NoneDirties, VerdictOver, Reports, Resolved;
    forall i | 0 <= i < |execs| && NoneDirties(maps, execs, c, i + 1)
      ensures OnItsOwn(maps[i], execs[i], c, verdicts[i], outs[i])
    {
      CleanUntil(maps, execs, c, paddings, i + 1);
    }
  }

  /**
   Any sequence of execs on one CPU, from the zeroed event on: every verdict and every report is that of its
   own exec over the padding that is there; as long as none has dirtied it, this is a padding of NULs. The
   padding ends clean exactly if none did.
   */
  method RunAll(maps: seq<Maps>, execs: seq<Exec>, c: Config)
    returns (evt: ProcessEvt, verdicts: seq<int>, outs: seq<Emitted>, ghost paddings: seq<Str>)
    requires ValidConfig(c) && |maps| == |execs|
    requires forall i | 0 <= i < |maps| :: |maps[i].strings| == SM.NUM_SUB_MAPS
    ensures |verdicts| == |outs| == |execs| && Paddings(maps, execs, c, paddings)
    ensures forall i | 0 <= i < |execs| :: Judged(maps[i], execs[i], c, verdicts[i], outs[i], paddings[i + 1])
    ensures forall i | 0 <= i < |execs| && NoneDirties(maps, execs, c, i + 1) ::
              OnItsOwn(maps[i], execs[i], c, verdicts[i], outs[i])
    ensures evt.Valid() && Padding(evt.path[..]) == paddings[|execs|]
    ensures evt.Clean() <==> NoneDirties(maps, execs, c, |execs|)
  {
    hide Padding, PaddingClean, Dirties, OnItsOwn, Judged, VerdictOver, Reports, NoneDirties, Resolved;
    evt := new ProcessEvt();
    CleanPadding(evt.path[..]);
    verdicts, outs, paddings := [], [], [Padding(evt.path[..])];
    for k := 0 to |execs|
      invariant evt.Valid() && fresh(evt) && fresh(evt.path) && |verdicts| == |outs| == k
      invariant |paddings| == k + 1 && paddings[0] == Zeros(MAX_PATH_LEN) && paddings[k] == Padding(evt.path[..])
      invariant forall i | 0 <= i <= k :: |paddings[i]| == MAX_PATH_LEN
      invariant forall i | 0 <= i < k :: PaddingAfter(maps[i], execs[i], c, paddings[i], paddings[i + 1])
      invariant forall i | 0 <= i < k :: Judged(maps[i], execs[i], c, verdicts[i], outs[i], paddings[i + 1])
    {
      var v, o := EnforceNext(evt, maps[k], execs[k], c);
      verdicts, outs, paddings := verdicts + [v], outs + [o], paddings + [Padding(evt.path[..])];
    }
    OwnVerdicts(maps, execs, c, verdicts, outs, paddings);
    CleanUntil(maps, execs, c, paddings, |execs|);
    CleanPadding(evt.path[..]);
  }

  /** 82 directories with names of 100 bytes: an exec of a file below them dirties the padding. */
  lemma DirtyExec(m: Maps, e: Exec, c: Config, name: Name)
    requires ValidConfig(c) && |name| == 100 && e.root.d.addr > 82 && Walks(m, e, c.learning)
    requires e.file == Some(File(Pos(Chain(82, name), GlobalMount(0, Chain(0, name))), false))
    ensures Resolved(e, c).Some? && Dirties(m, e, c)
  {
    DirtyChain(e.root, name);
  }

  /** A key that runs into a dirty padding is that of a string longer than the path. */
  lemma DirtyKey(v: Str, path: Str, padding: Str, size: nat)
    requires |path| < size <= |padding| && padding[0] != NUL && Pad(v, size) == (path + padding)[..size]
    ensures path < v
  {
    assert Pad(v, size)[|path|] == padding[0];
    assert forall k | 0 <= k < |path| :: v[k] == Pad(v, size)[k] == path[k];
  }

  /** The path leaves no room for padding in its key. */
  predicate Fills(path: Str)
    requires |path| >= 1
  {
    var i := SM.KernelIndex(|path| % U16);
    0 <= i < SM.NUM_SUB_MAPS ==> Visible(|path|) >= SM.SIZES[i]
  }

  /** A listed string that goes on, after what is seen of the path, as the padding does. */
  ghost predicate Extended(values: seq<Str>, path: Str, padding: Str)
    requires |path| >= 1 && |padding| == MAX_PATH_LEN
  {
    var i, seen := SM.KernelIndex(|path| % U16), path[..Visible(|path|)];
    && 0 <= i < SM.NUM_SUB_MAPS
    && exists v :: && v in values && seen < v && SM.AgentIndex(|v|) == i
                   && Pad(v, SM.SIZES[i]) == (seen + padding)[..SM.SIZES[i]]
  }

  /** A path that fills its key is looked up in the same way over every padding. */
  lemma FilledKey(inner: seq<set<Str>>, path: Str, padding: Str)
    requires |inner| == SM.NUM_SUB_MAPS && |path| >= 1 && |padding| == MAX_PATH_LEN && Fills(path)
    ensures HookMatch(inner, path, padding) <==> HookMatch(inner, path, Zeros(MAX_PATH_LEN))
  {
    var i := SM.KernelIndex(|path| % U16);
    if 0 <= i < SM.NUM_SUB_MAPS {
      var seen := path[..Visible(|path|)];
      assert (seen + padding)[..SM.SIZES[i]] == (seen + Zeros(MAX_PATH_LEN))[..SM.SIZES[i]];
    }
  }

  /** Over a dirty padding a path that does not fill its key is found exactly if a listed string extends it. */
  lemma OpenKey(inner: seq<set<Str>>, values: seq<Str>, path: Str, padding: Str)
    requires |inner| == SM.NUM_SUB_MAPS && SM.Denotes(inner, values) && |path| >= 1
    requires |padding| == MAX_PATH_LEN && padding[0] != NUL && !Fills(path)
    ensures HookMatch(inner, path, padding) <==> Extended(values, path, padding)
  {
    var i, seen := SM.KernelIndex(|path| % U16), path[..Visible(|path|)];
    var key := (seen + padding)[..SM.SIZES[i]];
    hide SM.KernelIndex, Visible, Pad;
    if key in SM.Bucket(values, i) {
      var v :| v in values && |v| >= 1 && SM.AgentIndex(|v|) == i && Pad(v, SM.SIZES[i]) == key;
      DirtyKey(v, seen, padding, SM.SIZES[i]);
    }
  }

  /** The lookup over a dirty padding, said without maps, for paths of any length. */
  lemma DirtyLookupExact(inner: seq<set<Str>>, values: seq<Str>, path: Str, padding: Str, longKeys: bool)
    requires |inner| == SM.NUM_SUB_MAPS && SM.Denotes(inner, values)
    requires SM.ValidValues(values, longKeys) && forall v | v in values :: NulFree(v)
    requires |path| >= 1 && NulFree(path) && |padding| == MAX_PATH_LEN && padding[0] != NUL
    ensures HookMatch(inner, path, padding) <==>
            if Fills(path) then HookListed(values, path) else Extended(values, path, padding)
  {
    hide HookMatch, HookListed, Extended, Fills, SM.Denotes, SM.ValidValues;
    if Fills(path) {
      FilledKey(inner, path, padding);
      HookLookupExact(inner, values, path, longKeys);
    } else {
      OpenKey(inner, values, path, padding);
    }
  }

  /** A local exec that is looked up in the lists of a policy that does not only monitor. */
  ghost predicate LookedUp(m: Maps, e: Exec, path: Str, longKeys: bool, values: seq<Str>)
    requires |m.strings| == SM.NUM_SUB_MAPS
  {
    var t := TrackerId(m, e.cgroup);
    && t != 0 && !e.bootstrap && !e.foreign && t in m.cgToPolicy && m.cgToPolicy[t] in m.settings
    && m.settings[m.cgToPolicy[t]].mode != POLICY_MODE_MONITOR && SM.Denotes(Inner(m.strings, m.cgToPolicy[t]), values)
    && SM.ValidValues(values, longKeys) && (forall v | v in values :: NulFree(v))
    && 1 <= |path| != PATH_END && NulFree(path) && (longKeys || |path| % U16 <= 512)
  }

  /**
   What a dirty padding changes: only for a path that does not fill its key, which is then denied exactly if
   no listed string extends it, instead of exactly if it is not listed.
   */
  lemma DirtyVerdict(m: Maps, e: Exec, path: Str, longKeys: bool, values: seq<Str>, padding: Str)
    requires |m.strings| == SM.NUM_SUB_MAPS && LookedUp(m, e, path, longKeys, values)
    requires |padding| == MAX_PATH_LEN && padding[0] != NUL
    ensures Verdict(m, e, Some(path), longKeys) == if HookListed(values, path) then 0 else -EPERM
    ensures VerdictOver(m, e, Some(path), longKeys, padding) == Verdict(m, e, Some(path), longKeys) <==>
            Fills(path) || (HookListed(values, path) <==> Extended(values, path, padding))
  {
    var inner := Inner(m.strings, m.cgToPolicy[TrackerId(m, e.cgroup)]);
    HookLookupExact(inner, values, path, longKeys);
    DirtyLookupExact(inner, values, path, padding, longKeys);
    hide HookMatch, HookListed, Extended, Fills, SM.Denotes, SM.ValidValues, Inner;
  }

  /** The padding matters to no other exec. */
  lemma PaddingIgnored(m: Maps, e: Exec, path: Option<Str>, longKeys: bool, padding: Str)
    requires |m.strings| == SM.NUM_SUB_MAPS && |padding| == MAX_PATH_LEN && (path.Some? ==> |path.value| >= 1)
    requires var t := TrackerId(m, e.cgroup);
             || t == 0 || e.bootstrap || e.foreign || t !in m.cgToPolicy || m.cgToPolicy[t] !in m.settings
             || m.settings[m.cgToPolicy[t]].mode == POLICY_MODE_MONITOR || path.None? || |path.value| == PATH_END
             || (!longKeys && |path.value| % U16 > 512) || Fills(path.value)
    ensures VerdictOver(m, e, path, longKeys, padding) == Verdict(m, e, path, longKeys)
  {
    var t := TrackerId(m, e.cgroup);
    if t in m.cgToPolicy && path.Some? && Fills(path.value) {
      FilledKey(Inner(m.strings, m.cgToPolicy[t]), path.value, padding);
    }
    hide HookMatch, Fills, Inner;
  }

  /** A dirty padding denies a listed path that does not fill its key, if no listed path begins with it. */
  lemma DirtyDenies(m: Maps, e: Exec, path: Str, longKeys: bool, values: seq<Str>, padding: Str)
    requires |m.strings| == SM.NUM_SUB_MAPS && LookedUp(m, e, path, longKeys, values)
    requires |padding| == MAX_PATH_LEN && padding[0] != NUL && !Fills(path)
    requires HookListed(values, path) && forall v | v in values :: !(path[..Visible(|path|)] < v)
    ensures VerdictOver(m, e, Some(path), longKeys, padding) == -EPERM && Verdict(m, e, Some(path), longKeys) == 0
  {
    assert !Extended(values, path, padding);
    hide HookMatch, HookListed, Extended, Fills, LookedUp;
    DirtyVerdict(m, e, path, longKeys, values, padding);
  }

  /** What one dirtied padding does to a later exec: a listed file whose path does not fill its key is denied. */
  method DirtyRun(m: Maps, first: Exec, second: Exec, c: Config, ghost values: seq<Str>) returns (verdict: int)
    requires ValidConfig(c) && |m.strings| == SM.NUM_SUB_MAPS && Dirties(m, first, c)
    requires Resolved(second, c).Some? && LookedUp(m, second, Resolved(second, c).value, c.longKeys, values)
    requires var path := Resolved(second, c).value;
             !Fills(path) && HookListed(values, path) && forall v | v in values :: !(path[..Visible(|path|)] < v)
    ensures verdict == -EPERM && Verdict(m, second, Resolved(second, c), c.longKeys) == 0
  {
    hide Padding, Dirties, Resolved, VerdictOver, Verdict, Reports, LookedUp, HookListed, Fills, Visible;
    var evt := new ProcessEvt();
    var _, _ := EnforceNext(evt, m, first, c);
    var out;
    verdict, out := EnforceNext(evt, m, second, c);
    DirtyDenies(m, second, Resolved(second, c).value, c.longKeys, values, Padding(evt.path[..]));
  }
}
