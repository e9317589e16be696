/**
 Backward reconstruction of an executable's path in a scratch buffer of three
 4096-byte segments (bpf/d_path_resolution.h). The path is written from the end
 of the second segment towards its start; the third segment is NUL padding.
 */
module PathWalk {
  import opened Bytes

  const MAX_PATH_LEN: nat := 4096
  const PATH_END: nat := 8192
  const BUF_LEN: nat := 12288
  const MAX_COMPONENT_LEN: nat := 256
  const U32: nat := 0x1_0000_0000
  const PATH_ITERATIONS: nat := 2048
  const FALLBACK_PATH_ITERATIONS: nat := 512

  /** Unsigned 32-bit subtraction. */
  function Sub32(x: nat, y: nat): (r: nat)
    ensures y <= x ==> r == x - y
    ensures x < y < U32 ==> r == U32 + x - y
  {
    if y <= x then x - y else (x - y) % U32
  }

  /** " (deleted)" */
  const DELETED: Str := [32, 40, 100, 101, 108, 101, 116, 101, 100, 41]

  /** Component names: C strings within the kernel's limit of 255 bytes. */
  type Name = s: Str | |s| < MAX_COMPONENT_LEN && NulFree(s) witness []

  /** Kernel directory entries; `addr` tells equal-looking entries apart. */
  datatype Dentry =
    | RootDentry(addr: nat, name: Name)
    | ChildDentry(addr: nat, name: Name, parent: Dentry)

  /** Mounts: the global one is its own parent, every other one hangs on a dentry of its parent. */
  datatype Mount =
    | GlobalMount(addr: nat, root: Dentry)
    | ChildMount(addr: nat, root: Dentry, mountpoint: Dentry, mntParent: Mount)

  datatype Pos = Pos(d: Dentry, m: Mount)

  predicate AtMountRoot(p: Pos) {
    p.d == p.m.root || p.d.RootDentry?
  }

  /** The process's root, or the root of the global mount. */
  predicate AtTop(root: Pos, p: Pos) {
    p == root || (AtMountRoot(p) && p.m.GlobalMount?)
  }

  function Next(p: Pos): Pos {
    if AtMountRoot(p) then
      if p.m.GlobalMount? then p else Pos(p.m.mountpoint, p.m.mntParent)
    else Pos(p.d.parent, p.m)
  }

  function Component(p: Pos): Str {
    if AtMountRoot(p) then [] else [SLASH] + p.d.name
  }

  /** The names from below `top` down to `d`, each after a slash; at most up to the root of the file system. */
  ghost function Names(top: Dentry, d: Dentry): Str {
    if d == top || d.RootDentry? then [] else Names(top, d.parent) + ([SLASH] + d.name)
  }

  /** How many names these are. */
  ghost function Depth(top: Dentry, d: Dentry): nat {
    if d == top || d.RootDentry? then 0 else Depth(top, d.parent) + 1
  }

  /** The dentry above them. */
  ghost function Highest(top: Dentry, d: Dentry): Dentry {
    if d == top || d.RootDentry? then d else Highest(top, d.parent)
  }

  /** Going up from `d`, `a` comes no later than `top`. */
  ghost predicate Within(top: Dentry, a: Dentry, d: Dentry) {
    d == a || (d != top && d.ChildDentry? && Within(top, a, d.parent))
  }

  /** The process's root is in the same mount, above the position. */
  ghost predicate SameMount(root: Pos, p: Pos) {
    p.m == root.m && Within(p.m.root, root.d, p.d)
  }

  /**
   The absolute path of a position: from the process's root, where that is in the same mount. Else the path
   of the mountpoint in the mount above, and then the names inside the mount.
   */
  ghost function AbsPath(root: Pos, p: Pos): Str
    decreases p.m
  {
    if SameMount(root, p) then Names(root.d, p.d)
    else if p.m.GlobalMount? then Names(p.m.root, p.d)
    else AbsPath(root, Pos(p.m.mountpoint, p.m.mntParent)) + Names(p.m.root, p.d)
  }

  /** Names and mounts between a position and the top. */
  ghost function Steps(root: Pos, p: Pos): nat
    decreases p.m
  {
    if SameMount(root, p) then Depth(root.d, p.d)
    else if p.m.GlobalMount? then Depth(p.m.root, p.d)
    else Steps(root, Pos(p.m.mountpoint, p.m.mntParent)) + 1 + Depth(p.m.root, p.d)
  }

  /** The process's root, or the root of the global mount where that is not above the position. */
  ghost function Top(root: Pos, p: Pos): Pos
    decreases p.m
  {
    if SameMount(root, p) then root
    else if p.m.GlobalMount? then Pos(Highest(p.m.root, p.d), p.m)
    else Top(root, Pos(p.m.mountpoint, p.m.mntParent))
  }

  predicate Unlinked(d: Dentry, unhashed: bool) {
    unhashed && !d.RootDentry?
  }

  function Suffix(d: Dentry, unhashed: bool): Str {
    if Unlinked(d, unhashed) then DELETED else []
  }

  /**
   The path of a file, marked if the file was deleted; a file with no path at all goes by the name of the top
   dentry.
   */
  ghost function FilePath(root: Pos, p: Pos, unhashed: bool): Str
  {
    var path := AbsPath(root, p) + if unhashed && p.d.ChildDentry? then DELETED else [];
    if path == [] then [SLASH] + Top(root, p).d.name else path
  }

  /** Where the walk is after `k` steps. */
  ghost function After(p: Pos, k: nat): Pos {
    if k == 0 then p else Next(After(p, k - 1))
  }

  /** What the first `k` steps wrote. */
  ghost function Tail(p: Pos, k: nat): Str {
    if k == 0 then [] else Component(After(p, k - 1)) + Tail(p, k - 1)
  }

  /** `k` steps split the absolute path into what is left and what is written. */
  lemma {:induction false} WalkSplit(root: Pos, p: Pos, k: nat)
    requires k <= Steps(root, p)
    ensures Steps(root, After(p, k)) == Steps(root, p) - k
    ensures Top(root, After(p, k)) == Top(root, p)
    ensures AbsPath(root, p) == AbsPath(root, After(p, k)) + Tail(p, k)
    ensures AtTop(root, After(p, k)) <==> k == Steps(root, p)
  {
    OneStep(root, After(p, k));
    if k > 0 {
      WalkSplit(root, p, k - 1);
      var q := After(p, k - 1);
      OneStep(root, q);
      Concat3(AbsPath(root, Next(q)), Component(q), Tail(p, k - 1));
    }
  }

  /** What one step of the walk does to the path, in the file system and across mounts. */
  lemma OneStep(root: Pos, q: Pos)
    ensures AtTop(root, q) <==> Steps(root, q) == 0
    ensures AtTop(root, q) ==> AbsPath(root, q) == [] && Top(root, q) == q
    ensures !AtTop(root, q) ==>
              && Steps(root, q) == 1 + Steps(root, Next(q)) && Top(root, q) == Top(root, Next(q))
              && AbsPath(root, q) == AbsPath(root, Next(q)) + Component(q)
  {
    if !AtTop(root, q) && !AtMountRoot(q) {
      if !SameMount(root, q) && q.m.ChildMount? {
        Concat3(AbsPath(root, Pos(q.m.mountpoint, q.m.mntParent)), Names(q.m.root, q.d.parent), Component(q));
      }
    }
  }

  lemma Concat3(a: Str, b: Str, c: Str)
    ensures (a + b) + c == a + (b + c)
  {
  }

  lemma {:induction false} WalkFrom(p: Pos, k: nat)
    ensures After(p, k + 1) == After(Next(p), k) && Tail(p, k + 1) == Tail(Next(p), k) + Component(p)
  {
    if k > 0 {
      WalkFrom(p, k - 1);
      Concat3(Component(After(Next(p), k - 1)), Tail(Next(p), k - 1), Component(p));
    } else {
      assert After(p, 1) == Next(After(p, 0));
      assert Tail(p, 1) == Component(After(p, 0)) + Tail(p, 0);
    }
  }

  /** Inside a mount the walk writes its names, whatever the process's root; then it crosses to the mountpoint. */
  lemma {:induction false} MountCrossed(p: Pos)
    ensures var n := Depth(p.m.root, p.d);
            && Tail(p, n) == Names(p.m.root, p.d) && After(p, n) == Pos(Highest(p.m.root, p.d), p.m)
            && (p.m.ChildMount? ==> After(p, n + 1) == Pos(p.m.mountpoint, p.m.mntParent))
    decreases p.d
  {
    if !AtMountRoot(p) {
      MountCrossed(Next(p));
      WalkFrom(p, Depth(p.m.root, p.d) - 1);
      WalkFrom(p, Depth(p.m.root, p.d));
    } else {
      assert After(p, 0) == p;
      assert After(p, 1) == Next(After(p, 0));
    }
  }

  lemma {:induction false} TailBound(p: Pos, k: nat)
    ensures |Tail(p, k)| <= MAX_COMPONENT_LEN * k
  {
    if k > 0 {
      TailBound(p, k - 1);
    }
  }

  /** `buf` with `s` written at `at`. */
  function Write(buf: Str, at: nat, s: Str): (r: Str)
    requires at + |s| <= |buf|
    ensures |r| == |buf|
  {
    buf[..at] + s + buf[at + |s|..]
  }

  lemma WriteKeeps(buf: Str, at: nat, s: Str, x: nat)
    requires at + |s| <= |buf| && x < |buf| && !(at <= x < at + |s|)
    ensures Write(buf, at, s)[x] == buf[x]
  {
  }

  lemma WriteAt(buf: Str, at: nat, s: Str, i: nat)
    requires at + |s| <= |buf| && i < |s|
    ensures Write(buf, at, s)[at + i] == s[i]
  {
  }

  /** The buffer after one component: '/' and the name, both at masked offsets. */
  function NameWritten(buf: Str, off: nat, name: Str): (r: Str)
    requires |buf| == BUF_LEN
    ensures |r| == BUF_LEN
  {
    Write(Write(buf, off % PATH_END, [SLASH]), (off + 1) % PATH_END, name[..|name| % MAX_COMPONENT_LEN])
  }

  method ProbeRead(buf: array<Byte>, at: nat, src: Str)
    requires at + |src| <= buf.Length
    modifies buf
    ensures buf[..] == Write(old(buf[..]), at, src)
  {
    forall i | 0 <= i < |src| {
      buf[at + i] := src[i];
    }
  }

  method CopyName(buf: array<Byte>, buflen: nat, name: Str) returns (off: nat)
    requires buf.Length == BUF_LEN
    modifies buf
    ensures off == Sub32(buflen, |name| + 1)
    ensures buf[..] == NameWritten(old(buf[..]), off, name)
  {
    off := Sub32(buflen, |name| + 1);
    ProbeRead(buf, off % PATH_END, [SLASH]);
    ProbeRead(buf, (off + 1) % PATH_END, name[..|name| % MAX_COMPONENT_LEN]);
  }

  /** Below the wrap, the masks are identities and the component lands right before `off`. */
  lemma NameFits(buf: Str, buflen: nat, name: Str)
    requires |buf| == BUF_LEN && |name| < MAX_COMPONENT_LEN && |name| + 1 <= buflen <= PATH_END
    ensures NameWritten(buf, Sub32(buflen, |name| + 1), name) == Write(buf, buflen - (|name| + 1), [SLASH] + name)
  {
    assert name[..|name|] == name;
  }

  /** A walk in progress: where it is, the offset of the last byte written, the buffer. */
  datatype WalkState = WalkState(pos: Pos, off: nat, buf: Str)

  /** One step of the walk below the top: across a mount, or one component written. */
  ghost function Stepped(s: WalkState): (r: WalkState)
    requires |s.buf| == BUF_LEN
    ensures |r.buf| == BUF_LEN
  {
    if AtMountRoot(s.pos) then s.(pos := Next(s.pos))
    else
      var name := s.pos.d.name;
      var off := Sub32(s.off, |name| + 1);
      WalkState(Next(s.pos), off, NameWritten(s.buf, off, name))
  }

  class PathReadData {
    const root: Pos
    const bptr: array<Byte>
    var pos: Pos
    var currOff: nat
    var resolved: bool

    constructor (root: Pos, pos: Pos, bptr: array<Byte>, off: nat)
      ensures this.root == root && this.bptr == bptr && this.pos == pos && this.currOff == off && !this.resolved
    {
      this.root := root;
      this.bptr := bptr;
      this.pos := pos;
      this.currOff := off;
      this.resolved := false;
    }

    ghost function State(): WalkState
      reads this, bptr
    {
      WalkState(pos, currOff, bptr[..])
    }

    /** One step towards the root; true once the top is reached. */
    method PathRead() returns (stop: bool)
      requires bptr.Length == BUF_LEN
      modifies this, bptr
      ensures stop == old(AtTop(root, pos))
      ensures resolved == (old(resolved) || stop)
      ensures State() == if stop then old(State()) else Stepped(old(State()))
    {
      if pos.d == root.d && pos.m == root.m {
        resolved := true;
        return true;
      }
      if pos.d == pos.m.root || pos.d.RootDentry? {
        if pos.m.GlobalMount? {
          resolved := true;
          return true;
        }
        pos := Pos(pos.m.mountpoint, pos.m.mntParent);
        return false;
      }
      currOff := CopyName(bptr, currOff, pos.d.name);
      pos := Pos(pos.d.parent, pos.m);
      return false;
    }
  }

  /** What is in the buffer after `k` steps: the tail of the path, then the suffix. */
  ghost function Written(p: Pos, unhashed: bool, k: nat): Str {
    Tail(p, k) + Suffix(p.d, unhashed)
  }

  ghost predicate BufferHolds(now: Str, before: Str, w: Str)
    requires |before| == BUF_LEN
  {
    |w| <= PATH_END ==> now == Write(before, PATH_END - |w|, w)
  }

  lemma WriteTwice(before: Str, at: nat, c: Str, w: Str)
    requires at + |c| + |w| <= |before|
    ensures Write(Write(before, at + |c|, w), at, c) == Write(before, at, c + w)
  {
  }

  /** One more component in front of what is already written. */
  lemma Prepended(before: Str, buf: Str, w: Str, name: Str, off: nat)
    requires |before| == BUF_LEN && |buf| == BUF_LEN && BufferHolds(buf, before, w)
    requires |name| < MAX_COMPONENT_LEN && |w| < U32 && off == Sub32(PATH_END, |w|)
    ensures var off' := Sub32(off, |name| + 1);
            && BufferHolds(NameWritten(buf, off', name), before, [SLASH] + name + w)
            && off' == Sub32(PATH_END, |[SLASH] + name + w|)
  {
    hide Write, NameWritten;
    var c := [SLASH] + name;
    if |c + w| <= PATH_END {
      NameFits(buf, off, name);
      WriteTwice(before, off - |c|, c, w);
    }
  }

  /**
   The place of the byte that is `r` bytes before the end of the path: paths of more than
   8192 bytes wrap around the first two segments.
   */
  function Place(r: nat): (x: nat)
    ensures x < PATH_END
    ensures r <= PATH_END ==> x == if r == 0 || r == PATH_END then 0 else PATH_END - r
  {
    (PATH_END - r % PATH_END) % PATH_END
  }

  lemma PlaceNext(r: nat, n: nat)
    requires n <= MAX_COMPONENT_LEN
    ensures Place(r + n) == if n <= Place(r) then Place(r) - n else PATH_END + Place(r) - n
  {
  }

  lemma Remainder(k: nat, x: nat)
    requires x < PATH_END
    ensures (k * PATH_END + x) % PATH_END == x
  {
  }

  lemma WrappedOffset(len: nat)
    requires PATH_END <= len < U32
    ensures (U32 + PATH_END - len) % PATH_END == Place(len)
  {
    var k, m := 524288 - len / PATH_END, len % PATH_END;
    assert U32 + PATH_END - len == k * PATH_END + (PATH_END - m);
    if m == 0 {
      Remainder(k + 1, 0);
    } else {
      Remainder(k, PATH_END - m);
    }
  }

  /** The masked offset of a path of `len` bytes, and the one after it. */
  lemma OffsetPlace(len: nat)
    requires len < U32
    ensures Sub32(PATH_END, len) % PATH_END == Place(len)
    ensures len > 0 ==> (Sub32(PATH_END, len) + 1) % PATH_END == Place(len - 1)
  {
    if len > PATH_END {
      WrappedOffset(len);
      WrappedOffset(len - 1);
    }
  }

  /** How many bytes of a path stand in front of the padding: all of them below 8192. */
  function Visible(len: nat): (v: nat)
    ensures v <= len && v <= PATH_END && (len < PATH_END ==> v == len) && (len > 0 ==> v == PATH_END - Place(len))
  {
    if len == 0 then 0 else PATH_END - Place(len)
  }

  /** From its place on, the buffer shows the path up to the end of the second segment. */
  ghost predicate Shows(buf: Str, w: Str)
    requires |buf| == BUF_LEN
  {
    forall i | 0 <= i < Visible(|w|) :: buf[Place(|w|) + i] == w[i]
  }

  /** A component in front of `len` bytes crosses the end of the second segment, into the padding. */
  predicate Crosses(len: nat, name: Str) {
    0 < Place(len) < |name|
  }

  /** What a component writes: the slash and the name at their places. */
  lemma ComponentWritten(buf: Str, len: nat, name: Str)
    requires |buf| == BUF_LEN && |name| < MAX_COMPONENT_LEN && len + |name| + 1 < U32
    ensures var off := Sub32(PATH_END, len + |name| + 1);
            NameWritten(buf, off, name) ==
            Write(Write(buf, Place(len + |name| + 1), [SLASH]), Place(len + |name|), name)
  {
    OffsetPlace(len + |name| + 1);
    assert name[..|name|] == name;
  }

  /** Where slash and name go, and what was visible before, up to the end of the second segment. */
  lemma VisibleNext(len: nat, n: nat, i: nat)
    requires n < MAX_COMPONENT_LEN && i < Visible(len + n + 1)
    ensures !(Place(len + n) <= Place(len + n + 1) < Place(len + n) + n)
    ensures i > 0 ==> Place(len + n) == Place(len + n + 1) + 1
    ensures i > n ==> Place(len) == Place(len + n + 1) + n + 1 && i - n - 1 < Visible(len)
  {
    PlaceNext(len + n, 1);
    PlaceNext(len, n + 1);
    hide Place;
  }

  /** The bytes of one component and of what follows it, up to the end of the second segment. */
  lemma ShowsByte(buf: Str, w: Str, name: Str, i: nat)
    requires |buf| == BUF_LEN && |name| < MAX_COMPONENT_LEN && |w| + |name| + 1 < U32 && Shows(buf, w)
    requires i < Visible(|w| + |name| + 1)
    ensures var buf' := Write(Write(buf, Place(|w| + |name| + 1), [SLASH]), Place(|w| + |name|), name);
            buf'[Place(|w| + |name| + 1) + i] == ([SLASH] + name + w)[i]
  {
    hide Place, Visible, Write;
    var at, start := Place(|w| + |name| + 1), Place(|w| + |name|);
    VisibleNext(|w|, |name|, i);
    var once := Write(buf, at, [SLASH]);
    if i == 0 {
      WriteAt(buf, at, [SLASH], 0);
      WriteKeeps(once, start, name, at);
    } else if i <= |name| {
      WriteAt(once, start, name, i - 1);
    } else {
      WriteKeeps(buf, at, [SLASH], at + i);
      WriteKeeps(once, start, name, at + i);
      assert buf[Place(|w|) + (i - |name| - 1)] == w[i - |name| - 1];
    }
  }

  /** One more component, whether it crosses or not. */
  lemma ShowsNext(buf: Str, w: Str, name: Str)
    requires |buf| == BUF_LEN && |name| < MAX_COMPONENT_LEN && |w| + |name| + 1 < U32 && Shows(buf, w)
    ensures Shows(NameWritten(buf, Sub32(PATH_END, |w| + |name| + 1), name), [SLASH] + name + w)
  {
    hide NameWritten, Place, Sub32, Write;
    ComponentWritten(buf, |w|, name);
    forall i | 0 <= i < Visible(|w| + |name| + 1) {
      ShowsByte(buf, w, name, i);
    }
  }

  /** The third segment, which the hook's lookups read as padding. */
  function Padding(buf: Str): (r: Str)
    requires |buf| == BUF_LEN
    ensures |r| == MAX_PATH_LEN
  {
    buf[PATH_END..]
  }

  predicate PaddingClean(buf: Str)
    requires |buf| == BUF_LEN
  {
    forall i | PATH_END <= i < BUF_LEN :: buf[i] == NUL
  }

  /** A component leaves the padding alone, unless it crosses into it: then the first byte there is one of its own. */
  lemma PaddingNext(buf: Str, len: nat, name: Str)
    requires |buf| == BUF_LEN && |name| < MAX_COMPONENT_LEN && NulFree(name) && len + |name| + 1 < U32
    ensures var buf' := NameWritten(buf, Sub32(PATH_END, len + |name| + 1), name);
            if Crosses(len, name) then buf'[PATH_END] != NUL else Padding(buf') == Padding(buf)
  {
    var n, a := |name|, Place(len + |name|);
    ComponentWritten(buf, len, name);
    PlaceNext(len, n);
    var once := Write(buf, Place(len + n + 1), [SLASH]);
    hide Write, Place, NameWritten, Sub32;
    if Crosses(len, name) {
      WriteAt(once, a, name, PATH_END - a);
    } else {
      forall i | PATH_END <= i < BUF_LEN
        ensures Write(once, a, name)[i] == buf[i]
      {
        WriteKeeps(buf, Place(len + n + 1), [SLASH], i);
        WriteKeeps(once, a, name, i);
      }
    }
  }

  /** The component that step `i` of the walk copies crosses into the padding. */
  ghost predicate Straddles(p: Pos, unhashed: bool, i: nat) {
    !AtMountRoot(After(p, i)) && Crosses(|Written(p, unhashed, i)|, After(p, i).d.name)
  }

  ghost predicate CleanWalk(p: Pos, unhashed: bool, k: nat) {
    forall i | 0 <= i < k :: !Straddles(p, unhashed, i)
  }

  lemma CleanNext(p: Pos, unhashed: bool, k: nat)
    ensures CleanWalk(p, unhashed, k + 1) <==> CleanWalk(p, unhashed, k) && !Straddles(p, unhashed, k)
  {
  }

  /** Up to 8192 bytes nothing crosses. */
  lemma {:induction false} ShortIsClean(p: Pos, unhashed: bool, k: nat)
    requires |Written(p, unhashed, k)| <= PATH_END
    ensures CleanWalk(p, unhashed, k)
  {
    if k > 0 {
      WrittenNext(p, unhashed, k - 1);
      ShortIsClean(p, unhashed, k - 1);
      CleanNext(p, unhashed, k - 1);
    }
  }

  /** The number of steps the bounded loop takes. */
  ghost function StepsTaken(root: Pos, p: Pos, iterations: nat): nat
  {
    if Steps(root, p) < iterations then Steps(root, p) else iterations
  }

  /**
   The buffer shows what was written. As long as no step crosses, the padding is untouched; after one
   has, it begins with a byte of a name.
   */
  ghost predicate Wrapped(p: Pos, unhashed: bool, k: nat, before: Str, buf: Str)
    requires |before| == BUF_LEN && |buf| == BUF_LEN
  {
    && Shows(buf, Written(p, unhashed, k))
    && if CleanWalk(p, unhashed, k) then Padding(buf) == Padding(before) else buf[PATH_END] != NUL
  }

  lemma WrittenNext(p: Pos, unhashed: bool, k: nat)
    ensures AtMountRoot(After(p, k)) ==> Written(p, unhashed, k + 1) == Written(p, unhashed, k)
    ensures !AtMountRoot(After(p, k)) ==>
              Written(p, unhashed, k + 1) == [SLASH] + After(p, k).d.name + Written(p, unhashed, k)
  {
    if AtMountRoot(After(p, k)) {
      assert Tail(p, k + 1) == Tail(p, k);
    } else {
      Concat3([SLASH] + After(p, k).d.name, Tail(p, k), Suffix(p.d, unhashed));
    }
  }

  lemma WrappedNext(p: Pos, unhashed: bool, k: nat, before: Str, buf: Str)
    requires |before| == BUF_LEN && |buf| == BUF_LEN && Wrapped(p, unhashed, k, before, buf)
    requires !AtMountRoot(After(p, k)) && |Written(p, unhashed, k)| + MAX_COMPONENT_LEN < U32
    ensures var w, name := Written(p, unhashed, k), After(p, k).d.name;
            Wrapped(p, unhashed, k + 1, before, NameWritten(buf, Sub32(PATH_END, |w| + |name| + 1), name))
  {
    hide Written, CleanWalk, NameWritten, Shows, Crosses, Sub32, After;
    var w, name := Written(p, unhashed, k), After(p, k).d.name;
    WrittenNext(p, unhashed, k);
    CleanNext(p, unhashed, k);
    PaddingNext(buf, |w|, name);
    ShowsNext(buf, w, name);
  }

  lemma WrappedSkip(p: Pos, unhashed: bool, k: nat, before: Str, buf: Str)
    requires |before| == BUF_LEN && |buf| == BUF_LEN && Wrapped(p, unhashed, k, before, buf) && AtMountRoot(After(p, k))
    ensures Wrapped(p, unhashed, k + 1, before, buf)
  {
    hide Written, CleanWalk, Shows, After;
    WrittenNext(p, unhashed, k);
    CleanNext(p, unhashed, k);
  }

  /** The state of the walk from `p` after `k` steps, started on the buffer `before`. */
  ghost predicate Progress(p: Pos, unhashed: bool, k: nat, before: Str, s: WalkState)
    requires |before| == BUF_LEN
  {
    && |s.buf| == BUF_LEN
    && s.pos == After(p, k)
    && s.off == Sub32(PATH_END, |Written(p, unhashed, k)|)
    && BufferHolds(s.buf, before, Written(p, unhashed, k))
    && Wrapped(p, unhashed, k, before, s.buf)
  }

  lemma ProgressStep(p: Pos, unhashed: bool, k: nat, before: Str, s: WalkState)
    requires |before| == BUF_LEN && Progress(p, unhashed, k, before, s)
    requires k < PATH_ITERATIONS
    ensures s.pos == After(p, k) && |s.buf| == BUF_LEN && Progress(p, unhashed, k + 1, before, Stepped(s))
  {
    hide Wrapped, Written, NameWritten, BufferHolds, Sub32, Tail;
    var w, name := Written(p, unhashed, k), s.pos.d.name;
    WrittenBound(p, unhashed, k);
    WrittenNext(p, unhashed, k);
    Prepended(before, s.buf, w, name, s.off);
    if AtMountRoot(s.pos) {
      WrappedSkip(p, unhashed, k, before, s.buf);
    } else {
      WrappedNext(p, unhashed, k, before, s.buf);
    }
  }

  lemma WrittenBound(p: Pos, unhashed: bool, k: nat)
    requires k <= PATH_ITERATIONS
    ensures |Written(p, unhashed, k)| + MAX_COMPONENT_LEN < U32
  {
    TailBound(p, k);
  }

  method WalkUp(data: PathReadData, p: Pos, unhashed: bool, iterations: nat, ghost before: Str)
    requires iterations <= PATH_ITERATIONS
    requires data.bptr.Length == BUF_LEN && |before| == BUF_LEN && !data.resolved
    requires Progress(p, unhashed, 0, before, data.State())
    modifies data, data.bptr
    ensures data.resolved == (Steps(data.root, p) < iterations)
    ensures Progress(p, unhashed, StepsTaken(data.root, p, iterations), before, data.State())
  {
    hide Progress, Stepped, Steps;
    var i := 0;
    while i < iterations
      invariant i <= iterations && i <= Steps(data.root, p) && !data.resolved
      invariant Progress(p, unhashed, i, before, data.State())
    {
      WalkSplit(data.root, p, i);
      ProgressStep(p, unhashed, i, before, data.State());
      var stop := data.PathRead();
      if stop {
        return;
      }
      i := i + 1;
    }
  }

  /** The walk starts at the end of the second segment, before the suffix of a deleted file. */
  method WriteSuffix(p: Pos, unhashed: bool, buf: array<Byte>) returns (off: nat)
    requires buf.Length == BUF_LEN
    modifies buf
    ensures Progress(p, unhashed, 0, old(buf[..]), WalkState(p, off, buf[..]))
  {
    hide Progress, Written, Write;
    WrittenNone(p, unhashed);
    StartState(p, unhashed, buf[..]);
    WriteNothing(buf[..], PATH_END);
    off := PATH_END;
    if Unlinked(p.d, unhashed) {
      off := off - |DELETED|;
      ProbeRead(buf, off % PATH_END, DELETED);
    }
  }

  /**
   The walk resolves exactly the files fewer than `iterations` steps below the top.
   A path of fewer than 8192 bytes then stands right before the padding, and no
   other byte of the buffer has changed.
   */
  method BpfDPathApprox(root: Pos, p: Pos, unhashed: bool, iterations: nat, buf: array<Byte>)
    returns (off: nat)
    requires buf.Length == BUF_LEN
    requires iterations in {PATH_ITERATIONS, FALLBACK_PATH_ITERATIONS}
    modifies buf
    ensures Steps(root, p) >= iterations ==> off == 0
    ensures Steps(root, p) < iterations ==> off == Sub32(PATH_END, |FilePath(root, p, unhashed)|)
    ensures Steps(root, p) < iterations && |FilePath(root, p, unhashed)| < PATH_END ==>
              buf[..] == Write(old(buf[..]), off, FilePath(root, p, unhashed))
    ensures if CleanWalk(p, unhashed, StepsTaken(root, p, iterations)) then Padding(buf[..]) == Padding(old(buf[..]))
            else buf[PATH_END] != NUL
    ensures Steps(root, p) < iterations ==> Shows(buf[..], FilePath(root, p, unhashed))
  {
    hide Progress, FilePath, Steps, Written, NameWritten, Sub32, CleanWalk, Shows, Padding;
    ghost var before := buf[..];
    off := WriteSuffix(p, unhashed, buf);
    var data := new PathReadData(root, p, buf, off);
    WalkUp(data, p, unhashed, iterations, before);
    FinalState(root, p, unhashed, StepsTaken(root, p, iterations), before, data.State());
    if data.currOff == PATH_END {
      data.currOff := CopyName(buf, data.currOff, data.pos.d.name);
    }
    off := if data.resolved then data.currOff else 0;
  }

  lemma StartShows(before: Str, w: Str)
    requires |before| == BUF_LEN && |w| <= |DELETED|
    ensures Shows(Write(before, PATH_END - |w|, w), w)
    ensures Padding(Write(before, PATH_END - |w|, w)) == Padding(before)
  {
    hide Write;
    var buf := Write(before, PATH_END - |w|, w);
    forall i | PATH_END <= i < BUF_LEN
      ensures buf[i] == before[i]
    {
      WriteKeeps(before, PATH_END - |w|, w, i);
    }
    forall i | 0 <= i < |w|
      ensures buf[PATH_END - |w| + i] == w[i]
    {
      WriteAt(before, PATH_END - |w|, w, i);
    }
  }

  lemma WriteNothing(buf: Str, at: nat)
    requires at <= |buf|
    ensures Write(buf, at, []) == buf
  {
  }

  lemma WrittenNone(p: Pos, unhashed: bool)
    ensures Written(p, unhashed, 0) == Suffix(p.d, unhashed) && |Suffix(p.d, unhashed)| <= |DELETED|
  {
    assert [] + Suffix(p.d, unhashed) == Suffix(p.d, unhashed);
  }

  lemma StartState(p: Pos, unhashed: bool, before: Str)
    requires |before| == BUF_LEN && |Suffix(p.d, unhashed)| <= |DELETED|
    ensures var w := Suffix(p.d, unhashed);
            Progress(p, unhashed, 0, before, WalkState(p, PATH_END - |w|, Write(before, PATH_END - |w|, w)))
  {
    hide Write, Shows, Padding, Suffix, Written, Straddles, Sub32;
    WrittenNone(p, unhashed);
    StartShows(before, Suffix(p.d, unhashed));
  }

  /** The offset and the buffer once a walk without any component fell back to the bare name. */
  ghost function WithFallback(s: WalkState): (nat, Str)
    requires |s.buf| == BUF_LEN
  {
    if s.off == PATH_END then
      var off := Sub32(s.off, |s.pos.d.name| + 1);
      (off, NameWritten(s.buf, off, s.pos.d.name))
    else (s.off, s.buf)
  }

  /** The bare name, written for a walk without any component. */
  lemma FallbackShows(buf: Str, name: Name)
    requires |buf| == BUF_LEN
    ensures var buf' := NameWritten(buf, Sub32(PATH_END, |name| + 1), name);
            Shows(buf', [SLASH] + name) && Padding(buf') == Padding(buf)
  {
    hide NameWritten, Padding, Sub32;
    PaddingNext(buf, 0, name);
    ShowsNext(buf, [], name);
    assert [SLASH] + name + [] == [SLASH] + name;
  }

  lemma FinalWrapped(root: Pos, p: Pos, unhashed: bool, n: nat, before: Str, s: WalkState)
    requires |before| == BUF_LEN && n <= Steps(root, p) && n <= PATH_ITERATIONS
    requires Progress(p, unhashed, n, before, s)
    ensures if CleanWalk(p, unhashed, n) then Padding(WithFallback(s).1) == Padding(before)
            else WithFallback(s).1[PATH_END] != NUL
    ensures n == Steps(root, p) ==> Shows(WithFallback(s).1, FilePath(root, p, unhashed))
  {
    hide CleanWalk, Shows, Padding, NameWritten, BufferHolds, Written, FilePath, Steps, After;
    WrittenBound(p, unhashed, n);
    if Written(p, unhashed, n) == [] {
      ShortIsClean(p, unhashed, n);
      FallbackShows(s.buf, s.pos.d.name);
    }
    if n == Steps(root, p) {
      WrittenPath(root, p, unhashed);
    }
  }

  /** At the top, what was written is the path of the file, but for a file without any. */
  lemma WrittenPath(root: Pos, p: Pos, unhashed: bool)
    ensures var w := Written(p, unhashed, Steps(root, p));
            FilePath(root, p, unhashed) == if w == [] then [SLASH] + After(p, Steps(root, p)).d.name else w
  {
    WalkSplit(root, p, Steps(root, p));
    OneStep(root, After(p, Steps(root, p)));
    assert AbsPath(root, p) == Tail(p, Steps(root, p));
  }

  /** What the last step leaves, with and without the fallback. */
  lemma FinalState(root: Pos, p: Pos, unhashed: bool, n: nat, before: Str, s: WalkState)
    requires |before| == BUF_LEN && n <= Steps(root, p) && n <= PATH_ITERATIONS
    requires Progress(p, unhashed, n, before, s)
    ensures n == Steps(root, p) ==>
              var path := FilePath(root, p, unhashed);
              && WithFallback(s).0 == Sub32(PATH_END, |path|)
              && BufferHolds(WithFallback(s).1, before, path)
    ensures if CleanWalk(p, unhashed, n) then Padding(WithFallback(s).1) == Padding(before)
            else WithFallback(s).1[PATH_END] != NUL
    ensures n == Steps(root, p) ==> Shows(WithFallback(s).1, FilePath(root, p, unhashed))
  {
    FinalWrapped(root, p, unhashed, n, before, s);
    hide Wrapped, CleanWalk, Shows, Padding;
    TailBound(p, n);
    WalkSplit(root, p, n);
    var w, name := Written(p, unhashed, n), s.pos.d.name;
    assert s.off == PATH_END <==> w == [];
    if w == [] {
      Prepended(before, s.buf, w, name, s.off);
      assert [SLASH] + name + w == [SLASH] + name;
    }
    if n == Steps(root, p) {
      OneStep(root, s.pos);
      assert AbsPath(root, p) == Tail(p, n);
    }
  }

  lemma {:induction false} NamesNulFree(top: Dentry, d: Dentry)
    ensures NulFree(Names(top, d))
  {
    if d.ChildDentry? {
      NamesNulFree(top, d.parent);
    }
  }

  lemma {:induction false} AbsPathNulFree(root: Pos, p: Pos)
    ensures NulFree(AbsPath(root, p))
    decreases p.m
  {
    NamesNulFree(root.d, p.d);
    NamesNulFree(p.m.root, p.d);
    if p.m.ChildMount? {
      AbsPathNulFree(root, Pos(p.m.mountpoint, p.m.mntParent));
    }
  }

  /** A file's path is never empty and is a C string, so padding cannot be mistaken for it. */
  lemma FilePathIsCString(root: Pos, p: Pos, unhashed: bool)
    ensures NulFree(FilePath(root, p, unhashed)) && |FilePath(root, p, unhashed)| >= 1
  {
    AbsPathNulFree(root, p);
  }

  lemma FilePathBound(root: Pos, p: Pos, unhashed: bool)
    requires Steps(root, p) <= PATH_ITERATIONS
    ensures |FilePath(root, p, unhashed)| < U32
  {
    WrittenBound(p, unhashed, Steps(root, p));
    WrittenPath(root, p, unhashed);
  }

  /** `n` directories below a root, all with the same name. */
  function Chain(n: nat, name: Name): Dentry {
    if n == 0 then RootDentry(0, []) else ChildDentry(n, name, Chain(n - 1, name))
  }

  lemma {:induction false} ChainWalk(n: nat, name: Name, k: nat)
    requires k <= n
    ensures var m := GlobalMount(0, Chain(0, name));
            After(Pos(Chain(n, name), m), k) == Pos(Chain(n - k, name), m)
            && |Tail(Pos(Chain(n, name), m), k)| == k * (|name| + 1)
  {
    if k > 0 {
      ChainWalk(n, name, k - 1);
      assert Chain(n - k + 1, name) != Chain(0, name);
    }
  }

  lemma {:induction false} ChainSteps(root: Pos, n: nat, name: Name)
    requires root.d.addr > n
    ensures Steps(root, Pos(Chain(n, name), GlobalMount(0, Chain(0, name)))) == n
  {
    if n > 0 {
      ChainSteps(root, n - 1, name);
      assert Chain(n, name).addr == n;
    }
  }

  lemma OneName(top: Dentry, d: Dentry)
    requires top.RootDentry? && d.ChildDentry? && d.parent == top
    ensures Names(top, d) == [SLASH] + d.name
  {
    assert Names(top, d) == Names(top, d.parent) + ([SLASH] + d.name);
  }

  lemma DeletedText()
    ensures DELETED == Ascii(" (deleted)")
  {
  }

  /** A file at the root of a volume that is mounted on a directory of the process's root. */
  lemma VolumePath(data: Dentry, volume: Mount, p: Pos, root: Pos)
    requires root.m.root == root.d && root.d.RootDentry? && data.ChildDentry? && data.parent == root.d
    requires volume.ChildMount? && volume.mntParent == root.m && volume.mountpoint == data
    requires volume.root.RootDentry? && p.m == volume && p.d.ChildDentry? && p.d.parent == volume.root
    ensures FilePath(root, p, false) == ([SLASH] + data.name) + ([SLASH] + p.d.name)
    ensures FilePath(root, p, true) == ([SLASH] + data.name) + ([SLASH] + p.d.name) + Ascii(" (deleted)")
  {
    OneName(root.d, data);
    OneName(volume.root, p.d);
    DeletedText();
    assert volume.mntParent < volume;
    assert Within(root.m.root, root.d, data.parent);
    hide Names, Top, Ascii;
    assert AbsPath(root, Pos(data, root.m)) == [SLASH] + data.name;
    assert AbsPath(root, p) + [] == AbsPath(root, p);
  }

  /** A path of 82 components of 100 bytes, which the hook resolves, dirties the padding. */
  lemma DirtyChain(root: Pos, name: Name)
    requires |name| == 100 && root.d.addr > 82
    ensures var p := Pos(Chain(82, name), GlobalMount(0, Chain(0, name)));
            Steps(root, p) == 82 && !CleanWalk(p, false, 82)
  {
    var p := Pos(Chain(82, name), GlobalMount(0, Chain(0, name)));
    ChainSteps(root, 82, name);
    ChainWalk(82, name, 81);
    assert |Written(p, false, 81)| == 8181;
    assert Straddles(p, false, 81);
  }
}
