/**
 The cgroup tracker: a walk of a container's cgroup directory by the agent
 (internal/bpf/cgtracker.go), running concurrently with the kernel's mkdir and
 release hooks (bpf/main.c) and with the walks of other containers.
 */
module CgTracker {
  import opened ExecHook

  /** Directory names from the top of the cgroup hierarchy down. */
  type Path = seq<string>

  /** The cgroups there are, the tracker map, and where every cgroup id was ever created. */
  datatype Fs = Fs(live: map<Path, CgroupID>, tracker: map<CgroupID, CgroupID>, home: map<CgroupID, Path>)

  /** Parents are live, ids are never reused, and only ids of cgroups are tracked. */
  ghost predicate WellFormed(f: Fs) {
    && (forall id | id in f.tracker :: id in f.home)
    && (forall x | x in f.live && x != [] :: x[..|x| - 1] in f.live)
    && (forall x | x in f.live :: f.live[x] in f.home && f.home[f.live[x]] == x)
  }

  ghost predicate TrackedAs(f: Fs, x: Path, c: CgroupID) {
    x in f.live && f.live[x] in f.tracker && f.tracker[f.live[x]] == c
  }

  /** What is left of the walk: to look at a directory, to write the id it had, to list it. */
  datatype Item = Look(q: Path) | Put(q: Path, id: CgroupID) | List(q: Path)

  /** The item will see to the cgroup at `x`. */
  ghost predicate Covers(it: Item, x: Path, id: CgroupID) {
    match it
    case Look(q) => q <= x
    case Put(q, i) => q < x || (q == x && i == id)
    case List(q) => q < x
  }

  ghost predicate CoveredBy(items: seq<Item>, x: Path, id: CgroupID) {
    exists it :: it in items && Covers(it, x, id)
  }

  ghost predicate ItemOk(home: map<CgroupID, Path>, root: Path, it: Item) {
    && root <= it.q && (it.q == root ==> it.List?)
    && (it.Put? ==> it.id in home && home[it.id] == it.q)
  }

  ghost predicate ItemsOk(home: map<CgroupID, Path>, root: Path, items: seq<Item>) {
    forall it | it in items :: ItemOk(home, root, it)
  }

  /** The container's own cgroup still exists. */
  ghost predicate Alive(f: Fs, root: Path, c: CgroupID) {
    root in f.live && f.live[root] == c
  }

  /** While the container lives, a cgroup below it is tracked or the walk will still see to it. */
  ghost predicate NoneMissed(f: Fs, root: Path, c: CgroupID, items: seq<Item>) {
    Alive(f, root, c) ==>
      && TrackedAs(f, root, c)
      && forall x | x in f.live && root < x :: TrackedAs(f, x, c) || CoveredBy(items, x, f.live[x])
  }

  /** Nothing outside the container is tracked as the container. */
  ghost predicate NoneExtra(f: Fs, root: Path, c: CgroupID) {
    forall x | TrackedAs(f, x, c) :: root <= x
  }

  ghost predicate Inv(f: Fs, root: Path, c: CgroupID, items: seq<Item>) {
    && WellFormed(f) && NoneMissed(f, root, c, items) && NoneExtra(f, root, c)
    && c in f.home && f.home[c] == root
    && ItemsOk(f.home, root, items)
  }

  /** What the tracker is for: the live cgroups tracked as a live container are those of its subtree. */
  ghost predicate Exact(f: Fs, root: Path, c: CgroupID) {
    Alive(f, root, c) ==> forall x | x in f.live :: TrackedAs(f, x, c) <==> root <= x
  }

  lemma {:induction false} AncestorLive(f: Fs, x: Path, q: Path)
    requires WellFormed(f) && x in f.live && q <= x
    ensures q in f.live
    decreases |x| - |q|
  {
    if q != x {
      AncestorLive(f, x[..|x| - 1], q);
    }
  }

  /** Nothing left to do: the tracker is exact. */
  lemma DoneIsExact(f: Fs, root: Path, c: CgroupID)
    requires Inv(f, root, c, [])
    ensures Exact(f, root, c)
  {
    if Alive(f, root, c) {
      forall x | x in f.live && root <= x
        ensures TrackedAs(f, x, c)
      {
        assert x == root || root < x;
        assert !CoveredBy([], x, f.live[x]);
      }
    }
  }

  datatype Event =
    | Mkdir(x: Path, id: CgroupID)
    | Rmdir(x: Path)
    | Release(id: CgroupID)
    | Foreign(id: CgroupID, v: CgroupID)

  /**
   Steps of the rest of the system: the container's own path is not created again, walks of other containers stay in
   their subtrees.
   */
  predicate Possible(f: Fs, root: Path, c: CgroupID, e: Event) {
    match e
    case Mkdir(x, id) => x != [] && x != root && x !in f.live && x[..|x| - 1] in f.live && id !in f.home && id != 0
    case Rmdir(x) => x in f.live && forall y | y in f.live :: !(x < y)
    case Release(id) => forall y | y in f.live :: f.live[y] != id
    case Foreign(id, v) => v != c && id in f.home && !(root <= f.home[id])
  }

  /** The mkdir hook hands the parent's tracker down; a cgroup whose parent is untracked stays untracked. */
  function Inherited(tracker: map<CgroupID, CgroupID>, parent: CgroupID, id: CgroupID): map<CgroupID, CgroupID> {
    if parent in tracker then tracker[id := tracker[parent]] else tracker
  }

  function After(f: Fs, e: Event): Fs {
    match e
    case Mkdir(x, id) =>
      if x != [] && x[..|x| - 1] in f.live
      then Fs(f.live[x := id], Inherited(f.tracker, f.live[x[..|x| - 1]], id), f.home[id := x])
      else f
    case Rmdir(x) => f.(live := f.live - {x})
    case Release(id) => f.(tracker := f.tracker - {id})
    case Foreign(id, v) => f.(tracker := f.tracker[id := v])
  }

  /** An entry of the tracker changes only when its cgroup is made or released, or its own walk writes it. */
  lemma OthersUntouched(f: Fs, e: Event, g: CgroupID)
    requires match e
             case Mkdir(_, id) => id != g
             case Rmdir(_) => true
             case Release(id) => id != g
             case Foreign(id, _) => id != g
    ensures g in After(f, e).tracker <==> g in f.tracker
    ensures g in f.tracker ==> After(f, e).tracker[g] == f.tracker[g]
  {
  }

  /** A cgroup made below one that is still to be seen to will be seen to as well. */
  lemma ChildCovered(items: seq<Item>, x: Path, parent: CgroupID, id: CgroupID)
    requires x != [] && CoveredBy(items, x[..|x| - 1], parent)
    ensures CoveredBy(items, x, id)
  {
    var it :| it in items && Covers(it, x[..|x| - 1], parent);
    assert x[..|x| - 1] < x;
    assert Covers(it, x, id);
  }

  /** `f'` has one more cgroup, at `x`, which is tracked if its parent is. */
  ghost predicate Grown(f: Fs, f': Fs, x: Path, c: CgroupID) {
    && x != [] && x !in f.live && x[..|x| - 1] in f.live
    && (forall y :: y in f'.live <==> y in f.live || y == x)
    && (forall y | y in f.live :: f'.live[y] == f.live[y])
    && (forall y | y in f.live :: TrackedAs(f', y, c) <==> TrackedAs(f, y, c))
    && (TrackedAs(f', x, c) <==> TrackedAs(f, x[..|x| - 1], c))
  }

  lemma MkdirGrows(f: Fs, root: Path, c: CgroupID, x: Path, id: CgroupID)
    requires WellFormed(f) && Possible(f, root, c, Mkdir(x, id))
    ensures Grown(f, After(f, Mkdir(x, id)), x, c)
  {
  }

  lemma MkdirWellFormed(f: Fs, root: Path, c: CgroupID, x: Path, id: CgroupID)
    requires WellFormed(f) && Possible(f, root, c, Mkdir(x, id))
    ensures WellFormed(After(f, Mkdir(x, id)))
  {
  }

  lemma GrownMissesNone(f: Fs, f': Fs, root: Path, c: CgroupID, items: seq<Item>, x: Path)
    requires Grown(f, f', x, c) && NoneMissed(f, root, c, items) && x != root
    ensures NoneMissed(f', root, c, items)
  {
    hide TrackedAs, CoveredBy;
    if Alive(f', root, c) {
      var p := x[..|x| - 1];
      assert Alive(f, root, c);
      if root < x && !TrackedAs(f, p, c) {
        assert root <= p && p != root;
        ChildCovered(items, x, f.live[p], f'.live[x]);
      }
    }
  }

  lemma GrownNoneExtra(f: Fs, f': Fs, root: Path, c: CgroupID, x: Path)
    requires Grown(f, f', x, c) && NoneExtra(f, root, c)
    ensures NoneExtra(f', root, c)
  {
    assert x[..|x| - 1] <= x;
    assert forall y | TrackedAs(f', y, c) :: y in f'.live;
    hide TrackedAs;
  }

  lemma MkdirKeeps(f: Fs, root: Path, c: CgroupID, items: seq<Item>, x: Path, id: CgroupID)
    requires Inv(f, root, c, items) && Possible(f, root, c, Mkdir(x, id))
    ensures Inv(After(f, Mkdir(x, id)), root, c, items)
  {
    var f' := After(f, Mkdir(x, id));
    assert c in f'.home && f'.home[c] == root && ItemsOk(f'.home, root, items);
    hide After, WellFormed, Grown, NoneMissed, NoneExtra, ItemsOk;
    MkdirGrows(f, root, c, x, id);
    MkdirWellFormed(f, root, c, x, id);
    GrownMissesNone(f, f', root, c, items, x);
    GrownNoneExtra(f, f', root, c, x);
  }

  /** `f'` has no new cgroups, and those it has are tracked as before. */
  ghost predicate Shrunk(f: Fs, f': Fs, c: CgroupID) {
    && f'.home == f.home
    && (forall y | y in f'.live :: y in f.live && f'.live[y] == f.live[y])
    && (forall y | y in f'.live :: TrackedAs(f', y, c) <==> TrackedAs(f, y, c))
  }

  lemma RmdirShrinks(f: Fs, x: Path, c: CgroupID)
    requires WellFormed(f) && x in f.live && forall y | y in f.live :: !(x < y)
    ensures WellFormed(f.(live := f.live - {x})) && Shrunk(f, f.(live := f.live - {x}), c)
  {
    forall y | y in f.live - {x} && y != []
      ensures y[..|y| - 1] in f.live - {x}
    {
      assert y[..|y| - 1] < y;
    }
  }

  lemma ReleaseShrinks(f: Fs, id: CgroupID, c: CgroupID)
    requires WellFormed(f) && forall y | y in f.live :: f.live[y] != id
    ensures WellFormed(f.(tracker := f.tracker - {id})) && Shrunk(f, f.(tracker := f.tracker - {id}), c)
  {
  }

  lemma ForeignShrinks(f: Fs, root: Path, c: CgroupID, id: CgroupID, v: CgroupID)
    requires WellFormed(f) && NoneExtra(f, root, c) && v != c && id in f.home && !(root <= f.home[id])
    ensures WellFormed(f.(tracker := f.tracker[id := v])) && Shrunk(f, f.(tracker := f.tracker[id := v]), c)
  {
    assert forall y | y in f.live && f.live[y] == id :: f.home[id] == y && !TrackedAs(f, y, c);
  }

  lemma OtherEventsShrink(f: Fs, root: Path, c: CgroupID, e: Event)
    requires WellFormed(f) && NoneExtra(f, root, c) && !e.Mkdir? && Possible(f, root, c, e)
    ensures WellFormed(After(f, e)) && Shrunk(f, After(f, e), c)
  {
    hide WellFormed, NoneExtra, Shrunk;
    match e {
      case Rmdir(x) => RmdirShrinks(f, x, c);
      case Release(id) => ReleaseShrinks(f, id, c);
      case Foreign(id, v) => ForeignShrinks(f, root, c, id, v);
    }
  }

  lemma ShrunkKeeps(f: Fs, f': Fs, root: Path, c: CgroupID, items: seq<Item>)
    requires Inv(f, root, c, items) && Shrunk(f, f', c) && WellFormed(f')
    ensures Inv(f', root, c, items)
  {
    hide WellFormed, CoveredBy;
    assert forall y | TrackedAs(f', y, c) :: y in f'.live;
  }

  /** Whatever else happens, nothing below the container is missed. */
  lemma EventKeeps(f: Fs, root: Path, c: CgroupID, items: seq<Item>, e: Event)
    requires Inv(f, root, c, items) && Possible(f, root, c, e)
    ensures Inv(After(f, e), root, c, items)
  {
    hide After, WellFormed, NoneMissed, NoneExtra, ItemsOk, Possible, Shrunk;
    if e.Mkdir? {
      MkdirKeeps(f, root, c, items, e.x, e.id);
    } else {
      OtherEventsShrink(f, root, c, e);
      ShrunkKeeps(f, After(f, e), root, c, items);
    }
  }

  /** The walk may replace its next item by items that see to the same cgroups. */
  ghost predicate Replaces(f: Fs, root: Path, it: Item, next: seq<Item>) {
    && ItemsOk(f.home, root, next)
    && forall x | x in f.live && root < x && Covers(it, x, f.live[x]) :: CoveredBy(next, x, f.live[x])
  }

  lemma ReplaceKeeps(f: Fs, root: Path, c: CgroupID, it: Item, rest: seq<Item>, next: seq<Item>)
    requires Inv(f, root, c, [it] + rest) && Replaces(f, root, it, next)
    ensures Inv(f, root, c, next + rest)
  {
    hide WellFormed, TrackedAs, Covers;
    forall x | x in f.live && root < x && CoveredBy([it] + rest, x, f.live[x])
      ensures CoveredBy(next + rest, x, f.live[x])
    {
      var i :| i in [it] + rest && Covers(i, x, f.live[x]);
      if i == it {
        assert CoveredBy(next, x, f.live[x]);
        var n :| n in next && Covers(n, x, f.live[x]);
        assert n in next + rest;
      } else {
        assert i in next + rest;
      }
    }
  }

  /** Looking at a directory: its id if it is there, on to listing it if it is gone. */
  lemma LookReplaces(f: Fs, root: Path, q: Path)
    requires WellFormed(f) && root < q
    ensures q in f.live ==> Replaces(f, root, Look(q), [Put(q, f.live[q])])
    ensures q !in f.live ==> Replaces(f, root, Look(q), [List(q)])
  {
    forall x | x in f.live && q <= x
      ensures q in f.live && CoveredBy([Put(q, f.live[q])], x, f.live[x])
    {
      AncestorLive(f, x, q);
      assert Put(q, f.live[q]) in [Put(q, f.live[q])];
      assert q == x || q < x;
    }
  }

  /** A cgroup below a directory is at or below one of its children. */
  lemma ChildOnTheWay(f: Fs, q: Path, x: Path) returns (y: Path)
    requires WellFormed(f) && x in f.live && q < x
    ensures y in f.live && y != [] && y[..|y| - 1] == q && y <= x
  {
    y := x[..|q| + 1];
    AncestorLive(f, x, y);
  }

  /** Listing a directory: its children see to everything below it. */
  lemma ListReplaces(f: Fs, root: Path, q: Path, looks: seq<Item>)
    requires WellFormed(f) && root <= q
    requires forall x | x in f.live && x != [] && x[..|x| - 1] == q :: Look(x) in looks
    requires forall n | n in looks :: n.Look? && n.q != [] && n.q[..|n.q| - 1] == q
    ensures Replaces(f, root, List(q), looks)
  {
    hide WellFormed;
    forall x | x in f.live && q < x
      ensures CoveredBy(looks, x, f.live[x])
    {
      var y := ChildOnTheWay(f, q, x);
      assert Look(y) in looks && Covers(Look(y), x, f.live[x]);
    }
    hide CoveredBy;
    forall n | n in looks
      ensures ItemOk(f.home, root, n)
    {
      assert root <= n.q[..|n.q| - 1] <= n.q;
    }
  }

  /** Writing an id tracks the cgroup that has it and no other. */
  lemma PutTracks(f: Fs, c: CgroupID, id: CgroupID)
    requires WellFormed(f) && id in f.home
    ensures var f' := f.(tracker := f.tracker[id := c]);
            && WellFormed(f')
            && forall x | x in f.live :: TrackedAs(f', x, c) <==> TrackedAs(f, x, c) || f.live[x] == id
    ensures forall x | x in f.live && f.live[x] == id :: x == f.home[id]
  {
  }

  lemma PutItems(home: map<CgroupID, Path>, root: Path, q: Path, id: CgroupID, rest: seq<Item>)
    requires ItemsOk(home, root, [Put(q, id)] + rest)
    ensures ItemsOk(home, root, [List(q)] + rest) && root <= q && id in home && home[id] == q
  {
    assert Put(q, id) in [Put(q, id)] + rest;
    assert forall it | it in rest :: it in [Put(q, id)] + rest;
  }

  lemma PutCovers(q: Path, id: CgroupID, rest: seq<Item>, x: Path, i: CgroupID)
    requires CoveredBy([Put(q, id)] + rest, x, i) && i != id
    ensures CoveredBy([List(q)] + rest, x, i)
  {
    var it :| it in [Put(q, id)] + rest && Covers(it, x, i);
    assert (if it == Put(q, id) then List(q) else it) in [List(q)] + rest;
  }

  /** Writing the id a directory had tracks it, wherever it is by now. */
  lemma PutKeeps(f: Fs, root: Path, c: CgroupID, q: Path, id: CgroupID, rest: seq<Item>)
    requires Inv(f, root, c, [Put(q, id)] + rest)
    ensures Inv(f.(tracker := f.tracker[id := c]), root, c, [List(q)] + rest)
  {
    var f' := f.(tracker := f.tracker[id := c]);
    PutItems(f.home, root, q, id, rest);
    PutTracks(f, c, id);
    assert forall x | TrackedAs(f', x, c) :: x in f.live;
    hide TrackedAs, WellFormed, ItemsOk, CoveredBy;
    forall x | x in f.live && root < x && f.live[x] != id && CoveredBy([Put(q, id)] + rest, x, f.live[x])
      ensures CoveredBy([List(q)] + rest, x, f.live[x])
    {
      PutCovers(q, id, rest, x, f.live[x]);
    }
  }

  /** The container's own entry, written before its directory is listed. */
  lemma RootKeeps(f: Fs, root: Path, c: CgroupID, items: seq<Item>)
    requires WellFormed(f) && NoneExtra(f, root, c) && c in f.home && f.home[c] == root && ItemsOk(f.home, root, items)
    requires Alive(f, root, c) ==> forall x | x in f.live && root < x :: CoveredBy(items, x, f.live[x])
    ensures Inv(f.(tracker := f.tracker[c := c]), root, c, items)
  {
    var f' := f.(tracker := f.tracker[c := c]);
    PutTracks(f, c, c);
    assert forall x | TrackedAs(f', x, c) :: x in f.live;
    hide WellFormed, CoveredBy, ItemsOk;
  }

  lemma ListCoversAll(f: Fs, root: Path)
    ensures forall x | x in f.live && root < x :: CoveredBy([List(root)], x, f.live[x])
    ensures ItemsOk(f.home, root, [List(root)])
  {
    forall x | x in f.live && root < x
      ensures CoveredBy([List(root)], x, f.live[x])
    {
      assert List(root) in [List(root)];
    }
  }

  /**
   What one step of the walk leaves to do: write the id that was read, list what was written, look at what was listed.
   */
  ghost predicate StepOf(f: Fs, it: Item, next: seq<Item>) {
    match it
    case Look(q) => next == if q in f.live then [Put(q, f.live[q])] else [List(q)]
    case Put(q, _) => next == [List(q)]
    case List(q) =>
      && NoRepeats(next)
      && forall n :: n in next <==> n.Look? && n.q in f.live && n.q != [] && n.q[..|n.q| - 1] == q
  }

  ghost predicate NoRepeats(items: seq<Item>) {
    forall i, j | 0 <= i < j < |items| :: items[i] != items[j]
  }

  type Live = map<Path, CgroupID>

  /** The cgroups strictly below a directory. */
  ghost function Below(live: Live, q: Path): set<Path> {
    set x | x in live && q < x
  }

  /** The cgroups at or below one of the directories to be looked at. */
  ghost function Under(live: Live, looks: seq<Item>): set<Path> {
    set x | x in live && exists i :: 0 <= i < |looks| && looks[i].q <= x
  }

  /** The steps an item takes, with all that it leads to, if nothing else happens: three for every directory. */
  ghost function Cost(live: Live, it: Item): nat {
    match it
    case Look(q) => 3 * |Below(live, q)| + 3
    case Put(q, _) => 3 * |Below(live, q)| + 2
    case List(q) => 3 * |Below(live, q)| + 1
  }

  ghost function Work(live: Live, items: seq<Item>): nat {
    if items == [] then 0 else Work(live, items[..|items| - 1]) + Cost(live, items[|items| - 1])
  }

  /** The directories to be looked at are there. */
  ghost predicate Present(live: Live, items: seq<Item>) {
    forall it | it in items && it.Look? :: it.q in live
  }

  lemma {:induction false} WorkSum(live: Live, a: seq<Item>, b: seq<Item>)
    ensures Work(live, a + b) == Work(live, a) + Work(live, b)
  {
    if b == [] {
      assert a + b == a;
    } else {
      WorkSum(live, a, b[..|b| - 1]);
      assert (a + b)[..|a + b| - 1] == a + b[..|b| - 1];
    }
  }

  /** Different children of a directory have nothing in common below them. */
  lemma SiblingsApart(q: Path, a: Path, b: Path, x: Path)
    requires a != [] && b != [] && a[..|a| - 1] == q == b[..|b| - 1] && a != b && a <= x
    ensures !(b <= x)
  {
    assert a == x[..|a|] && |a| == |b|;
  }

  ghost predicate ChildrenOf(live: Live, q: Path, looks: seq<Item>) {
    && NoRepeats(looks)
    && forall i | 0 <= i < |looks| ::
         looks[i].Look? && looks[i].q in live && looks[i].q != [] && looks[i].q[..|looks[i].q| - 1] == q
  }

  lemma UnderNext(live: Live, q: Path, looks: seq<Item>)
    requires ChildrenOf(live, q, looks) && looks != []
    ensures var init, c := looks[..|looks| - 1], looks[|looks| - 1].q;
            && Under(live, looks) == Under(live, init) + Below(live, c) + {c}
            && Under(live, init) !! Below(live, c) && c !in Under(live, init) + Below(live, c)
  {
    var init, c := looks[..|looks| - 1], looks[|looks| - 1].q;
    forall x | x in Under(live, init)
      ensures !(c <= x) && x in Under(live, looks)
    {
      var i :| 0 <= i < |init| && init[i].q <= x;
      assert looks[i] == init[i] && looks[i] != looks[|looks| - 1];
      SiblingsApart(q, looks[i].q, c, x);
    }
    forall x | x in Under(live, looks)
      ensures x in Under(live, init) + Below(live, c) + {c}
    {
      var i :| 0 <= i < |looks| && looks[i].q <= x;
      if i < |init| {
        assert init[i].q <= x;
      } else {
        assert c < x || c == x;
      }
    }
  }

  /** Looking at all children of a directory takes three steps for each cgroup below it. */
  lemma {:induction false} LooksWork(live: Live, q: Path, looks: seq<Item>)
    requires ChildrenOf(live, q, looks)
    ensures Work(live, looks) == 3 * |Under(live, looks)|
  {
    if looks == [] {
      assert Under(live, looks) == {};
    } else {
      var init, c := looks[..|looks| - 1], looks[|looks| - 1].q;
      LooksWork(live, q, init);
      UnderNext(live, q, looks);
      hide Under, Below;
      assert |Under(live, init) + Below(live, c)| == |Under(live, init)| + |Below(live, c)|;
    }
  }

  lemma ChildrenUnder(f: Fs, q: Path, looks: seq<Item>)
    requires WellFormed(f) && ChildrenOf(f.live, q, looks)
    requires forall x | x in f.live && x != [] && x[..|x| - 1] == q :: Look(x) in looks
    ensures Under(f.live, looks) == Below(f.live, q)
  {
    forall x | x in Below(f.live, q)
      ensures x in Under(f.live, looks)
    {
      var y := ChildOnTheWay(f, q, x);
      var i :| 0 <= i < |looks| && looks[i] == Look(y);
    }
    forall x | x in Under(f.live, looks)
      ensures q < x
    {
      var i :| 0 <= i < |looks| && looks[i].q <= x;
      assert q < looks[i].q;
    }
  }

  /** If nothing else happens, every step of the walk leaves one step less. */
  lemma StepWork(f: Fs, it: Item, next: seq<Item>)
    requires WellFormed(f) && StepOf(f, it, next) && (it.Look? ==> it.q in f.live)
    ensures Work(f.live, next) + 1 == Cost(f.live, it) && Present(f.live, next)
  {
    if it.List? {
      assert forall i | 0 <= i < |next| :: next[i] in next;
      LooksWork(f.live, it.q, next);
      assert forall x | x in f.live && x != [] && x[..|x| - 1] == it.q :: Look(x) in next;
      ChildrenUnder(f, it.q, next);
    } else {
      assert next[..0] == [] && next == [next[0]];
    }
  }

  lemma WalkWork(f: Fs, items: seq<Item>, next: seq<Item>)
    requires WellFormed(f) && items != [] && StepOf(f, items[0], next) && Present(f.live, items)
    ensures Work(f.live, next + items[1..]) + 1 == Work(f.live, items) && Present(f.live, next + items[1..])
  {
    assert items[0] in items;
    StepWork(f, items[0], next);
    hide StepOf, Cost, Work;
    WorkSum(f.live, next, items[1..]);
    WorkSum(f.live, [items[0]], items[1..]);
    assert items == [items[0]] + items[1..];
    WorkOne(f.live, items[0]);
  }

  lemma WorkOne(live: Live, it: Item)
    ensures Work(live, [it]) == Cost(live, it)
  {
    assert [it][..0] == [];
  }

  /** The whole walk takes at most three steps for every cgroup there is. */
  lemma FirstWork(live: Live, root: Path)
    requires root in live
    ensures Work(live, [List(root)]) <= 3 * |live| && Present(live, [List(root)])
  {
    WorkOne(live, List(root));
    assert Below(live, root) <= live.Keys - {root};
    SubsetSize(Below(live, root), live.Keys - {root});
  }

  lemma {:induction false} SubsetSize(a: set<Path>, b: set<Path>)
    requires a <= b
    ensures |a| <= |b|
  {
    assert |b| == |a| + |b - a| by {
      assert b == a + (b - a);
    }
  }

  lemma NoWorkLeft(live: Live, items: seq<Item>)
    requires Work(live, items) == 0
    ensures items == []
  {
  }

  /** What the rest of the system makes of a state; an event that cannot happen changes nothing. */
  ghost function Happened(f: Fs, root: Path, c: CgroupID, events: seq<Event>): Fs {
    if events == [] then f
    else
      var g, e := Happened(f, root, c, events[..|events| - 1]), events[|events| - 1];
      if Possible(g, root, c, e) then After(g, e) else g
  }

  lemma {:induction false} HappenedKeeps(f: Fs, root: Path, c: CgroupID, items: seq<Item>, events: seq<Event>)
    requires Inv(f, root, c, items)
    ensures Inv(Happened(f, root, c, events), root, c, items)
  {
    hide Inv, Possible, After;
    if events != [] {
      var g, e := Happened(f, root, c, events[..|events| - 1]), events[|events| - 1];
      HappenedKeeps(f, root, c, items, events[..|events| - 1]);
      if Possible(g, root, c, e) {
        EventKeeps(g, root, c, items, e);
      }
    }
  }

  /** A moment of a walk: the state of the system, and what the walk still has to do. */
  datatype Moment = Moment(f: Fs, items: seq<Item>)

  /** The walk begins with the container's own entry. */
  ghost function Begun(f: Fs, root: Path, c: CgroupID, walk: bool): Moment {
    Moment(f.(tracker := f.tracker[c := c]), if walk && root in f.live then [List(root)] else [])
  }

  /** Only the writing of an id changes the tracker. */
  function Recorded(f: Fs, it: Item, c: CgroupID): Fs {
    if it.Put? then f.(tracker := f.tracker[it.id := c]) else f
  }

  /** The events happen, then the walk takes a step, if it has one left. */
  ghost predicate Continues(a: Moment, root: Path, c: CgroupID, events: seq<Event>, b: Moment) {
    var f := Happened(a.f, root, c, events);
    if a.items == [] then b == Moment(f, [])
    else exists next :: StepOf(f, a.items[0], next) && b == Moment(Recorded(f, a.items[0], c), next + a.items[1..])
  }

  /** A walk against a schedule of what happens before each of its steps. */
  ghost predicate Walked(trace: seq<Moment>, schedule: seq<seq<Event>>, root: Path, c: CgroupID) {
    && |trace| == |schedule| + 1
    && forall k | 0 <= k < |schedule| :: Continues(trace[k], root, c, schedule[k], trace[k + 1])
  }

  /** Where a walk may begin; without a walk there must be nothing to find. */
  ghost predicate Startable(f: Fs, root: Path, c: CgroupID, walk: bool) {
    && WellFormed(f) && NoneExtra(f, root, c) && c in f.home && f.home[c] == root
    && (walk || forall x | x in f.live :: !(root < x))
  }

  lemma BegunKeeps(f: Fs, root: Path, c: CgroupID, walk: bool)
    requires Startable(f, root, c, walk)
    ensures Inv(Begun(f, root, c, walk).f, root, c, Begun(f, root, c, walk).items)
  {
    ListCoversAll(f, root);
    RootKeeps(f, root, c, Begun(f, root, c, walk).items);
  }

  /** One step of the walk keeps the invariant. */
  lemma StepKeeps(f: Fs, root: Path, c: CgroupID, items: seq<Item>, next: seq<Item>)
    requires items != [] && Inv(f, root, c, items) && StepOf(f, items[0], next)
    ensures Inv(Recorded(f, items[0], c), root, c, next + items[1..])
  {
    var rest := items[1..];
    assert items == [items[0]] + rest;
    assert items[0] in items && ItemOk(f.home, root, items[0]);
    hide NoneMissed, NoneExtra, Replaces;
    match items[0] {
      case Look(q) =>
        LookReplaces(f, root, q);
        ReplaceKeeps(f, root, c, items[0], rest, next);
      case Put(q, id) =>
        PutKeeps(f, root, c, q, id, rest);
      case List(q) =>
        ListReplaces(f, root, q, next);
        ReplaceKeeps(f, root, c, items[0], rest, next);
    }
  }

  lemma ContinuesKeeps(a: Moment, root: Path, c: CgroupID, events: seq<Event>, b: Moment)
    requires Inv(a.f, root, c, a.items) && Continues(a, root, c, events, b)
    ensures Inv(b.f, root, c, b.items)
  {
    hide Inv, StepOf;
    var f := Happened(a.f, root, c, events);
    HappenedKeeps(a.f, root, c, a.items, events);
    if a.items != [] {
      var next :| StepOf(f, a.items[0], next) && b == Moment(Recorded(f, a.items[0], c), next + a.items[1..]);
      StepKeeps(f, root, c, a.items, next);
    }
  }

  /** Against every schedule nothing is ever missed. */
  lemma {:induction false} WalkedKeeps(trace: seq<Moment>, schedule: seq<seq<Event>>, root: Path, c: CgroupID, k: nat)
    requires Walked(trace, schedule, root, c) && Inv(trace[0].f, root, c, trace[0].items) && k <= |schedule|
    ensures Inv(trace[k].f, root, c, trace[k].items)
  {
    hide Inv, Continues;
    if k > 0 {
      WalkedKeeps(trace, schedule, root, c, k - 1);
      ContinuesKeeps(trace[k - 1], root, c, schedule[k - 1], trace[k]);
    }
  }

  /** Against every schedule, the tracker is exact at every moment at which the walk has nothing left to do. */
  lemma WalkedExact(f: Fs, root: Path, c: CgroupID, walk: bool, trace: seq<Moment>, schedule: seq<seq<Event>>, k: nat)
    requires Startable(f, root, c, walk) && Walked(trace, schedule, root, c) && trace[0] == Begun(f, root, c, walk)
    requires k <= |schedule| && trace[k].items == []
    ensures Exact(trace[k].f, root, c)
  {
    hide Inv, Exact, Startable, Continues;
    BegunKeeps(f, root, c, walk);
    WalkedKeeps(trace, schedule, root, c, k);
    DoneIsExact(trace[k].f, root, c);
  }

  /** Once done, a walk stays done. */
  lemma {:induction false} StaysDone(trace: seq<Moment>, schedule: seq<seq<Event>>, root: Path, c: CgroupID, j: nat,
                                     k: nat)
    requires Walked(trace, schedule, root, c) && j <= k <= |schedule| && trace[j].items == []
    ensures trace[k].items == []
  {
    if j < k {
      StaysDone(trace, schedule, root, c, j, k - 1);
      assert Continues(trace[k - 1], root, c, schedule[k - 1], trace[k]);
    }
  }

  /** Nothing else happens. */
  ghost predicate Quiet(schedule: seq<seq<Event>>) {
    forall k | 0 <= k < |schedule| :: schedule[k] == []
  }

  lemma QuietStep(a: Moment, root: Path, c: CgroupID, b: Moment)
    requires Continues(a, root, c, [], b) && WellFormed(a.f) && Present(a.f.live, a.items)
    ensures b.f.live == a.f.live && Present(b.f.live, b.items)
    ensures if a.items == [] then b.items == [] else Work(b.f.live, b.items) + 1 == Work(a.f.live, a.items)
  {
    hide StepOf, Work, Present, WellFormed;
    if a.items == [] {
    } else {
      var next :| StepOf(a.f, a.items[0], next) && b == Moment(Recorded(a.f, a.items[0], c), next + a.items[1..]);
      WalkWork(a.f, a.items, next);
    }
  }

  lemma {:induction false} QuietWork(trace: seq<Moment>, schedule: seq<seq<Event>>, root: Path, c: CgroupID, k: nat)
    requires Walked(trace, schedule, root, c) && Quiet(schedule) && k <= |schedule|
    requires Inv(trace[0].f, root, c, trace[0].items) && Present(trace[0].f.live, trace[0].items)
    ensures trace[k].f.live == trace[0].f.live && Present(trace[k].f.live, trace[k].items)
    ensures trace[k].items == [] || Work(trace[k].f.live, trace[k].items) + k <= Work(trace[0].f.live, trace[0].items)
  {
    hide Work, Present, Continues;
    if k > 0 {
      QuietWork(trace, schedule, root, c, k - 1);
      WalkedKeeps(trace, schedule, root, c, k - 1);
      assert WellFormed(trace[k - 1].f);
      QuietStep(trace[k - 1], root, c, trace[k]);
    }
  }

  /** If nothing else happens, three steps for each cgroup are enough. */
  lemma QuietFinishes(f: Fs, root: Path, c: CgroupID, walk: bool, trace: seq<Moment>, schedule: seq<seq<Event>>)
    requires Startable(f, root, c, walk) && Walked(trace, schedule, root, c) && trace[0] == Begun(f, root, c, walk)
    requires Quiet(schedule) && |schedule| >= 3 * |f.live|
    ensures trace[|schedule|].items == []
  {
    hide Startable, Inv, Continues;
    BegunKeeps(f, root, c, walk);
    if walk && root in f.live {
      FirstWork(f.live, root);
      QuietWork(trace, schedule, root, c, |schedule|);
      if Work(f.live, trace[|schedule|].items) == 0 {
        NoWorkLeft(f.live, trace[|schedule|].items);
      }
    } else {
      StaysDone(trace, schedule, root, c, 0, |schedule|);
    }
  }

  class Hierarchy {
    var live: map<Path, CgroupID>
    var tracker: map<CgroupID, CgroupID>
    var home: map<CgroupID, Path>

    function State(): Fs
      reads this
    {
      Fs(live, tracker, home)
    }

    /** A new cgroup and the mkdir hook, one atomic step. */
    method CgroupMkdir(x: Path, id: CgroupID)
      requires x != [] && x[..|x| - 1] in live
      modifies this
      ensures State() == After(old(State()), Mkdir(x, id))
      ensures live == old(live)[x := id] && home == old(home)[id := x]
      ensures var parent := old(live)[x[..|x| - 1]];
              tracker == if parent in old(tracker) then old(tracker)[id := old(tracker)[parent]] else old(tracker)
    {
      var parent := live[x[..|x| - 1]];
      live, home := live[x := id], home[id := x];
      if parent in tracker {
        tracker := tracker[id := tracker[parent]];
      }
    }

    /** The release hook. */
    method CgroupRelease(id: CgroupID)
      modifies this
      ensures State() == After(old(State()), Release(id))
      ensures id !in tracker && live == old(live) && home == old(home)
      ensures forall g | g != id ::
                (g in tracker <==> g in old(tracker)) && (g in tracker ==> tracker[g] == old(tracker)[g])
    {
      tracker := tracker - {id};
    }

    /** Any events of the rest of the system, in any order. */
    method RunEvents(events: seq<Event>, root: Path, c: CgroupID)
      modifies this
      ensures State() == Happened(old(State()), root, c, events)
    {
      for k := 0 to |events|
        invariant State() == Happened(old(State()), root, c, events[..k])
      {
        assert events[..k + 1][..k] == events[..k];
        var e := events[k];
        if Possible(State(), root, c, e) {
          match e {
            case Mkdir(x, id) => CgroupMkdir(x, id);
            case Rmdir(x) => live := live - {x};
            case Release(id) => CgroupRelease(id);
            case Foreign(id, v) => tracker := tracker[id := v];
          }
        }
      }
      assert events[..|events|] == events;
    }

    /** The directories in a directory, to be looked at next. */
    method ReadDir(q: Path) returns (looks: seq<Item>)
      ensures forall x | x in live && x != [] && x[..|x| - 1] == q :: Look(x) in looks
      ensures forall n | n in looks :: n.Look? && n.q in live && n.q != [] && n.q[..|n.q| - 1] == q
      ensures NoRepeats(looks)
    {
      looks := [];
      var todo := live.Keys;
      while todo != {}
        invariant todo <= live.Keys
        invariant forall x | x in live && x !in todo && x != [] && x[..|x| - 1] == q :: Look(x) in looks
        invariant forall n | n in looks :: n.Look? && n.q in live && n.q !in todo && n.q != [] && n.q[..|n.q| - 1] == q
        invariant NoRepeats(looks)
      {
        var x :| x in todo;
        if x != [] && x[..|x| - 1] == q {
          looks := looks + [Look(x)];
        }
        todo := todo - {x};
      }
    }

    /** One step of the walk: read an id, write it, or list a directory. */
    method WalkStep(items: seq<Item>, c: CgroupID) returns (next: seq<Item>)
      requires items != []
      modifies this`tracker
      ensures StepOf(old(State()), items[0], next) && State() == Recorded(old(State()), items[0], c)
    {
      match items[0] {
        case Look(q) =>
          next := if q in live then [Put(q, live[q])] else [List(q)];
        case Put(q, id) =>
          tracker := tracker[id := c];
          next := [List(q)];
        case List(q) =>
          next := ReadDir(q);
      }
    }

    /**
     Tracks a container: its own cgroup first, then what is below it. Between any two
     steps of the walk the rest of the system does what `schedule` says. A schedule that
     ends early leaves the walk unfinished; if nothing else happens, three steps for each
     cgroup are enough.
     */
    method UpdateCgTrackerMap(c: CgroupID, root: Path, walk: bool, schedule: seq<seq<Event>>)
      returns (finished: bool, ghost trace: seq<Moment>)
      requires Startable(State(), root, c, walk)
      modifies this
      ensures Walked(trace, schedule, root, c) && trace[0] == Begun(old(State()), root, c, walk)
      ensures State() == trace[|schedule|].f && (finished <==> trace[|schedule|].items == [])
      ensures Inv(State(), root, c, trace[|schedule|].items)
      ensures forall k | 0 <= k <= |schedule| && trace[k].items == [] :: Exact(trace[k].f, root, c)
      ensures Quiet(schedule) && |schedule| >= 3 * |old(live)| ==> finished
    {
      hide Startable, Exact, Inv;
      ghost var f := State();
      var items := if walk && root in live then [List(root)] else [];
      tracker := tracker[c := c];
      trace := [Moment(State(), items)];
      for k := 0 to |schedule|
        invariant |trace| == k + 1 && trace[0] == Begun(f, root, c, walk) && trace[k] == Moment(State(), items)
        invariant forall i | 0 <= i < k :: Continues(trace[i], root, c, schedule[i], trace[i + 1])
      {
        hide StepOf, Continues;
        ghost var was := trace[k];
        items := Advance(was, schedule[k], root, c, items);
        trace := trace + [Moment(State(), items)];
      }
      finished := items == [];
      BegunKeeps(f, root, c, walk);
      WalkedKeeps(trace, schedule, root, c, |schedule|);
      forall k | 0 <= k <= |schedule| && trace[k].items == []
        ensures Exact(trace[k].f, root, c)
      {
        WalkedExact(f, root, c, walk, trace, schedule, k);
      }
      if Quiet(schedule) && |schedule| >= 3 * |f.live| {
        QuietFinishes(f, root, c, walk, trace, schedule);
      }
    }

    /** The events that come before the next step, and the step. */
    method Advance(ghost was: Moment, events: seq<Event>, root: Path, c: CgroupID, items: seq<Item>)
      returns (items': seq<Item>)
      requires was == Moment(State(), items)
      modifies this
      ensures Continues(was, root, c, events, Moment(State(), items'))
    {
      hide StepOf, Happened;
      RunEvents(events, root, c);
      items' := items;
      if items != [] {
        var next := WalkStep(items, c);
        items' := next + items[1..];
      }
    }

    /** A finished walk needs no second one: every later event keeps the tracker exact. */
    method Afterwards(events: seq<Event>, root: Path, c: CgroupID)
      requires Inv(State(), root, c, [])
      modifies this
      ensures State() == Happened(old(State()), root, c, events)
      ensures Inv(State(), root, c, []) && Exact(State(), root, c)
    {
      HappenedKeeps(State(), root, c, [], events);
      hide Inv, Happened, Exact;
      RunEvents(events, root, c);
      DoneIsExact(State(), root, c);
    }
  }

  /** An exec anywhere in the container's subtree is attributed to the container, and no exec outside is. */
  lemma TrackerIdExact(f: Fs, root: Path, c: CgroupID, x: Path, m: Maps)
    requires Exact(f, root, c) && Alive(f, root, c) && x in f.live && f.live[x] != 0 && c != 0
             && m.cgTracker == f.tracker
    ensures TrackerId(m, f.live[x]) == c <==> root <= x
  {
    assert TrackedAs(f, x, c) <==> root <= x;
  }
}
