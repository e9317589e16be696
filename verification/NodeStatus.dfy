/** The per-node status of a policy (api/v1alpha1/policy_node_status.go). */
module NodeStatus {

  const MAX_NODES: nat := 20
  const TRUNCATION: string := "..."
  const TRUNCATION_MESSAGE: string := "Maximum number of nodes with issues reached"

  datatype Code = Unknown | Ready | Missing | Failed | Transitioning | Other(text: string)

  datatype Phase = NoPhase | PhaseTransitioning | PhaseFailed | PhaseReady

  /** `since` is 0 for a time that was never set. */
  datatype Status = Status(code: Code, message: string, since: int)

  datatype Entry = Entry(node: string, status: Status)

  datatype Report = Report(node: string, code: Code, message: string)

  const NO_STATUS: Status := Status(Unknown, "", 0)

  const BAD: set<Code> := {Failed, Missing}
  const MOVING: set<Code> := {Transitioning}
  const GOOD: set<Code> := {Ready}

  predicate Known(code: Code) {
    code in GOOD + MOVING + BAD
  }

  lemma KnownCodes()
    ensures forall code :: Known(code) <==> code in {Ready, Transitioning, Failed, Missing}
  {
  }

  /** The nodes that are remembered by name. */
  datatype Table = Table(issues: map<string, Status>, moving: seq<Entry>)

  function Find(moving: seq<Entry>, node: string): Status {
    if moving == [] then NO_STATUS
    else if moving[0].node == node then moving[0].status
    else Find(moving[1..], node)
  }

  /** The previous status of a node, if it was remembered. */
  function NodeStatusOf(t: Table, node: string): Status {
    if node in t.issues then t.issues[node] else Find(t.moving, node)
  }

  /** A code that has not changed keeps the time it began. */
  function TransitionTime(previous: Status, code: Code, now: int): int {
    if previous.code == code && previous.since != 0 then previous.since else now
  }

  function Stamped(previous: Table, r: Report, now: int): Status {
    Status(r.code, r.message, TransitionTime(NodeStatusOf(previous, r.node), r.code, now))
  }

  ghost predicate DistinctNodes(nodes: seq<Report>) {
    forall i, j | 0 <= i < j < |nodes| :: nodes[i].node != nodes[j].node
  }

  /** How many nodes report one of the codes. */
  ghost function Count(nodes: seq<Report>, codes: set<Code>): nat {
    if nodes == [] then 0
    else Count(nodes[..|nodes| - 1], codes) + if nodes[|nodes| - 1].code in codes then 1 else 0
  }

  /** One report a node, and none under the name of the marker. */
  ghost predicate Proper(nodes: seq<Report>) {
    DistinctNodes(nodes) && forall i | 0 <= i < |nodes| :: nodes[i].node != TRUNCATION
  }

  /** The reports with one of the codes, in order. */
  ghost function Group(nodes: seq<Report>, codes: set<Code>): seq<Report> {
    if nodes == [] then []
    else
      var init, r := Group(nodes[..|nodes| - 1], codes), nodes[|nodes| - 1];
      if r.code in codes then init + [r] else init
  }

  /** As many as there is room for, with a place left for the marker. */
  ghost function First(reports: seq<Report>): seq<Report> {
    if |reports| < MAX_NODES then reports else reports[..MAX_NODES - 1]
  }

  ghost function Stamps(previous: Table, reports: seq<Report>, now: int): map<string, Status> {
    if reports == [] then map[]
    else
      var r := reports[|reports| - 1];
      Stamps(previous, reports[..|reports| - 1], now)[r.node := Stamped(previous, r, now)]
  }

  /** The first failing nodes with their status, and a marker if there are more. */
  ghost function IssuesFrom(previous: Table, bad: seq<Report>, now: int): map<string, Status> {
    var stamps := Stamps(previous, First(bad), now);
    if |bad| < MAX_NODES then stamps else stamps[TRUNCATION := Status(Failed, TRUNCATION_MESSAGE, 0)]
  }

  ghost function Entries(previous: Table, reports: seq<Report>, now: int): (r: seq<Entry>)
    ensures |r| == |reports|
    ensures forall i | 0 <= i < |r| :: r[i] == Entry(reports[i].node, Stamped(previous, reports[i], now))
  {
    seq(|reports|, i requires 0 <= i < |reports| => Entry(reports[i].node, Stamped(previous, reports[i], now)))
  }

  /** The first transitioning nodes with their status, and a marker if there are more. */
  ghost function MovingFrom(previous: Table, moving: seq<Report>, now: int): seq<Entry> {
    Entries(previous, First(moving), now) + if |moving| < MAX_NODES then [] else [Entry(TRUNCATION, NO_STATUS)]
  }

  /** What is remembered after a round. */
  ghost predicate Follows(previous: Table, nodes: seq<Report>, now: int, t: Table) {
    && t.issues == IssuesFrom(previous, Group(nodes, BAD), now)
    && t.moving == SortByName(MovingFrom(previous, Group(nodes, MOVING), now))
  }

  lemma {:induction false} CountsAddUp(nodes: seq<Report>)
    requires forall i | 0 <= i < |nodes| :: Known(nodes[i].code)
    ensures Count(nodes, GOOD) + Count(nodes, MOVING) + Count(nodes, BAD) == |nodes|
  {
    if nodes != [] {
      CountsAddUp(nodes[..|nodes| - 1]);
      assert Known(nodes[|nodes| - 1].code);
    }
  }

  lemma {:induction false} GroupHas(nodes: seq<Report>, codes: set<Code>)
    ensures |Group(nodes, codes)| == Count(nodes, codes)
    ensures forall r :: r in Group(nodes, codes) <==> r in nodes && r.code in codes
  {
    if nodes != [] {
      var init, r := nodes[..|nodes| - 1], nodes[|nodes| - 1];
      GroupHas(init, codes);
      assert nodes == init + [r];
    }
  }

  lemma {:induction false} GroupProper(nodes: seq<Report>, codes: set<Code>)
    requires Proper(nodes)
    ensures Proper(Group(nodes, codes))
  {
    if nodes != [] {
      var init, r := nodes[..|nodes| - 1], nodes[|nodes| - 1];
      assert nodes == init + [r];
      ProperPrefix(nodes, |init|);
      GroupProper(init, codes);
      GroupHas(init, codes);
      NewName(init, r);
      assert r.node != TRUNCATION;
      ProperNext(Group(init, codes), r);
    }
  }

  lemma ProperNext(reports: seq<Report>, r: Report)
    requires Proper(reports) && r.node != TRUNCATION && forall x | x in reports :: x.node != r.node
    ensures Proper(reports + [r])
  {
    assert forall i | 0 <= i < |reports| :: reports[i] in reports;
  }

  ghost predicate HasNode(reports: seq<Report>, node: string) {
    exists r :: r in reports && r.node == node
  }

  /** The names in the map are those of the reports, each counted once. */
  lemma {:induction false} StampsFor(previous: Table, reports: seq<Report>, now: int)
    requires DistinctNodes(reports)
    ensures |Stamps(previous, reports, now)| == |reports|
    ensures forall n :: n in Stamps(previous, reports, now) <==> HasNode(reports, n)
  {
    if reports != [] {
      var init, r := reports[..|reports| - 1], reports[|reports| - 1];
      assert reports == init + [r];
      StampsFor(previous, init, now);
      NewName(init, r);
      HasNodeNext(init, r);
      hide HasNode, Stamped;
      var stamps := Stamps(previous, init, now);
      assert Stamps(previous, reports, now) == stamps[r.node := Stamped(previous, r, now)];
    }
  }

  lemma HasNodeNext(reports: seq<Report>, r: Report)
    ensures forall n :: HasNode(reports + [r], n) <==> HasNode(reports, n) || n == r.node
    ensures HasNode(reports, r.node) <==> exists i :: 0 <= i < |reports| && reports[i].node == r.node
  {
    assert r in reports + [r];
    forall n | HasNode(reports, n)
      ensures HasNode(reports + [r], n)
    {
      var x :| x in reports && x.node == n;
      assert x in reports + [r];
    }
    if exists i :: 0 <= i < |reports| && reports[i].node == r.node {
      var i :| 0 <= i < |reports| && reports[i].node == r.node;
      assert reports[i] in reports;
    }
  }

  lemma {:induction false} StampsAt(previous: Table, reports: seq<Report>, now: int, r: Report)
    requires DistinctNodes(reports) && r in reports
    ensures r.node in Stamps(previous, reports, now)
            && Stamps(previous, reports, now)[r.node] == Stamped(previous, r, now)
  {
    var init, last := reports[..|reports| - 1], reports[|reports| - 1];
    assert reports == init + [last];
    if r != last {
      StampsAt(previous, init, now, r);
      NewName(init, last);
    }
  }

  lemma ProperPrefix(reports: seq<Report>, k: nat)
    requires Proper(reports) && k <= |reports|
    ensures Proper(reports[..k])
  {
  }

  lemma FirstProper(reports: seq<Report>)
    requires Proper(reports)
    ensures Proper(First(reports)) && !HasNode(First(reports), TRUNCATION)
  {
    ProperPrefix(reports, |First(reports)|);
  }

  lemma FirstNext(reports: seq<Report>, r: Report)
    ensures First(reports + [r]) == if |reports| < MAX_NODES - 1 then First(reports) + [r] else First(reports)
  {
  }

  lemma StampsNext(previous: Table, reports: seq<Report>, r: Report, now: int)
    ensures Stamps(previous, reports + [r], now) ==
            Stamps(previous, reports, now)[r.node := Stamped(previous, r, now)]
  {
    assert (reports + [r])[..|reports|] == reports;
  }

  /** One more failing node, by the size of the map as the code has it. */
  lemma IssuesNext(previous: Table, bad: seq<Report>, r: Report, now: int)
    requires Proper(bad + [r])
    ensures var issues := IssuesFrom(previous, bad, now);
            IssuesFrom(previous, bad + [r], now) ==
            if |issues| < MAX_NODES - 1 then issues[r.node := Stamped(previous, r, now)]
            else if |issues| == MAX_NODES - 1 then issues[TRUNCATION := Status(Failed, TRUNCATION_MESSAGE, 0)]
            else issues
  {
    ProperFront(bad, r);
    FirstProper(bad);
    FirstNext(bad, r);
    StampsNext(previous, First(bad), r, now);
    StampsFor(previous, First(bad), now);
    assert |First(bad)| == if |bad| < MAX_NODES then |bad| else MAX_NODES - 1;
    hide Stamped, Stamps, First, Proper, HasNode;
  }

  lemma MovingNext(previous: Table, moving: seq<Report>, r: Report, now: int)
    ensures var entries := MovingFrom(previous, moving, now);
            MovingFrom(previous, moving + [r], now) ==
            if |entries| < MAX_NODES - 1 then entries + [Entry(r.node, Stamped(previous, r, now))]
            else if |entries| == MAX_NODES - 1 then entries + [Entry(TRUNCATION, NO_STATUS)]
            else entries
  {
    hide Stamped;
  }

  /** The node is remembered by name: it is among the first of its group. */
  ghost predicate Remembers(nodes: seq<Report>, r: Report) {
    r in First(Group(nodes, BAD)) || r in First(Group(nodes, MOVING))
  }

  lemma FirstHas(reports: seq<Report>, r: Report)
    requires r in First(reports)
    ensures r in reports
  {
  }

  lemma MovingHas(previous: Table, moving: seq<Report>, now: int, node: string)
    requires node != TRUNCATION
    ensures forall e :: e in MovingFrom(previous, moving, now) && e.node == node <==>
                        exists r :: r in First(moving) && r.node == node && e == Entry(node, Stamped(previous, r, now))
  {
    hide Stamped;
    var first := First(moving);
    var entries := Entries(previous, first, now);
    forall e | e in MovingFrom(previous, moving, now) && e.node == node
      ensures exists r :: r in first && r.node == node && e == Entry(node, Stamped(previous, r, now))
    {
      assert e in entries;
      var i :| 0 <= i < |entries| && entries[i] == e;
      assert first[i] in first;
    }
    forall r | r in first && r.node == node
      ensures Entry(node, Stamped(previous, r, now)) in MovingFrom(previous, moving, now)
    {
      var i :| 0 <= i < |first| && first[i] == r;
      assert entries[i] == Entry(node, Stamped(previous, r, now));
      assert entries[i] in entries;
    }
  }

  /** A transitioning node has no issue. */
  lemma NotBoth(nodes: seq<Report>, previous: Table, now: int, r: Report)
    requires Proper(nodes) && r in Group(nodes, MOVING) && r.node != TRUNCATION
    ensures r.node !in IssuesFrom(previous, Group(nodes, BAD), now)
  {
    var bad := Group(nodes, BAD);
    NotBad(nodes, r);
    GroupProper(nodes, BAD);
    FirstProper(bad);
    StampsFor(previous, First(bad), now);
    hide Stamped, Group, Stamps, Proper, HasNode, First;
  }

  lemma NotBad(nodes: seq<Report>, r: Report)
    requires Proper(nodes) && r in Group(nodes, MOVING)
    ensures !HasNode(First(Group(nodes, BAD)), r.node)
  {
    GroupHas(nodes, BAD);
    GroupHas(nodes, MOVING);
    SameNode(nodes);
    hide Group, Proper, DistinctNodes;
    assert forall x | x in First(Group(nodes, BAD)) :: x in Group(nodes, BAD);
  }

  lemma SameNode(nodes: seq<Report>)
    requires DistinctNodes(nodes)
    ensures forall x, y | x in nodes && y in nodes && x.node == y.node :: x == y
  {
  }

  /** What is found is an entry of that name; nothing is found only if there is none. */
  lemma {:induction false} FindIs(moving: seq<Entry>, node: string)
    ensures (exists e :: e in moving && e.node == node) ==> Entry(node, Find(moving, node)) in moving
    ensures (forall e | e in moving :: e.node != node) ==> Find(moving, node) == NO_STATUS
  {
    if moving != [] {
      FindIs(moving[1..], node);
      assert moving[0] in moving && moving == [moving[0]] + moving[1..];
      if moving[0].node == node {
        assert Entry(node, moving[0].status) == moving[0];
      }
    }
  }

  /** The lookup in the sorted list. */
  lemma FoundMoving(previous: Table, moving: seq<Report>, now: int, node: string)
    requires Proper(moving) && node != TRUNCATION
    ensures var found := Find(SortByName(MovingFrom(previous, moving, now)), node);
            && (forall r | r in First(moving) && r.node == node :: found == Stamped(previous, r, now))
            && (!HasNode(First(moving), node) ==> found == NO_STATUS)
  {
    var entries := MovingFrom(previous, moving, now);
    var sorted := SortByName(entries);
    FindIs(sorted, node);
    MovingHas(previous, moving, now, node);
    ProperPrefix(moving, |First(moving)|);
    SameNode(First(moving));
    hide Stamped, MovingFrom, SortByName, Find, First;
    assert forall e :: e in sorted <==> e in entries;
    forall r | r in First(moving) && r.node == node
      ensures Find(sorted, node) == Stamped(previous, r, now)
    {
      assert Entry(node, Stamped(previous, r, now)) in sorted;
    }
  }

  /** The status found for a remembered node is that of its report. */
  lemma LookupRemembered(previous: Table, nodes: seq<Report>, now: int, t: Table, r: Report)
    requires Proper(nodes) && Follows(previous, nodes, now, t) && Remembers(nodes, r) && r.node != TRUNCATION
    ensures NodeStatusOf(t, r.node) == Stamped(previous, r, now)
    ensures NodeStatusOf(t, r.node).code == r.code && NodeStatusOf(t, r.node).message == r.message
  {
    assert Stamped(previous, r, now).code == r.code && Stamped(previous, r, now).message == r.message;
    var bad, moving := Group(nodes, BAD), Group(nodes, MOVING);
    GroupProper(nodes, BAD);
    GroupProper(nodes, MOVING);
    hide Stamped, Group, MovingFrom, SortByName, Find;
    if r in First(bad) {
      ProperPrefix(bad, |First(bad)|);
      StampsAt(previous, First(bad), now, r);
    } else {
      FirstHas(moving, r);
      NotBoth(nodes, previous, now, r);
      FoundMoving(previous, moving, now, r.node);
    }
  }

  /** None is found for a node that is not remembered. */
  lemma LookupNone(previous: Table, nodes: seq<Report>, now: int, t: Table, node: string)
    requires Proper(nodes) && Follows(previous, nodes, now, t) && node != TRUNCATION
    requires forall r | Remembers(nodes, r) :: r.node != node
    ensures NodeStatusOf(t, node) == NO_STATUS
  {
    var bad, moving := Group(nodes, BAD), Group(nodes, MOVING);
    GroupProper(nodes, BAD);
    GroupProper(nodes, MOVING);
    hide Stamped, Group, MovingFrom, SortByName, Find;
    ProperPrefix(bad, |First(bad)|);
    StampsFor(previous, First(bad), now);
    FoundMoving(previous, moving, now, node);
    assert forall r | r in First(bad) || r in First(moving) :: Remembers(nodes, r);
  }

  lemma MarkedMoving(previous: Table, moving: seq<Report>, now: int)
    requires Proper(moving)
    ensures |MovingFrom(previous, moving, now)| <= 20
    ensures (exists e :: e in MovingFrom(previous, moving, now) && e.node == TRUNCATION) <==> |moving| > 19
  {
    FirstProper(moving);
    var entries := MovingFrom(previous, moving, now);
    hide Stamped, Proper;
    if |moving| > 19 {
      assert entries[|entries| - 1] == Entry(TRUNCATION, NO_STATUS) && entries[|entries| - 1] in entries;
    }
  }

  /** Of each group at most 19 nodes are named, and a marker stands for more exactly if there are more. */
  lemma MarkerIff(previous: Table, nodes: seq<Report>, now: int, t: Table)
    requires Proper(nodes) && Follows(previous, nodes, now, t)
    ensures |t.issues| <= 20 && |t.moving| <= 20
    ensures TRUNCATION in t.issues <==> Count(nodes, {Failed, Missing}) > 19
    ensures (exists e :: e in t.moving && e.node == TRUNCATION) <==> Count(nodes, {Transitioning}) > 19
  {
    var bad, moving := Group(nodes, BAD), Group(nodes, MOVING);
    GroupHas(nodes, BAD);
    GroupHas(nodes, MOVING);
    GroupProper(nodes, BAD);
    GroupProper(nodes, MOVING);
    FirstProper(bad);
    StampsFor(previous, First(bad), now);
    MarkedMoving(previous, moving, now);
    hide Stamped, Stamps, Group, Count, MovingFrom, SortByName, Proper, HasNode;
    assert forall e :: e in t.moving <==> e in MovingFrom(previous, moving, now);
  }

  /** Dictionary order. */
  predicate NameLeq(a: string, b: string) {
    a == [] || (b != [] && (a[0] < b[0] || (a[0] == b[0] && NameLeq(a[1..], b[1..]))))
  }

  lemma {:induction false} NameLeqTotal(a: string, b: string)
    ensures NameLeq(a, b) || NameLeq(b, a)
  {
    if a != [] && b != [] && a[0] == b[0] {
      NameLeqTotal(a[1..], b[1..]);
    }
  }

  lemma {:induction false} NameLeqTransitive(a: string, b: string, c: string)
    requires NameLeq(a, b) && NameLeq(b, c)
    ensures NameLeq(a, c)
  {
    if a != [] && a[0] == b[0] == c[0] {
      NameLeqTransitive(a[1..], b[1..], c[1..]);
    }
  }

  /** Where two names differ first, or one of them ends. */
  ghost function Difference(a: string, b: string): (k: nat)
    ensures k <= |a| && k <= |b| && forall i | 0 <= i < k :: a[i] == b[i]
    ensures k < |a| && k < |b| ==> a[k] != b[k]
  {
    if a == [] || b == [] || a[0] != b[0] then 0 else 1 + Difference(a[1..], b[1..])
  }

  /** The earlier name has the smaller character there, or ends there. */
  ghost predicate Precedes(a: string, b: string) {
    var k := Difference(a, b);
    k == |a| || (k < |b| && a[k] < b[k])
  }

  lemma {:induction false} NameLeqIs(a: string, b: string)
    ensures NameLeq(a, b) <==> Precedes(a, b)
  {
    if a != [] && b != [] && a[0] == b[0] {
      NameLeqIs(a[1..], b[1..]);
    }
  }

  ghost predicate ByName(s: seq<Entry>) {
    forall i, j | 0 <= i < j < |s| :: NameLeq(s[i].node, s[j].node)
  }

  function InsertByName(e: Entry, s: seq<Entry>): (r: seq<Entry>)
    ensures |r| == |s| + 1 && forall x :: x in r <==> x == e || x in s
  {
    if s == [] || NameLeq(e.node, s[0].node) then [e] + s
    else
      assert s == [s[0]] + s[1..];
      [s[0]] + InsertByName(e, s[1..])
  }

  function SortByName(s: seq<Entry>): (r: seq<Entry>)
    ensures |r| == |s| && forall x :: x in r <==> x in s
  {
    if s == [] then []
    else
      assert s == [s[0]] + s[1..];
      InsertByName(s[0], SortByName(s[1..]))
  }

  lemma {:induction false} InsertKeepsOrder(e: Entry, s: seq<Entry>)
    requires ByName(s)
    ensures ByName(InsertByName(e, s))
  {
    if s == [] {
    } else if NameLeq(e.node, s[0].node) {
      forall j | 0 <= j < |s|
        ensures NameLeq(e.node, s[j].node)
      {
        if j > 0 {
          NameLeqTransitive(e.node, s[0].node, s[j].node);
        }
      }
    } else {
      NameLeqTotal(e.node, s[0].node);
      InsertKeepsOrder(e, s[1..]);
      var r := InsertByName(e, s[1..]);
      forall j | 0 <= j < |r|
        ensures NameLeq(s[0].node, r[j].node)
      {
        assert r[j] in r;
        assert r[j] == e || r[j] in s[1..];
      }
    }
  }

  lemma {:induction false} SortedByName(s: seq<Entry>)
    ensures ByName(SortByName(s))
  {
    if s != [] {
      SortedByName(s[1..]);
      InsertKeepsOrder(s[0], SortByName(s[1..]));
    }
  }

  /** The sorted list is in dictionary order. */
  lemma InDictionaryOrder(s: seq<Entry>, i: nat, j: nat)
    requires i < j < |s|
    ensures Precedes(SortByName(s)[i].node, SortByName(s)[j].node)
  {
    SortedByName(s);
    NameLeqIs(SortByName(s)[i].node, SortByName(s)[j].node);
  }

  /** The phase, from the counters alone. */
  function PhaseOf(total: nat, successful: nat, failed: nat, transitioning: nat, before: Phase): Phase {
    if successful == total then PhaseReady
    else if failed > 0 then PhaseFailed
    else if transitioning > 0 then PhaseTransitioning
    else before
  }

  /** A policy is ready when all nodes are, failed when one has failed, and otherwise on its way. */
  lemma PhaseMeans(nodes: seq<Report>, before: Phase)
    requires forall i | 0 <= i < |nodes| :: Known(nodes[i].code)
    ensures var phase := PhaseOf(|nodes|, Count(nodes, GOOD), Count(nodes, BAD), Count(nodes, MOVING), before);
            && (phase.PhaseReady? <==> forall i | 0 <= i < |nodes| :: nodes[i].code.Ready?)
            && (phase.PhaseFailed? <==> exists i :: 0 <= i < |nodes| && nodes[i].code in {Failed, Missing})
            && (phase.PhaseTransitioning? <==>
                (exists i :: 0 <= i < |nodes| && nodes[i].code.Transitioning?)
                && !exists i :: 0 <= i < |nodes| && nodes[i].code in {Failed, Missing})
            && !phase.NoPhase?
  {
    CountsAddUp(nodes);
    CountAll(nodes, GOOD);
    CountSome(nodes, BAD);
    CountSome(nodes, MOVING);
  }

  lemma {:induction false} CountAll(nodes: seq<Report>, codes: set<Code>)
    ensures Count(nodes, codes) <= |nodes|
    ensures Count(nodes, codes) == |nodes| <==> forall i | 0 <= i < |nodes| :: nodes[i].code in codes
  {
    if nodes != [] {
      var init := nodes[..|nodes| - 1];
      CountAll(init, codes);
      assert forall i | 0 <= i < |init| :: init[i] == nodes[i];
    }
  }

  lemma {:induction false} CountSome(nodes: seq<Report>, codes: set<Code>)
    ensures Count(nodes, codes) > 0 <==> exists i :: 0 <= i < |nodes| && nodes[i].code in codes
  {
    if nodes != [] {
      var init := nodes[..|nodes| - 1];
      CountSome(init, codes);
      if i :| 0 <= i < |init| && init[i].code in codes {
        assert nodes[i].code in codes;
      }
      if i :| 0 <= i < |nodes| && nodes[i].code in codes {
        assert i == |init| || init[i] == nodes[i];
      }
    }
  }

  class NodeTable {
    var nodesWithIssues: map<string, Status>
    var nodesTransitioning: seq<Entry>
    var totalNodes: nat
    var successfulNodes: nat
    var failedNodes: nat
    var transitioningNodes: nat
    var phase: Phase

    /** A deep copy. */
    constructor Copy(s: NodeTable)
      ensures Remembered() == s.Remembered() && phase == s.phase && totalNodes == s.totalNodes
              && successfulNodes == s.successfulNodes && failedNodes == s.failedNodes
              && transitioningNodes == s.transitioningNodes
    {
      nodesWithIssues, nodesTransitioning, phase := s.nodesWithIssues, s.nodesTransitioning, s.phase;
      totalNodes, successfulNodes, failedNodes, transitioningNodes :=
        s.totalNodes, s.successfulNodes, s.failedNodes, s.transitioningNodes;
    }

    constructor ()
      ensures Remembered() == Table(map[], []) && phase == NoPhase
    {
      nodesWithIssues, nodesTransitioning, phase := map[], [], NoPhase;
      totalNodes, successfulNodes, failedNodes, transitioningNodes := 0, 0, 0, 0;
    }

    function Remembered(): Table
      reads this
    {
      Table(nodesWithIssues, nodesTransitioning)
    }

    ghost predicate SmallEnough()
      reads this
    {
      |nodesWithIssues| <= MAX_NODES && |nodesTransitioning| <= MAX_NODES
    }

    /** One more transitioning node; the last place is for the marker. */
    method AddTransitioningNode(r: Report, previous: Table, now: int, ghost moving: seq<Report>)
      requires r.code in MOVING && nodesTransitioning == MovingFrom(previous, moving, now)
      modifies this`transitioningNodes, this`nodesTransitioning
      ensures transitioningNodes == old(transitioningNodes) + 1
      ensures nodesTransitioning == MovingFrom(previous, moving + [r], now)
    {
      MovingNext(previous, moving, r, now);
      hide MovingFrom;
      transitioningNodes := transitioningNodes + 1;
      if |nodesTransitioning| < MAX_NODES - 1 {
        nodesTransitioning := nodesTransitioning + [Entry(r.node, Stamped(previous, r, now))];
      } else if |nodesTransitioning| == MAX_NODES - 1 {
        nodesTransitioning := nodesTransitioning + [Entry(TRUNCATION, NO_STATUS)];
      }
    }

    /** One more failing node; the last place is for the marker. */
    method AddNodeIssue(r: Report, previous: Table, now: int, ghost bad: seq<Report>)
      requires r.code in BAD && |nodesWithIssues| <= MAX_NODES
      modifies this`failedNodes, this`nodesWithIssues
      ensures failedNodes == old(failedNodes) + 1 && |nodesWithIssues| <= MAX_NODES
      ensures nodesWithIssues ==
              if |old(nodesWithIssues)| < MAX_NODES - 1 then old(nodesWithIssues)[r.node := Stamped(previous, r, now)]
              else if |old(nodesWithIssues)| == MAX_NODES - 1 then
                old(nodesWithIssues)[TRUNCATION := Status(Failed, TRUNCATION_MESSAGE, 0)]
              else old(nodesWithIssues)
      ensures Proper(bad + [r]) && old(nodesWithIssues) == IssuesFrom(previous, bad, now) ==>
                nodesWithIssues == IssuesFrom(previous, bad + [r], now)
    {
      if Proper(bad + [r]) {
        IssuesNext(previous, bad, r, now);
      }
      hide IssuesFrom, Stamped;
      failedNodes := failedNodes + 1;
      if |nodesWithIssues| < MAX_NODES - 1 {
        nodesWithIssues := nodesWithIssues[r.node := Stamped(previous, r, now)];
      } else if |nodesWithIssues| == MAX_NODES - 1 {
        nodesWithIssues := nodesWithIssues[TRUNCATION := Status(Failed, TRUNCATION_MESSAGE, 0)];
      }
    }

    ghost predicate Tallied(nodes: seq<Report>)
      reads this
    {
      && successfulNodes == Count(nodes, GOOD) && transitioningNodes == Count(nodes, MOVING)
      && failedNodes == Count(nodes, BAD)
      && SmallEnough()
    }

    /** The remembered nodes so far, before they are sorted. */
    ghost predicate SoFar(previous: Table, nodes: seq<Report>, now: int)
      reads this
    {
      && nodesTransitioning == MovingFrom(previous, Group(nodes, MOVING), now)
      && (Proper(nodes) ==> nodesWithIssues == IssuesFrom(previous, Group(nodes, BAD), now))
    }

    /** One node of the list; an unknown code ends it. */
    method AddNode(r: Report, previous: Table, now: int, ghost nodes: seq<Report>) returns (ok: bool)
      requires Tallied(nodes) && SoFar(previous, nodes, now)
      modifies this`successfulNodes, this`transitioningNodes, this`failedNodes, this`nodesWithIssues,
               this`nodesTransitioning
      ensures ok <==> Known(r.code)
      ensures ok ==> Tallied(nodes + [r]) && SoFar(previous, nodes + [r], now)
    {
      OneMore(nodes, r);
      MovingSmall(previous, Group(nodes + [r], MOVING), now);
      hide Count, Proper, Group, MovingFrom, IssuesFrom;
      if r.code in GOOD {
        successfulNodes := successfulNodes + 1;
      } else if r.code in MOVING {
        AddTransitioningNode(r, previous, now, Group(nodes, MOVING));
      } else if r.code in BAD {
        AddNodeIssue(r, previous, now, Group(nodes, BAD));
      } else {
        return false;
      }
      return true;
    }

    /** Counters and remembered nodes from scratch; only the times of unchanged codes are carried over. */
    method ProcessPolicyNodeStatus(nodes: seq<Report>, now: int) returns (ok: bool)
      modifies this
      ensures ok <==> forall i | 0 <= i < |nodes| :: nodes[i].code in {Ready, Transitioning, Failed, Missing}
      ensures ok ==>
                && successfulNodes == Count(nodes, {Ready}) && transitioningNodes == Count(nodes, {Transitioning})
                && failedNodes == Count(nodes, {Failed, Missing})
      ensures ok ==> Tallied(nodes) && totalNodes == |nodes| == successfulNodes + transitioningNodes + failedNodes
      ensures ok ==>
                phase == PhaseOf(totalNodes, successfulNodes, failedNodes, transitioningNodes, old(phase))
                && ByName(nodesTransitioning)
      ensures ok && Proper(nodes) ==> Follows(old(Remembered()), nodes, now, Remembered())
    {
      KnownCodes();
      hide Count, Proper, Group, MovingFrom, IssuesFrom, ByName, SortByName, PhaseOf, Known;
      var previous := Remembered();
      nodesWithIssues, nodesTransitioning, totalNodes := map[], [], |nodes|;
      successfulNodes, failedNodes, transitioningNodes := 0, 0, 0;
      NothingYet(previous, now);
      for k := 0 to |nodes|
        invariant totalNodes == |nodes| && phase == old(phase) && Tallied(nodes[..k])
        invariant forall i | 0 <= i < k :: Known(nodes[i].code)
        invariant SoFar(previous, nodes[..k], now)
      {
        assert nodes[..k + 1] == nodes[..k] + [nodes[k]];
        var added := AddNode(nodes[k], previous, now, nodes[..k]);
        if !added {
          return false;
        }
      }
      assert nodes[..|nodes|] == nodes;
      SortAndSetPhase(nodes);
      return true;
    }

    /** Sorts the list, checks the counters and derives the phase. */
    method SortAndSetPhase(ghost nodes: seq<Report>)
      requires Tallied(nodes) && forall i | 0 <= i < |nodes| :: Known(nodes[i].code)
      modifies this`nodesTransitioning, this`phase
      ensures Tallied(nodes) && successfulNodes + transitioningNodes + failedNodes == |nodes|
      ensures phase == PhaseOf(totalNodes, successfulNodes, failedNodes, transitioningNodes, old(phase))
              && ByName(nodesTransitioning) && nodesTransitioning == SortByName(old(nodesTransitioning))
    {
      hide Count, ByName, SortByName;
      SortedByName(nodesTransitioning);
      nodesTransitioning := SortByName(nodesTransitioning);
      CountsAddUp(nodes);
      phase := PhaseOf(totalNodes, successfulNodes, failedNodes, transitioningNodes, phase);
    }
  }

  lemma NothingYet(previous: Table, now: int)
    ensures Group([], MOVING) == [] && MovingFrom(previous, [], now) == []
    ensures Group([], BAD) == [] && IssuesFrom(previous, [], now) == map[]
    ensures forall codes :: Count([], codes) == 0
  {
  }

  lemma OneMore(nodes: seq<Report>, r: Report)
    ensures forall codes :: Count(nodes + [r], codes) == Count(nodes, codes) + if r.code in codes then 1 else 0
    ensures forall codes ::
              Group(nodes + [r], codes) == if r.code in codes then Group(nodes, codes) + [r] else Group(nodes, codes)
    ensures Proper(nodes + [r]) ==> Proper(nodes) && Proper(Group(nodes + [r], BAD))
  {
    assert (nodes + [r])[..|nodes|] == nodes;
    if Proper(nodes + [r]) {
      GroupProper(nodes + [r], BAD);
      ProperFront(nodes, r);
    }
  }

  lemma MovingSmall(previous: Table, moving: seq<Report>, now: int)
    ensures |MovingFrom(previous, moving, now)| <= MAX_NODES
  {
  }

  lemma ProperFront(nodes: seq<Report>, r: Report)
    requires Proper(nodes + [r])
    ensures Proper(nodes)
  {
    assert (nodes + [r])[..|nodes|] == nodes;
    ProperPrefix(nodes + [r], |nodes|);
  }

  lemma NewName(nodes: seq<Report>, r: Report)
    ensures DistinctNodes(nodes + [r]) ==> forall x | x in nodes :: x.node != r.node
  {
    if DistinctNodes(nodes + [r]) {
      var all := nodes + [r];
      forall x | x in nodes
        ensures x.node != r.node
      {
        var i :| 0 <= i < |nodes| && nodes[i] == x;
        assert all[i].node != all[|nodes|].node;
      }
    }
  }

  /** One recomputation: what the nodes report, and when. */
  datatype Round = Round(nodes: seq<Report>, now: int)

  /** The code a node reports; an absent node counts as ready. */
  ghost function CodeIn(nodes: seq<Report>, node: string): Code {
    if nodes == [] then Ready
    else if nodes[0].node == node then nodes[0].code
    else CodeIn(nodes[1..], node)
  }

  /** The message that goes with it. */
  ghost function MessageIn(nodes: seq<Report>, node: string): string {
    if nodes == [] then ""
    else if nodes[0].node == node then nodes[0].message
    else MessageIn(nodes[1..], node)
  }

  lemma {:induction false} CodeInIs(nodes: seq<Report>, node: string)
    requires DistinctNodes(nodes)
    ensures forall r | r in nodes && r.node == node ::
              CodeIn(nodes, node) == r.code && MessageIn(nodes, node) == r.message
    ensures (forall r | r in nodes :: r.node != node) ==> CodeIn(nodes, node) == Ready
  {
    if nodes != [] {
      assert nodes == [nodes[0]] + nodes[1..];
      CodeInIs(nodes[1..], node);
      assert forall r | r in nodes[1..] :: r.node != nodes[0].node;
    }
  }

  /** The code under which a node is remembered by name; ready for one that is not. */
  ghost function ListedCode(nodes: seq<Report>, node: string): Code {
    if exists r :: Remembers(nodes, r) && r.node == node then CodeIn(nodes, node) else Ready
  }

  /** When a code began: the start of the longest run of rounds with it, up to the last one. */
  ghost function Began(rounds: seq<Round>, code: Round -> Code): int
    requires rounds != []
  {
    var n := |rounds|;
    if n > 1 && code(rounds[n - 1]) == code(rounds[n - 2]) then Began(rounds[..n - 1], code) else rounds[n - 1].now
  }

  /** `Began`, said with indices. */
  lemma {:induction false} BeganIs(rounds: seq<Round>, code: Round -> Code) returns (j: nat)
    requires rounds != []
    ensures j < |rounds| && Began(rounds, code) == rounds[j].now
    ensures forall k | j <= k < |rounds| :: code(rounds[k]) == code(rounds[|rounds| - 1])
    ensures j > 0 ==> code(rounds[j - 1]) != code(rounds[j])
  {
    var n := |rounds|;
    if n > 1 && code(rounds[n - 1]) == code(rounds[n - 2]) {
      j := BeganIs(rounds[..n - 1], code);
    } else {
      j := n - 1;
    }
  }

  ghost function ListedAs(node: string): Round -> Code {
    (r: Round) => ListedCode(r.nodes, node)
  }

  predicate Readable(r: Round) {
    forall i | 0 <= i < |r.nodes| :: Known(r.nodes[i].code)
  }

  /** The rounds that count: one with an unknown code is thrown away. */
  ghost function ReadableOf(rounds: seq<Round>): seq<Round> {
    if rounds == [] then []
    else
      var init, r := ReadableOf(rounds[..|rounds| - 1]), rounds[|rounds| - 1];
      if Readable(r) then init + [r] else init
  }

  /** One report a node, at some time. */
  ghost predicate GoodRound(r: Round) {
    Proper(r.nodes) && r.now != 0
  }

  /** What is remembered of a node: its code, and the time since when it has been remembered under it. */
  ghost predicate SinceAt(rounds: seq<Round>, t: Table, node: string) {
    if rounds == [] || ListedCode(rounds[|rounds| - 1].nodes, node) == Ready then NodeStatusOf(t, node) == NO_STATUS
    else
      && NodeStatusOf(t, node).code == ListedCode(rounds[|rounds| - 1].nodes, node)
      && NodeStatusOf(t, node).message == MessageIn(rounds[|rounds| - 1].nodes, node)
      && NodeStatusOf(t, node).since == Began(rounds, ListedAs(node))
  }

  ghost predicate SinceRight(rounds: seq<Round>, t: Table) {
    forall node | node != TRUNCATION :: SinceAt(rounds, t, node)
  }

  lemma BeganNext(rounds: seq<Round>, r: Round, code: Round -> Code)
    ensures Began(rounds + [r], code) ==
            if rounds != [] && code(r) == code(rounds[|rounds| - 1]) then Began(rounds, code) else r.now
  {
    assert (rounds + [r])[..|rounds|] == rounds;
  }

  lemma BeganNonZero(rounds: seq<Round>, code: Round -> Code)
    requires rounds != [] && forall k | 0 <= k < |rounds| :: rounds[k].now != 0
    ensures Began(rounds, code) != 0
  {
    var j := BeganIs(rounds, code);
  }

  /** A remembered node is bad or moving, under the code it reports. */
  lemma RememberedCode(nodes: seq<Report>, r: Report)
    requires Proper(nodes) && Remembers(nodes, r)
    ensures r in nodes && r.code in BAD + MOVING && ListedCode(nodes, r.node) == r.code != Ready
    ensures MessageIn(nodes, r.node) == r.message
  {
    GroupHas(nodes, BAD);
    GroupHas(nodes, MOVING);
    CodeInIs(nodes, r.node);
    assert r in Group(nodes, BAD) || r in Group(nodes, MOVING);
  }

  lemma SinceNext(rounds: seq<Round>, t: Table, r: Round, t': Table, node: string)
    requires SinceAt(rounds, t, node) && GoodRound(r) && forall k | 0 <= k < |rounds| :: rounds[k].now != 0
    requires Follows(t, r.nodes, r.now, t') && node != TRUNCATION
    ensures SinceAt(rounds + [r], t', node)
  {
    BeganNext(rounds, r, ListedAs(node));
    if rounds != [] {
      BeganNonZero(rounds, ListedAs(node));
    }
    hide NodeStatusOf, Follows, Began, Remembers;
    if x :| Remembers(r.nodes, x) && x.node == node {
      RememberedCode(r.nodes, x);
      LookupRemembered(t, r.nodes, r.now, t', x);
    } else {
      LookupNone(t, r.nodes, r.now, t', node);
    }
  }

  lemma SinceAfter(rounds: seq<Round>, t: Table, r: Round, t': Table)
    requires SinceRight(rounds, t) && GoodRound(r) && forall k | 0 <= k < |rounds| :: rounds[k].now != 0
    requires Follows(t, r.nodes, r.now, t')
    ensures SinceRight(rounds + [r], t')
  {
    hide SinceAt, Follows, GoodRound;
    forall node | node != TRUNCATION
      ensures SinceAt(rounds + [r], t', node)
    {
      SinceNext(rounds, t, r, t', node);
    }
  }

  /**
   A node that was among the first of its group in every round since its code began: the time kept is when the
   code began.
   */
  lemma SinceTrue(rounds: seq<Round>, t: Table, node: string, j: nat)
    requires rounds != [] && SinceRight(rounds, t) && node != TRUNCATION && j < |rounds|
    requires forall k | j <= k < |rounds| ::
               ListedCode(rounds[k].nodes, node) == CodeIn(rounds[k].nodes, node) ==
               CodeIn(rounds[|rounds| - 1].nodes, node)
    requires j > 0 ==> CodeIn(rounds[j - 1].nodes, node) != CodeIn(rounds[j].nodes, node)
    requires CodeIn(rounds[|rounds| - 1].nodes, node) != Ready
    ensures NodeStatusOf(t, node).code == CodeIn(rounds[|rounds| - 1].nodes, node)
    ensures NodeStatusOf(t, node).since == rounds[j].now
  {
    assert SinceAt(rounds, t, node);
    BeganAt(rounds, ListedAs(node), j);
  }

  lemma {:induction false} BeganAt(rounds: seq<Round>, code: Round -> Code, j: nat)
    requires j < |rounds| && forall k | j <= k < |rounds| :: code(rounds[k]) == code(rounds[|rounds| - 1])
    requires j > 0 ==> code(rounds[j - 1]) != code(rounds[j])
    ensures Began(rounds, code) == rounds[j].now
  {
    var n := |rounds|;
    if j < n - 1 {
      BeganAt(rounds[..n - 1], code, j);
    }
  }

  lemma ReadableKept(rounds: seq<Round>)
    requires forall k | 0 <= k < |rounds| :: GoodRound(rounds[k])
    ensures forall k | 0 <= k < |ReadableOf(rounds)| :: ReadableOf(rounds)[k].now != 0
  {
    if rounds != [] {
      ReadableKept(rounds[..|rounds| - 1]);
    }
  }

  /**
   Over any run of recomputations, each on a copy that is thrown away if a code is unknown: a node is remembered
   with its code exactly while it is among the first of its group, and the time kept is when that began.
   */
  method Run(rounds: seq<Round>) returns (s: NodeTable)
    requires forall k | 0 <= k < |rounds| :: GoodRound(rounds[k])
    ensures fresh(s) && SinceRight(ReadableOf(rounds), s.Remembered())
  {
    s := new NodeTable();
    for k := 0 to |rounds|
      invariant fresh(s) && SinceRight(ReadableOf(rounds[..k]), s.Remembered())
    {
      hide SinceRight, GoodRound, Readable;
      assert rounds[..k + 1][..k] == rounds[..k];
      ReadableKept(rounds[..k]);
      s := NextRound(s, ReadableOf(rounds[..k]), rounds[k]);
    }
    assert rounds[..|rounds|] == rounds;
  }

  method NextRound(s: NodeTable, ghost rounds: seq<Round>, r: Round) returns (s': NodeTable)
    requires GoodRound(r) && (forall k | 0 <= k < |rounds| :: rounds[k].now != 0)
             && SinceRight(rounds, s.Remembered())
    ensures (s' == s || fresh(s')) && s.Remembered() == old(s.Remembered())
    ensures SinceRight(if Readable(r) then rounds + [r] else rounds, s'.Remembered())
  {
    hide SinceRight, Follows;
    var copy := new NodeTable.Copy(s);
    var ok := copy.ProcessPolicyNodeStatus(r.nodes, r.now);
    if !ok {
      return s;
    }
    SinceAfter(rounds, s.Remembered(), r, copy.Remembered());
    return copy;
  }
}
