/**
 The controller's scrape of all agents (getViolationsByPolicy in internal/controller/workloadpolicystatus_sync.go).
 */
module Scrape {
  import opened ExecHook
  import opened Sorting
  import opened ViolationBuffer
  import opened Violations

  /** One violation as an agent reports it. */
  datatype Report = Report(policy: string, event: Scraped)

  function TimeOf(r: Report): int { r.event.at }

  /** The events of one policy, in order. */
  function OfPolicy(reports: seq<Report>, policy: string): seq<Scraped> {
    if reports == [] then []
    else
      var init, r := OfPolicy(reports[..|reports| - 1], policy), reports[|reports| - 1];
      if r.policy == policy then init + [r.event] else init
  }

  /** What one policy is told: the reports of every node that answered, node after node. */
  function BatchOf(replies: seq<Option<seq<Report>>>, policy: string): seq<Scraped> {
    if replies == [] then []
    else
      var init, reply := BatchOf(replies[..|replies| - 1], policy), replies[|replies| - 1];
      if reply.Some? then init + OfPolicy(reply.value, policy) else init
  }

  function Entry(m: map<string, seq<Scraped>>, policy: string): seq<Scraped> {
    if policy in m then m[policy] else []
  }

  lemma OfPolicyNext(reports: seq<Report>, i: nat, policy: string)
    requires i < |reports|
    ensures OfPolicy(reports[..i + 1], policy) ==
            OfPolicy(reports[..i], policy) + if reports[i].policy == policy then [reports[i].event] else []
  {
    assert reports[..i + 1][..i] == reports[..i];
  }

  lemma EntryNext(m: map<string, seq<Scraped>>, r: Report, policy: string)
    ensures Entry(m[r.policy := Entry(m, r.policy) + [r.event]], policy) ==
            Entry(m, policy) + if r.policy == policy then [r.event] else []
  {
  }

  /** The reports of one node, each appended to the list of its policy. */
  method AppendReports(before: map<string, seq<Scraped>>, reports: seq<Report>)
    returns (byPolicy: map<string, seq<Scraped>>)
    requires forall policy | policy in before :: before[policy] != []
    ensures forall policy :: Entry(byPolicy, policy) == Entry(before, policy) + OfPolicy(reports, policy)
    ensures forall policy | policy in byPolicy :: byPolicy[policy] != []
  {
    byPolicy := before;
    for i := 0 to |reports|
      invariant forall policy :: Entry(byPolicy, policy) == Entry(before, policy) + OfPolicy(reports[..i], policy)
      invariant forall policy | policy in byPolicy :: byPolicy[policy] != []
    {
      hide OfPolicy, Entry;
      var r, was := reports[i], byPolicy;
      byPolicy := was[r.policy := Entry(was, r.policy) + [r.event]];
      forall policy
        ensures Entry(byPolicy, policy) == Entry(before, policy) + OfPolicy(reports[..i + 1], policy)
      {
        OfPolicyNext(reports, i, policy);
        EntryNext(was, r, policy);
      }
    }
    assert reports[..|reports|] == reports;
  }

  /** Nodes that do not answer add nothing; nodes come in the order the client map is walked. */
  method GetViolationsByPolicy(replies: seq<Option<seq<Report>>>) returns (byPolicy: map<string, seq<Scraped>>)
    ensures forall policy :: Entry(byPolicy, policy) == BatchOf(replies, policy)
    ensures forall policy | policy in byPolicy :: byPolicy[policy] != []
  {
    byPolicy := map[];
    for k := 0 to |replies|
      invariant forall policy :: Entry(byPolicy, policy) == BatchOf(replies[..k], policy)
      invariant forall policy | policy in byPolicy :: byPolicy[policy] != []
    {
      hide Entry, OfPolicy;
      assert replies[..k + 1][..k] == replies[..k];
      if replies[k].Some? {
        byPolicy := AppendReports(byPolicy, replies[k].value);
      }
    }
    assert replies[..|replies|] == replies;
  }

  /** All reports of the nodes that answered. */
  ghost function Received(replies: seq<Option<seq<Report>>>): multiset<Report> {
    if replies == [] then multiset{}
    else
      var init, reply := Received(replies[..|replies| - 1]), replies[|replies| - 1];
      if reply.Some? then init + multiset(reply.value) else init
  }

  lemma {:induction false} OfPolicyCount(reports: seq<Report>, policy: string, x: Scraped)
    ensures multiset(OfPolicy(reports, policy))[x] == multiset(reports)[Report(policy, x)]
  {
    if reports != [] {
      var init, r := reports[..|reports| - 1], reports[|reports| - 1];
      OfPolicyCount(init, policy, x);
      assert reports == init + [r];
    }
  }

  /** A policy is told every event as often as the nodes report it for the policy, and nothing else. */
  lemma {:induction false} BatchCount(replies: seq<Option<seq<Report>>>, policy: string, x: Scraped)
    ensures multiset(BatchOf(replies, policy))[x] == Received(replies)[Report(policy, x)]
  {
    if replies != [] {
      BatchCount(replies[..|replies| - 1], policy, x);
      if replies[|replies| - 1].Some? {
        OfPolicyCount(replies[|replies| - 1].value, policy, x);
      }
    }
  }

  ghost predicate OldestFirst(log: seq<Report>) {
    forall i, j | 0 <= i < j < |log| :: log[i].event.at <= log[j].event.at
  }

  lemma DrainAt(log: seq<Report>, n: nat, i: nat)
    requires i < |Last(log, n)|
    ensures |Last(log, n)| <= |log| && Reversed(Last(log, n))[i] == log[|log| - 1 - i]
  {
  }

  /** A drain of a log that was recorded as time went on is newest first. */
  lemma DrainNewestFirst(log: seq<Report>, n: nat)
    requires OldestFirst(log)
    ensures NewestFirst(Reversed(Last(log, n)), TimeOf)
  {
    hide Last, Reversed;
    var r := Reversed(Last(log, n));
    forall i, j | 0 <= i < j < |r|
      ensures TimeOf(r[i]) >= TimeOf(r[j])
    {
      DrainAt(log, n, i);
      DrainAt(log, n, j);
    }
  }

  ghost predicate Mentions(reports: seq<Report>, key: RecordKey) {
    exists i :: 0 <= i < |reports| && reports[i].event.key == key
  }

  lemma {:induction false} OfPolicyHas(reports: seq<Report>, policy: string, x: Scraped)
    requires x in OfPolicy(reports, policy)
    ensures exists i :: 0 <= i < |reports| && reports[i].event == x
  {
    var init := reports[..|reports| - 1];
    if x in OfPolicy(init, policy) {
      OfPolicyHas(init, policy, x);
      var i :| 0 <= i < |init| && init[i].event == x;
      assert reports[i].event == x;
    } else {
      assert reports[|reports| - 1].event == x;
    }
  }

  lemma {:induction false} OfPolicyOrder(reports: seq<Report>, policy: string)
    requires NewestFirst(reports, TimeOf)
    ensures NewestFirst(OfPolicy(reports, policy), ReportedAt)
  {
    if reports != [] {
      var init, r := reports[..|reports| - 1], reports[|reports| - 1];
      OfPolicyOrder(init, policy);
      forall x | x in OfPolicy(init, policy)
        ensures ReportedAt(x) >= ReportedAt(r.event)
      {
        OfPolicyHas(init, policy, x);
        var i :| 0 <= i < |init| && init[i].event == x;
        assert TimeOf(reports[i]) >= TimeOf(reports[|reports| - 1]);
      }
    }
  }

  /** Each node's drain is newest first, and no two nodes report the key. */
  ghost predicate OneNode(replies: seq<Option<seq<Report>>>, key: RecordKey) {
    && (forall a | 0 <= a < |replies| && replies[a].Some? :: NewestFirst(replies[a].value, TimeOf))
    && forall a, b | 0 <= a < b < |replies| && replies[a].Some? && replies[b].Some? ::
         !(Mentions(replies[a].value, key) && Mentions(replies[b].value, key))
  }

  ghost predicate Without(s: seq<Scraped>, key: RecordKey) {
    forall x | x in s :: x.key != key
  }

  lemma OfPolicyWithout(reports: seq<Report>, policy: string, key: RecordKey)
    requires !Mentions(reports, key)
    ensures Without(OfPolicy(reports, policy), key)
  {
    forall x | x in OfPolicy(reports, policy)
      ensures x.key != key
    {
      OfPolicyHas(reports, policy, x);
    }
  }

  lemma {:induction false} BatchWithout(replies: seq<Option<seq<Report>>>, policy: string, key: RecordKey)
    requires forall a | 0 <= a < |replies| && replies[a].Some? :: !Mentions(replies[a].value, key)
    ensures Without(BatchOf(replies, policy), key)
  {
    if replies != [] {
      var reply := replies[|replies| - 1];
      BatchWithout(replies[..|replies| - 1], policy, key);
      if reply.Some? {
        OfPolicyWithout(reply.value, policy, key);
      }
    }
  }

  lemma AppendInOrder(s: seq<Scraped>, r: seq<Scraped>, key: RecordKey)
    requires KeyInOrder(s, key) && NewestFirst(r, ReportedAt) && (Without(s, key) || Without(r, key))
    ensures KeyInOrder(s + r, key)
  {
    var w := s + r;
    forall i, j | 0 <= i < j < |w| && w[i].key == key && w[j].key == key
      ensures w[i].at >= w[j].at
    {
      assert (i < |s| ==> w[i] in s) && (j >= |s| ==> w[j] in r);
      assert i >= |s| ==> ReportedAt(r[i - |s|]) >= ReportedAt(r[j - |s|]);
    }
  }

  /** The events of a key come newest first, however the nodes are ordered. */
  lemma {:induction false} BatchInOrder(replies: seq<Option<seq<Report>>>, policy: string, key: RecordKey)
    requires OneNode(replies, key)
    ensures KeyInOrder(BatchOf(replies, policy), key)
  {
    if replies != [] {
      var init, reply := replies[..|replies| - 1], replies[|replies| - 1];
      assert forall a | 0 <= a < |init| :: init[a] == replies[a];
      BatchInOrder(init, policy, key);
      if reply.Some? {
        OfPolicyOrder(reply.value, policy);
        if Mentions(reply.value, key) {
          BatchWithout(init, policy, key);
        } else {
          OfPolicyWithout(reply.value, policy, key);
        }
        AppendInOrder(BatchOf(init, policy), OfPolicy(reply.value, policy), key);
      }
    }
  }

  /**
   The record of a violation seen for the first time, reported by one node: its first-observed time
   is the earliest one exactly if all its events have the same time.
   */
  lemma FirstObserved(t: Tally, replies: seq<Option<seq<Report>>>, policy: string, i: nat)
    requires UniqueKeys(t.active) && |t.active| <= i < |Merge(t, BatchOf(replies, policy)).active|
    requires OneNode(replies, Merge(t, BatchOf(replies, policy)).active[i].key)
    ensures var batch := BatchOf(replies, policy);
            Earliest(batch, Merge(t, batch).active[i]) <==> SameTime(batch, Merge(t, batch).active[i].key)
  {
    hide BatchOf, Merge;
    BatchInOrder(replies, policy, Merge(t, BatchOf(replies, policy)).active[i].key);
    FirstObservedIff(t, BatchOf(replies, policy), i);
  }
}
