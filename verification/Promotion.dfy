/**
 Learning and promotion: agents that learn into proposals
 (internal/eventhandler/learning_controller.go), a user who labels and edits them
 (through internal/controller/workloadpolicyproposals_webhook.go), and the controller
 that turns a labelled proposal into a policy
 (internal/controller/workloadpolicyproposal_controller.go), all through an API
 server with optimistic concurrency and caches that lag behind.
 */
module Promotion {
  import opened Bytes
  import opened ExecHook
  import opened Proposals
  import opened ResolverState

  /** The promoted-from label must fit the name of the proposal. */
  const MAX_LABEL_VALUE: nat := 63

  /** A proposal; the incarnation it belongs to has a `uid` of its own. */
  datatype Proposal = Proposal(key: WpKey, uid: nat, rules: RulesByContainer, promote: Option<string>)

  datatype Policy = Policy(mode: Mode, rules: RulesByContainer, promotedFrom: Option<string>)

  /** An agent that learnt, a user who set or withdrew the label, or a user who wrote rules. */
  datatype Author = Learner | Labeller | Editor

  /** One version of a proposal: who wrote it, and the version it was made from, if it is not the first. */
  datatype Version = Version(p: Proposal, author: Author, base: Option<nat>)

  /** A policy the controller created, and the version of the proposal it had seen. */
  datatype Promotion = Promotion(version: nat, policy: Policy)

  /** All versions ever accepted, the index being the resource version, and the ones that are current. */
  datatype State = State(log: seq<Version>, current: map<WpKey, nat>, nextUid: nat,
                         policies: map<WpKey, Policy>, promotions: seq<Promotion>)

  const EMPTY: State := State([], map[], 0, map[], [])

  /** The mode a promotion label asks for; other values are no promotion. */
  function PromotionMode(promote: Option<string>): Option<Mode> {
    if promote == Some("monitor") then Some(Monitor)
    else if promote == Some("protect") then Some(Protect)
    else None
  }

  /** The labels that promote. */
  predicate Promotable(promote: Option<string>) {
    promote in {Some("monitor"), Some("protect")}
  }

  /** What the webhook admits: no label, or one that promotes. */
  predicate Admissible(promote: Option<string>) {
    promote in {None, Some("monitor"), Some("protect")}
  }

  /** The policy has the mode the label names, the rules of the proposal, and its name for a label. */
  ghost predicate PolicyOf(p: Proposal, policy: Policy) {
    && (policy.mode == Monitor <==> p.promote == Some("monitor"))
    && (policy.mode == Protect <==> p.promote == Some("protect"))
    && policy.rules == p.rules && policy.promotedFrom == Some(p.key.name)
  }

  /** The policy a labelled version of a proposal becomes. */
  function Promoted(p: Proposal): (policy: Policy)
    requires Promotable(p.promote)
    ensures PolicyOf(p, policy)
  {
    Policy(PromotionMode(p.promote).value, p.rules, Some(p.key.name))
  }

  /** A process the agent reports, with the policy label of its pod. */
  datatype Request = Request(key: WpKey, container: string, exe: Str, foreign: bool, policyName: string)

  /** Nothing more is learnt from the request: the proposal is being promoted, or it is full. */
  ghost predicate Closed(p: Proposal, req: Request) {
    Promotable(p.promote) || (!req.foreign && Total(p.rules) >= MAX_EXECUTABLES)
  }

  ghost function Mutation(p: Proposal, req: Request): Proposal {
    if Closed(p, req) then p
    else p.(rules := if req.foreign then Opened(p.rules, req.container) else Added(p.rules, req.container, req.exe))
  }

  /** Rules that grew by learning: nothing is lost, something is new, and the limits still hold. */
  ghost predicate Grown(a: RulesByContainer, b: RulesByContainer) {
    Extends(a, b) && b != a && OneLearnt(a, b) && (RulesOk(a) ==> RulesOk(b))
  }

  /** What was learnt is what the request asks for, and nothing else. */
  ghost predicate LearntFrom(a: RulesByContainer, b: RulesByContainer, req: Request) {
    if req.foreign then FlagLearnt(a, b, req.container) else PathLearnt(a, b, req.container, req.exe)
  }

  /** The mutation changes exactly what is still to be learnt, and then by learning it. */
  lemma MutationIs(p: Proposal, req: Request)
    ensures Mutation(p, req) == p <==> Learnt(p.rules, req.container, req.exe, req.foreign) || Closed(p, req)
    ensures Mutation(p, req) != p ==>
              && Grown(p.rules, Mutation(p, req).rules) && Mutation(p, req) == p.(rules := Mutation(p, req).rules)
              && Learnt(Mutation(p, req).rules, req.container, req.exe, req.foreign)
              && LearntFrom(p.rules, Mutation(p, req).rules, req)
  {
    OpenedIs(p.rules, req.container);
    OpenedLearns(p.rules, req.container);
    AddedIs(p.rules, req.container, req.exe);
    AddedLearns(p.rules, req.container, req.exe);
    hide Opened, Added, Extends, NoneTwice, OneLearnt, PathLearnt, FlagLearnt;
  }

  method Mutate(p: Proposal, req: Request) returns (p': Proposal)
    ensures p' == Mutation(p, req)
  {
    if PromotionMode(p.promote).Some? {
      return p;
    }
    if req.foreign {
      var rules := SetAllowForeignRootExec(p.rules, req.container);
      return p.(rules := rules);
    }
    var full := IsFull(p.rules);
    if full {
      return p;
    }
    var rules := AddProcess(p.rules, req.container, req.exe);
    p' := p.(rules := rules);
  }

  /** `i` is the version right before `k` in its incarnation. */
  ghost predicate Previous(log: seq<Version>, i: nat, k: nat)
    requires k < |log|
  {
    && i < k && log[i].p.uid == log[k].p.uid && log[i].p.key == log[k].p.key
    && forall j | i < j < k :: log[j].p.uid != log[k].p.uid
  }

  /** A version is what its author can make of the one before. */
  ghost predicate EntryOk(log: seq<Version>, k: nat)
    requires k < |log|
  {
    var v := log[k];
    && Admissible(v.p.promote)
    && match v.base
       case None =>
         (forall i | 0 <= i < k :: log[i].p.uid != v.p.uid) && !v.author.Labeller?
         && (v.author.Learner? ==> RulesOk(v.p.rules) && OneLearnt(map[], v.p.rules))
       case Some(i) =>
         && Previous(log, i, k)
         && (v.author.Learner? ==> log[i].p.promote.None? && v.p.promote.None? && Grown(log[i].p.rules, v.p.rules))
         && (v.author.Labeller? ==> v.p.rules == log[i].p.rules)
  }

  ghost predicate History(log: seq<Version>) {
    forall k | 0 <= k < |log| :: EntryOk(log, k)
  }

  ghost predicate UidsBelow(log: seq<Version>, n: nat) {
    forall k | 0 <= k < |log| :: log[k].p.uid < n
  }

  /** An incarnation has one key. */
  ghost predicate OneKey(log: seq<Version>) {
    forall i, j | 0 <= i < |log| && 0 <= j < |log| && log[i].p.uid == log[j].p.uid :: log[i].p.key == log[j].p.key
  }

  /** The current version of a key is the last one of its incarnation. */
  ghost predicate Latest(log: seq<Version>, k: WpKey, i: nat) {
    i < |log| && log[i].p.key == k && forall j | i < j < |log| :: log[j].p.uid != log[i].p.uid
  }

  ghost predicate AllLatest(log: seq<Version>, current: map<WpKey, nat>) {
    forall k | k in current :: Latest(log, k, current[k])
  }

  ghost predicate PromotionOk(log: seq<Version>, p: Promotion) {
    p.version < |log| && Promotable(log[p.version].p.promote) && PolicyOf(log[p.version].p, p.policy)
  }

  ghost predicate AllPromotionsOk(log: seq<Version>, ps: seq<Promotion>) {
    forall p | p in ps :: PromotionOk(log, p)
  }

  ghost predicate Inv(st: State) {
    && History(st.log) && UidsBelow(st.log, st.nextUid) && OneKey(st.log)
    && AllLatest(st.log, st.current) && AllPromotionsOk(st.log, st.promotions)
  }

  function Appended(st: State, v: Version): State {
    st.(log := st.log + [v], current := st.current[v.p.key := |st.log|])
  }

  lemma EntryKept(log: seq<Version>, v: Version, k: nat)
    requires k < |log| && EntryOk(log, k)
    ensures EntryOk(log + [v], k)
  {
    hide RulesOk, Grown, Admissible;
    assert forall i | 0 <= i < |log| :: (log + [v])[i] == log[i];
  }

  lemma HistoryNext(log: seq<Version>, v: Version)
    requires History(log) && EntryOk(log + [v], |log|)
    ensures History(log + [v])
  {
    forall k | 0 <= k < |log|
      ensures EntryOk(log + [v], k)
    {
      EntryKept(log, v, k);
    }
  }

  lemma PromotionsKept(log: seq<Version>, v: Version, ps: seq<Promotion>)
    requires AllPromotionsOk(log, ps)
    ensures AllPromotionsOk(log + [v], ps)
  {
    hide PolicyOf;
    forall p | p in ps
      ensures PromotionOk(log + [v], p)
    {
      assert PromotionOk(log, p) && (log + [v])[p.version] == log[p.version];
    }
  }

  /** One more version: the current one of its key, and of no other. */
  lemma LatestNext(log: seq<Version>, current: map<WpKey, nat>, v: Version)
    requires AllLatest(log, current) && OneKey(log + [v])
    ensures AllLatest(log + [v], current[v.p.key := |log|])
  {
    var log' := log + [v];
    assert forall i | 0 <= i < |log| :: log'[i] == log[i];
    forall k | k in current && k != v.p.key
      ensures Latest(log', k, current[k])
    {
      assert Latest(log, k, current[k]);
      assert log'[current[k]].p.key != log'[|log|].p.key;
    }
  }

  /** A new version of a live proposal. */
  lemma UpdateKeeps(st: State, v: Version)
    requires Inv(st) && v.p.key in st.current && v.base == Some(st.current[v.p.key])
    requires v.p.uid == st.log[st.current[v.p.key]].p.uid && EntryOk(st.log + [v], |st.log|)
    ensures Inv(Appended(st, v))
  {
    hide EntryOk, PromotionOk;
    HistoryNext(st.log, v);
    PromotionsKept(st.log, v, st.promotions);
    hide History, AllPromotionsOk;
    assert Latest(st.log, v.p.key, st.current[v.p.key]);
    LatestNext(st.log, st.current, v);
  }

  /** A new incarnation starts a history of its own. */
  lemma CreateKeeps(st: State, v: Version)
    requires Inv(st) && v.base.None? && v.p.uid == st.nextUid && EntryOk(st.log + [v], |st.log|)
    ensures Inv(Appended(st, v).(nextUid := st.nextUid + 1))
  {
    hide EntryOk, PromotionOk;
    HistoryNext(st.log, v);
    PromotionsKept(st.log, v, st.promotions);
    hide History, AllPromotionsOk;
    LatestNext(st.log, st.current, v);
  }

  datatype Outcome = Skipped | Unchanged | Accepted | Conflict | Refused

  /** An update carries the resource version it was made from; only the current one is accepted. */
  predicate UpdateAccepted(st: State, key: WpKey, promote: Option<string>, rv: nat) {
    key in st.current && st.current[key] == rv && Admissible(promote)
  }

  ghost function AfterUpdate(st: State, p: Proposal, author: Author, rv: nat): State {
    if UpdateAccepted(st, p.key, p.promote, rv) && rv < |st.log|
    then Appended(st, Version(p.(uid := st.log[rv].p.uid), author, Some(rv))) else st
  }

  /** A create must not carry a resource version, and the key must be free. */
  predicate CreateAccepted(st: State, p: Proposal, hasVersion: bool) {
    !hasVersion && p.key !in st.current && Admissible(p.promote)
  }

  function AfterCreate(st: State, p: Proposal, author: Author, hasVersion: bool): State {
    if CreateAccepted(st, p, hasVersion)
    then Appended(st, Version(p.(uid := st.nextUid), author, None)).(nextUid := st.nextUid + 1) else st
  }

  /** What a cache may hold for a key: any version it ever had, or nothing. */
  function Seen(st: State, key: WpKey, read: Option<nat>): (r: Option<nat>)
    ensures r.Some? ==> r.value < |st.log| && st.log[r.value].p.key == key
  {
    if read.Some? && read.value < |st.log| && st.log[read.value].p.key == key then read else None
  }

  /** Everything that happens; what a read returns is up to the caches. */
  datatype Event =
    | Learn(req: Request, first: Option<nat>, promoted: bool, second: Option<nat>)
    | SetLabel(key: WpKey, value: Option<string>)
    | Write(key: WpKey, rules: RulesByContainer, value: Option<string>)
    | Promote(key: WpKey, seen: Option<nat>, promoted: bool)
    | Delete(key: WpKey)
    | EditPolicy(key: WpKey, policy: Option<Policy>)

  /**
   One learning event on one agent. It is skipped for a pod with a policy, and where there is no proposal
   but a promoted policy; then the proposal is read again and updated, or created if it is gone.
   */
  ghost function AfterLearn(st: State, req: Request, first: Option<nat>, promoted: bool, second: Option<nat>): State {
    if req.policyName != "" || (first.None? && promoted) then st
    else if second.Some? then
      if second.value < |st.log| && Mutation(st.log[second.value].p, req) != st.log[second.value].p
      then AfterUpdate(st, Mutation(st.log[second.value].p, req), Learner, second.value) else st
    else if first.Some? then st
    else AfterCreate(st, Mutation(Proposal(req.key, 0, map[], None), req), Learner, false)
  }

  /** The user's write: rules and label of a live proposal, or a new one. */
  ghost function AfterWrite(st: State, key: WpKey, rules: RulesByContainer, value: Option<string>): State {
    if key in st.current && st.current[key] < |st.log| then
      var same := rules == st.log[st.current[key]].p.rules;
      AfterUpdate(st, Proposal(key, 0, rules, value), if same then Labeller else Editor, st.current[key])
    else AfterCreate(st, Proposal(key, 0, rules, value), Editor, false)
  }

  /** The controller promotes the version it sees, if that is labelled and there is no policy yet. */
  predicate Promotes(st: State, key: WpKey, seen: Option<nat>, promoted: bool) {
    && seen.Some? && seen.value < |st.log| && !promoted && Promotable(st.log[seen.value].p.promote)
    && |key.name| <= MAX_LABEL_VALUE && key !in st.policies
  }

  ghost function AfterPromote(st: State, key: WpKey, seen: Option<nat>, promoted: bool): State {
    if Promotes(st, key, seen, promoted) then
      var policy := Promoted(st.log[seen.value].p);
      st.(policies := st.policies[key := policy], promotions := st.promotions + [Promotion(seen.value, policy)])
    else st
  }

  ghost function After(st: State, e: Event): State {
    match e
    case Learn(req, first, promoted, second) =>
      AfterLearn(st, req, Seen(st, req.key, first), promoted, Seen(st, req.key, second))
    case SetLabel(key, value) =>
      if key in st.current && st.current[key] < |st.log|
      then AfterWrite(st, key, st.log[st.current[key]].p.rules, value) else st
    case Write(key, rules, value) => AfterWrite(st, key, rules, value)
    case Promote(key, seen, promoted) => AfterPromote(st, key, Seen(st, key, seen), promoted)
    case Delete(key) => st.(current := st.current - {key})
    case EditPolicy(key, policy) =>
      st.(policies := if policy.Some? then st.policies[key := policy.value] else st.policies - {key})
  }

  lemma NextOk(st: State, v: Version)
    requires Inv(st) && v.p.key in st.current && v.base == Some(st.current[v.p.key]) && Admissible(v.p.promote)
    requires var p := st.log[st.current[v.p.key]].p;
             && v.p.uid == p.uid && (v.author.Labeller? ==> v.p.rules == p.rules)
             && (v.author.Learner? ==> p.promote.None? && v.p.promote.None? && Grown(p.rules, v.p.rules))
    ensures EntryOk(st.log + [v], |st.log|)
  {
    hide Grown, Admissible, History, PromotionOk;
    assert Latest(st.log, v.p.key, st.current[v.p.key]);
    assert forall i | 0 <= i < |st.log| :: (st.log + [v])[i] == st.log[i];
  }

  lemma FirstOk(st: State, v: Version)
    requires Inv(st) && v.base.None? && v.p.uid == st.nextUid && Admissible(v.p.promote)
    requires !v.author.Labeller? && (v.author.Learner? ==> RulesOk(v.p.rules) && OneLearnt(map[], v.p.rules))
    ensures EntryOk(st.log + [v], |st.log|)
  {
    hide RulesOk, OneLearnt, Admissible, History, PromotionOk;
    assert forall i | 0 <= i < |st.log| :: (st.log + [v])[i] == st.log[i];
  }

  lemma LearnKeeps(st: State, req: Request, second: nat)
    requires Inv(st) && second < |st.log| && st.log[second].p.key == req.key
    requires Mutation(st.log[second].p, req) != st.log[second].p
    ensures Inv(AfterUpdate(st, Mutation(st.log[second].p, req), Learner, second))
  {
    hide Inv, Grown, Learnt;
    var p := st.log[second].p;
    MutationIs(p, req);
    if UpdateAccepted(st, req.key, p.promote, second) {
      var v := Version(Mutation(p, req), Learner, Some(second));
      assert p.promote.None?;
      hide Mutation;
      NextOk(st, v);
      UpdateKeeps(st, v);
    }
  }

  lemma FirstLearnt(st: State, req: Request)
    requires Inv(st)
    ensures Inv(AfterCreate(st, Mutation(Proposal(req.key, 0, map[], None), req), Learner, false))
  {
    hide Inv;
    var p := Mutation(Proposal(req.key, 0, map[], None), req);
    MutationIs(Proposal(req.key, 0, map[], None), req);
    assert RulesOk(map[]) && RulesOk(p.rules) && p.promote.None? && p.key == req.key;
    hide Mutation, RulesOk;
    var v := Version(p.(uid := st.nextUid), Learner, None);
    FirstOk(st, v);
    CreateKeeps(st, v);
  }

  lemma WriteKeeps(st: State, key: WpKey, rules: RulesByContainer, value: Option<string>)
    requires Inv(st)
    ensures Inv(AfterWrite(st, key, rules, value))
  {
    hide Inv;
    if Admissible(value) {
      if key in st.current {
        CurrentInLog(st, key);
        var p := st.log[st.current[key]].p;
        var v := Version(Proposal(key, p.uid, rules, value), if rules == p.rules then Labeller else Editor,
                         Some(st.current[key]));
        NextOk(st, v);
        UpdateKeeps(st, v);
      } else {
        var v := Version(Proposal(key, st.nextUid, rules, value), Editor, None);
        FirstOk(st, v);
        CreateKeeps(st, v);
      }
    }
  }

  lemma CurrentInLog(st: State, key: WpKey)
    requires Inv(st) && key in st.current
    ensures st.current[key] < |st.log| && st.log[st.current[key]].p.key == key
  {
    assert Latest(st.log, key, st.current[key]);
  }

  lemma StoredAdmissible(st: State, i: nat)
    requires Inv(st) && i < |st.log|
    ensures Admissible(st.log[i].p.promote)
  {
    assert EntryOk(st.log, i);
  }

  lemma PromoteKeeps(st: State, key: WpKey, seen: Option<nat>, promoted: bool)
    requires Inv(st)
    ensures Inv(AfterPromote(st, key, seen, promoted))
  {
    hide History, OneKey, AllLatest;
    if Promotes(st, key, seen, promoted) {
      assert PromotionOk(st.log, Promotion(seen.value, Promoted(st.log[seen.value].p)));
    }
  }

  lemma DeleteKeeps(st: State, key: WpKey)
    requires Inv(st)
    ensures Inv(st.(current := st.current - {key}))
  {
    hide History, OneKey, AllPromotionsOk, Latest;
  }

  /** Every event keeps the invariant. */
  lemma AfterKeeps(st: State, e: Event)
    requires Inv(st)
    ensures Inv(After(st, e))
  {
    hide Inv, AfterWrite, AfterPromote, AfterUpdate, AfterCreate, Mutation;
    match e {
      case Learn(req, first, promoted, second) =>
        var rv := Seen(st, req.key, second);
        FirstLearnt(st, req);
        if rv.Some? && Mutation(st.log[rv.value].p, req) != st.log[rv.value].p {
          LearnKeeps(st, req, rv.value);
        }
      case SetLabel(key, value) =>
        if key in st.current {
          CurrentInLog(st, key);
          WriteKeeps(st, key, st.log[st.current[key]].p.rules, value);
        }
      case Write(key, rules, value) =>
        WriteKeeps(st, key, rules, value);
      case Promote(key, seen, promoted) =>
        PromoteKeeps(st, key, Seen(st, key, seen), promoted);
      case Delete(key) =>
        DeleteKeeps(st, key);
      case EditPolicy(key, policy) =>
        PoliciesFree(st, After(st, e));
    }
  }

  lemma PoliciesFree(st: State, st': State)
    requires Inv(st) && st' == st.(policies := st'.policies)
    ensures Inv(st')
  {
  }

  lemma NothingYet()
    ensures Inv(EMPTY)
  {
  }

  /** The state after any run of agents, users and controller, with caches as stale as they like. */
  ghost function RunOf(events: seq<Event>): (st: State)
    ensures Inv(st)
  {
    if events == [] then
      NothingYet();
      EMPTY
    else
      AfterKeeps(RunOf(events[..|events| - 1]), events[|events| - 1]);
      After(RunOf(events[..|events| - 1]), events[|events| - 1])
  }

  /** The incarnation's versions after `i`, up to `j`, are not of this author. */
  ghost predicate NoneBy(log: seq<Version>, i: nat, j: nat, author: Author)
    requires i <= j < |log|
  {
    forall k | i < k <= j && log[k].p.uid == log[j].p.uid :: log[k].author != author
  }

  /** The incarnation's versions from `i` on, before `j`, all carry a promotion label. */
  ghost predicate Labelled(log: seq<Version>, i: nat, j: nat)
    requires i <= j < |log|
  {
    forall k | i <= k < j && log[k].p.uid == log[j].p.uid :: Promotable(log[k].p.promote)
  }

  lemma StepBack(log: seq<Version>, i: nat, j: nat) returns (b: nat)
    requires History(log) && i < j < |log| && log[i].p.uid == log[j].p.uid
    ensures log[j].base == Some(b) && i <= b < j && Previous(log, b, j)
  {
    hide Grown, RulesOk;
    assert EntryOk(log, j);
    b := log[j].base.value;
  }

  /** Unless a user writes rules, they only grow, and they stay the same where nothing is learnt. */
  lemma {:induction false} Growth(log: seq<Version>, i: nat, j: nat)
    requires History(log) && i <= j < |log| && log[i].p.uid == log[j].p.uid && NoneBy(log, i, j, Editor)
    ensures Extends(log[i].p.rules, log[j].p.rules)
    ensures NoneBy(log, i, j, Learner) ==> log[j].p.rules == log[i].p.rules
    decreases j
  {
    if i < j {
      var b := StepBack(log, i, j);
      assert EntryOk(log, j);
      hide History, RulesOk;
      assert NoneBy(log, i, b, Editor) && (NoneBy(log, i, j, Learner) ==> NoneBy(log, i, b, Learner));
      Growth(log, i, b);
      ExtendsTransitive(log[i].p.rules, log[b].p.rules, log[j].p.rules);
    }
  }

  lemma Sandwich(a: RulesByContainer, b: RulesByContainer, c: RulesByContainer)
    requires Extends(a, b) && Extends(b, c) && Extends(c, a)
    ensures b == c
  {
    hide Extends;
    ExtendsTransitive(c, a, b);
    ExtendsBack(b, c);
  }

  lemma LearntDiffers(log: seq<Version>, i: nat, k: nat, j: nat)
    requires History(log) && i < k <= j < |log| && log[i].p.uid == log[k].p.uid == log[j].p.uid
    requires NoneBy(log, i, j, Editor) && log[k].author.Learner?
    ensures log[j].p.rules != log[i].p.rules
  {
    var b := StepBack(log, i, k);
    assert EntryOk(log, k);
    hide History, RulesOk, Extends;
    Growth(log, i, b);
    Growth(log, k, j);
    if log[j].p.rules == log[i].p.rules {
      Sandwich(log[i].p.rules, log[b].p.rules, log[k].p.rules);
      assert false;
    }
  }

  /** Unless a user writes rules, two versions of an incarnation agree exactly if nothing was learnt in between. */
  lemma SameRulesIff(log: seq<Version>, i: nat, j: nat)
    requires History(log) && i <= j < |log| && log[i].p.uid == log[j].p.uid && NoneBy(log, i, j, Editor)
    ensures log[j].p.rules == log[i].p.rules <==> NoneBy(log, i, j, Learner)
  {
    hide History, Extends;
    Growth(log, i, j);
    if k :| i < k <= j && log[k].p.uid == log[j].p.uid && log[k].author == Learner {
      LearntDiffers(log, i, k, j);
    }
  }

  /** Nothing is learnt into a proposal while it carries the label. */
  lemma LabelFreezes(log: seq<Version>, i: nat, j: nat)
    requires History(log) && i <= j < |log| && log[i].p.uid == log[j].p.uid && Labelled(log, i, j)
    ensures NoneBy(log, i, j, Learner)
  {
    hide Grown, RulesOk;
    forall k | i < k <= j && log[k].p.uid == log[j].p.uid
      ensures log[k].author != Learner
    {
      var b := StepBack(log, i, k);
      assert EntryOk(log, k) && Promotable(log[b].p.promote);
    }
  }

  /** Unless a user writes rules, a proposal has at most 100 executables, and none twice. */
  lemma {:induction false} LimitsHold(log: seq<Version>, j: nat)
    requires History(log) && j < |log|
    requires forall k | 0 <= k <= j && log[k].p.uid == log[j].p.uid :: !log[k].author.Editor?
    ensures RulesOk(log[j].p.rules)
  {
    assert EntryOk(log, j);
    if log[j].base.Some? {
      LimitsHold(log, log[j].base.value);
    }
  }

  /** Every policy ever promoted has the mode its label named, and the rules of the version that was seen. */
  lemma PromotedMode(events: seq<Event>, p: Promotion)
    requires p in RunOf(events).promotions
    ensures var log := RunOf(events).log;
            && p.version < |log| && log[p.version].p.promote in {Some("monitor"), Some("protect")}
            && (p.policy.mode == Monitor <==> log[p.version].p.promote == Some("monitor"))
            && (p.policy.mode == Protect <==> log[p.version].p.promote == Some("protect"))
            && p.policy.rules == log[p.version].p.rules && p.policy.promotedFrom == Some(log[p.version].p.key.name)
  {
    var st := RunOf(events);
    hide RunOf;
    assert PromotionOk(st.log, p);
  }

  /** Every version that was learnt differs from the one before in one thing of one container. */
  lemma LearntOne(events: seq<Event>, k: nat)
    requires k < |RunOf(events).log| && RunOf(events).log[k].author == Learner
    ensures var log := RunOf(events).log;
            match log[k].base
            case Some(i) => i < k && OneLearnt(log[i].p.rules, log[k].p.rules)
            case None => OneLearnt(map[], log[k].p.rules)
  {
    var st := RunOf(events);
    hide RunOf, OneLearnt, RulesOk, Extends;
    assert EntryOk(st.log, k);
  }

  /**
   A promoted policy and the later versions of its proposal, however stale the version the controller saw:
   unless a user writes rules, they agree exactly if nothing was learnt since, and so as long as
   the label has not been withdrawn.
   */
  lemma PromotedIsFinal(events: seq<Event>, p: Promotion, j: nat)
    requires var st := RunOf(events);
             && p in st.promotions && p.version <= j < |st.log| && st.log[j].p.uid == st.log[p.version].p.uid
             && NoneBy(st.log, p.version, j, Editor)
    ensures var log := RunOf(events).log;
            && (log[j].p.rules == p.policy.rules <==> NoneBy(log, p.version, j, Learner))
            && (Labelled(log, p.version, j) ==> log[j].p.rules == p.policy.rules)
  {
    var st := RunOf(events);
    hide RunOf, History;
    assert PromotionOk(st.log, p);
    SameRulesIff(st.log, p.version, j);
    if Labelled(st.log, p.version, j) {
      LabelFreezes(st.log, p.version, j);
    }
  }

  class ApiServer {
    var log: seq<Version>
    var current: map<WpKey, nat>
    var nextUid: nat
    var policies: map<WpKey, Policy>
    ghost var promotions: seq<Promotion>

    ghost function Now(): State
      reads this
    {
      State(log, current, nextUid, policies, promotions)
    }

    ghost predicate Valid()
      reads this
    {
      Inv(Now())
    }

    constructor ()
      ensures Valid() && Now() == EMPTY
    {
      log, current, nextUid, policies, promotions := [], map[], 0, map[], [];
      NothingYet();
    }

    method Update(p: Proposal, author: Author, rv: nat) returns (r: Outcome)
      requires rv < |log|
      modifies this`log, this`current
      ensures r.Accepted? <==> p.key in old(current) && old(current)[p.key] == rv && Admissible(p.promote)
      ensures Now() == AfterUpdate(old(Now()), p, author, rv)
    {
      if p.key !in current || current[p.key] != rv {
        return Conflict;
      }
      if p.promote.Some? && PromotionMode(p.promote).None? {
        return Refused;
      }
      log, current := log + [Version(p.(uid := log[rv].p.uid), author, Some(rv))], current[p.key := |log|];
      return Accepted;
    }

    method Create(p: Proposal, author: Author, hasVersion: bool) returns (r: Outcome)
      modifies this`log, this`current, this`nextUid
      ensures r.Accepted? <==> !hasVersion && p.key !in old(current) && Admissible(p.promote)
      ensures Now() == AfterCreate(old(Now()), p, author, hasVersion)
    {
      if hasVersion || (p.promote.Some? && PromotionMode(p.promote).None?) {
        return Refused;
      }
      if p.key in current {
        return Conflict;
      }
      log, current, nextUid := log + [Version(p.(uid := nextUid), author, None)], current[p.key := |log|], nextUid + 1;
      return Accepted;
    }

    /** A delete goes by name: whatever incarnation is there goes. */
    method Delete(key: WpKey)
      requires Valid()
      modifies this`current
      ensures Valid() && Now() == After(old(Now()), Event.Delete(key)) && current == old(current) - {key}
    {
      AfterKeeps(Now(), Event.Delete(key));
      current := current - {key};
    }

    /**
     One learning event on one agent. Its two reads of the proposal and its list of
     policies come from a cache; what they return is up to the caller.
     */
    method Learn(req: Request, first: Option<nat>, promoted: bool, second: Option<nat>) returns (r: Outcome)
      requires Valid() && Seen(Now(), req.key, first) == first && Seen(Now(), req.key, second) == second
      modifies this`log, this`current, this`nextUid
      ensures Valid() && Now() == After(old(Now()), Event.Learn(req, first, promoted, second))
      ensures r.Accepted? <==>
              && req.policyName == "" && (first.Some? || !promoted)
              && match second
                 case Some(rv) =>
                   && req.key in old(current) && old(current)[req.key] == rv
                   && (if req.foreign then !FlagOf(old(log)[rv].p.rules, req.container)
                       else req.exe !in ListOf(old(log)[rv].p.rules, req.container))
                   && old(log)[rv].p.promote.None? && (req.foreign || Total(old(log)[rv].p.rules) < MAX_EXECUTABLES)
                 case None => first.None? && req.key !in old(current)
      ensures !r.Accepted? ==> Now() == old(Now())
      ensures r.Accepted? ==>
                && current == old(current)[req.key := |old(log)|] && |log| == |old(log)| + 1 && old(log) <= log
                && LearntFrom(if second.Some? then old(log)[second.value].p.rules else map[],
                              log[|old(log)|].p.rules, req)
                && log[|old(log)|].author == Learner && log[|old(log)|].base == second
    {
      hide Inv, RulesOk, Grown;
      AfterKeeps(Now(), Event.Learn(req, first, promoted, second));
      if req.policyName != "" || (first.None? && promoted) {
        return Skipped;
      }
      if second.Some? {
        var p := log[second.value].p;
        StoredAdmissible(Now(), second.value);
        MutationIs(p, req);
        var p' := Mutate(p, req);
        if p' == p {
          return Unchanged;
        }
        r := Update(p', Learner, second.value);
      } else {
        var p := if first.Some? then log[first.value].p else Proposal(req.key, 0, map[], None);
        MutationIs(p, req);
        var p' := Mutate(p, req);
        r := Create(p', Learner, first.Some?);
      }
    }

    /** The user sets, changes or withdraws the promotion label. */
    method SetPromotionLabel(key: WpKey, value: Option<string>) returns (r: Outcome)
      requires Valid()
      modifies this`log, this`current
      ensures Valid() && Now() == After(old(Now()), SetLabel(key, value))
      ensures r.Accepted? <==> key in old(current) && value in {None, Some("monitor"), Some("protect")}
      ensures !r.Accepted? ==> Now() == old(Now())
      ensures r.Accepted? ==>
                && current == old(current)[key := |old(log)|] && |log| == |old(log)| + 1 && old(log) <= log
                && log[|old(log)|].p == old(log)[old(current)[key]].p.(promote := value)
    {
      hide Inv;
      AfterKeeps(Now(), SetLabel(key, value));
      if key !in current {
        return Refused;
      }
      CurrentInLog(Now(), key);
      var p := log[current[key]].p;
      r := Update(p.(promote := value), Labeller, current[key]);
    }

    /** The user writes a proposal, rules and all. */
    method UserWrite(key: WpKey, rules: RulesByContainer, value: Option<string>) returns (r: Outcome)
      requires Valid()
      modifies this`log, this`current, this`nextUid
      ensures Valid() && Now() == After(old(Now()), Write(key, rules, value))
      ensures r.Accepted? <==> value in {None, Some("monitor"), Some("protect")}
      ensures r.Accepted? ==>
                var p := Proposal(key, if key in old(current) then old(log)[old(current)[key]].p.uid else old(nextUid),
                                  rules, value);
                current == old(current)[key := |old(log)|] && |log| == |old(log)| + 1 && old(log) <= log
                && log[|old(log)|].p == p
      ensures !r.Accepted? ==> Now() == old(Now())
    {
      hide Inv;
      AfterKeeps(Now(), Write(key, rules, value));
      var p := Proposal(key, 0, rules, value);
      if key in current {
        CurrentInLog(Now(), key);
        r := Update(p, if rules == log[current[key]].p.rules then Labeller else Editor, current[key]);
      } else {
        r := Create(p, Editor, false);
      }
    }

    /**
     The controller looks at a proposal, as its cache has it. A policy is created only
     where there is none. Deleting the proposal, by name, is a request of its own.
     */
    method Promote(key: WpKey, seen: Option<nat>, promoted: bool) returns (created: bool, delete: bool)
      requires Valid() && Seen(Now(), key, seen) == seen
      modifies this`policies, this`promotions
      ensures Valid() && Now() == After(old(Now()), Event.Promote(key, seen, promoted))
      ensures created <==>
              && seen.Some? && !promoted && log[seen.value].p.promote in {Some("monitor"), Some("protect")}
              && |key.name| <= MAX_LABEL_VALUE && key !in old(policies)
      ensures delete <==> created || (seen.Some? && promoted)
      ensures created ==>
                var p := log[seen.value].p;
                && key in policies && policies == old(policies)[key := policies[key]]
                && (policies[key].mode == Monitor <==> p.promote == Some("monitor"))
                && (policies[key].mode == Protect <==> p.promote == Some("protect"))
                && policies[key].rules == p.rules && policies[key].promotedFrom == Some(key.name)
      ensures !created ==> Now() == old(Now())
    {
      hide Inv;
      AfterKeeps(Now(), Event.Promote(key, seen, promoted));
      if seen.None? {
        return false, false;
      }
      var p := log[seen.value].p;
      if promoted {
        return false, true;
      }
      if PromotionMode(p.promote).None? || |key.name| > MAX_LABEL_VALUE || key in policies {
        return false, false;
      }
      policies := policies[key := Promoted(p)];
      promotions := promotions + [Promotion(seen.value, Promoted(p))];
      return true, true;
    }

    method EditPolicy(key: WpKey, policy: Option<Policy>)
      requires Valid()
      modifies this`policies
      ensures Valid() && Now() == After(old(Now()), Event.EditPolicy(key, policy))
      ensures policies == if policy.Some? then old(policies)[key := policy.value] else old(policies) - {key}
    {
      hide Inv;
      AfterKeeps(Now(), Event.EditPolicy(key, policy));
      policies := if policy.Some? then policies[key := policy.value] else policies - {key};
    }

    /** What a cache may return for a key. */
    method Read(key: WpKey, read: Option<nat>) returns (r: Option<nat>)
      ensures r == Seen(Now(), key, read) && Seen(Now(), key, r) == r
    {
      r := if read.Some? && read.value < |log| && log[read.value].p.key == key then read else None;
    }

    method Handle(e: Event)
      requires Valid()
      modifies this
      ensures Valid() && Now() == After(old(Now()), e)
    {
      hide Inv, AfterLearn, AfterWrite, AfterPromote;
      match e {
        case Learn(req, first, promoted, second) =>
          var f := Read(req.key, first);
          var g := Read(req.key, second);
          var _ := Learn(req, f, promoted, g);
        case SetLabel(key, value) =>
          var _ := SetPromotionLabel(key, value);
        case Write(key, rules, value) =>
          var _ := UserWrite(key, rules, value);
        case Promote(key, seen, promoted) =>
          var s := Read(key, seen);
          var _, _ := Promote(key, s, promoted);
        case Delete(key) =>
          Delete(key);
        case EditPolicy(key, policy) =>
          EditPolicy(key, policy);
      }
    }
  }

  /** Any run of agents, users and controller, event by event. */
  method Run(events: seq<Event>) returns (s: ApiServer)
    ensures fresh(s) && s.Valid() && s.Now() == RunOf(events)
  {
    hide Inv, After;
    s := new ApiServer();
    for k := 0 to |events|
      invariant fresh(s) && s.Valid() && s.Now() == RunOf(events[..k])
    {
      assert events[..k + 1][..k] == events[..k];
      s.Handle(events[k]);
    }
    assert events[..|events|] == events;
  }

  /** A proposal is learnt, labelled and, before the controller acts on its cache, unlabelled and learnt into. */
  function WithdrawnLabel(key: WpKey, container: string, a: Str, b: Str): seq<Event> {
    [Learn(Request(key, container, a, false, ""), None, false, None),
     SetLabel(key, Some("protect")),
     SetLabel(key, None),
     Learn(Request(key, container, b, false, ""), Some(2), false, Some(2)),
     Promote(key, Some(1), false)]
  }

  lemma RunNext(events: seq<Event>, e: Event)
    ensures RunOf(events + [e]) == After(RunOf(events), e)
  {
    assert (events + [e])[..|events|] == events;
  }

  lemma OneRule(container: string, a: Str)
    ensures Added(map[], container, a) == map[container := Rules([a], false)]
            && Total(map[container := Rules([a], false)]) == 1
    ensures Total(map[]) == 0
  {
    var none: RulesByContainer := map[];
    TotalUpdated(none, container, Rules([a], false));
    assert none - {container} == none;
  }

  /** A history of one proposal, and nothing promoted. */
  function Alone(key: WpKey, log: seq<Version>): State
    requires log != []
  {
    State(log, map[key := |log| - 1], 1, map[], [])
  }

  lemma AloneLearnt(key: WpKey, container: string, a: Str)
    ensures After(EMPTY, Learn(Request(key, container, a, false, ""), None, false, None)) ==
            Alone(key, [Version(Proposal(key, 0, map[container := Rules([a], false)], None), Learner, None)])
  {
    OneRule(container, a);
  }

  lemma AloneLabelled(key: WpKey, log: seq<Version>, value: Option<string>)
    requires log != [] && log[|log| - 1].p.key == key && Admissible(value)
    ensures After(Alone(key, log), SetLabel(key, value)) ==
            Alone(key, log + [Version(log[|log| - 1].p.(promote := value), Labeller, Some(|log| - 1))])
  {
  }

  lemma AloneLearntAgain(key: WpKey, log: seq<Version>, container: string, a: Str, b: Str)
    requires log != [] && log[|log| - 1].p == Proposal(key, 0, map[container := Rules([a], false)], None) && a != b
    ensures var rv := Some(|log| - 1);
            After(Alone(key, log), Learn(Request(key, container, b, false, ""), rv, false, rv)) ==
            Alone(key, log + [Version(log[|log| - 1].p.(rules := map[container := Rules([a, b], false)]), Learner, rv)])
  {
    OneRule(container, a);
    hide Total;
    var one := map[container := Rules([a], false)];
    assert one[container].allowed + [b] == [a, b];
    assert Added(one, container, b) == map[container := Rules([a, b], false)];
  }

  lemma RunFive(a: Event, b: Event, c: Event, d: Event, e: Event)
    ensures RunOf([a, b, c, d, e]) == After(After(After(After(After(EMPTY, a), b), c), d), e)
  {
    hide RunOf, After;
    RunStart();
    RunNext([], a);
    RunNext([a], b);
    RunNext([a, b], c);
    RunNext([a, b, c], d);
    RunNext([a, b, c, d], e);
    assert [] + [a] == [a] && [a] + [b] == [a, b] && [a, b] + [c] == [a, b, c];
    assert [a, b, c] + [d] == [a, b, c, d] && [a, b, c, d] + [e] == [a, b, c, d, e];
  }

  lemma AlonePromoted(key: WpKey, log: seq<Version>, i: nat)
    requires i < |log| && log[i].p.key == key && PromotionMode(log[i].p.promote).Some? && |key.name| <= MAX_LABEL_VALUE
    ensures After(Alone(key, log), Promote(key, Some(i), false)) ==
            Alone(key, log).(policies := map[key := Promoted(log[i].p)],
            promotions := [Promotion(i, Promoted(log[i].p))])
  {
  }

  /** A withdrawn label: the policy that is promoted lacks what its proposal has learnt by then. */
  lemma WithdrawnRun(key: WpKey, container: string, a: Str, b: Str)
    requires |key.name| <= MAX_LABEL_VALUE && a != b
    ensures var st := RunOf(WithdrawnLabel(key, container, a, b));
            && st.current == map[key := 3] && |st.log| == 4
            && st.policies == map[key := Policy(Protect, map[container := Rules([a], false)], Some(key.name))]
            && st.log[3].p.rules == map[container := Rules([a, b], false)]
  {
    hide RunOf, After;
    var es := WithdrawnLabel(key, container, a, b);
    RunFive(es[0], es[1], es[2], es[3], es[4]);
    var p := Proposal(key, 0, map[container := Rules([a], false)], None);
    var log1 := [Version(p, Learner, None)];
    var log2 := log1 + [Version(p.(promote := Some("protect")), Labeller, Some(0))];
    var log3 := log2 + [Version(p, Labeller, Some(1))];
    var log4 := log3 + [Version(p.(rules := map[container := Rules([a, b], false)]), Learner, Some(2))];
    AloneLearnt(key, container, a);
    AloneLabelled(key, log1, Some("protect"));
    AloneLabelled(key, log2, None);
    AloneLearntAgain(key, log3, container, a, b);
    AlonePromoted(key, log4, 1);
  }

  lemma RunStart()
    ensures RunOf([]) == EMPTY
  {
  }
}
