/** A policy proposal and what the learner does to it (api/v1alpha1/workloadpolicyproposal_types.go). */
module Proposals {
  import opened Bytes
  import opened ResolverState

  const MAX_EXECUTABLES: nat := 100

  type RulesByContainer = map<string, Rules>

  /** The sum of the allow-list lengths. */
  ghost function Total(rules: RulesByContainer): nat {
    if rules == map[] then 0 else
    var c :| c in rules;
    |rules[c].allowed| + Total(rules - {c})
  }

  lemma {:induction false} TotalWithout(rules: RulesByContainer, c: string)
    requires c in rules
    ensures Total(rules) == |rules[c].allowed| + Total(rules - {c})
    decreases |rules|
  {
    var d :| d in rules && Total(rules) == |rules[d].allowed| + Total(rules - {d});
    if d != c {
      TotalWithout(rules - {d}, c);
      TotalWithout(rules - {c}, d);
      assert rules - {d} - {c} == rules - {c} - {d};
    }
  }

  lemma TotalUpdated(rules: RulesByContainer, c: string, r: Rules)
    ensures Total(rules[c := r]) == |r.allowed| + Total(rules - {c})
  {
    TotalWithout(rules[c := r], c);
    assert rules[c := r] - {c} == rules - {c};
  }

  /** Every container's allow-list of `a` starts the one of `b`, and a flag once set stays set. */
  ghost predicate Extends(a: RulesByContainer, b: RulesByContainer) {
    forall c | c in a :: c in b && a[c].allowed <= b[c].allowed && (a[c].allowForeignRoot ==> b[c].allowForeignRoot)
  }

  ghost predicate NoDuplicates(s: seq<Str>) {
    forall i, j | 0 <= i < j < |s| :: s[i] != s[j]
  }

  ghost predicate NoneTwice(rules: RulesByContainer) {
    forall c | c in rules :: NoDuplicates(rules[c].allowed)
  }

  ghost predicate RulesOk(rules: RulesByContainer) {
    Total(rules) <= MAX_EXECUTABLES && NoneTwice(rules)
  }

  /** The rules allow what was learnt. */
  ghost predicate Learnt(rules: RulesByContainer, container: string, exe: Str, foreign: bool) {
    container in rules && if foreign then rules[container].allowForeignRoot else exe in rules[container].allowed
  }

  ghost function ListOf(rules: RulesByContainer, container: string): seq<Str> {
    if container in rules then rules[container].allowed else []
  }

  ghost predicate FlagOf(rules: RulesByContainer, container: string) {
    container in rules && rules[container].allowForeignRoot
  }

  /** The container is there, and all others are as they were. */
  ghost predicate OnlyAt(a: RulesByContainer, b: RulesByContainer, container: string) {
    b.Keys == a.Keys + {container} && forall c | c in a && c != container :: b[c] == a[c]
  }

  /** Exactly one executable of one container was learnt, at the end of its list. */
  ghost predicate PathLearnt(a: RulesByContainer, b: RulesByContainer, container: string, exe: Str) {
    && OnlyAt(a, b, container) && exe !in ListOf(a, container) && ListOf(b, container) == ListOf(a, container) + [exe]
    && FlagOf(b, container) == FlagOf(a, container)
  }

  /** Exactly the flag of one container was learnt. */
  ghost predicate FlagLearnt(a: RulesByContainer, b: RulesByContainer, container: string) {
    && OnlyAt(a, b, container) && ListOf(b, container) == ListOf(a, container)
    && !FlagOf(a, container) && FlagOf(b, container)
  }

  ghost predicate LearntAt(a: RulesByContainer, b: RulesByContainer, container: string) {
    FlagLearnt(a, b, container) || exists exe :: PathLearnt(a, b, container, exe)
  }

  /** One thing was learnt, of one container. */
  ghost predicate OneLearnt(a: RulesByContainer, b: RulesByContainer) {
    exists container :: LearntAt(a, b, container)
  }

  method IsFull(rules: RulesByContainer) returns (full: bool)
    ensures full <==> Total(rules) >= MAX_EXECUTABLES
  {
    var total := 0;
    var todo := rules;
    while todo != map[]
      invariant todo.Keys <= rules.Keys && forall c | c in todo :: todo[c] == rules[c]
      invariant total + Total(todo) == Total(rules)
      decreases |todo|
    {
      var c :| c in todo;
      TotalWithout(todo, c);
      total := total + |todo[c].allowed|;
      todo := todo - {c};
    }
    full := total >= MAX_EXECUTABLES;
  }

  /** The rules with one more executable of a container. */
  function Added(rules: RulesByContainer, container: string, exe: Str): RulesByContainer {
    if container !in rules then rules[container := Rules([exe], false)]
    else if exe in rules[container].allowed then rules
    else rules[container := rules[container].(allowed := rules[container].allowed + [exe])]
  }

  /** The rules with foreign-root execs allowed for a container. */
  function Opened(rules: RulesByContainer, container: string): RulesByContainer {
    rules[container := if container in rules then rules[container].(allowForeignRoot := true) else Rules([], true)]
  }

  method AddProcess(rules: RulesByContainer, container: string, exe: Str) returns (r: RulesByContainer)
    ensures container in r && exe in r[container].allowed && Extends(rules, r)
    ensures r == rules <==> container in rules && exe in rules[container].allowed
    ensures Total(r) <= Total(rules) + 1
    ensures NoneTwice(rules) ==> NoneTwice(r)
    ensures r == rules || PathLearnt(rules, r, container, exe)
    ensures r == Added(rules, container, exe)
  {
    AddedIs(rules, container, exe);
    AddedLearns(rules, container, exe);
    hide Extends, NoneTwice, PathLearnt;
    if container !in rules {
      return rules[container := Rules([exe], false)];
    }
    if exe in rules[container].allowed {
      return rules;
    }
    r := rules[container := rules[container].(allowed := rules[container].allowed + [exe])];
  }

  lemma AddedLearns(rules: RulesByContainer, container: string, exe: Str)
    ensures var r := Added(rules, container, exe);
            r == rules || (PathLearnt(rules, r, container, exe) && OneLearnt(rules, r))
  {
    var r := Added(rules, container, exe);
    if r != rules {
      assert ListOf(r, container) == ListOf(rules, container) + [exe];
      assert PathLearnt(rules, r, container, exe);
      assert LearntAt(rules, r, container);
    }
  }

  lemma AddedIs(rules: RulesByContainer, container: string, exe: Str)
    ensures var r := Added(rules, container, exe);
            && Learnt(r, container, exe, false) && Extends(rules, r) && Total(r) <= Total(rules) + 1
            && (r == rules <==> Learnt(rules, container, exe, false))
            && (NoneTwice(rules) ==> NoneTwice(r))
  {
    var r := Added(rules, container, exe);
    if container !in rules {
      TotalUpdated(rules, container, r[container]);
      assert rules - {container} == rules;
    } else if exe !in rules[container].allowed {
      assert r[container] != rules[container];
      TotalUpdated(rules, container, r[container]);
      TotalWithout(rules, container);
    }
  }

  method SetAllowForeignRootExec(rules: RulesByContainer, container: string) returns (r: RulesByContainer)
    ensures container in r && r[container].allowForeignRoot && Extends(rules, r)
    ensures r == rules <==> container in rules && rules[container].allowForeignRoot
    ensures Total(r) == Total(rules)
    ensures NoneTwice(rules) ==> NoneTwice(r)
    ensures r == rules || FlagLearnt(rules, r, container)
    ensures r == Opened(rules, container)
  {
    OpenedIs(rules, container);
    OpenedLearns(rules, container);
    hide Extends, NoneTwice, FlagLearnt;
    r := rules[container := if container in rules then rules[container].(allowForeignRoot := true)
    else Rules([], true)];
  }

  lemma OpenedLearns(rules: RulesByContainer, container: string)
    ensures var r := Opened(rules, container);
            r == rules || (FlagLearnt(rules, r, container) && OneLearnt(rules, r))
  {
    var r := Opened(rules, container);
    if container in rules && rules[container].allowForeignRoot {
      assert rules[container].(allowForeignRoot := true) == rules[container];
      assert r == rules;
    } else {
      assert LearntAt(rules, r, container);
    }
  }

  lemma OpenedIs(rules: RulesByContainer, container: string)
    ensures var r := Opened(rules, container);
            && Learnt(r, container, [], true) && Extends(rules, r) && Total(r) == Total(rules)
            && (r == rules <==> Learnt(rules, container, [], true))
            && (NoneTwice(rules) ==> NoneTwice(r))
  {
    var r := Opened(rules, container);
    TotalUpdated(rules, container, r[container]);
    if container in rules {
      assert rules[container].allowForeignRoot ==> r == rules;
      TotalWithout(rules, container);
    } else {
      assert rules - {container} == rules;
    }
  }

  lemma ExtendsTransitive(a: RulesByContainer, b: RulesByContainer, c: RulesByContainer)
    requires Extends(a, b) && Extends(b, c)
    ensures Extends(a, c)
  {
  }

  /** Rules that extend each other are the same. */
  lemma ExtendsBack(a: RulesByContainer, b: RulesByContainer)
    requires Extends(a, b) && Extends(b, a)
    ensures a == b
  {
    assert a.Keys == b.Keys;
    forall c | c in a
      ensures a[c] == b[c]
    {
      assert a[c].allowed <= b[c].allowed <= a[c].allowed;
    }
  }
}
