// Rule results kept on a cached model (service/keptresults.go), against running every rule afresh
// (core/check/check.go, core/check/scope.go, core/check/verdict.go).
module KeptResults {
  import opened Grouping
  import opened Paths
  import Sorting

  datatype Kind = Net | Component | Pin | Other(name: string)

  datatype Entity = Entity(kind: Kind, ref: string, pin: string, netID: string)

  datatype Outcome = Pass | Fail | Inconclusive | NotConsidered | NoLimit

  // A verdict's id spells its rule and its subjects' kinds and references, each escaped so that no two tuples spell the
  // same id; it is that tuple here.
  datatype VerdictID = VerdictID(rule: string, subjects: seq<(Kind, string)>)

  datatype Finding = Finding(rule: string, severity: string, subject: Entity, inconclusive: bool, ids: seq<VerdictID>,
                             message: string)

  datatype Verdict = Verdict(rule: string, subjects: seq<Entity>, outcome: Outcome, finding: Option<Finding>,
                             proof: string)

  datatype Rule = Rule(name: string, severity: string, designWide: bool, statesConsidered: bool,
                       readsConnectivity: bool)

  datatype RuleRun = RuleRun(findings: seq<Finding>, verdicts: seq<Verdict>)

  datatype Scope = Scope(nets: seq<Entity>, comps: set<string>, pins: set<string>)

  // A built model: what evaluating a rule on it answers under a work budget (zero for none) and a scope, and the
  // finding every rule that reads connectivity gets while a symbol is unresolved.
  datatype Model = Model(eval: (Rule, nat, Option<Scope>) -> seq<Verdict>, unresolved: Option<Finding>)

  /* ---- scopes ---- */

  function EntityRef(e: Entity): string {
    if e.kind == Pin && e.pin != "" then e.ref + "." + e.pin else e.ref
  }

  predicate Scopable(e: Entity) {
    !e.kind.Other?
  }

  predicate Covers(s: Scope, e: Entity) {
    match e.kind
    case Net => exists n :: n in s.nets && if n.netID != "" && e.netID != "" then n.netID == e.netID else n.ref == e.ref
    case Component => e.ref in s.comps
    case Pin => e.ref in s.comps || EntityRef(e) in s.pins
    case Other(_) => false
  }

  // A result belongs in a scoped answer when one of its subjects is covered, or when none of them could be.
  predicate CoversAny(s: Scope, es: seq<Entity>) {
    (exists e :: e in es && Scopable(e) && Covers(s, e)) || (forall e | e in es :: !Scopable(e))
  }

  function Covered(s: Scope): Verdict -> bool {
    (v: Verdict) => CoversAny(s, v.subjects)
  }

  function IDOf(v: Verdict): VerdictID {
    VerdictID(v.rule, seq(|v.subjects|, i requires 0 <= i < |v.subjects| => (v.subjects[i].kind, EntityRef(v.subjects[i]))))
  }

  // A finding kept by narrowing a whole run: its own subject is covered, or it came from a kept verdict.
  function KeptWith(s: Scope, ids: set<VerdictID>): Finding -> bool {
    (f: Finding) => CoversAny(s, [f.subject]) || exists id :: id in f.ids && id in ids
  }

  function IDs(vs: seq<Verdict>): set<VerdictID> {
    set v | v in vs :: IDOf(v)
  }

  function Narrowed(s: Scope, run: RuleRun): RuleRun {
    var vs := Where(Covered(s), run.verdicts);
    RuleRun(Where(KeptWith(s, IDs(vs)), run.findings), vs)
  }

  /* ---- running rules afresh ---- */

  function Gated(m: Model, r: Rule): bool {
    m.unresolved.Some? && r.readsConnectivity
  }

  predicate Failing(v: Verdict) {
    (v.outcome == Fail || v.outcome == Inconclusive) && v.finding.Some?
  }

  // The finding of a failing verdict: only a rule that states its considered set gets ids.
  function Projected(r: Rule, v: Verdict): Finding
    requires Failing(v)
  {
    var f := v.finding.value.(rule := r.name, severity := r.severity);
    if r.statesConsidered then f.(ids := [IDOf(v.(rule := r.name))]) else f
  }

  function FindingsOf(r: Rule, vs: seq<Verdict>): seq<Finding> {
    if vs == [] then []
    else if Failing(vs[0]) then [Projected(r, vs[0])] + FindingsOf(r, vs[1..])
    else FindingsOf(r, vs[1..])
  }

  function Stamped(r: Rule, vs: seq<Verdict>): seq<Verdict> {
    if vs == [] then [] else [vs[0].(rule := r.name)] + Stamped(r, vs[1..])
  }

  function Evaluated(m: Model, r: Rule, budget: nat, scope: Option<Scope>): seq<Verdict> {
    var vs := m.eval(r, budget, scope);
    if scope.Some? then Where(Covered(scope.value), vs) else vs
  }

  // What one rule adds to a run, before sorting.
  function OneRun(m: Model, r: Rule, budget: nat, scope: Option<Scope>): RuleRun {
    if scope.Some? && r.designWide then RuleRun([], [])
    else
      var vs := Evaluated(m, r, budget, scope);
      RuleRun(if Gated(m, r) then [m.unresolved.value.(rule := r.name, severity := r.severity)] else FindingsOf(r, vs),
              if r.statesConsidered then Stamped(r, vs) else [])
  }

  function FindingRule(f: Finding): string { f.rule }

  function FindingRef(f: Finding): string { EntityRef(f.subject) }

  function VerdictRule(v: Verdict): string { v.rule }

  function VerdictRefs(v: Verdict): string { RefsFrom(v.subjects) }

  function RefsFrom(es: seq<Entity>): string {
    if es == [] then "" else if |es| == 1 then EntityRef(es[0]) else EntityRef(es[0]) + "," + RefsFrom(es[1..])
  }

  function ByFinding(): (Finding, Finding) -> bool {
    ByName(FindingRule, FindingRef)
  }

  function ByVerdict(): (Verdict, Verdict) -> bool {
    ByName(VerdictRule, VerdictRefs)
  }

  function AllFindings(m: Model, rules: seq<Rule>, budget: nat, scope: Option<Scope>): seq<Finding> {
    if rules == [] then [] else OneRun(m, rules[0], budget, scope).findings + AllFindings(m, rules[1..], budget, scope)
  }

  function AllVerdicts(m: Model, rules: seq<Rule>, budget: nat, scope: Option<Scope>): seq<Verdict> {
    if rules == [] then [] else OneRun(m, rules[0], budget, scope).verdicts + AllVerdicts(m, rules[1..], budget, scope)
  }

  // A run that is not interrupted: every rule's results, sorted by rule and then by subject, stably.
  function RunAll(m: Model, rules: seq<Rule>, budget: nat, scope: Option<Scope>): RuleRun {
    RuleRun(Sorting.Sort(ByFinding(), AllFindings(m, rules, budget, scope)),
            Sorting.Sort(ByVerdict(), AllVerdicts(m, rules, budget, scope)))
  }

  function Alone(m: Model, r: Rule, budget: nat, scope: Option<Scope>): RuleRun {
    RunAll(m, [r], budget, scope)
  }

  /* ---- laying kept runs out ---- */

  function Joined(names: seq<string>, have: map<string, RuleRun>): RuleRun
    requires forall n | n in names :: n in have
  {
    if names == [] then RuleRun([], [])
    else
      var rest := Joined(names[1..], have);
      RuleRun(have[names[0]].findings + rest.findings, have[names[0]].verdicts + rest.verdicts)
  }

  function Part(n: string, run: RuleRun): RuleRun {
    RuleRun(Where(Named(FindingRule, n), run.findings), Where(Named(VerdictRule, n), run.verdicts))
  }

  ghost predicate DistinctNames(rules: seq<Rule>) {
    forall i, j | 0 <= i < j < |rules| :: rules[i].name != rules[j].name
  }

  lemma {:induction false} FindingsCarryTheRule(r: Rule, vs: seq<Verdict>)
    ensures forall f | f in FindingsOf(r, vs) :: f.rule == r.name
    ensures forall v | v in Stamped(r, vs) :: v.rule == r.name
  {
    if vs != [] {
      FindingsCarryTheRule(r, vs[1..]);
    }
  }

  lemma OneRunIsNamed(m: Model, r: Rule, budget: nat, scope: Option<Scope>)
    ensures forall f | f in OneRun(m, r, budget, scope).findings :: f.rule == r.name
    ensures forall v | v in OneRun(m, r, budget, scope).verdicts :: v.rule == r.name
  {
    FindingsCarryTheRule(r, Evaluated(m, r, budget, scope));
  }

  lemma OneRuleAddsItsOwn(m: Model, r: Rule, budget: nat, scope: Option<Scope>, n: string)
    ensures Part(n, OneRun(m, r, budget, scope)) == if r.name == n then OneRun(m, r, budget, scope) else RuleRun([], [])
  {
    var one := OneRun(m, r, budget, scope);
    OneRunIsNamed(m, r, budget, scope);
    assert forall f: Finding :: FindingRule(f) == f.rule;
    assert forall v: Verdict :: VerdictRule(v) == v.rule;
    if r.name == n {
      WhereAll(Named(FindingRule, n), one.findings);
      WhereAll(Named(VerdictRule, n), one.verdicts);
    } else {
      WhereNone(Named(FindingRule, n), one.findings);
      WhereNone(Named(VerdictRule, n), one.verdicts);
    }
  }

  // The results of rules, unsorted.
  function Loose(m: Model, rules: seq<Rule>, budget: nat, scope: Option<Scope>): RuleRun {
    RuleRun(AllFindings(m, rules, budget, scope), AllVerdicts(m, rules, budget, scope))
  }

  lemma FirstRuleAndRest(m: Model, rules: seq<Rule>, budget: nat, scope: Option<Scope>, n: string)
    requires rules != []
    ensures var a, b := Part(n, OneRun(m, rules[0], budget, scope)), Part(n, Loose(m, rules[1..], budget, scope));
            Part(n, Loose(m, rules, budget, scope)) == RuleRun(a.findings + b.findings, a.verdicts + b.verdicts)
  {
    var one := OneRun(m, rules[0], budget, scope);
    WhereAppends(Named(FindingRule, n), one.findings, AllFindings(m, rules[1..], budget, scope));
    WhereAppends(Named(VerdictRule, n), one.verdicts, AllVerdicts(m, rules[1..], budget, scope));
  }

  lemma {:induction false} OtherRulesAddNothing(m: Model, rules: seq<Rule>, budget: nat, scope: Option<Scope>, n: string)
    requires forall r | r in rules :: r.name != n
    ensures Part(n, Loose(m, rules, budget, scope)) == RuleRun([], [])
  {
    if rules != [] {
      assert rules[0] in rules;
      OneRuleAddsItsOwn(m, rules[0], budget, scope, n);
      OtherRulesAddNothing(m, rules[1..], budget, scope, n);
      FirstRuleAndRest(m, rules, budget, scope, n);
    }
  }

  lemma {:induction false} EachRuleAddsItsOwn(m: Model, rules: seq<Rule>, budget: nat, scope: Option<Scope>, i: nat)
    requires DistinctNames(rules) && i < |rules|
    ensures Part(rules[i].name, Loose(m, rules, budget, scope)) == OneRun(m, rules[i], budget, scope)
    decreases rules
  {
    var n := rules[i].name;
    OneRuleAddsItsOwn(m, rules[0], budget, scope, n);
    FirstRuleAndRest(m, rules, budget, scope, n);
    if i == 0 {
      OtherRulesAddNothing(m, rules[1..], budget, scope, n);
    } else {
      assert rules[0].name != n && rules[1..][i - 1] == rules[i];
      EachRuleAddsItsOwn(m, rules[1..], budget, scope, i - 1);
    }
  }

  lemma AloneIsOne(m: Model, r: Rule, budget: nat, scope: Option<Scope>)
    ensures Loose(m, [r], budget, scope) == OneRun(m, r, budget, scope)
  {
    assert [r][1..] == [];
    var one := OneRun(m, r, budget, scope);
    assert AllFindings(m, [], budget, scope) == [] && AllVerdicts(m, [], budget, scope) == [];
    assert one.findings + [] == one.findings && one.verdicts + [] == one.verdicts;
  }

  // A rule's share of a run over distinct rules is its run alone: nothing about it depends on which rules ran beside.
  lemma ShareIsRunAlone(m: Model, rules: seq<Rule>, budget: nat, scope: Option<Scope>, i: nat)
    requires DistinctNames(rules) && i < |rules|
    ensures Part(rules[i].name, RunAll(m, rules, budget, scope)) == Alone(m, rules[i], budget, scope)
  {
    var n := rules[i].name;
    ByNameIsWeak(FindingRule, FindingRef);
    ByNameIsWeak(VerdictRule, VerdictRefs);
    WhereSort(ByFinding(), Named(FindingRule, n), AllFindings(m, rules, budget, scope));
    WhereSort(ByVerdict(), Named(VerdictRule, n), AllVerdicts(m, rules, budget, scope));
    EachRuleAddsItsOwn(m, rules, budget, scope, i);
    AloneIsOne(m, rules[i], budget, scope);
  }

  lemma {:induction false} ResultsNameTheRules(m: Model, rules: seq<Rule>, budget: nat, scope: Option<Scope>)
    ensures forall f | f in AllFindings(m, rules, budget, scope) :: exists r :: r in rules && r.name == f.rule
    ensures forall v | v in AllVerdicts(m, rules, budget, scope) :: exists r :: r in rules && r.name == v.rule
  {
    if rules != [] {
      OneRunIsNamed(m, rules[0], budget, scope);
      ResultsNameTheRules(m, rules[1..], budget, scope);
    }
  }

  lemma JoinedOneMore(names: seq<string>, have: map<string, RuleRun>, i: nat, run: RuleRun)
    requires i < |names| && forall n | n in names :: n in have
    requires run.findings + Joined(names[i..], have).findings == Joined(names, have).findings
    requires run.verdicts + Joined(names[i..], have).verdicts == Joined(names, have).verdicts
    ensures names[i] in have
    ensures run.findings + have[names[i]].findings + Joined(names[i + 1..], have).findings == Joined(names, have).findings
    ensures run.verdicts + have[names[i]].verdicts + Joined(names[i + 1..], have).verdicts == Joined(names, have).verdicts
  {
    assert names[i] in names;
    assert names[i..][0] == names[i] && names[i..][1..] == names[i + 1..];
    var one, rest := have[names[i]], Joined(names[i + 1..], have);
    assert run.findings + one.findings + rest.findings == run.findings + (one.findings + rest.findings);
    assert run.verdicts + one.verdicts + rest.verdicts == run.verdicts + (one.verdicts + rest.verdicts);
  }

  lemma {:induction false} JoinedIsInTurn(names: seq<string>, have: map<string, RuleRun>, run: RuleRun)
    requires forall n | n in names :: n in have && have[n] == Part(n, run)
    ensures Joined(names, have) == RuleRun(InTurn(FindingRule, names, run.findings), InTurn(VerdictRule, names, run.verdicts))
  {
    if names != [] {
      JoinedIsInTurn(names[1..], have, run);
    }
  }

  // Laying each rule's run out by name is the run over all of them.
  lemma JoinedIsRunAll(m: Model, rules: seq<Rule>, budget: nat, scope: Option<Scope>, names: seq<string>,
                       have: map<string, RuleRun>)
    requires DistinctNames(rules) && Sorting.Ascending(names)
    requires forall n :: n in names <==> exists r :: r in rules && r.name == n
    requires forall n | n in names :: n in have
    requires forall r | r in rules :: r.name in have && have[r.name] == Alone(m, r, budget, scope)
    ensures Joined(names, have) == RunAll(m, rules, budget, scope)
  {
    var run := RunAll(m, rules, budget, scope);
    forall n | n in names ensures have[n] == Part(n, run) {
      var r :| r in rules && r.name == n;
      var i :| 0 <= i < |rules| && rules[i] == r;
      ShareIsRunAlone(m, rules, budget, scope, i);
    }
    JoinedIsInTurn(names, have, run);
    RunIsInTurn(m, rules, budget, scope, names);
  }

  lemma RunIsInTurn(m: Model, rules: seq<Rule>, budget: nat, scope: Option<Scope>, names: seq<string>)
    requires Sorting.Ascending(names) && forall r | r in rules :: r.name in names
    ensures var run := RunAll(m, rules, budget, scope);
            InTurn(FindingRule, names, run.findings) == run.findings && InTurn(VerdictRule, names, run.verdicts) == run.verdicts
  {
    var fs, vs := AllFindings(m, rules, budget, scope), AllVerdicts(m, rules, budget, scope);
    ByNameIsWeak(FindingRule, FindingRef);
    ByNameIsWeak(VerdictRule, VerdictRefs);
    ResultsNameTheRules(m, rules, budget, scope);
    Sorting.SortSorts(ByFinding(), fs);
    Sorting.SortSorts(ByVerdict(), vs);
    Sorting.SortPermutes(ByFinding(), fs);
    Sorting.SortPermutes(ByVerdict(), vs);
    Sorting.SameMembers(Sorting.Sort(ByFinding(), fs), fs);
    Sorting.SameMembers(Sorting.Sort(ByVerdict(), vs), vs);
    SortedIsInTurn(FindingRule, FindingRef, names, Sorting.Sort(ByFinding(), fs));
    SortedIsInTurn(VerdictRule, VerdictRefs, names, Sorting.Sort(ByVerdict(), vs));
  }

  /* ---- results kept from request to request ---- */

  // A rule within the catalog it was composed into, which is identified by a number.
  datatype RuleKey = RuleKey(base: nat, name: string)

  type Store = map<RuleKey, RuleRun>

  // A result that a work budget may have cut short.
  predicate Cut(run: RuleRun) {
    (exists f :: f in run.findings && f.inconclusive) || (exists v :: v in run.verdicts && v.outcome == Inconclusive)
  }

  // A rule a budget stops says so: a run under a budget that is nowhere inconclusive is the run without one.
  ghost predicate Honest(m: Model) {
    forall r, b :: !Cut(Alone(m, r, b, None)) ==> Alone(m, r, b, None) == Alone(m, r, 0, None)
  }

  // Everything kept is what running its rule afresh, whole and without a budget, answers.
  ghost predicate True(m: Model, catalog: (nat, string) -> Rule, store: Store) {
    forall k | k in store :: store[k] == Alone(m, catalog(k.base, k.name), 0, None)
  }

  ghost predicate FromCatalog(catalog: (nat, string) -> Rule, base: nat, rules: seq<Rule>) {
    forall r | r in rules :: catalog(base, r.name) == r
  }

  function Missing(store: Store, base: nat, rules: seq<Rule>): seq<Rule> {
    if rules == [] then []
    else
      var rest, r := Missing(store, base, rules[..|rules| - 1]), rules[|rules| - 1];
      if RuleKey(base, r.name) in store then rest else rest + [r]
  }

  function Fitted(scope: Option<Scope>, run: RuleRun): RuleRun {
    if scope.Some? then Narrowed(scope.value, run) else run
  }

  function Looked(store: Store, base: nat, rules: seq<Rule>, scope: Option<Scope>): map<string, RuleRun> {
    if rules == [] then map[]
    else
      var rest, r := Looked(store, base, rules[..|rules| - 1], scope), rules[|rules| - 1];
      if RuleKey(base, r.name) in store then rest[r.name := Fitted(scope, store[RuleKey(base, r.name)])] else rest
  }

  function RunOf(ran: map<string, RuleRun>, n: string): RuleRun {
    if n in ran then ran[n] else RuleRun([], [])
  }

  function Filled(have: map<string, RuleRun>, missing: seq<Rule>, ran: map<string, RuleRun>): map<string, RuleRun> {
    if missing == [] then have
    else
      var r := missing[|missing| - 1];
      Filled(have, missing[..|missing| - 1], ran)[r.name := RunOf(ran, r.name)]
  }

  function Stored(store: Store, base: nat, missing: seq<Rule>, ran: map<string, RuleRun>, budget: nat): Store {
    if missing == [] then store
    else
      var rest, r := Stored(store, base, missing[..|missing| - 1], ran, budget), missing[|missing| - 1];
      if budget > 0 && Cut(RunOf(ran, r.name)) then rest else rest[RuleKey(base, r.name) := RunOf(ran, r.name)]
  }

  // What have must hold to answer rules: what is kept for a rule, fitted to the scope, and otherwise its run alone.
  ghost predicate Answers(m: Model, store: Store, base: nat, rules: seq<Rule>, budget: nat, scope: Option<Scope>,
                          have: map<string, RuleRun>)
  {
    && have.Keys == (set r | r in rules :: r.name)
    && forall r | r in rules :: r.name in have && have[r.name] ==
         if RuleKey(base, r.name) in store then Fitted(scope, store[RuleKey(base, r.name)])
         else Alone(m, r, budget, scope)
  }

  lemma LastRule(rules: seq<Rule>)
    requires rules != []
    ensures rules == rules[..|rules| - 1] + [rules[|rules| - 1]]
    ensures forall r :: r in rules <==> r in rules[..|rules| - 1] || r == rules[|rules| - 1]
  {
    assert rules == rules[..|rules| - 1] + [rules[|rules| - 1]];
  }

  lemma {:induction false} MissingAreTheRest(store: Store, base: nat, rules: seq<Rule>)
    ensures forall r :: r in Missing(store, base, rules) <==> r in rules && RuleKey(base, r.name) !in store
  {
    if rules != [] {
      LastRule(rules);
      MissingAreTheRest(store, base, rules[..|rules| - 1]);
    }
  }

  lemma {:induction false} MissingStaysDistinct(store: Store, base: nat, rules: seq<Rule>)
    requires DistinctNames(rules)
    ensures DistinctNames(Missing(store, base, rules))
  {
    if rules != [] {
      var front, last := rules[..|rules| - 1], rules[|rules| - 1];
      MissingStaysDistinct(store, base, front);
      MissingAreTheRest(store, base, front);
      var rest := Missing(store, base, front);
      forall i | 0 <= i < |rest| ensures rest[i].name != last.name {
        assert rest[i] in front;
        var j :| 0 <= j < |front| && front[j] == rest[i];
        assert rules[j].name != last.name;
      }
    }
  }

  lemma {:induction false} LookedHolds(store: Store, base: nat, rules: seq<Rule>, scope: Option<Scope>, n: string)
    ensures n in Looked(store, base, rules, scope) <==> RuleKey(base, n) in store && exists r :: r in rules && r.name == n
    ensures n in Looked(store, base, rules, scope) ==>
              Looked(store, base, rules, scope)[n] == Fitted(scope, store[RuleKey(base, n)])
  {
    if rules != [] {
      LastRule(rules);
      LookedHolds(store, base, rules[..|rules| - 1], scope, n);
    }
  }

  lemma {:induction false} FilledHolds(have: map<string, RuleRun>, missing: seq<Rule>, ran: map<string, RuleRun>, n: string)
    ensures n in Filled(have, missing, ran) <==> n in have || exists r :: r in missing && r.name == n
    ensures n in Filled(have, missing, ran) ==>
              Filled(have, missing, ran)[n] == if exists r :: r in missing && r.name == n then RunOf(ran, n) else have[n]
  {
    if missing != [] {
      LastRule(missing);
      FilledHolds(have, missing[..|missing| - 1], ran, n);
    }
  }

  lemma MissingShare(m: Model, store: Store, base: nat, rules: seq<Rule>, budget: nat, scope: Option<Scope>,
                     ran: map<string, RuleRun>, r: Rule)
    requires DistinctNames(rules) && r in rules && RuleKey(base, r.name) !in store
    requires forall n :: RunOf(ran, n) == Part(n, RunAll(m, Missing(store, base, rules), budget, scope))
    ensures r in Missing(store, base, rules) && RunOf(ran, r.name) == Alone(m, r, budget, scope)
  {
    var missing := Missing(store, base, rules);
    MissingAreTheRest(store, base, rules);
    MissingStaysDistinct(store, base, rules);
    var i :| 0 <= i < |missing| && missing[i] == r;
    ShareIsRunAlone(m, missing, budget, scope, i);
  }

  // What the two passes leave for one rule.
  lemma FilledForOne(m: Model, store: Store, base: nat, rules: seq<Rule>, budget: nat, scope: Option<Scope>,
                     ran: map<string, RuleRun>, r: Rule)
    requires DistinctNames(rules) && r in rules
    requires forall n :: RunOf(ran, n) == Part(n, RunAll(m, Missing(store, base, rules), budget, scope))
    ensures var have := Filled(Looked(store, base, rules, scope), Missing(store, base, rules), ran);
            r.name in have && have[r.name] == if RuleKey(base, r.name) in store
                                              then Fitted(scope, store[RuleKey(base, r.name)])
                                              else Alone(m, r, budget, scope)
  {
    LookedHolds(store, base, rules, scope, r.name);
    FilledHolds(Looked(store, base, rules, scope), Missing(store, base, rules), ran, r.name);
    if RuleKey(base, r.name) in store {
      MissingAreTheRest(store, base, rules);
    } else {
      MissingShare(m, store, base, rules, budget, scope, ran, r);
    }
  }

  // Kept results and the runs of the rest answer the request.
  lemma FilledAnswers(m: Model, store: Store, base: nat, rules: seq<Rule>, budget: nat, scope: Option<Scope>,
                      ran: map<string, RuleRun>)
    requires DistinctNames(rules)
    requires forall n :: RunOf(ran, n) == Part(n, RunAll(m, Missing(store, base, rules), budget, scope))
    ensures Answers(m, store, base, rules, budget, scope,
                    Filled(Looked(store, base, rules, scope), Missing(store, base, rules), ran))
  {
    var missing := Missing(store, base, rules);
    var have := Filled(Looked(store, base, rules, scope), missing, ran);
    MissingAreTheRest(store, base, rules);
    forall n ensures n in have <==> exists r :: r in rules && r.name == n {
      LookedHolds(store, base, rules, scope, n);
      FilledHolds(Looked(store, base, rules, scope), missing, ran, n);
    }
    forall r | r in rules
      ensures r.name in have && have[r.name] == if RuleKey(base, r.name) in store
                                                then Fitted(scope, store[RuleKey(base, r.name)])
                                                else Alone(m, r, budget, scope)
    {
      FilledForOne(m, store, base, rules, budget, scope, ran, r);
    }
  }

  lemma HonestRun(m: Model, r: Rule, budget: nat)
    requires Honest(m) && (budget == 0 || !Cut(Alone(m, r, budget, None)))
    ensures Alone(m, r, budget, None) == Alone(m, r, 0, None)
  {
  }

  lemma StoringOneStaysTrue(m: Model, catalog: (nat, string) -> Rule, store: Store, base: nat, r: Rule, run: RuleRun)
    requires True(m, catalog, store) && catalog(base, r.name) == r && run == Alone(m, r, 0, None)
    ensures True(m, catalog, store[RuleKey(base, r.name) := run])
  {
  }

  // Whatever else was kept meanwhile, keeping a request's runs keeps the store true.
  lemma {:induction false} StoredStaysTrue(m: Model, catalog: (nat, string) -> Rule, store: Store, base: nat,
                                           missing: seq<Rule>, ran: map<string, RuleRun>, budget: nat)
    requires True(m, catalog, store) && Honest(m) && FromCatalog(catalog, base, missing)
    requires forall r | r in missing :: RunOf(ran, r.name) == Alone(m, r, budget, None)
    ensures True(m, catalog, Stored(store, base, missing, ran, budget))
  {
    if missing != [] {
      var front, r := missing[..|missing| - 1], missing[|missing| - 1];
      assert r in missing;
      StoredStaysTrue(m, catalog, store, base, front, ran, budget);
      if !(budget > 0 && Cut(RunOf(ran, r.name))) {
        HonestRun(m, r, budget);
        StoringOneStaysTrue(m, catalog, Stored(store, base, front, ran, budget), base, r, RunOf(ran, r.name));
      }
    }
  }

  // What a budget may have cut short is not kept, and nothing kept before is lost.
  lemma {:induction false} CutIsNotStored(store: Store, base: nat, missing: seq<Rule>, ran: map<string, RuleRun>,
                                          budget: nat)
    ensures forall k | k in Stored(store, base, missing, ran, budget) && k !in store ::
              budget == 0 || !Cut(Stored(store, base, missing, ran, budget)[k])
    ensures store.Keys <= Stored(store, base, missing, ran, budget).Keys
    ensures (forall r | r in missing :: RuleKey(base, r.name) !in store) ==>
              forall k | k in store :: Stored(store, base, missing, ran, budget)[k] == store[k]
  {
    if missing != [] {
      assert missing[|missing| - 1] in missing;
      CutIsNotStored(store, base, missing[..|missing| - 1], ran, budget);
    }
  }

  // An unbudgeted request over distinct rules is answered as if every rule ran afresh, whatever is kept.
  lemma KeptAnswerIsRunAll(m: Model, catalog: (nat, string) -> Rule, store: Store, base: nat, rules: seq<Rule>,
                           have: map<string, RuleRun>, names: seq<string>)
    requires True(m, catalog, store) && FromCatalog(catalog, base, rules) && DistinctNames(rules)
    requires Answers(m, store, base, rules, 0, None, have)
    requires Sorting.Ascending(names) && forall n :: n in names <==> n in have
    ensures Joined(names, have) == RunAll(m, rules, 0, None)
  {
    forall r | r in rules ensures r.name in have && have[r.name] == Alone(m, r, 0, None) {
      assert catalog(base, r.name) == r;
    }
    assert forall n :: n in have <==> n in (set r | r in rules :: r.name);
    JoinedIsRunAll(m, rules, 0, None, names, have);
  }

  /* ---- a request about some subjects only ---- */

  lemma SymbolIsEveryonesSubject(s: Scope, f: Finding, ids: set<VerdictID>)
    requires f.subject.kind.Other?
    ensures KeptWith(s, ids)(f)
  {
  }

  // Whether narrowing keeps a rule's findings with the verdicts they came from.
  ghost predicate TravelTogether(s: Scope, r: Rule, ids: set<VerdictID>, vs: seq<Verdict>) {
    forall v | v in vs && Failing(v) :: KeptWith(s, ids)(Projected(r, v)) <==> Covered(s)(v)
  }

  lemma {:induction false} NarrowedFindings(s: Scope, r: Rule, ids: set<VerdictID>, vs: seq<Verdict>)
    requires TravelTogether(s, r, ids, vs)
    ensures Where(KeptWith(s, ids), FindingsOf(r, vs)) == FindingsOf(r, Where(Covered(s), vs))
  {
    if vs != [] {
      NarrowedFindings(s, r, ids, vs[1..]);
      if Failing(vs[0]) {
        assert vs[0] in vs;
        assert ([Projected(r, vs[0])] + FindingsOf(r, vs[1..]))[1..] == FindingsOf(r, vs[1..]);
      }
      if Covered(s)(vs[0]) {
        assert ([vs[0]] + Where(Covered(s), vs[1..]))[1..] == Where(Covered(s), vs[1..]);
      }
    }
  }

  lemma {:induction false} NarrowedStamped(s: Scope, r: Rule, vs: seq<Verdict>)
    ensures Where(Covered(s), Stamped(r, vs)) == Stamped(r, Where(Covered(s), vs))
  {
    if vs != [] {
      NarrowedStamped(s, r, vs[1..]);
      assert ([vs[0].(rule := r.name)] + Stamped(r, vs[1..]))[1..] == Stamped(r, vs[1..]);
      assert Covered(s)(vs[0].(rule := r.name)) == Covered(s)(vs[0]);
    }
  }

  // What a scoped run promises of a rule: reading the scope or not, it answers for the covered subjects as the whole
  // run does.
  ghost predicate ScopesFaithfully(m: Model, r: Rule, s: Scope) {
    && Where(Covered(s), m.eval(r, 0, Some(s))) == Where(Covered(s), m.eval(r, 0, None))
    && (m.unresolved.Some? ==> m.unresolved.value.subject.kind.Other?)
  }

  ghost function KeptIDs(m: Model, r: Rule, s: Scope): set<VerdictID> {
    IDs(Where(Covered(s), Alone(m, r, 0, None).verdicts))
  }

  // A rule whose kept run, narrowed, is its run under the scope: it is not design-wide, and either the unresolved-symbol
  // gate answers for it or its findings go with their verdicts.
  ghost predicate Narrows(m: Model, r: Rule, s: Scope) {
    !r.designWide && (Gated(m, r) || TravelTogether(s, r, KeptIDs(m, r, s), m.eval(r, 0, None)))
  }

  lemma NarrowedOneRun(m: Model, r: Rule, s: Scope, ids: set<VerdictID>)
    requires ScopesFaithfully(m, r, s) && !r.designWide
    requires Gated(m, r) || TravelTogether(s, r, ids, m.eval(r, 0, None))
    ensures var whole, part := OneRun(m, r, 0, None), OneRun(m, r, 0, Some(s));
            && Where(Covered(s), whole.verdicts) == part.verdicts
            && Where(KeptWith(s, ids), whole.findings) == part.findings
  {
    var whole, part := OneRun(m, r, 0, None), OneRun(m, r, 0, Some(s));
    NarrowedStamped(s, r, m.eval(r, 0, None));
    if Gated(m, r) {
      SymbolIsEveryonesSubject(s, whole.findings[0], ids);
      WhereAll(KeptWith(s, ids), whole.findings);
    } else {
      NarrowedFindings(s, r, ids, m.eval(r, 0, None));
    }
  }

  lemma NarrowedIsScopedRun(m: Model, r: Rule, s: Scope)
    requires ScopesFaithfully(m, r, s) && Narrows(m, r, s)
    ensures Narrowed(s, Alone(m, r, 0, None)) == Alone(m, r, 0, Some(s))
  {
    var ids := KeptIDs(m, r, s);
    var whole, part := OneRun(m, r, 0, None), OneRun(m, r, 0, Some(s));
    AloneIsOne(m, r, 0, None);
    AloneIsOne(m, r, 0, Some(s));
    NarrowedOneRun(m, r, s, ids);
    ByNameIsWeak(FindingRule, FindingRef);
    ByNameIsWeak(VerdictRule, VerdictRefs);
    WhereSort(ByVerdict(), Covered(s), whole.verdicts);
    WhereSort(ByFinding(), KeptWith(s, ids), whole.findings);
  }

  // A scoped request answers as a scoped run of every rule does, whatever is kept.
  lemma ScopedAnswerIsScopedRun(m: Model, catalog: (nat, string) -> Rule, store: Store, base: nat, rules: seq<Rule>,
                                s: Scope, have: map<string, RuleRun>, names: seq<string>)
    requires True(m, catalog, store) && FromCatalog(catalog, base, rules) && DistinctNames(rules)
    requires forall r | r in rules :: ScopesFaithfully(m, r, s) && Narrows(m, r, s)
    requires Answers(m, store, base, rules, 0, Some(s), have)
    requires Sorting.Ascending(names) && forall n :: n in names <==> n in have
    ensures Joined(names, have) == RunAll(m, rules, 0, Some(s))
  {
    forall r | r in rules ensures r.name in have && have[r.name] == Alone(m, r, 0, Some(s)) {
      assert catalog(base, r.name) == r;
      NarrowedIsScopedRun(m, r, s);
    }
    assert forall n :: n in have <==> n in (set r | r in rules :: r.name);
    JoinedIsRunAll(m, rules, 0, Some(s), names, have);
  }

  // A rule that concludes about the design as a whole is not run under a scope, but a kept run of it is narrowed like
  // any other, and what names no net, part or pin survives narrowing. A caller sets such rules aside first.
  lemma KeptDesignWideRuleStillAnswers(m: Model, r: Rule, s: Scope, f: Finding)
    requires r.designWide && f in Alone(m, r, 0, None).findings && f.subject.kind.Other?
    ensures f in Narrowed(s, Alone(m, r, 0, None)).findings
    ensures Alone(m, r, 0, Some(s)) == RuleRun([], [])
  {
    SymbolIsEveryonesSubject(s, f, KeptIDs(m, r, s));
    WhereMembers(KeptWith(s, KeptIDs(m, r, s)), Alone(m, r, 0, None).findings);
    AloneIsOne(m, r, 0, Some(s));
  }

  lemma {:induction false} CountsTell(s: Scope, r: Rule, ids: set<VerdictID>, vs: seq<Verdict>)
    requires forall v | v in vs && Failing(v) && Covered(s)(v) :: KeptWith(s, ids)(Projected(r, v))
    ensures |FindingsOf(r, Where(Covered(s), vs))| <= |Where(KeptWith(s, ids), FindingsOf(r, vs))|
    ensures |FindingsOf(r, Where(Covered(s), vs))| == |Where(KeptWith(s, ids), FindingsOf(r, vs))| ==>
              TravelTogether(s, r, ids, vs)
  {
    if vs != [] {
      assert vs[0] in vs;
      CountsTell(s, r, ids, vs[1..]);
      if Failing(vs[0]) {
        assert ([Projected(r, vs[0])] + FindingsOf(r, vs[1..]))[1..] == FindingsOf(r, vs[1..]);
      }
      if Covered(s)(vs[0]) {
        assert ([vs[0]] + Where(Covered(s), vs[1..]))[1..] == Where(Covered(s), vs[1..]);
      }
    }
  }

  lemma {:induction false} StampedHas(r: Rule, vs: seq<Verdict>, v: Verdict)
    requires v in vs
    ensures v.(rule := r.name) in Stamped(r, vs)
  {
    if v != vs[0] {
      StampedHas(r, vs[1..], v);
    }
  }

  // A covered verdict's own id is always among the kept ids.
  lemma CoveredIsKept(m: Model, r: Rule, s: Scope, v: Verdict)
    requires r.statesConsidered && v in m.eval(r, 0, None) && Failing(v) && Covered(s)(v)
    ensures KeptWith(s, KeptIDs(m, r, s))(Projected(r, v))
  {
    var stamped, all := v.(rule := r.name), Stamped(r, m.eval(r, 0, None));
    StampedHas(r, m.eval(r, 0, None), v);
    AloneIsOne(m, r, 0, None);
    Sorting.SortPermutes(ByVerdict(), all);
    Sorting.SameMembers(Sorting.Sort(ByVerdict(), all), all);
    WhereMembers(Covered(s), Alone(m, r, 0, None).verdicts);
    assert Covered(s)(stamped);
    assert IDOf(stamped) in KeptIDs(m, r, s);
    assert IDOf(stamped) in Projected(r, v).ids;
  }

  // For a rule that states what it considered, the condition is exact: narrowing its kept run gives its scoped run if
  // and only if its findings go with their verdicts.
  lemma NarrowingIsExact(m: Model, r: Rule, s: Scope)
    requires ScopesFaithfully(m, r, s) && r.statesConsidered && !r.designWide && !Gated(m, r)
    ensures Narrowed(s, Alone(m, r, 0, None)) == Alone(m, r, 0, Some(s)) <==>
              TravelTogether(s, r, KeptIDs(m, r, s), m.eval(r, 0, None))
  {
    var ids, vs := KeptIDs(m, r, s), m.eval(r, 0, None);
    if TravelTogether(s, r, ids, vs) {
      NarrowedIsScopedRun(m, r, s);
    }
    if Narrowed(s, Alone(m, r, 0, None)) == Alone(m, r, 0, Some(s)) {
      forall v | v in vs && Failing(v) && Covered(s)(v) ensures KeptWith(s, ids)(Projected(r, v)) {
        CoveredIsKept(m, r, s, v);
      }
      NarrowedLengths(m, r, s);
      CountsTell(s, r, ids, vs);
    }
  }

  lemma NarrowedLengths(m: Model, r: Rule, s: Scope)
    requires ScopesFaithfully(m, r, s) && !r.designWide && !Gated(m, r)
    ensures |Alone(m, r, 0, Some(s)).findings| == |FindingsOf(r, Where(Covered(s), m.eval(r, 0, None)))|
    ensures |Narrowed(s, Alone(m, r, 0, None)).findings|
         == |Where(KeptWith(s, KeptIDs(m, r, s)), FindingsOf(r, m.eval(r, 0, None)))|
  {
    var keep, fs := KeptWith(s, KeptIDs(m, r, s)), FindingsOf(r, m.eval(r, 0, None));
    AloneIsOne(m, r, 0, None);
    AloneIsOne(m, r, 0, Some(s));
    ByNameIsWeak(FindingRule, FindingRef);
    WhereSort(ByFinding(), keep, fs);
    Sorting.SortPermutes(ByFinding(), Where(keep, fs));
    Sorting.SortPermutes(ByFinding(), OneRun(m, r, 0, Some(s)).findings);
  }

  // Distinct names are needed: a rule listed twice is kept with everything it says twice over.
  lemma RepeatedRuleIsKeptTwice(m: Model, r: Rule, budget: nat)
    ensures var kept, alone := Part(r.name, RunAll(m, [r, r], budget, None)), Alone(m, r, budget, None);
            |kept.findings| == 2 * |alone.findings| && |kept.verdicts| == 2 * |alone.verdicts|
  {
    var fs, vs := AllFindings(m, [r, r], budget, None), AllVerdicts(m, [r, r], budget, None);
    var one := OneRun(m, r, budget, None);
    assert [r, r][1..] == [r];
    AloneIsOne(m, r, budget, None);
    assert Loose(m, [r, r], budget, None) == RuleRun(one.findings + one.findings, one.verdicts + one.verdicts);
    ByNameIsWeak(FindingRule, FindingRef);
    ByNameIsWeak(VerdictRule, VerdictRefs);
    WhereSort(ByFinding(), Named(FindingRule, r.name), fs);
    WhereSort(ByVerdict(), Named(VerdictRule, r.name), vs);
    OneRuleAddsItsOwn(m, r, budget, None, r.name);
    WhereAppends(Named(FindingRule, r.name), one.findings, one.findings);
    WhereAppends(Named(VerdictRule, r.name), one.verdicts, one.verdicts);
    Sorting.SortPermutes(ByFinding(), fs);
    Sorting.SortPermutes(ByVerdict(), vs);
    Sorting.SortPermutes(ByFinding(), one.findings);
    Sorting.SortPermutes(ByVerdict(), one.verdicts);
  }

  lemma {:induction false} AllStored(store: Store, base: nat, missing: seq<Rule>, ran: map<string, RuleRun>)
    ensures forall r | r in missing ::
              RuleKey(base, r.name) in Stored(store, base, missing, ran, 0)
              && Stored(store, base, missing, ran, 0)[RuleKey(base, r.name)] == RunOf(ran, r.name)
  {
    if missing != [] {
      LastRule(missing);
      AllStored(store, base, missing[..|missing| - 1], ran);
    }
  }

  lemma KeptForOne(store: Store, base: nat, r: Rule)
    requires RuleKey(base, r.name) in store
    ensures Missing(store, base, [r]) == []
    ensures Looked(store, base, [r], None) == map[r.name := store[RuleKey(base, r.name)]]
    ensures Joined([r.name], Looked(store, base, [r], None)) == store[RuleKey(base, r.name)]
  {
    assert [r][..0] == [] && [r.name][1..] == [];
    var run := store[RuleKey(base, r.name)];
    assert Missing(store, base, []) == [] && Looked(store, base, [], None) == map[];
    assert Looked(store, base, [r], None) == map[r.name := run];
    assert Joined([], map[r.name := run]) == RuleRun([], []);
    assert run.findings + [] == run.findings && run.verdicts + [] == run.verdicts;
  }

  // What that does to the answers. A request names a rule twice where nothing is kept, and its results are kept. The next
  // request names the rule once, and is answered with what is kept; that is what running the rule answers exactly when
  // the rule says nothing.
  lemma RepeatedRuleAnswersTwice(m: Model, r: Rule, base: nat, ran: map<string, RuleRun>)
    requires forall n :: RunOf(ran, n) == Part(n, RunAll(m, Missing(map[], base, [r, r]), 0, None))
    ensures var store := Stored(map[], base, Missing(map[], base, [r, r]), ran, 0);
            && Missing(store, base, [r]) == [] && r.name in Looked(store, base, [r], None)
            && (Joined([r.name], Looked(store, base, [r], None)) == RunAll(m, [r], 0, None) <==>
                  RunAll(m, [r], 0, None) == RuleRun([], []))
  {
    NothingKept(base, [r, r], None);
    RepeatedRuleIsKeptTwice(m, r, 0);
    AllStored(map[], base, [r, r], ran);
    assert r in [r, r];
    KeptForOne(Stored(map[], base, [r, r], ran, 0), base, r);
  }

  /* ---- one model's kept results ---- */

  lemma FindingAdds(ran: map<string, RuleRun>, fs: seq<Finding>, i: nat)
    requires i < |fs| && forall n :: RunOf(ran, n) == Part(n, RuleRun(fs[..i], []))
    ensures var was := RunOf(ran, fs[i].rule);
            var now := ran[fs[i].rule := was.(findings := was.findings + [fs[i]])];
            forall n :: RunOf(now, n) == Part(n, RuleRun(fs[..i + 1], []))
  {
    var was := RunOf(ran, fs[i].rule);
    var now := ran[fs[i].rule := was.(findings := was.findings + [fs[i]])];
    assert fs[..i + 1] == fs[..i] + [fs[i]];
    forall n ensures RunOf(now, n) == Part(n, RuleRun(fs[..i + 1], [])) {
      assert RunOf(ran, n) == Part(n, RuleRun(fs[..i], []));
      assert FindingRule(fs[i]) == fs[i].rule && [fs[i]][1..] == [];
      WhereAppends(Named(FindingRule, n), fs[..i], [fs[i]]);
    }
  }

  lemma VerdictAdds(ran: map<string, RuleRun>, fs: seq<Finding>, vs: seq<Verdict>, i: nat)
    requires i < |vs| && forall n :: RunOf(ran, n) == Part(n, RuleRun(fs, vs[..i]))
    ensures var was := RunOf(ran, vs[i].rule);
            var now := ran[vs[i].rule := was.(verdicts := was.verdicts + [vs[i]])];
            forall n :: RunOf(now, n) == Part(n, RuleRun(fs, vs[..i + 1]))
  {
    var was := RunOf(ran, vs[i].rule);
    var now := ran[vs[i].rule := was.(verdicts := was.verdicts + [vs[i]])];
    assert vs[..i + 1] == vs[..i] + [vs[i]];
    forall n ensures RunOf(now, n) == Part(n, RuleRun(fs, vs[..i + 1])) {
      assert RunOf(ran, n) == Part(n, RuleRun(fs, vs[..i]));
      assert VerdictRule(vs[i]) == vs[i].rule && [vs[i]][1..] == [];
      WhereAppends(Named(VerdictRule, n), vs[..i], [vs[i]]);
    }
  }

  lemma {:induction false} NothingKept(base: nat, rules: seq<Rule>, scope: Option<Scope>)
    ensures Missing(map[], base, rules) == rules && Looked(map[], base, rules, scope) == map[]
  {
    if rules != [] {
      LastRule(rules);
      NothingKept(base, rules[..|rules| - 1], scope);
    }
  }

  lemma NothingMissingAnswers(m: Model, store: Store, base: nat, rules: seq<Rule>, budget: nat, scope: Option<Scope>)
    requires DistinctNames(rules) && Missing(store, base, rules) == []
    ensures Answers(m, store, base, rules, budget, scope, Looked(store, base, rules, scope))
  {
    assert forall n :: RunOf(map[], n) == Part(n, RunAll(m, [], budget, scope));
    FilledAnswers(m, store, base, rules, budget, scope, map[]);
    assert Filled(Looked(store, base, rules, scope), [], map[]) == Looked(store, base, rules, scope);
  }

  lemma SharesAreAlone(m: Model, store: Store, base: nat, rules: seq<Rule>, budget: nat, scope: Option<Scope>,
                       ran: map<string, RuleRun>)
    requires DistinctNames(rules)
    requires forall n :: RunOf(ran, n) == Part(n, RunAll(m, Missing(store, base, rules), budget, scope))
    ensures forall r | r in Missing(store, base, rules) :: RunOf(ran, r.name) == Alone(m, r, budget, scope)
  {
    MissingAreTheRest(store, base, rules);
    forall r | r in Missing(store, base, rules) ensures RunOf(ran, r.name) == Alone(m, r, budget, scope) {
      MissingShare(m, store, base, rules, budget, scope, ran, r);
    }
  }

  lemma UnkeptAnswerIsRunAll(m: Model, base: nat, rules: seq<Rule>, budget: nat, scope: Option<Scope>,
                             have: map<string, RuleRun>, names: seq<string>)
    requires DistinctNames(rules) && Answers(m, map[], base, rules, budget, scope, have)
    requires Sorting.Ascending(names) && forall n :: n in names <==> n in have
    ensures Joined(names, have) == RunAll(m, rules, budget, scope)
  {
    assert forall n :: n in have <==> n in (set r | r in rules :: r.name);
    JoinedIsRunAll(m, rules, budget, scope, names, have);
  }

  class ModelResults {
    var rules: Store
    const model: Model
    const kept: bool
    ghost const catalog: (nat, string) -> Rule

    ghost predicate Valid()
      reads this
    {
      True(model, catalog, rules) && Honest(model)
    }

    constructor (model: Model, kept: bool, ghost catalog: (nat, string) -> Rule)
      requires Honest(model)
      ensures Valid() && this.model == model && this.kept == kept && this.catalog == catalog && rules == map[]
    {
      this.model, this.kept, this.catalog := model, kept, catalog;
      rules := map[];
    }

    // The first pass under the lock: what is kept for the rules asked for, and which of them are not kept.
    method Look(base: nat, asked: seq<Rule>, scope: Option<Scope>)
      returns (have: map<string, RuleRun>, missing: seq<Rule>)
      ensures have == Looked(rules, base, asked, scope) && missing == Missing(rules, base, asked)
    {
      have, missing := map[], [];
      for i := 0 to |asked|
        invariant have == Looked(rules, base, asked[..i], scope) && missing == Missing(rules, base, asked[..i])
      {
        assert asked[..i + 1][..i] == asked[..i];
        var key := RuleKey(base, asked[i].name);
        if key in rules {
          have := have[asked[i].name := Fitted(scope, rules[key])];
        } else {
          missing := missing + [asked[i]];
        }
      }
      assert asked[..|asked|] == asked;
    }

    // A run's results, rule by rule.
    static method Share(run: RuleRun) returns (ran: map<string, RuleRun>)
      ensures forall n :: RunOf(ran, n) == Part(n, run)
    {
      ran := map[];
      for i := 0 to |run.findings|
        invariant forall n :: RunOf(ran, n) == Part(n, RuleRun(run.findings[..i], []))
      {
        var f := run.findings[i];
        var was := RunOf(ran, f.rule);
        FindingAdds(ran, run.findings, i);
        ran := ran[f.rule := was.(findings := was.findings + [f])];
      }
      assert run.findings[..|run.findings|] == run.findings;
      for i := 0 to |run.verdicts|
        invariant forall n :: RunOf(ran, n) == Part(n, RuleRun(run.findings, run.verdicts[..i]))
      {
        var v := run.verdicts[i];
        var was := RunOf(ran, v.rule);
        VerdictAdds(ran, run.findings, run.verdicts, i);
        ran := ran[v.rule := was.(verdicts := was.verdicts + [v])];
      }
      assert run.verdicts[..|run.verdicts|] == run.verdicts;
    }

    // The second pass under the lock: what ran is kept, unless a budget may have cut it short, and answers.
    method Keep(base: nat, missing: seq<Rule>, ran: map<string, RuleRun>, budget: nat, looked: map<string, RuleRun>)
      returns (have: map<string, RuleRun>)
      modifies this
      ensures rules == Stored(old(rules), base, missing, ran, budget)
      ensures have == Filled(looked, missing, ran)
    {
      have := looked;
      for i := 0 to |missing|
        invariant rules == Stored(old(rules), base, missing[..i], ran, budget)
        invariant have == Filled(looked, missing[..i], ran)
      {
        assert missing[..i + 1][..i] == missing[..i];
        var r := missing[i];
        var run := RunOf(ran, r.name);
        have := have[r.name := run];
        if budget > 0 && Cut(run) {
          continue;
        }
        rules := rules[RuleKey(base, r.name) := run];
      }
      assert missing[..|missing|] == missing;
    }

    // A scoped run's own share: it answers and is not kept.
    static method Fill(missing: seq<Rule>, ran: map<string, RuleRun>, looked: map<string, RuleRun>)
      returns (have: map<string, RuleRun>)
      ensures have == Filled(looked, missing, ran)
    {
      have := looked;
      for i := 0 to |missing|
        invariant have == Filled(looked, missing[..i], ran)
      {
        assert missing[..i + 1][..i] == missing[..i];
        have := have[missing[i].name := RunOf(ran, missing[i].name)];
      }
      assert missing[..|missing|] == missing;
    }

    static method Join(have: map<string, RuleRun>) returns (run: RuleRun, ghost names: seq<string>)
      ensures Sorting.Ascending(names) && forall n :: n in names <==> n in have
      ensures run == Joined(names, have)
    {
      var sorted := SortedNames(have.Keys);
      names := sorted;
      run := RuleRun([], []);
      for i := 0 to |sorted|
        invariant run.findings + Joined(sorted[i..], have).findings == Joined(sorted, have).findings
        invariant run.verdicts + Joined(sorted[i..], have).verdicts == Joined(sorted, have).verdicts
      {
        JoinedOneMore(sorted, have, i, run);
        var one := have[sorted[i]];
        run := RuleRun(run.findings + one.findings, run.verdicts + one.verdicts);
      }
      assert sorted[|sorted|..] == [];
    }

    static method SortedNames(keys: set<string>) returns (names: seq<string>)
      ensures Sorting.Ascending(names) && forall n :: n in names <==> n in keys
    {
      var left, found := keys, [];
      while left != {}
        invariant left <= keys && Sorting.NoRepeats(found)
        invariant forall n :: n in found <==> n in keys && n !in left
        decreases left
      {
        var n :| n in left;
        found := found + [n];
        left := left - {n};
      }
      names := Sorting.Sort(Sorting.Before, found);
      Sorting.SortedDistinctAscends(found);
    }

    // Answers a request for rules on this model. It is interrupted when its context is done by the time rules would be
    // run; then there is no answer and nothing is kept. meanwhile is what other requests keep while its rules run.
    method RunKept(base: nat, asked: seq<Rule>, budget: nat, scope: Option<Scope>, interrupted: bool, meanwhile: Store)
      returns (r: Option<RuleRun>)
      requires Valid() && DistinctNames(asked) && FromCatalog(catalog, base, asked) && True(model, catalog, meanwhile)
      modifies this
      ensures Valid()
      ensures scope.Some? || !kept || interrupted ==> rules == old(rules)
      ensures forall k | k in rules && k !in old(rules) && k !in meanwhile :: budget == 0 || !Cut(rules[k])
      ensures forall k | k in old(rules) :: k in rules && rules[k] == old(rules)[k]
      ensures !interrupted ==> r.Some?
      ensures r.Some? && (!kept || (budget == 0 && scope == None)) ==> r.value == RunAll(model, asked, budget, scope)
      ensures r.Some? && budget == 0 && scope.Some?
              && (forall q | q in asked :: ScopesFaithfully(model, q, scope.value) && Narrows(model, q, scope.value)) ==>
                r.value == RunAll(model, asked, 0, scope)
    {
      if scope.Some? {
        r := RunScoped(base, asked, budget, scope.value, interrupted);
      } else if !kept {
        r := if interrupted then None else Some(RunAll(model, asked, budget, scope));
      } else {
        r := RunWhole(base, asked, budget, interrupted, meanwhile);
      }
    }

    method RunWhole(base: nat, asked: seq<Rule>, budget: nat, interrupted: bool, meanwhile: Store)
      returns (r: Option<RuleRun>)
      requires Valid() && DistinctNames(asked) && FromCatalog(catalog, base, asked) && True(model, catalog, meanwhile)
      modifies this
      ensures Valid()
      ensures interrupted ==> rules == old(rules)
      ensures r == None <==> interrupted && Missing(old(rules), base, asked) != []
      ensures forall k | k in rules && k !in old(rules) && k !in meanwhile :: budget == 0 || !Cut(rules[k])
      ensures forall k | k in old(rules) :: k in rules && rules[k] == old(rules)[k]
      ensures r.Some? && budget == 0 ==> r.value == RunAll(model, asked, 0, None)
    {
      var have, missing := Look(base, asked, None);
      ghost var looked := have;
      MissingAreTheRest(rules, base, asked);
      if missing != [] {
        if interrupted {
          return None;
        }
        var ran := Share(RunAll(model, missing, budget, None));
        SharesAreAlone(model, rules, base, asked, budget, None, ran);
        FilledAnswers(model, rules, base, asked, budget, None, ran);
        rules := rules + meanwhile;
        StoredStaysTrue(model, catalog, rules, base, missing, ran, budget);
        CutIsNotStored(rules, base, missing, ran, budget);
        have := Keep(base, missing, ran, budget, have);
      } else {
        NothingMissingAnswers(model, rules, base, asked, budget, None);
      }
      var run, names := Join(have);
      if budget == 0 {
        KeptAnswerIsRunAll(model, catalog, old(rules), base, asked, have, names);
      }
      r := Some(run);
    }

    method RunScoped(base: nat, asked: seq<Rule>, budget: nat, scope: Scope, interrupted: bool)
      returns (r: Option<RuleRun>)
      requires Valid() && DistinctNames(asked) && FromCatalog(catalog, base, asked)
      ensures r == None <==> interrupted && Missing(if kept then rules else map[], base, asked) != []
      ensures r.Some? && !kept ==> r.value == RunAll(model, asked, budget, Some(scope))
      ensures r.Some? && budget == 0
              && (forall q | q in asked :: ScopesFaithfully(model, q, scope) && Narrows(model, q, scope)) ==>
                r.value == RunAll(model, asked, 0, Some(scope))
    {
      var have, missing := map[], asked;
      ghost var store: Store := if kept then rules else map[];
      if kept {
        have, missing := Look(base, asked, Some(scope));
      } else {
        NothingKept(base, asked, Some(scope));
      }
      if missing != [] {
        if interrupted {
          return None;
        }
        var ran := Share(RunAll(model, missing, budget, Some(scope)));
        FilledAnswers(model, store, base, asked, budget, Some(scope), ran);
        have := Fill(missing, ran, have);
      } else {
        NothingMissingAnswers(model, store, base, asked, budget, Some(scope));
      }
      var run, names := Join(have);
      if !kept {
        UnkeptAnswerIsRunAll(model, base, asked, budget, Some(scope), have, names);
      }
      if budget == 0 && forall q | q in asked :: ScopesFaithfully(model, q, scope) && Narrows(model, q, scope) {
        ScopedAnswerIsScopedRun(model, catalog, store, base, asked, scope, have, names);
      }
      r := Some(run);
    }
  }
}
