/** The priority-based first-match rule engine: its loops, and what they compute. */
module RuleEngine {
  import opened Prelude
  import opened Messages
  import opened Conditions

  datatype Rule = Rule(id: string, name: string, priority: int, isActive: bool, isDefault: bool, target: string,
                       conditions: seq<Condition>)

  datatype TraceEntry =
    | Matched(rule: string, priority: int)
    | Missed(rule: string, priority: int, kind: string, field: string, operator: string)

  datatype RuleMatch = RuleMatch(rule: Rule, target: string, trace: seq<TraceEntry>)

  // ---------------------------------------------------------------------------
  // Priority order
  // ---------------------------------------------------------------------------

  /** Puts a rule behind every rule of no greater priority. */
  function Insert(rule: Rule, sorted: seq<Rule>): seq<Rule> {
    if sorted == [] then [rule]
    else if sorted[|sorted| - 1].priority <= rule.priority then sorted + [rule]
    else Insert(rule, sorted[..|sorted| - 1]) + [sorted[|sorted| - 1]]
  }

  /** `sorted(rules, key=priority)`: equal priorities keep their order. */
  function ByPriority(rules: seq<Rule>): seq<Rule> {
    if rules == [] then [] else Insert(rules[|rules| - 1], ByPriority(rules[..|rules| - 1]))
  }

  ghost predicate Ascending(rules: seq<Rule>) {
    forall i, j :: 0 <= i < j < |rules| ==> rules[i].priority <= rules[j].priority
  }

  ghost predicate DistinctPriorities(rules: seq<Rule>) {
    forall i, j :: 0 <= i < j < |rules| ==> rules[i].priority != rules[j].priority
  }

  lemma {:induction false} InsertPermutes(rule: Rule, sorted: seq<Rule>)
    ensures multiset(Insert(rule, sorted)) == multiset(sorted) + multiset{rule}
  {
    if sorted != [] && sorted[|sorted| - 1].priority > rule.priority {
      InsertPermutes(rule, sorted[..|sorted| - 1]);
      assert sorted == sorted[..|sorted| - 1] + [sorted[|sorted| - 1]];
    }
  }

  lemma InsertMembers(rule: Rule, sorted: seq<Rule>, r: Rule)
    ensures r in Insert(rule, sorted) <==> r == rule || r in sorted
  {
    InsertPermutes(rule, sorted);
    assert r in Insert(rule, sorted) <==> r in multiset(Insert(rule, sorted));
  }

  lemma {:induction false} InsertAscends(rule: Rule, sorted: seq<Rule>)
    requires Ascending(sorted)
    ensures Ascending(Insert(rule, sorted))
  {
    if sorted != [] && sorted[|sorted| - 1].priority > rule.priority {
      var before, last := sorted[..|sorted| - 1], sorted[|sorted| - 1];
      InsertAscends(rule, before);
      forall i | 0 <= i < |Insert(rule, before)| ensures Insert(rule, before)[i].priority <= last.priority {
        InsertMembers(rule, before, Insert(rule, before)[i]);
      }
    }
  }

  lemma {:induction false} SortPermutes(rules: seq<Rule>)
    ensures multiset(ByPriority(rules)) == multiset(rules)
  {
    if rules != [] {
      var before, last := rules[..|rules| - 1], rules[|rules| - 1];
      SortPermutes(before);
      InsertPermutes(last, ByPriority(before));
      MultisetSnoc(rules);
    }
  }

  lemma MultisetSnoc(rules: seq<Rule>)
    requires rules != []
    ensures multiset(rules) == multiset(rules[..|rules| - 1]) + multiset{rules[|rules| - 1]}
  {
    assert rules == rules[..|rules| - 1] + [rules[|rules| - 1]];
  }

  lemma {:induction false} SortAscends(rules: seq<Rule>)
    ensures Ascending(ByPriority(rules))
  {
    if rules != [] {
      SortAscends(rules[..|rules| - 1]);
      InsertAscends(rules[|rules| - 1], ByPriority(rules[..|rules| - 1]));
    }
  }

  /** Rules of equal priority keep the order they had. */
  lemma {:induction false} SortIsStable(rules: seq<Rule>, priority: int)
    ensures WithPriority(ByPriority(rules), priority) == WithPriority(rules, priority)
  {
    if rules != [] {
      var before, last := rules[..|rules| - 1], rules[|rules| - 1];
      SortIsStable(before, priority);
      SortAscends(before);
      InsertIsStable(last, ByPriority(before), priority);
    }
  }

  function WithPriority(rules: seq<Rule>, priority: int): seq<Rule> {
    if rules == [] then []
    else if rules[|rules| - 1].priority == priority then
        WithPriority(rules[..|rules| - 1], priority) + [rules[|rules| - 1]]
    else WithPriority(rules[..|rules| - 1], priority)
  }

  lemma {:induction false} InsertIsStable(rule: Rule, sorted: seq<Rule>, priority: int)
    requires Ascending(sorted)
    ensures WithPriority(Insert(rule, sorted), priority) ==
            WithPriority(sorted, priority) + if rule.priority == priority then [rule] else []
  {
    if sorted == [] {
      assert [rule][..0] == [];
    } else {
      var before, last := sorted[..|sorted| - 1], sorted[|sorted| - 1];
      if last.priority <= rule.priority {
        assert (sorted + [rule])[..|sorted|] == sorted;
      } else {
        InsertIsStable(rule, before, priority);
        assert (Insert(rule, before) + [last])[..|Insert(rule, before)|] == Insert(rule, before);
        if last.priority == priority {
          assert WithPriority(Insert(rule, before), priority) == WithPriority(before, priority);
        }
      }
    }
  }

  lemma SortMembers(rules: seq<Rule>, r: Rule)
    ensures r in ByPriority(rules) <==> r in rules
  {
    SortPermutes(rules);
    assert r in ByPriority(rules) <==> r in multiset(ByPriority(rules));
  }

  ghost predicate StrictlyAscending(rules: seq<Rule>) {
    forall i, j :: 0 <= i < j < |rules| ==> rules[i].priority < rules[j].priority
  }

  ghost predicate SameRules(a: seq<Rule>, b: seq<Rule>) {
    forall r :: r in a <==> r in b
  }

  lemma {:induction false} InsertKeepsStrict(rule: Rule, sorted: seq<Rule>)
    requires StrictlyAscending(sorted) && forall r :: r in sorted ==> r.priority != rule.priority
    ensures StrictlyAscending(Insert(rule, sorted))
  {
    if sorted != [] && sorted[|sorted| - 1].priority > rule.priority {
      var before, last := sorted[..|sorted| - 1], sorted[|sorted| - 1];
      InsertKeepsStrict(rule, before);
      forall i | 0 <= i < |Insert(rule, before)| ensures Insert(rule, before)[i].priority < last.priority {
        InsertMembers(rule, before, Insert(rule, before)[i]);
      }
    }
  }

  lemma {:induction false} UniquePrioritiesSortStrictly(rules: seq<Rule>)
    requires DistinctPriorities(rules)
    ensures StrictlyAscending(ByPriority(rules))
  {
    if rules != [] {
      var before, last := rules[..|rules| - 1], rules[|rules| - 1];
      UniquePrioritiesSortStrictly(before);
      forall r | r in ByPriority(before) ensures r.priority != last.priority {
        SortMembers(before, r);
        var i :| 0 <= i < |before| && before[i] == r;
        assert rules[i] == r;
      }
      InsertKeepsStrict(last, ByPriority(before));
    }
  }

  lemma LastOfStrict(a: seq<Rule>, b: seq<Rule>)
    requires StrictlyAscending(a) && StrictlyAscending(b) && SameRules(a, b) && (a != [] || b != [])
    ensures a != [] && b != [] && a[|a| - 1] == b[|b| - 1]
  {
    assert a != [] ==> a[|a| - 1] in b;
    assert b != [] ==> b[|b| - 1] in a;
  }

  lemma {:induction false} StrictOrderIsUnique(a: seq<Rule>, b: seq<Rule>)
    requires StrictlyAscending(a) && StrictlyAscending(b) && SameRules(a, b)
    ensures a == b
  {
    if a != [] || b != [] {
      LastOfStrict(a, b);
      var a', b', last := a[..|a| - 1], b[..|b| - 1], a[|a| - 1];
      assert a == a' + [last] && b == b' + [last];
      forall r ensures r in a' <==> r in b' {
        assert r in a <==> r in b;
      }
      StrictOrderIsUnique(a', b');
    }
  }

  /** With unique priorities the order in which the rules are given is irrelevant. */
  lemma PermutationSortsAlike(a: seq<Rule>, b: seq<Rule>)
    requires SameRules(a, b) && DistinctPriorities(a) && DistinctPriorities(b)
    ensures ByPriority(a) == ByPriority(b)
  {
    UniquePrioritiesSortStrictly(a);
    UniquePrioritiesSortStrictly(b);
    forall r ensures r in ByPriority(a) <==> r in ByPriority(b) {
      SortMembers(a, r);
      SortMembers(b, r);
    }
    StrictOrderIsUnique(ByPriority(a), ByPriority(b));
  }

  // ---------------------------------------------------------------------------
  // First match
  // ---------------------------------------------------------------------------

  predicate Candidate(rule: Rule) {
    rule.isActive && !rule.isDefault
  }

  predicate Fallback(rule: Rule) {
    rule.isActive && rule.isDefault
  }

  predicate AllHold(lib: Library, conditions: seq<Condition>, ctx: Context) {
    forall i :: 0 <= i < |conditions| ==> Holds(lib, conditions[i], ctx)
  }

  predicate Matches(lib: Library, rule: Rule, ctx: Context) {
    Candidate(rule) && AllHold(lib, rule.conditions, ctx)
  }

  function FirstFailing(lib: Library, conditions: seq<Condition>, ctx: Context): Option<Condition> {
    if conditions == [] then None
    else if !Holds(lib, conditions[0], ctx) then Some(conditions[0])
    else FirstFailing(lib, conditions[1..], ctx)
  }

  lemma {:induction false} FirstFailingDecides(lib: Library, conditions: seq<Condition>, ctx: Context)
    ensures FirstFailing(lib, conditions, ctx).None? <==> AllHold(lib, conditions, ctx)
    ensures forall i :: && 0 <= i < |conditions| && !Holds(lib, conditions[i], ctx)
                        && AllHold(lib, conditions[..i], ctx) ==>
              FirstFailing(lib, conditions, ctx) == Some(conditions[i])
  {
    if conditions != [] {
      var rest := conditions[1..];
      FirstFailingDecides(lib, rest, ctx);
      assert conditions == [conditions[0]] + rest;
      forall i | 0 < i < |conditions| && !Holds(lib, conditions[i], ctx) && AllHold(lib, conditions[..i], ctx)
        ensures FirstFailing(lib, conditions, ctx) == Some(conditions[i])
      {
        assert conditions[..i][0] == conditions[0];
        assert rest[..i - 1] == conditions[..i][1..];
      }
    }
  }

  function EntryFor(lib: Library, rule: Rule, ctx: Context): TraceEntry {
    match FirstFailing(lib, rule.conditions, ctx)
    case None => Matched(rule.name, rule.priority)
    case Some(c) => Missed(rule.name, rule.priority, c.kind, c.field, c.operator)
  }

  /** An entry names its rule and, if that missed, kind, field and operator of the first condition that failed. */
  lemma EntryExactly(lib: Library, rule: Rule, ctx: Context)
    ensures var entry := EntryFor(lib, rule, ctx);
            && entry.rule == rule.name && entry.priority == rule.priority
            && (entry.Matched? <==> AllHold(lib, rule.conditions, ctx))
            && forall i :: 0 <= i < |rule.conditions| && !Holds(lib, rule.conditions[i], ctx)
                           && AllHold(lib, rule.conditions[..i], ctx) ==>
                 && var c := rule.conditions[i];
                 entry.Missed? && entry.kind == c.kind && entry.field == c.field && entry.operator == c.operator
  {
    FirstFailingDecides(lib, rule.conditions, ctx);
  }

  /** The loop over rules already in order, from a trace and a remembered default. */
  function Scan(lib: Library, rules: seq<Rule>, ctx: Context, trace: seq<TraceEntry>,
                default: Option<Rule>): Option<RuleMatch>
  {
    if rules == [] then
      if default.Some? then Some(RuleMatch(default.value, default.value.target, trace)) else None
    else if !rules[0].isActive then Scan(lib, rules[1..], ctx, trace, default)
    else if rules[0].isDefault then Scan(lib, rules[1..], ctx, trace, Some(rules[0]))
    else if Matches(lib, rules[0], ctx) then
        Some(RuleMatch(rules[0], rules[0].target, trace + [EntryFor(lib, rules[0], ctx)]))
    else Scan(lib, rules[1..], ctx, trace + [EntryFor(lib, rules[0], ctx)], default)
  }

  function Evaluate(lib: Library, rules: seq<Rule>, ctx: Context): Option<RuleMatch> {
    Scan(lib, ByPriority(rules), ctx, [], None)
  }

  // ---------------------------------------------------------------------------
  // What first match means
  // ---------------------------------------------------------------------------

  function Candidates(rules: seq<Rule>): seq<Rule> {
    if rules == [] then []
    else if Candidate(rules[0]) then [rules[0]] + Candidates(rules[1..])
    else Candidates(rules[1..])
  }

  function Entries(lib: Library, rules: seq<Rule>, ctx: Context): seq<TraceEntry> {
    seq(|rules|, i requires 0 <= i < |rules| => EntryFor(lib, rules[i], ctx))
  }

  ghost predicate FirstMatchAt(lib: Library, rules: seq<Rule>, ctx: Context, k: int) {
    0 <= k < |rules| && Matches(lib, rules[k], ctx) && forall i :: 0 <= i < k ==> !Matches(lib, rules[i], ctx)
  }

  ghost predicate LastFallbackAt(rules: seq<Rule>, k: int) {
    0 <= k < |rules| && Fallback(rules[k]) && forall i :: k < i < |rules| ==> !Fallback(rules[i])
  }

  ghost predicate NoMatch(lib: Library, rules: seq<Rule>, ctx: Context) {
    forall i :: 0 <= i < |rules| ==> !Matches(lib, rules[i], ctx)
  }

  ghost predicate NoFallback(rules: seq<Rule>) {
    forall i :: 0 <= i < |rules| ==> !Fallback(rules[i])
  }

  /** The first matching rule wins; its trace has one entry for every candidate up to it. */
  lemma {:induction false} ScanFindsFirst(lib: Library, rules: seq<Rule>, ctx: Context, trace: seq<TraceEntry>,
                                          default: Option<Rule>, k: int)
    requires FirstMatchAt(lib, rules, ctx, k)
    ensures Scan(lib, rules, ctx, trace, default) ==
            Some(RuleMatch(rules[k], rules[k].target, trace + Entries(lib, Candidates(rules[..k + 1]), ctx)))
  {
    var rest := rules[1..];
    assert rules[..k + 1][1..] == rest[..k] && rules[..k + 1][0] == rules[0];
    if k == 0 {
      assert rest[..0] == [];
      assert Candidates(rules[..1]) == [rules[0]];
      assert Entries(lib, Candidates(rules[..1]), ctx) == [EntryFor(lib, rules[0], ctx)];
    } else {
      assert forall i :: 0 <= i < k - 1 ==> rest[i] == rules[i + 1];
      var entry := EntryFor(lib, rules[0], ctx);
      ScanFindsFirst(lib, rest, ctx, if Candidate(rules[0]) then trace + [entry] else trace,
                     if Fallback(rules[0]) then Some(rules[0]) else default, k - 1);
      if Candidate(rules[0]) {
        assert Entries(lib, Candidates(rules[..k + 1]), ctx) == [entry] + Entries(lib, Candidates(rest[..k]), ctx);
        assert trace + [entry] + Entries(lib, Candidates(rest[..k]), ctx) ==
               trace + Entries(lib, Candidates(rules[..k + 1]), ctx);
      }
    }
  }

  /** The default the loop ends up remembering. */
  function LastFallback(rules: seq<Rule>, default: Option<Rule>): Option<Rule> {
    if rules == [] then default
    else LastFallback(rules[1..], if Fallback(rules[0]) then Some(rules[0]) else default)
  }

  lemma {:induction false} LastFallbackMeaning(rules: seq<Rule>, default: Option<Rule>)
    ensures forall k :: LastFallbackAt(rules, k) ==> LastFallback(rules, default) == Some(rules[k])
    ensures NoFallback(rules) ==> LastFallback(rules, default) == default
  {
    if rules != [] {
      var rest, next := rules[1..], if Fallback(rules[0]) then Some(rules[0]) else default;
      LastFallbackMeaning(rest, next);
      assert forall i :: 0 <= i < |rest| ==> rest[i] == rules[i + 1];
      forall k | LastFallbackAt(rules, k) ensures LastFallback(rules, default) == Some(rules[k]) {
        assert if k > 0 then LastFallbackAt(rest, k - 1) else NoFallback(rest);
      }
    }
  }

  function Conclude(default: Option<Rule>, trace: seq<TraceEntry>): Option<RuleMatch> {
    if default.Some? then Some(RuleMatch(default.value, default.value.target, trace)) else None
  }

  lemma EntriesStep(lib: Library, rules: seq<Rule>, ctx: Context, trace: seq<TraceEntry>)
    requires rules != []
    ensures (if Candidate(rules[0]) then trace + [EntryFor(lib, rules[0], ctx)] else trace) +
            Entries(lib, Candidates(rules[1..]), ctx) ==
            trace + Entries(lib, Candidates(rules), ctx)
  {
    if Candidate(rules[0]) {
      EntriesCons(lib, rules[0], Candidates(rules[1..]), ctx);
      Regroup(trace, EntryFor(lib, rules[0], ctx), Entries(lib, Candidates(rules[1..]), ctx));
    }
  }

  lemma EntriesCons(lib: Library, first: Rule, rest: seq<Rule>, ctx: Context)
    ensures Entries(lib, [first] + rest, ctx) == [EntryFor(lib, first, ctx)] + Entries(lib, rest, ctx)
  {
  }

  lemma Regroup<T>(a: seq<T>, x: T, b: seq<T>)
    ensures a + [x] + b == a + ([x] + b)
  {
  }

  /** Without a match the remembered default concludes, and the trace covers every candidate. */
  lemma {:induction false} ScanFallsBack(lib: Library, rules: seq<Rule>, ctx: Context, trace: seq<TraceEntry>,
                                         default: Option<Rule>)
    requires NoMatch(lib, rules, ctx)
    ensures Scan(lib, rules, ctx, trace, default) ==
            Conclude(LastFallback(rules, default), trace + Entries(lib, Candidates(rules), ctx))
  {
    if rules == [] {
      assert trace + Entries(lib, Candidates(rules), ctx) == trace;
    } else {
      var rest := rules[1..];
      assert forall i :: 0 <= i < |rest| ==> rest[i] == rules[i + 1];
      ScanFallsBack(lib, rest, ctx, if Candidate(rules[0]) then trace + [EntryFor(lib, rules[0], ctx)] else trace,
                    if Fallback(rules[0]) then Some(rules[0]) else default);
      EntriesStep(lib, rules, ctx, trace);
    }
  }

  lemma {:induction false} FirstMatchExists(lib: Library, rules: seq<Rule>, ctx: Context) returns (k: int)
    ensures FirstMatchAt(lib, rules, ctx, k) || (k == -1 && NoMatch(lib, rules, ctx))
  {
    if rules == [] {
      k := -1;
    } else {
      k := FirstMatchExists(lib, rules[..|rules| - 1], ctx);
      if k == -1 && Matches(lib, rules[|rules| - 1], ctx) {
        k := |rules| - 1;
      }
    }
  }

  lemma {:induction false} LastFallbackExists(rules: seq<Rule>) returns (k: int)
    ensures LastFallbackAt(rules, k) || (k == -1 && NoFallback(rules))
  {
    if rules == [] {
      k := -1;
    } else if Fallback(rules[|rules| - 1]) {
      k := |rules| - 1;
    } else {
      k := LastFallbackExists(rules[..|rules| - 1]);
    }
  }

  // ---------------------------------------------------------------------------
  // The meaning of a whole evaluation
  // ---------------------------------------------------------------------------

  /** `r` is a rule of `rules` that matches, and no matching rule has a lower priority number. */
  ghost predicate BestMatch(lib: Library, rules: seq<Rule>, ctx: Context, r: Rule) {
    r in rules && Matches(lib, r, ctx) && forall q :: q in rules && Matches(lib, q, ctx) ==> r.priority <= q.priority
  }

  ghost predicate HighestFallback(rules: seq<Rule>, r: Rule) {
    r in rules && Fallback(r) && forall q :: q in rules && Fallback(q) ==> q.priority <= r.priority
  }

  ghost predicate AnyMatch(lib: Library, rules: seq<Rule>, ctx: Context) {
    exists q :: q in rules && Matches(lib, q, ctx)
  }

  lemma NoMatchCarriesOver(lib: Library, rules: seq<Rule>, ctx: Context)
    ensures NoMatch(lib, ByPriority(rules), ctx) <==> !AnyMatch(lib, rules, ctx)
  {
    var sorted := ByPriority(rules);
    forall q ensures q in sorted <==> q in rules {
      SortMembers(rules, q);
    }
    if AnyMatch(lib, rules, ctx) {
      var q :| q in rules && Matches(lib, q, ctx);
      assert q in sorted;
      var i :| 0 <= i < |sorted| && sorted[i] == q;
      assert Matches(lib, sorted[i], ctx);
    }
    if !AnyMatch(lib, rules, ctx) {
      forall i | 0 <= i < |sorted| ensures !Matches(lib, sorted[i], ctx) {
        assert sorted[i] in rules;
      }
    }
  }

  /**
   An evaluation returns a best matching rule if any rule matches; else an active default, the one of
   greatest priority number; else nothing. The target is the rule's own.
   */
  lemma EvaluateMeaning(lib: Library, rules: seq<Rule>, ctx: Context)
    ensures var m := Evaluate(lib, rules, ctx);
            && (AnyMatch(lib, rules, ctx) ==> m.Some? && BestMatch(lib, rules, ctx, m.value.rule))
            && (!AnyMatch(lib, rules, ctx) && m.Some? ==> HighestFallback(rules, m.value.rule))
            && (m.None? ==> forall q :: q in rules ==> !Fallback(q))
            && (m.Some? ==> m.value.target == m.value.rule.target)
  {
    var sorted := ByPriority(rules);
    SortAscends(rules);
    NoMatchCarriesOver(lib, rules, ctx);
    forall q ensures q in sorted <==> q in rules {
      SortMembers(rules, q);
    }
    var k := FirstMatchExists(lib, sorted, ctx);
    if k >= 0 {
      ScanFindsFirst(lib, sorted, ctx, [], None, k);
      forall q | q in rules && Matches(lib, q, ctx) ensures sorted[k].priority <= q.priority {
        assert q in sorted;
        var i :| 0 <= i < |sorted| && sorted[i] == q;
      }
      assert sorted[k] in rules;
    } else {
      ScanFallsBack(lib, sorted, ctx, [], None);
      LastFallbackMeaning(sorted, None);
      FallbackIsHighest(rules);
    }
  }

  lemma FallbackIsHighest(rules: seq<Rule>)
    ensures var d := LastFallback(ByPriority(rules), None);
            if d.Some? then HighestFallback(rules, d.value) else forall q :: q in rules ==> !Fallback(q)
  {
    var sorted := ByPriority(rules);
    SortAscends(rules);
    LastFallbackMeaning(sorted, None);
    var k := LastFallbackExists(sorted);
    forall q | q in rules && Fallback(q) ensures k >= 0 && q.priority <= sorted[k].priority {
      SortMembers(rules, q);
      var i :| 0 <= i < |sorted| && sorted[i] == q;
    }
    if k >= 0 {
      assert sorted[k] in sorted;
      SortMembers(rules, sorted[k]);
    }
  }

  /**
   The same in terms of the rules' own fields: what is returned is active; if some active rule that is no default
   has all its conditions met, so has what is returned, and no such rule has a lower priority number.
   */
  lemma EvaluatePlainly(lib: Library, rules: seq<Rule>, ctx: Context, q: Rule)
    ensures var m := Evaluate(lib, rules, ctx);
            && (m.Some? ==> m.value.rule in rules && m.value.rule.isActive)
            && (m.Some? && !m.value.rule.isDefault ==>
                  forall i :: 0 <= i < |m.value.rule.conditions| ==> Holds(lib, m.value.rule.conditions[i], ctx))
            && (q in rules && q.isActive && !q.isDefault
                && (forall i :: 0 <= i < |q.conditions| ==> Holds(lib, q.conditions[i], ctx)) ==>
                  m.Some? && !m.value.rule.isDefault && m.value.rule.priority <= q.priority)
            && (q in rules && q.isActive && q.isDefault ==>
                  m.Some? && (m.value.rule.isDefault ==> q.priority <= m.value.rule.priority))
  {
    EvaluateMeaning(lib, rules, ctx);
    if AnyMatch(lib, rules, ctx) {
      assert BestMatch(lib, rules, ctx, Evaluate(lib, rules, ctx).value.rule);
    }
    assert Matches(lib, q, ctx) <==> q.isActive && !q.isDefault && AllHold(lib, q.conditions, ctx);
  }

  /**
   The trace names the candidates in priority order, one entry each; only the last can be a match, and is one just if
   the rule is not a default.
   */
  lemma TraceMeaning(lib: Library, rules: seq<Rule>, ctx: Context)
    requires Evaluate(lib, rules, ctx).Some?
    ensures var m := Evaluate(lib, rules, ctx).value;
            var all := Entries(lib, Candidates(ByPriority(rules)), ctx);
            && m.trace <= all
            && (forall i :: 0 <= i < |m.trace| - 1 ==> m.trace[i].Missed?)
            && (AnyMatch(lib, rules, ctx) ==> m.trace != [] && m.trace[|m.trace| - 1].Matched? && !m.rule.isDefault)
            && (!AnyMatch(lib, rules, ctx) ==>
                m.trace == all && (m.trace != [] ==> m.trace[|m.trace| - 1].Missed?) && m.rule.isDefault)
  {
    var sorted := ByPriority(rules);
    NoMatchCarriesOver(lib, rules, ctx);
    var k := FirstMatchExists(lib, sorted, ctx);
    if k >= 0 {
      MatchedTrace(lib, sorted, ctx, k);
      MatchedEntries(lib, sorted, ctx, k);
    } else {
      FallbackTrace(lib, rules, ctx);
    }
  }

  lemma FallbackTrace(lib: Library, rules: seq<Rule>, ctx: Context)
    requires NoMatch(lib, ByPriority(rules), ctx)
    ensures var m, all := Evaluate(lib, rules, ctx), Entries(lib, Candidates(ByPriority(rules)), ctx);
            && (m.Some? ==> m.value.trace == all && m.value.rule.isDefault)
            && forall i :: 0 <= i < |all| ==> all[i].Missed?
  {
    var sorted := ByPriority(rules);
    ScanFallsBack(lib, sorted, ctx, [], None);
    assert [] + Entries(lib, Candidates(sorted), ctx) == Entries(lib, Candidates(sorted), ctx);
    MissesBefore(lib, sorted, ctx);
    FallbackIsHighest(rules);
  }

  /** What the trace of a match at `k` is: an entry for every candidate before it, all missed, and then the match. */
  lemma MatchedEntries(lib: Library, sorted: seq<Rule>, ctx: Context, k: int)
    requires FirstMatchAt(lib, sorted, ctx, k)
    ensures var trace := Entries(lib, Candidates(sorted[..k + 1]), ctx);
            && trace <= Entries(lib, Candidates(sorted), ctx)
            && trace != [] && trace[|trace| - 1].Matched?
            && forall i :: 0 <= i < |trace| - 1 ==> trace[i].Missed?
  {
    CandidatesPrefix(sorted, k + 1);
    EntriesPrefix(lib, Candidates(sorted[..k + 1]), Candidates(sorted), ctx);
    CandidatesSnoc(sorted[..k], sorted[k]);
    assert sorted[..k] + [sorted[k]] == sorted[..k + 1];
    MissesBefore(lib, sorted[..k], ctx);
    LastEntryMatches(lib, Candidates(sorted[..k]), sorted[k], ctx);
  }

  lemma MatchedTrace(lib: Library, sorted: seq<Rule>, ctx: Context, k: int)
    requires FirstMatchAt(lib, sorted, ctx, k)
    ensures Scan(lib, sorted, ctx, [], None) ==
            Some(RuleMatch(sorted[k], sorted[k].target, Entries(lib, Candidates(sorted[..k + 1]), ctx)))
  {
    ScanFindsFirst(lib, sorted, ctx, [], None, k);
    assert [] + Entries(lib, Candidates(sorted[..k + 1]), ctx) == Entries(lib, Candidates(sorted[..k + 1]), ctx);
  }

  lemma EntriesPrefix(lib: Library, a: seq<Rule>, b: seq<Rule>, ctx: Context)
    requires a <= b
    ensures Entries(lib, a, ctx) <= Entries(lib, b, ctx)
  {
  }

  lemma LastEntryMatches(lib: Library, missed: seq<Rule>, rule: Rule, ctx: Context)
    requires Matches(lib, rule, ctx) && forall i :: 0 <= i < |missed| ==> EntryFor(lib, missed[i], ctx).Missed?
    ensures var trace := Entries(lib, missed + [rule], ctx);
            trace[|trace| - 1].Matched? && forall i :: 0 <= i < |trace| - 1 ==> trace[i].Missed?
  {
    FirstFailingDecides(lib, rule.conditions, ctx);
  }

  lemma {:induction false} CandidatesSnoc(rules: seq<Rule>, last: Rule)
    ensures Candidates(rules + [last]) == Candidates(rules) + if Candidate(last) then [last] else []
  {
    if rules == [] {
      assert ([] + [last])[1..] == [];
    } else {
      CandidatesSnoc(rules[1..], last);
      assert (rules + [last])[1..] == rules[1..] + [last];
    }
  }

  lemma {:induction false} CandidatesPrefix(rules: seq<Rule>, n: nat)
    requires n <= |rules|
    ensures Candidates(rules[..n]) <= Candidates(rules)
  {
    if n > 0 {
      CandidatesPrefix(rules[1..], n - 1);
      assert rules[..n][1..] == rules[1..][..n - 1];
    }
  }

  lemma {:induction false} MissesBefore(lib: Library, rules: seq<Rule>, ctx: Context)
    requires NoMatch(lib, rules, ctx)
    ensures forall i :: 0 <= i < |Candidates(rules)| ==> EntryFor(lib, Candidates(rules)[i], ctx).Missed?
  {
    if rules != [] {
      var rest := rules[1..];
      assert forall i :: 0 <= i < |rest| ==> rest[i] == rules[i + 1];
      MissesBefore(lib, rest, ctx);
      FirstFailingDecides(lib, rules[0].conditions, ctx);
    }
  }

  /** Result and trace do not depend on the order of the rules, when their priorities are unique. */
  lemma OrderIsIrrelevant(lib: Library, a: seq<Rule>, b: seq<Rule>, ctx: Context)
    requires SameRules(a, b) && DistinctPriorities(a) && DistinctPriorities(b)
    ensures Evaluate(lib, a, ctx) == Evaluate(lib, b, ctx)
  {
    PermutationSortsAlike(a, b);
  }

  /** Unique priorities are needed: two matching rules of one priority are told apart only by position. */
  lemma TiesDependOnOrder(lib: Library, ctx: Context, a: Rule, b: Rule)
    requires Candidate(a) && Candidate(b) && a.conditions == [] && b.conditions == [] && a.priority == b.priority &&
             a != b
    ensures Evaluate(lib, [a, b], ctx) != Evaluate(lib, [b, a], ctx)
  {
    forall x: Rule, y: Rule | x.priority == y.priority ensures ByPriority([x, y]) == [x, y] {
      assert [x, y][..1] == [x] && [x][..0] == [];
      assert ByPriority([x]) == [x];
      assert Insert(y, [x]) == [x] + [y];
    }
    assert Matches(lib, a, ctx) && Matches(lib, b, ctx);
  }

  // ---------------------------------------------------------------------------
  // The engine's loops
  // ---------------------------------------------------------------------------

  /** One rule: all conditions in turn, and a trace entry either way. */
  method MatchRule(lib: Library, rule: Rule, ctx: Context, trace: seq<TraceEntry>)
    returns (matched: bool, extended: seq<TraceEntry>)
    ensures matched == AllHold(lib, rule.conditions, ctx)
    ensures extended == trace + [EntryFor(lib, rule, ctx)]
  {
    for i := 0 to |rule.conditions|
      invariant FirstFailing(lib, rule.conditions[i..], ctx) == FirstFailing(lib, rule.conditions, ctx)
      invariant forall k :: 0 <= k < i ==> Holds(lib, rule.conditions[k], ctx)
    {
      var c := rule.conditions[i];
      assert rule.conditions[i..][1..] == rule.conditions[i + 1..];
      if !Holds(lib, c, ctx) {
        return false, trace + [Missed(rule.name, rule.priority, c.kind, c.field, c.operator)];
      }
    }
    return true, trace + [Matched(rule.name, rule.priority)];
  }

  /** The loop of `evaluate` and `_evaluate_single` over the sorted rules. */
  method FirstMatch(lib: Library, rules: seq<Rule>, ctx: Context) returns (result: Option<RuleMatch>)
    ensures result == Evaluate(lib, rules, ctx)
  {
    var sorted, trace: seq<TraceEntry>, default: Option<Rule> := ByPriority(rules), [], None;
    for i := 0 to |sorted|
      invariant Scan(lib, sorted[i..], ctx, trace, default) == Evaluate(lib, rules, ctx)
    {
      var rule := sorted[i];
      assert sorted[i..][1..] == sorted[i + 1..];
      if !rule.isActive {
        continue;
      }
      if rule.isDefault {
        default := Some(rule);
        continue;
      }
      var matched;
      matched, trace := MatchRule(lib, rule, ctx, trace);
      if matched {
        return Some(RuleMatch(rule, rule.target, trace));
      }
    }
    result := if default.Some? then Some(RuleMatch(default.value, default.value.target, trace)) else None;
  }

  predicate NeedsIntent(rules: seq<Rule>) {
    exists i :: && 0 <= i < |rules| && rules[i].isActive
                && exists k :: 0 <= k < |rules[i].conditions| && rules[i].conditions[k].kind == "intent"
  }

  /** A deterministic intent classifier; the batch path may hand it content that is not text. */
  type Classifier = Content -> Option<string>

  /** The intent a single evaluation works with: asked for only when a classifier and an intent condition exist. */
  function IntentFor(rules: seq<Rule>, classifier: Option<Classifier>, content: Content): Option<string> {
    if classifier.Some? && NeedsIntent(rules) then classifier.value(content) else None
  }

  /** What a request evaluates to: with the intent its user text is given, if the rules ask for one. */
  function SingleItem(lib: Library, r: Request, clock: Clock, rules: seq<Rule>,
                      classifier: Option<Classifier>): Option<RuleMatch>
  {
    Evaluate(lib, rules, ContextOf(lib, r, clock, IntentFor(rules, classifier, Text(UserText(MessagesOf(r))))))
  }

  /** `RuleEngine.evaluate`: no rules, no result; otherwise context, intent and the loop. */
  method EvaluateRequest(lib: Library, r: Request, clock: Clock, rules: seq<Rule>, classifier: Option<Classifier>)
    returns (result: Option<RuleMatch>)
    ensures result == SingleItem(lib, r, clock, rules, classifier)
  {
    if rules == [] {
      return None;
    }
    var ctx := ContextOf(lib, r, clock, None);
    if classifier.Some? && NeedsIntent(rules) {
      ctx := ctx.(classifiedIntent := classifier.value(Text(ctx.userText)));
    }
    result := FirstMatch(lib, rules, ctx);
  }
}
