/** Batch evaluation with a shared intent map, and when it agrees with evaluating one by one. */
module RuleBatch {
  import opened Prelude
  import opened Messages
  import opened Conditions
  import opened RuleEngine

  /** The content of the last message, as a dict key: absent when indexing or hashing it raises. */
  function LastContent(r: Request): Option<Content> {
    if r.messages.None? then Some(Text(""))
    else if r.messages.value == [] then None
    else
      var content := r.messages.value[|r.messages.value| - 1].content;
      if content.Blocks? then None else Some(content)
  }

  /** What one request of a batch evaluates to. */
  function BatchItem(lib: Library, r: Request, clock: Clock, rules: seq<Rule>,
                     classifier: Option<Classifier>): Option<RuleMatch>
    requires LastContent(r).Some?
  {
    Evaluate(lib, rules, ContextOf(lib, r, clock, IntentFor(rules, classifier, LastContent(r).value)))
  }

  /** The request has an empty list of messages, or its last message has a list for content. */
  predicate Unkeyable(r: Request) {
    && r.messages.Some?
    && (r.messages.value == [] || r.messages.value[|r.messages.value| - 1].content.Blocks?)
  }

  predicate AllKeyed(requests: seq<Request>) {
    forall i :: 0 <= i < |requests| ==> LastContent(requests[i]).Some?
  }

  /** The map holds what the classifier says, and nothing else. */
  ghost predicate Truthful(intents: map<Content, Option<string>>, classifier: Classifier) {
    forall c :: c in intents ==> intents[c] == classifier(c)
  }

  ghost predicate Covered(intents: map<Content, Option<string>>, requests: seq<Request>) {
    forall i :: 0 <= i < |requests| ==> LastContent(requests[i]).Some? && LastContent(requests[i]).value in intents
  }

  /** The last contents, in order, as the first loop collects them: its map is still empty, so repeats stay. */
  method CollectTexts(requests: seq<Request>) returns (texts: Option<seq<Content>>)
    ensures texts.None? <==> !AllKeyed(requests)
    ensures texts.Some? ==>
              |texts.value| == |requests| && forall i :: 0 <= i < |requests| ==>
                  LastContent(requests[i]) == Some(texts.value[i])
  {
    var all: seq<Content> := [];
    for i := 0 to |requests|
      invariant |all| == i
      invariant forall k :: 0 <= k < i ==> LastContent(requests[k]) == Some(all[k])
    {
      var key := LastContent(requests[i]);
      if key.None? {
        return None;
      }
      all := all + [key.value];
    }
    texts := Some(all);
  }

  method ClassifyTexts(texts: seq<Content>, classifier: Classifier) returns (intents: map<Content, Option<string>>)
    ensures Truthful(intents, classifier)
    ensures forall c :: c in intents <==> c in texts
  {
    intents := map[];
    for i := 0 to |texts|
      invariant Truthful(intents, classifier)
      invariant forall c :: c in intents <==> c in texts[..i]
    {
      assert texts[..i + 1] == texts[..i] + [texts[i]];
      intents := intents[texts[i] := classifier(texts[i])];
    }
    assert texts[..|texts|] == texts;
  }

  /** `_evaluate_single`: one request, with its entry of the shared map if it has one. */
  method EvaluateOne(lib: Library, r: Request, clock: Clock, rules: seq<Rule>, intents: map<Content, Option<string>>)
    returns (result: Option<RuleMatch>)
    requires LastContent(r).Some?
    ensures result == Evaluate(lib, rules, ContextOf(lib, r, clock,
                        if LastContent(r).value in intents then intents[LastContent(r).value] else None))
  {
    var key, ctx := LastContent(r).value, ContextOf(lib, r, clock, None);
    if key in intents {
      ctx := ctx.(classifiedIntent := intents[key]);
    }
    result := FirstMatch(lib, rules, ctx);
  }

  /** The last loop: every request in turn, the call failing as a whole if one has no key. */
  method EvaluateAll(lib: Library, requests: seq<Request>, clock: Clock, rules: seq<Rule>,
                     classifier: Option<Classifier>,
                     intents: map<Content, Option<string>>)
    returns (results: Option<seq<Option<RuleMatch>>>)
    requires if classifier.Some? && NeedsIntent(rules) then Truthful(intents, classifier.value) &&
             Covered(intents, requests)
             else intents == map[]
    ensures results.None? <==> !AllKeyed(requests)
    ensures results.Some? ==> |results.value| == |requests|
    ensures results.Some? ==>
              forall i :: 0 <= i < |requests| ==>
                  results.value[i] == BatchItem(lib, requests[i], clock, rules, classifier)
  {
    var all: seq<Option<RuleMatch>> := [];
    for i := 0 to |requests|
      invariant |all| == i
      invariant forall k :: 0 <= k < i ==>
                  LastContent(requests[k]).Some? && all[k] == BatchItem(lib, requests[k], clock, rules, classifier)
    {
      if LastContent(requests[i]).None? {
        return None;
      }
      var one := EvaluateOne(lib, requests[i], clock, rules, intents);
      assert one == BatchItem(lib, requests[i], clock, rules, classifier);
      all := all + [one];
    }
    results := Some(all);
  }

  /**
   `evaluate_batch`: the intents of all last messages are classified up front into one map, then each
   request is evaluated with its entry. The result is absent when some request makes the call raise.
   */
  method EvaluateBatch(lib: Library, requests: seq<Request>, clock: Clock, rules: seq<Rule>,
                       classifier: Option<Classifier>)
    returns (results: Option<seq<Option<RuleMatch>>>)
    ensures results.None? <==> rules != [] && !AllKeyed(requests)
    ensures results.None? <==> rules != [] && exists i :: 0 <= i < |requests| && Unkeyable(requests[i])
    ensures results.Some? ==> |results.value| == |requests|
    ensures results.Some? && rules == [] ==> forall i :: 0 <= i < |requests| ==> results.value[i].None?
    ensures results.Some? && rules != [] ==>
              forall i :: 0 <= i < |requests| ==>
                  results.value[i] == BatchItem(lib, requests[i], clock, rules, classifier)
  {
    assert AllKeyed(requests) <==> forall i :: 0 <= i < |requests| ==> !Unkeyable(requests[i]);
    if rules == [] {
      return Some(seq(|requests|, _ => None));
    }
    var intents: map<Content, Option<string>> := map[];
    if classifier.Some? && NeedsIntent(rules) {
      var texts := CollectTexts(requests);
      if texts.None? {
        return None;
      }
      intents := ClassifyTexts(texts.value, classifier.value);
    }
    results := EvaluateAll(lib, requests, clock, rules, classifier, intents);
  }

  /** The requests on which batching is promised to agree: the one user message is the last, in plain text. */
  predicate SingleUserLast(r: Request) {
    && r.messages.Some? && r.messages.value != []
    && var messages := r.messages.value;
       && messages[|messages| - 1].role == USER && messages[|messages| - 1].content.Text?
       && forall i :: 0 <= i < |messages| - 1 ==> messages[i].role != USER
  }

  /**
   Item by item a batch of such requests gives rule, target and trace of the single evaluation, repeated texts or not.
   */
  lemma BatchRefinesSingle(lib: Library, requests: seq<Request>, clock: Clock, rules: seq<Rule>,
                           classifier: Option<Classifier>)
    requires forall i :: 0 <= i < |requests| ==> SingleUserLast(requests[i])
    ensures AllKeyed(requests)
    ensures forall i :: 0 <= i < |requests| ==>
              BatchItem(lib, requests[i], clock, rules, classifier) ==
                  SingleItem(lib, requests[i], clock, rules, classifier)
  {
    forall i | 0 <= i < |requests|
      ensures LastContent(requests[i]) == Some(Text(UserText(MessagesOf(requests[i]))))
    {
      OnlyLastUser(requests[i].messages.value);
    }
  }

  /**
   The precise condition: both paths see the same context just if no intent is asked for or both texts classify alike.
   */
  lemma SameContextExactly(lib: Library, r: Request, clock: Clock, rules: seq<Rule>, classifier: Option<Classifier>)
    requires LastContent(r).Some?
    ensures var batch := ContextOf(lib, r, clock, IntentFor(rules, classifier, LastContent(r).value));
            var single := ContextOf(lib, r, clock, IntentFor(rules, classifier, Text(UserText(MessagesOf(r)))));
            batch == single <==>
            classifier.None? || !NeedsIntent(rules) ||
            classifier.value(LastContent(r).value) == classifier.value(Text(UserText(MessagesOf(r))))
  {
    var a := IntentFor(rules, classifier, LastContent(r).value);
    var b := IntentFor(rules, classifier, Text(UserText(MessagesOf(r))));
    assert ContextOf(lib, r, clock, a).classifiedIntent == a && ContextOf(lib, r, clock, b).classifiedIntent == b;
  }

  function IntentRule(intent: string): Rule {
    Rule("1", "by-intent", 0, true, false, "m",
         [Condition("intent", "classified_intent", "eq", One(Str(intent)), false)])
  }

  /** A rule for one intent matches the contexts that carry it, and no others. */
  lemma IntentRuleMatches(lib: Library, intent: string, ctx: Context)
    ensures Evaluate(lib, [IntentRule(intent)], ctx).Some? <==> ctx.classifiedIntent == Some(intent)
  {
    var rule, c := IntentRule(intent), IntentRule(intent).conditions[0];
    assert FieldValue("classified_intent", ctx) == OptText(ctx.classifiedIntent);
    assert Holds(lib, c, ctx) <==> ctx.classifiedIntent == Some(intent);
    assert AllHold(lib, rule.conditions, ctx) <==> Holds(lib, rule.conditions[0], ctx);
    EvaluateMeaning(lib, [rule], ctx);
    assert rule in [rule];
  }

  lemma IntentRuleSeparates(lib: Library, r: Request, clock: Clock, classifier: Classifier, intent: string)
    requires LastContent(r).Some?
    ensures BatchItem(lib, r, clock, [IntentRule(intent)], Some(classifier)).Some? <==>
            classifier(LastContent(r).value) == Some(intent)
    ensures SingleItem(lib, r, clock, [IntentRule(intent)], Some(classifier)).Some? <==>
            classifier(Text(UserText(MessagesOf(r)))) == Some(intent)
  {
    var rules := [IntentRule(intent)];
    assert rules[0].conditions[0].kind == "intent" && NeedsIntent(rules);
    IntentRuleMatches(lib, intent, ContextOf(lib, r, clock, classifier(LastContent(r).value)));
    IntentRuleMatches(lib, intent, ContextOf(lib, r, clock, classifier(Text(UserText(MessagesOf(r))))));
  }

  /** Both evaluations of a request agree on every list of rules. */
  ghost predicate AgreeAlways(lib: Library, r: Request, clock: Clock, classifier: Option<Classifier>)
    requires LastContent(r).Some?
  {
    forall rules :: BatchItem(lib, r, clock, rules, classifier) == SingleItem(lib, r, clock, rules, classifier)
  }

  /** That is so exactly when there is no classifier, or it says the same of the last message and of all user text. */
  lemma AgreeAlwaysExactly(lib: Library, r: Request, clock: Clock, classifier: Option<Classifier>)
    requires LastContent(r).Some?
    ensures AgreeAlways(lib, r, clock, classifier) <==>
            classifier.None? || classifier.value(LastContent(r).value) ==
                classifier.value(Text(UserText(MessagesOf(r))))
  {
    if classifier.Some? {
      var batch, single := classifier.value(LastContent(r).value), classifier.value(Text(UserText(MessagesOf(r))));
      if batch != single {
        var intent := if batch.Some? then batch.value else single.value;
        IntentRuleSeparates(lib, r, clock, classifier.value, intent);
        var rules := [IntentRule(intent)];
        assert BatchItem(lib, r, clock, rules, classifier) != SingleItem(lib, r, clock, rules, classifier);
      } else {
        forall rules
          ensures BatchItem(lib, r, clock, rules, classifier) == SingleItem(lib, r, clock, rules, classifier)
        {
          SameContextExactly(lib, r, clock, rules, classifier);
        }
      }
    }
  }

  function TwoTurns(): Request {
    Request(Some([Message(USER, Text("a")), Message(USER, Text("b"))]), "", [], "auto")
  }

  /** With two user turns the batch asks about the last one only, and may match where the single evaluation does not. */
  lemma TwoTurnsDiverge(lib: Library, clock: Clock, classifier: Classifier)
    requires classifier(Text("b")) == Some("x") && classifier(Text("a b")) == None
    ensures BatchItem(lib, TwoTurns(), clock, [IntentRule("x")], Some(classifier)).Some?
    ensures SingleItem(lib, TwoTurns(), clock, [IntentRule("x")], Some(classifier)).None?
  {
    TwoTurnsText();
    assert MessagesOf(TwoTurns()) == TwoTurns().messages.value;
    IntentRuleSeparates(lib, TwoTurns(), clock, classifier, "x");
  }

  lemma TwoTurnsText()
    ensures UserText(TwoTurns().messages.value) == "a b"
  {
    var messages := TwoTurns().messages.value;
    assert messages[..1] == [messages[0]] && messages[..1][..0] == [];
    assert TextsOf(messages[..1], true) == ["a"];
    assert TextsOf(messages, true) == ["a", "b"];
    assert ["a", "b"][..1] == ["a"];
  }
}
