/** What conditions say: each operator in plain terms of the field's value, and each field in terms of the request. */
module ConditionMeaning {
  import opened Prelude
  import opened Messages
  import opened Conditions
  import opened RuleEngine

  /** A condition as it is met without negation, on a field that may be used. */
  predicate Plain(c: Condition, operator: string) {
    c.operator == operator && !c.negate && c.field in ALLOWED_FIELDS
  }

  ghost predicate Occurs(needle: string, text: string) {
    exists pre, post :: text == pre + needle + post
  }

  lemma OccursExactly(needle: string, text: string)
    ensures Substring(needle, text) <==> Occurs(needle, text)
  {
    if Substring(needle, text) {
      var i :| 0 <= i <= |text| - |needle| && text[i..][..|needle|] == needle;
      assert text == text[..i] + needle + text[i + |needle|..];
    }
    if Occurs(needle, text) {
      var pre, post :| text == pre + needle + post;
      assert text[|pre|..][..|needle|] == needle;
    }
  }

  // ---------------------------------------------------------------------------
  // Operators
  // ---------------------------------------------------------------------------

  /** `contains`: the value, as text in lower case, occurs in the field's; an absent field contains nothing. */
  lemma ContainsExactly(lib: Library, c: Condition, ctx: Context)
    requires Plain(c, "contains")
    ensures Holds(lib, c, ctx) <==>
            && FieldValue(c.field, ctx) != One(Null)
            && Occurs(lib.lower(lib.render(c.value)), lib.lower(lib.render(FieldValue(c.field, ctx))))
  {
    OccursExactly(lib.lower(lib.render(c.value)), lib.lower(lib.render(FieldValue(c.field, ctx))));
  }

  /** The value counts as the number `x`: absent values, lists and text that is no number count as zero. */
  predicate CountsAs(lib: Library, v: Value, x: real) {
    match v
    case One(Num(y)) => x == y
    case One(Bool(b)) => x == if b then 1.0 else 0.0
    case One(Null) => x == 0.0
    case One(Str(s)) => lib.toFloat(s) == Some(Finite(x)) || (lib.toFloat(s).None? && x == 0.0)
    case Many(_) => x == 0.0
  }

  /** The order operators: the field's number against the expected one. */
  lemma OrderExactly(lib: Library, c: Condition, ctx: Context, x: real, y: real)
    requires c.field in ALLOWED_FIELDS && !c.negate
    requires CountsAs(lib, FieldValue(c.field, ctx), x) && CountsAs(lib, c.value, y)
    ensures Holds(lib, c.(operator := "gt"), ctx) <==> x > y
    ensures Holds(lib, c.(operator := "lt"), ctx) <==> x < y
    ensures Holds(lib, c.(operator := "gte"), ctx) <==> x >= y
    ensures Holds(lib, c.(operator := "lte"), ctx) <==> x <= y
  {
    assert Numeric(lib, FieldValue(c.field, ctx)) == Finite(x) && Numeric(lib, c.value) == Finite(y);
  }

  /** `between` takes its lower bound first, and both bounds in. */
  lemma BetweenExactly(lib: Library, c: Condition, ctx: Context, x: real, lo: real, hi: real)
    requires Plain(c, "between") && c.value.Many? && |c.value.items| == 2
    requires CountsAs(lib, FieldValue(c.field, ctx), x)
    requires CountsAs(lib, One(c.value.items[0]), lo) && CountsAs(lib, One(c.value.items[1]), hi)
    ensures Holds(lib, c, ctx) <==> lo <= x <= hi
  {
    BetweenIsTwoBounds(lib, c, ctx);
    OrderExactly(lib, c.(value := One(c.value.items[0])), ctx, x, lo);
    OrderExactly(lib, c.(value := One(c.value.items[1])), ctx, x, hi);
    assert c.(operator := "between") == c;
  }

  /** `in` is a choice of `eq`, for a field that is no list. */
  lemma InExactly(lib: Library, c: Condition, ctx: Context)
    requires Plain(c, "in") && FieldValue(c.field, ctx).One?
    ensures Holds(lib, c, ctx) <==>
            c.value.Many? && exists i :: 0 <= i < |c.value.items|
                                         && Holds(lib, c.(operator := "eq", value := One(c.value.items[i])), ctx)
  {
    var x := FieldValue(c.field, ctx).scalar;
    if c.value.Many? {
      forall i | 0 <= i < |c.value.items|
        ensures Holds(lib, c.(operator := "eq", value := One(c.value.items[i])), ctx) <==> Same(x, c.value.items[i])
      {
      }
      assert Holds(lib, c, ctx) <==> Member(x, c.value.items);
    }
  }

  /** For the list of tool names it is a common member. */
  lemma ToolsInExactly(lib: Library, c: Condition, ctx: Context)
    requires Plain(c, "in") && c.field == "tool_names" && c.value.Many?
    ensures Holds(lib, c, ctx) <==> exists i, k :: 0 <= i < |ctx.toolNames| && 0 <= k < |c.value.items|
                                                   && c.value.items[k] == Str(ctx.toolNames[i])
  {
    var names := FieldValue("tool_names", ctx).items;
    assert Holds(lib, c, ctx) <==> CheckIn(FieldValue("tool_names", ctx), c.value);
    if CheckIn(FieldValue("tool_names", ctx), c.value) {
      var i :| 0 <= i < |names| && Member(names[i], c.value.items);
      var k :| 0 <= k < |c.value.items| && Same(names[i], c.value.items[k]);
      assert c.value.items[k] == Str(ctx.toolNames[i]);
    }
    if i, k :| 0 <= i < |ctx.toolNames| && 0 <= k < |c.value.items| && c.value.items[k] == Str(ctx.toolNames[i]) {
      assert Same(names[i], c.value.items[k]);
      assert Member(names[i], c.value.items);
    }
  }

  /** A pattern is searched for in the field, unless it is too long or suspicious. */
  lemma RegexExactly(lib: Library, c: Condition, ctx: Context, pattern: string)
    requires Plain(c, "regex") && c.field == "user_text" && lib.render(c.value) == pattern
    requires lib.render(One(Str(ctx.userText))) == ctx.userText
    ensures |pattern| > 500 || lib.suspicious(pattern) ==> !Holds(lib, c, ctx)
    ensures |pattern| <= 500 && !lib.suspicious(pattern) ==> (Holds(lib, c, ctx) <==> lib.search(pattern, ctx.userText))
  {
    assert FieldValue("user_text", ctx) == One(Str(ctx.userText));
  }

  // ---------------------------------------------------------------------------
  // Fields
  // ---------------------------------------------------------------------------

  /** The condition that a field equals a scalar. */
  function Equals(field: string, x: Scalar): Condition {
    Condition("any", field, "eq", One(x), false)
  }

  /** Each text field is the one it says; an optional one, if absent, equals nothing but null. */
  lemma TextFieldsExactly(lib: Library, ctx: Context, s: string)
    ensures Holds(lib, Equals("user_text", Str(s)), ctx) <==> ctx.userText == s
    ensures Holds(lib, Equals("system_prompt", Str(s)), ctx) <==> ctx.systemPrompt == s
    ensures Holds(lib, Equals("all_text", Str(s)), ctx) <==> ctx.allText == s
    ensures Holds(lib, Equals("original_model", Str(s)), ctx) <==> ctx.originalModel == s
  {
  }

  lemma OptionalFieldsExactly(lib: Library, ctx: Context, s: string)
    ensures Holds(lib, Equals("classified_intent", Str(s)), ctx) <==> ctx.classifiedIntent == Some(s)
    ensures Holds(lib, Equals("detected_language", Str(s)), ctx) <==> ctx.detectedLanguage == Some(s)
    ensures Holds(lib, Equals("day_of_week", Str(s)), ctx) <==> ctx.dayOfWeek == Some(s)
    ensures Holds(lib, Equals("classified_intent", Null), ctx) <==> ctx.classifiedIntent.None?
    ensures Holds(lib, Equals("detected_language", Null), ctx) <==> ctx.detectedLanguage.None?
    ensures Holds(lib, Equals("day_of_week", Null), ctx) <==> ctx.dayOfWeek.None?
  {
  }

  /** Each number is the one it says; a truth value equals one or zero. */
  lemma NumberFieldsExactly(lib: Library, ctx: Context, n: int)
    ensures Holds(lib, Equals("estimated_tokens", Num(n as real)), ctx) <==> ctx.estimatedTokens == n
    ensures Holds(lib, Equals("conversation_turns", Num(n as real)), ctx) <==> ctx.conversationTurns == n
    ensures Holds(lib, Equals("tool_count", Num(n as real)), ctx) <==> ctx.toolCount == n
  {
  }

  lemma OptionalNumbersExactly(lib: Library, ctx: Context, n: int)
    ensures Holds(lib, Equals("hour_of_day", Num(n as real)), ctx) <==> ctx.hourOfDay == Some(n)
    ensures Holds(lib, Equals("request_count_hourly", Num(n as real)), ctx) <==> ctx.requestCountHourly == Some(n)
    ensures Holds(lib, Equals("has_code_blocks", Num(n as real)), ctx) <==> n == if ctx.hasCodeBlocks then 1 else 0
    ensures Holds(lib, Equals("has_error_trace", Num(n as real)), ctx) <==> n == if ctx.hasErrorTrace then 1 else 0
  {
  }

  lemma CostFieldsExactly(lib: Library, ctx: Context, x: real)
    ensures Holds(lib, Equals("daily_cost", Num(x)), ctx) <==> ctx.dailyCost == Some(x)
    ensures Holds(lib, Equals("monthly_cost", Num(x)), ctx) <==> ctx.monthlyCost == Some(x)
  {
  }

  lemma {:induction false} NamedToolsAre(tools: seq<Tool>)
    ensures forall name :: name in NamedTools(tools) <==>
                           name != "" && exists i :: 0 <= i < |tools| && tools[i].functionName == name
  {
    if tools != [] {
      var before, last := tools[..|tools| - 1], tools[|tools| - 1];
      NamedToolsAre(before);
      forall name ensures name in NamedTools(tools) <==>
                          name != "" && exists i :: 0 <= i < |tools| && tools[i].functionName == name
      {
        if i :| 0 <= i < |before| && before[i].functionName == name {
          assert tools[i].functionName == name;
        }
        if i :| 0 <= i < |tools| && tools[i].functionName == name {
          assert i < |before| ==> before[i].functionName == name;
        }
      }
    }
  }

  /** What a request is known by: the three texts, counts, signs of code and errors, and functions among its tools. */
  lemma RequestFacts(lib: Library, r: Request, clock: Clock, intent: Option<string>)
    ensures var ctx, messages := ContextOf(lib, r, clock, intent), MessagesOf(r);
            var all := AllText(messages);
            && ctx.userText == UserText(messages) && ctx.systemPrompt == SystemPrompt(r) && ctx.allText == all
            && (ctx.hasCodeBlocks <==> Occurs("```", all))
            && (ctx.hasErrorTrace <==> Occurs("Traceback", all) || Occurs("Error:", all) || Occurs("Exception", all))
            && ctx.conversationTurns == UserTurns(messages) && ctx.toolCount == |r.tools|
            && (forall name :: name in ctx.toolNames <==>
                               name != "" && exists i :: 0 <= i < |r.tools| && r.tools[i].functionName == name)
            && ctx.originalModel == r.model && ctx.classifiedIntent == intent
  {
    var all := AllText(MessagesOf(r));
    OccursExactly("```", all);
    OccursExactly("Traceback", all);
    OccursExactly("Error:", all);
    OccursExactly("Exception", all);
    NamedToolsAre(r.tools);
  }

  // ---------------------------------------------------------------------------
  // A whole rule
  // ---------------------------------------------------------------------------

  /** An active rule for requests whose user text contains a word. */
  predicate KeywordRule(rule: Rule, word: string) {
    Candidate(rule) && rule.conditions == [Condition("text_pattern", "user_text", "contains", One(Str(word)), false)]
  }

  /** Such a rule, if it is the only one, takes exactly the requests whose user text has the word, in any case. */
  lemma KeywordRoutes(lib: Library, r: Request, clock: Clock, rule: Rule, word: string, classifier: Option<Classifier>)
    requires KeywordRule(rule, word) && forall s :: lib.render(One(Str(s))) == s
    ensures var m := SingleItem(lib, r, clock, [rule], classifier);
            && (m.Some? <==> Occurs(lib.lower(word), lib.lower(UserText(MessagesOf(r)))))
            && (m.Some? ==> m.value.rule == rule && m.value.target == rule.target)
  {
    var ctx := ContextOf(lib, r, clock, IntentFor([rule], classifier, Text(UserText(MessagesOf(r)))));
    var c := rule.conditions[0];
    assert FieldValue("user_text", ctx) == One(Str(UserText(MessagesOf(r))));
    ContainsExactly(lib, c, ctx);
    assert AllHold(lib, rule.conditions, ctx) <==> Holds(lib, c, ctx);
    assert rule in [rule];
    EvaluateMeaning(lib, [rule], ctx);
  }
}
