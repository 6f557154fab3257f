/** Rule conditions: a field of the evaluation context compared with an expected value. */
module Conditions {
  import opened Prelude
  import opened Messages

  datatype Scalar = Null | Bool(b: bool) | Num(x: real) | Str(s: string)

  /** A JSON value as conditions use them: a scalar, or a list of scalars. */
  datatype Value = One(scalar: Scalar) | Many(items: seq<Scalar>)

  datatype Condition = Condition(kind: string, field: string, operator: string, value: Value, negate: bool)

  datatype Context = Context(userText: string, systemPrompt: string, allText: string, estimatedTokens: int,
                             conversationTurns: int, hasCodeBlocks: bool, hasErrorTrace: bool, toolCount: int,
                             toolNames: seq<string>, originalModel: string, classifiedIntent: Option<string>,
                             detectedLanguage: Option<string>, hourOfDay: Option<int>, dayOfWeek: Option<string>,
                             dailyCost: Option<real>, monthlyCost: Option<real>, requestCountHourly: Option<int>)

  /** A float as comparisons see it: `float` on text also accepts "nan" and "inf". */
  datatype Number = NotANumber | MinusInfinity | Finite(x: real) | PlusInfinity

  /** Library behaviour taken as given: `str`, `lower`, `float` on text, the ReDoS screen and the regex search. */
  datatype Library = Library(render: Value -> string, lower: string -> string, toFloat: string -> Option<Number>,
                             suspicious: string -> bool, search: (string, string) -> bool,
                             tokens: string -> int, language: string -> Option<string>)

  const ALLOWED_FIELDS: set<string> := {
    "user_text", "system_prompt", "all_text", "estimated_tokens", "conversation_turns", "has_code_blocks",
    "has_error_trace", "tool_count", "tool_names", "original_model", "classified_intent", "detected_language",
    "hour_of_day", "day_of_week", "daily_cost", "monthly_cost", "request_count_hourly"
  }

  // ---------------------------------------------------------------------------
  // Values
  // ---------------------------------------------------------------------------

  function OptText(t: Option<string>): Value {
    One(if t.Some? then Str(t.value) else Null)
  }

  function OptInt(n: Option<int>): Value {
    One(if n.Some? then Num(n.value as real) else Null)
  }

  function OptReal(x: Option<real>): Value {
    One(if x.Some? then Num(x.value) else Null)
  }

  function FieldValue(field: string, ctx: Context): Value {
    match field
    case "user_text" => One(Str(ctx.userText))
    case "system_prompt" => One(Str(ctx.systemPrompt))
    case "all_text" => One(Str(ctx.allText))
    case "estimated_tokens" => One(Num(ctx.estimatedTokens as real))
    case "conversation_turns" => One(Num(ctx.conversationTurns as real))
    case "has_code_blocks" => One(Bool(ctx.hasCodeBlocks))
    case "has_error_trace" => One(Bool(ctx.hasErrorTrace))
    case "tool_count" => One(Num(ctx.toolCount as real))
    case "tool_names" => Many(seq(|ctx.toolNames|, i requires 0 <= i < |ctx.toolNames| => Str(ctx.toolNames[i])))
    case "original_model" => One(Str(ctx.originalModel))
    case "classified_intent" => OptText(ctx.classifiedIntent)
    case "detected_language" => OptText(ctx.detectedLanguage)
    case "hour_of_day" => OptInt(ctx.hourOfDay)
    case "day_of_week" => OptText(ctx.dayOfWeek)
    case "daily_cost" => OptReal(ctx.dailyCost)
    case "monthly_cost" => OptReal(ctx.monthlyCost)
    case "request_count_hourly" => OptInt(ctx.requestCountHourly)
    case _ => One(Null)
  }

  function AsNumber(s: Scalar): Option<real> {
    match s
    case Num(x) => Some(x)
    case Bool(b) => Some(if b then 1.0 else 0.0)
    case Null => None
    case Str(_) => None
  }

  /** Python's `==` on scalars: truth values compare as the numbers one and zero. */
  predicate Same(a: Scalar, b: Scalar) {
    if AsNumber(a).Some? && AsNumber(b).Some? then AsNumber(a) == AsNumber(b) else a == b
  }

  predicate SameValue(a: Value, b: Value) {
    match (a, b)
    case (One(x), One(y)) => Same(x, y)
    case (Many(xs), Many(ys)) => |xs| == |ys| && forall i :: 0 <= i < |xs| ==> Same(xs[i], ys[i])
    case _ => false
  }

  predicate Member(x: Scalar, xs: seq<Scalar>) {
    exists i :: 0 <= i < |xs| && Same(x, xs[i])
  }

  function Numeric(lib: Library, v: Value): Number {
    match v
    case Many(_) => Finite(0.0)
    case One(Str(s)) => if lib.toFloat(s).Some? then lib.toFloat(s).value else Finite(0.0)
    case One(s) => Finite(if AsNumber(s).Some? then AsNumber(s).value else 0.0)
  }

  /** Every comparison with a NaN is false. */
  predicate Less(a: Number, b: Number) {
    match (a, b)
    case (NotANumber, _) => false
    case (_, NotANumber) => false
    case (Finite(x), Finite(y)) => x < y
    case _ => (a.MinusInfinity? && !b.MinusInfinity?) || (b.PlusInfinity? && !a.PlusInfinity?)
  }

  predicate LessOrEqual(a: Number, b: Number) {
    Less(a, b) || (a == b && !a.NotANumber?)
  }

  predicate Substring(needle: string, haystack: string) {
    exists i :: 0 <= i <= |haystack| - |needle| && haystack[i..][..|needle|] == needle
  }

  predicate StrContains(lib: Library, haystack: Value, needle: Value) {
    haystack != One(Null) && Substring(lib.lower(lib.render(needle)), lib.lower(lib.render(haystack)))
  }

  predicate CheckIn(field: Value, expected: Value) {
    && expected.Many?
    && match field
       case Many(xs) => exists i :: 0 <= i < |xs| && Member(xs[i], expected.items)
       case One(x) => Member(x, expected.items)
  }

  // ---------------------------------------------------------------------------
  // Conditions
  // ---------------------------------------------------------------------------

  predicate Raw(lib: Library, c: Condition, ctx: Context) {
    var value, expected := FieldValue(c.field, ctx), c.value;
    match c.operator
    case "eq" => SameValue(value, expected)
    case "contains" => StrContains(lib, value, expected)
    case "regex" =>
      var pattern := lib.render(expected);
      |pattern| <= 500 && !lib.suspicious(pattern) && lib.search(pattern, lib.render(value))
    case "gt" => Less(Numeric(lib, expected), Numeric(lib, value))
    case "lt" => Less(Numeric(lib, value), Numeric(lib, expected))
    case "gte" => LessOrEqual(Numeric(lib, expected), Numeric(lib, value))
    case "lte" => LessOrEqual(Numeric(lib, value), Numeric(lib, expected))
    case "between" =>
      && expected.Many? && |expected.items| == 2
      && LessOrEqual(Numeric(lib, One(expected.items[0])), Numeric(lib, value))
      && LessOrEqual(Numeric(lib, value), Numeric(lib, One(expected.items[1])))
    case "in" => CheckIn(value, expected)
    case "not_in" => !CheckIn(value, expected)
    case _ => false
  }

  /** A field outside the allowed set never matches, negated or not. */
  predicate Holds(lib: Library, c: Condition, ctx: Context) {
    c.field in ALLOWED_FIELDS && (if c.negate then !Raw(lib, c, ctx) else Raw(lib, c, ctx))
  }

  predicate Comparable(lib: Library, c: Condition, ctx: Context) {
    !Numeric(lib, FieldValue(c.field, ctx)).NotANumber? && !Numeric(lib, c.value).NotANumber?
  }

  /** Negation complements a condition exactly on the allowed fields, and so does `not_in` of `in`. */
  lemma Complements(lib: Library, c: Condition, ctx: Context)
    ensures Holds(lib, c.(negate := !c.negate), ctx) != Holds(lib, c, ctx) <==> c.field in ALLOWED_FIELDS
    ensures c.field in ALLOWED_FIELDS ==>
              Holds(lib, c.(operator := "not_in"), ctx) == Holds(lib, c.(operator := "in", negate := !c.negate), ctx)
  {
    assert Raw(lib, c.(negate := true), ctx) == Raw(lib, c.(negate := false), ctx);
    assert Raw(lib, c.(operator := "not_in"), ctx) == !Raw(lib, c.(operator := "in", negate := !c.negate), ctx);
  }

  /** `gt` is the negation of `lte`, and `lt` of `gte`, exactly when neither side is a NaN. */
  lemma OrderComplementsExactly(lib: Library, c: Condition, ctx: Context)
    requires c.field in ALLOWED_FIELDS
    ensures Holds(lib, c.(operator := "gt"), ctx) == Holds(lib, c.(operator := "lte", negate := !c.negate), ctx) <==>
            Comparable(lib, c, ctx)
    ensures Holds(lib, c.(operator := "lt"), ctx) == Holds(lib, c.(operator := "gte", negate := !c.negate), ctx) <==>
            Comparable(lib, c, ctx)
  {
    var value, expected := Numeric(lib, FieldValue(c.field, ctx)), Numeric(lib, c.value);
    Trichotomy(value, expected);
    assert Raw(lib, c.(operator := "gt"), ctx) == Less(expected, value);
    assert Raw(lib, c.(operator := "lt"), ctx) == Less(value, expected);
    assert Raw(lib, c.(operator := "lte", negate := !c.negate), ctx) == LessOrEqual(value, expected);
    assert Raw(lib, c.(operator := "gte", negate := !c.negate), ctx) == LessOrEqual(expected, value);
  }

  lemma Trichotomy(a: Number, b: Number)
    ensures Less(a, b) != LessOrEqual(b, a) <==> !a.NotANumber? && !b.NotANumber?
    ensures Less(b, a) != LessOrEqual(a, b) <==> !a.NotANumber? && !b.NotANumber?
  {
  }

  /** A user who writes "nan" makes every numeric comparison of the text fail, so no pair of operators covers it. */
  lemma NanFailsBoth(lib: Library, c: Condition, ctx: Context)
    requires c.field == "user_text" && ctx.userText == "nan" && lib.toFloat("nan") == Some(NotANumber) && !c.negate
    ensures !Holds(lib, c.(operator := "gt"), ctx) && !Holds(lib, c.(operator := "lte"), ctx)
    ensures !Holds(lib, c.(operator := "lt"), ctx) && !Holds(lib, c.(operator := "gte"), ctx)
  {
    assert FieldValue(c.field, ctx) == One(Str("nan"));
    assert Numeric(lib, FieldValue(c.field, ctx)).NotANumber?;
  }

  /** `between` holds just if its value is a list of two with `gte` the first and `lte` the second, NaN included. */
  lemma BetweenIsTwoBounds(lib: Library, c: Condition, ctx: Context)
    requires !c.negate
    ensures Holds(lib, c.(operator := "between"), ctx) <==>
            && c.value.Many? && |c.value.items| == 2
            && Holds(lib, c.(operator := "gte", value := One(c.value.items[0])), ctx)
            && Holds(lib, c.(operator := "lte", value := One(c.value.items[1])), ctx)
  {
    if c.value.Many? && |c.value.items| == 2 {
      var b, value := c.(operator := "between"), Numeric(lib, FieldValue(c.field, ctx));
      var lo, hi := One(c.value.items[0]), One(c.value.items[1]);
      assert Raw(lib, b, ctx) <==> LessOrEqual(Numeric(lib, lo), value) && LessOrEqual(value, Numeric(lib, hi));
      assert Raw(lib, c.(operator := "gte", value := lo), ctx) <==> LessOrEqual(Numeric(lib, lo), value);
      assert Raw(lib, c.(operator := "lte", value := hi), ctx) <==> LessOrEqual(value, Numeric(lib, hi));
    }
  }

  // ---------------------------------------------------------------------------
  // The context of a request
  // ---------------------------------------------------------------------------

  datatype Clock = Clock(hour: int, day: string)

  function NamedTools(tools: seq<Tool>): seq<string> {
    if tools == [] then []
    else if tools[|tools| - 1].functionName != "" then
        NamedTools(tools[..|tools| - 1]) + [tools[|tools| - 1].functionName]
    else NamedTools(tools[..|tools| - 1])
  }

  function ContextOf(lib: Library, r: Request, clock: Clock, intent: Option<string>): Context {
    var messages := MessagesOf(r);
    var all := AllText(messages);
    Context(UserText(messages), SystemPrompt(r), all, lib.tokens(all), UserTurns(messages), Substring("```", all),
            Substring("Traceback", all) || Substring("Error:", all) || Substring("Exception", all),
            |r.tools|, NamedTools(r.tools), r.model, intent, lib.language(UserText(messages)),
            Some(clock.hour), Some(clock.day), None, None, None)
  }
}
