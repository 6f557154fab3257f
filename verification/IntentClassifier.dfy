/** Custom intents: example rows grouped into definitions, and the best match over all of them. */
module IntentClassifier {
  import opened Prelude

  /** An example as the database has it; the embedding is packed bytes, absent or empty when there is none. */
  datatype ExampleRow = ExampleRow(intent: string, embedding: Option<seq<int>>, model: Option<string>)

  datatype IntentDefinition = IntentDefinition(name: string, embeddings: seq<seq<int>>)

  /** Similarity of an embedded text to a packed example: embedding, unpacking and cosine taken together. */
  type Similarity = (string, seq<int>) -> real

  // ---------------------------------------------------------------------------
  // Hydration
  // ---------------------------------------------------------------------------

  /** Of the active model, with a non-empty embedding. */
  predicate Usable(row: ExampleRow, activeModel: Option<string>) {
    Truthy(activeModel) && row.embedding.Some? && row.embedding.value != [] && row.model == activeModel
  }

  /** The intents in the order of their first row, usable or not. */
  function Names(rows: seq<ExampleRow>): seq<string> {
    if rows == [] then []
    else
      var before, last := Names(rows[..|rows| - 1]), rows[|rows| - 1];
      if last.intent in before then before else before + [last.intent]
  }

  function EmbeddingsOf(rows: seq<ExampleRow>, activeModel: Option<string>, name: string): seq<seq<int>> {
    if rows == [] then []
    else
      var before, last := EmbeddingsOf(rows[..|rows| - 1], activeModel, name), rows[|rows| - 1];
      if last.intent == name && Usable(last, activeModel) then before + [last.embedding.value] else before
  }

  function Definitions(names: seq<string>, rows: seq<ExampleRow>, activeModel: Option<string>): seq<IntentDefinition> {
    if names == [] then []
    else
      var before, name := Definitions(names[..|names| - 1], rows, activeModel), names[|names| - 1];
      var embeddings := EmbeddingsOf(rows, activeModel, name);
      if embeddings == [] then before else before + [IntentDefinition(name, embeddings)]
  }

  lemma {:induction false} NamesCover(rows: seq<ExampleRow>)
    ensures forall i :: 0 <= i < |rows| ==> rows[i].intent in Names(rows)
    ensures forall i, j :: 0 <= i < j < |Names(rows)| ==> Names(rows)[i] != Names(rows)[j]
  {
    if rows != [] {
      NamesCover(rows[..|rows| - 1]);
      forall i | 0 <= i < |rows| ensures rows[i].intent in Names(rows) {
        assert i < |rows| - 1 ==> rows[i] == rows[..|rows| - 1][i];
      }
    }
  }

  /** The grouping loop, over a dictionary that keeps insertion order. */
  method Group(rows: seq<ExampleRow>, activeModel: Option<string>)
    returns (names: seq<string>, groups: map<string, seq<seq<int>>>)
    requires Truthy(activeModel)
    ensures names == Names(rows)
    ensures forall n :: n in groups <==> n in names
    ensures forall n :: n in groups ==> groups[n] == EmbeddingsOf(rows, activeModel, n)
  {
    names, groups := [], map[];
    for i := 0 to |rows|
      invariant names == Names(rows[..i])
      invariant forall n :: n in groups <==> n in names
      invariant forall n :: EmbeddingsOf(rows[..i], activeModel, n) == if n in groups then groups[n] else []
    {
      var row := rows[i];
      assert rows[..i + 1][..i] == rows[..i];
      if row.intent !in groups {
        names, groups := names + [row.intent], groups[row.intent := []];
      }
      if row.embedding.None? || row.embedding.value == [] {
        continue;
      }
      if row.model != activeModel {
        continue;
      }
      groups := groups[row.intent := groups[row.intent] + [row.embedding.value]];
    }
    assert rows[..|rows|] == rows;
  }

  method Hydrate(rows: seq<ExampleRow>, activeModel: Option<string>) returns (definitions: seq<IntentDefinition>)
    ensures definitions == if Truthy(activeModel) then Definitions(Names(rows), rows, activeModel) else []
  {
    if !Truthy(activeModel) {
      return [];
    }
    var names, groups := Group(rows, activeModel);
    definitions := [];
    for i := 0 to |names|
      invariant definitions == Definitions(names[..i], rows, activeModel)
    {
      assert names[..i + 1][..i] == names[..i];
      assert names[i] in groups;
      if groups[names[i]] != [] {
        definitions := definitions + [IntentDefinition(names[i], groups[names[i]])];
      }
    }
    assert names[..|names|] == names;
  }

  // ---------------------------------------------------------------------------
  // Grouping loses no candidate and invents none
  // ---------------------------------------------------------------------------

  datatype Candidate = Candidate(intent: string, embedding: seq<int>)

  function CandidatesOf(name: string, embeddings: seq<seq<int>>): (all: seq<Candidate>)
    ensures |all| == |embeddings| && forall i :: 0 <= i < |all| ==> all[i] == Candidate(name, embeddings[i])
  {
    if embeddings == [] then []
    else CandidatesOf(name, embeddings[..|embeddings| - 1]) + [Candidate(name, embeddings[|embeddings| - 1])]
  }

  /** All candidates in the order the classifier visits them. */
  function Flat(definitions: seq<IntentDefinition>): seq<Candidate> {
    if definitions == [] then []
    else
      var last := definitions[|definitions| - 1];
      Flat(definitions[..|definitions| - 1]) + CandidatesOf(last.name, last.embeddings)
  }

  ghost predicate FromRow(c: Candidate, rows: seq<ExampleRow>, activeModel: Option<string>) {
    exists i :: 0 <= i < |rows| && Usable(rows[i], activeModel) && rows[i].intent == c.intent &&
        rows[i].embedding.value == c.embedding
  }

  lemma {:induction false} EmbeddingsComeFromRows(rows: seq<ExampleRow>, activeModel: Option<string>, name: string,
      e: seq<int>)
    ensures e in EmbeddingsOf(rows, activeModel, name) <==> FromRow(Candidate(name, e), rows, activeModel)
  {
    var c := Candidate(name, e);
    if rows != [] {
      var before, last := rows[..|rows| - 1], |rows| - 1;
      EmbeddingsComeFromRows(before, activeModel, name, e);
      if FromRow(c, before, activeModel) {
        var i :| 0 <= i < |before| && Usable(before[i], activeModel) && before[i].intent == name &&
            before[i].embedding.value == e;
        assert rows[i] == before[i];
      }
      if FromRow(c, rows, activeModel) {
        var i :| 0 <= i < |rows| && Usable(rows[i], activeModel) && rows[i].intent == name &&
            rows[i].embedding.value == e;
        assert i < last ==> before[i] == rows[i];
      }
    }
  }

  lemma {:induction false} FlatIs(names: seq<string>, rows: seq<ExampleRow>, activeModel: Option<string>, c: Candidate)
    ensures c in Flat(Definitions(names, rows, activeModel)) <==>
            c.intent in names && c.embedding in EmbeddingsOf(rows, activeModel, c.intent)
  {
    if names != [] {
      var before, name := names[..|names| - 1], names[|names| - 1];
      FlatIs(before, rows, activeModel, c);
      var definitions, embeddings := Definitions(before, rows, activeModel), EmbeddingsOf(rows, activeModel, name);
      assert names == before + [name];
      if embeddings != [] {
        assert (definitions + [IntentDefinition(name, embeddings)])[..|definitions|] == definitions;
        assert Flat(Definitions(names, rows, activeModel)) == Flat(definitions) + CandidatesOf(name, embeddings);
        InGroup(name, embeddings, c);
      }
    }
  }

  lemma InGroup(name: string, embeddings: seq<seq<int>>, c: Candidate)
    ensures c in CandidatesOf(name, embeddings) <==> c.intent == name && c.embedding in embeddings
  {
    var all := CandidatesOf(name, embeddings);
    if c.intent == name && c.embedding in embeddings {
      var i :| 0 <= i < |embeddings| && embeddings[i] == c.embedding;
      assert all[i] == c;
    }
  }

  /** The classifier's candidates are exactly the current, embedded rows, each under its own intent. */
  lemma HydrationIsExact(rows: seq<ExampleRow>, activeModel: Option<string>, c: Candidate)
    ensures c in Flat(Definitions(Names(rows), rows, activeModel)) <==> FromRow(c, rows, activeModel)
  {
    FlatIs(Names(rows), rows, activeModel, c);
    EmbeddingsComeFromRows(rows, activeModel, c.intent, c.embedding);
    NamesCover(rows);
  }

  // ---------------------------------------------------------------------------
  // The best match
  // ---------------------------------------------------------------------------

  /** Position `i` holds the greatest score, and the first such. */
  ghost predicate FirstBest(all: seq<Candidate>, similarity: Similarity, text: string, i: int) {
    && 0 <= i < |all|
    && (forall j :: 0 <= j < |all| ==> similarity(text, all[j].embedding) <= similarity(text, all[i].embedding))
    && (forall j :: 0 <= j < i ==> similarity(text, all[j].embedding) < similarity(text, all[i].embedding))
  }

  /** The loop's two variables, after the candidates `seen`: it starts at -1 and moves on strictly better ones. */
  ghost predicate Leads(seen: seq<Candidate>, similarity: Similarity, text: string, best: Option<string>, score: real) {
    match best
    case None => score == -1.0 && forall i :: 0 <= i < |seen| ==> similarity(text, seen[i].embedding) <= -1.0
    case Some(name) =>
      && score > -1.0
      && exists i :: && FirstBest(seen, similarity, text, i) && seen[i].intent == name
                     && similarity(text, seen[i].embedding) == score
  }

  lemma LeadsStep(seen: seq<Candidate>, c: Candidate, similarity: Similarity, text: string, best: Option<string>,
                  score: real)
    requires Leads(seen, similarity, text, best, score)
    ensures var s := similarity(text, c.embedding);
            if s > score then Leads(seen + [c], similarity, text, Some(c.intent), s)
                else Leads(seen + [c], similarity, text, best, score)
  {
    var s, more := similarity(text, c.embedding), seen + [c];
    if best.Some? {
      var i :| FirstBest(seen, similarity, text, i) && seen[i].intent == best.value &&
          similarity(text, seen[i].embedding) == score;
      if s <= score {
        assert FirstBest(more, similarity, text, i) && more[i] == seen[i];
      }
    }
    if s > score {
      assert FirstBest(more, similarity, text, |seen|) && more[|seen|] == c;
    }
  }

  method Classify(definitions: seq<IntentDefinition>, threshold: real, similarity: Similarity, text: string)
    returns (intent: Option<string>)
    ensures text == "" ==> intent.None?
    ensures text != "" ==>
              var all := Flat(definitions);
              && (intent.Some? ==> exists i :: FirstBest(all, similarity, text, i) && all[i].intent == intent.value &&
                                     similarity(text, all[i].embedding) >= threshold &&
                                         similarity(text, all[i].embedding) > -1.0)
              && (intent.None? ==> forall i :: 0 <= i < |all| ==>
                                     similarity(text, all[i].embedding) < threshold ||
                                         similarity(text, all[i].embedding) <= -1.0)
  {
    if text == "" || definitions == [] {
      return None;
    }
    var best: Option<string>, score := None, -1.0;
    for d := 0 to |definitions|
      invariant Leads(Flat(definitions[..d]), similarity, text, best, score)
    {
      best, score := ScanIntent(definitions[d], similarity, text, best, score, Flat(definitions[..d]));
      assert definitions[..d + 1][..d] == definitions[..d];
    }
    assert definitions[..|definitions|] == definitions;
    intent := if score >= threshold then best else None;
  }

  /** The inner loop: the examples of one intent. */
  method ScanIntent(d: IntentDefinition, similarity: Similarity, text: string, best: Option<string>, score: real,
                    ghost seen: seq<Candidate>)
    returns (best': Option<string>, score': real)
    requires Leads(seen, similarity, text, best, score)
    ensures Leads(seen + CandidatesOf(d.name, d.embeddings), similarity, text, best', score')
  {
    best', score' := best, score;
    ghost var all := CandidatesOf(d.name, d.embeddings);
    assert seen + all[..0] == seen;
    for k := 0 to |d.embeddings|
      invariant Leads(seen + all[..k], similarity, text, best', score')
    {
      LeadsStep(seen + all[..k], all[k], similarity, text, best', score');
      assert seen + all[..k] + [all[k]] == seen + all[..k + 1];
      var s := similarity(text, d.embeddings[k]);
      if s > score' {
        best', score' := Some(d.name), s;
      }
    }
    assert all[..|d.embeddings|] == all;
  }

  // ---------------------------------------------------------------------------
  // Hydration and classification together
  // ---------------------------------------------------------------------------

  function Score(similarity: Similarity, text: string, row: ExampleRow): real {
    if row.embedding.Some? then similarity(text, row.embedding.value) else 0.0
  }

  /** A usable row of this intent scores at least as high as every usable row. */
  ghost predicate OwnsBest(rows: seq<ExampleRow>, activeModel: Option<string>, similarity: Similarity, text: string,
                           intent: string, score: real)
  {
    && (exists i :: && 0 <= i < |rows| && Usable(rows[i], activeModel) && rows[i].intent == intent
                    && Score(similarity, text, rows[i]) == score)
    && (forall i :: 0 <= i < |rows| && Usable(rows[i], activeModel) ==> Score(similarity, text, rows[i]) <= score)
  }

  ghost predicate Reaches(rows: seq<ExampleRow>, activeModel: Option<string>, similarity: Similarity, text: string,
                          threshold: real)
  {
    exists i :: 0 <= i < |rows| && Usable(rows[i], activeModel) && Score(similarity, text, rows[i]) >= threshold
  }

  ghost predicate AboveMinusOne(rows: seq<ExampleRow>, activeModel: Option<string>, similarity: Similarity,
                                text: string)
  {
    exists i :: 0 <= i < |rows| && Usable(rows[i], activeModel) && Score(similarity, text, rows[i]) > -1.0
  }

  /**
   An intent is returned exactly when the text is not empty, a current row reaches the threshold, and a
   current row scores above -1; it then owns a row of maximal score. Stale rows have no say.
   */
  method ClassifyRows(rows: seq<ExampleRow>, activeModel: Option<string>, threshold: real, similarity: Similarity,
                      text: string)
    returns (intent: Option<string>, ghost score: real)
    ensures intent.Some? <==>
              text != "" && Reaches(rows, activeModel, similarity, text, threshold) &&
                  AboveMinusOne(rows, activeModel, similarity, text)
    ensures intent.Some? ==> score >= threshold && OwnsBest(rows, activeModel, similarity, text, intent.value, score)
    ensures intent.Some? ==> Truthy(activeModel) && exists i :: 0 <= i < |rows| && rows[i].intent == intent.value
                                                                && rows[i].model == activeModel
    ensures forall i, e ::
              (&& 0 <= i < |rows| && rows[i] == ExampleRow(rows[i].intent, Some(e), activeModel) && e != []
               && Truthy(activeModel) && text != ""
               && similarity(text, e) >= threshold && similarity(text, e) > -1.0) ==>
                intent.Some?
  {
    score := 0.0;
    var definitions := Hydrate(rows, activeModel);
    intent := Classify(definitions, threshold, similarity, text);
    if Truthy(activeModel) && text != "" {
      score := Conclude(rows, activeModel, threshold, similarity, text, intent);
    }
  }

  ghost predicate Picked(all: seq<Candidate>, threshold: real, similarity: Similarity, text: string,
                         intent: Option<string>)
  {
    && (intent.Some? ==> exists i :: FirstBest(all, similarity, text, i) && all[i].intent == intent.value &&
                           similarity(text, all[i].embedding) >= threshold && similarity(text, all[i].embedding) > -1.0)
    && (intent.None? ==> forall i :: 0 <= i < |all| ==>
                           similarity(text, all[i].embedding) < threshold || similarity(text, all[i].embedding) <= -1.0)
  }

  lemma RowIsCandidate(rows: seq<ExampleRow>, activeModel: Option<string>, i: nat) returns (j: int)
    requires i < |rows| && Usable(rows[i], activeModel)
    ensures var all := Flat(Definitions(Names(rows), rows, activeModel));
            0 <= j < |all| && all[j] == Candidate(rows[i].intent, rows[i].embedding.value)
  {
    var c := Candidate(rows[i].intent, rows[i].embedding.value);
    HydrationIsExact(rows, activeModel, c);
    var all := Flat(Definitions(Names(rows), rows, activeModel));
    assert c in all;
    j :| 0 <= j < |all| && all[j] == c;
  }

  lemma Conclude(rows: seq<ExampleRow>, activeModel: Option<string>, threshold: real, similarity: Similarity,
                 text: string, intent: Option<string>)
    returns (score: real)
    requires Picked(Flat(Definitions(Names(rows), rows, activeModel)), threshold, similarity, text, intent)
    ensures intent.Some? <==>
            Reaches(rows, activeModel, similarity, text, threshold) &&
                AboveMinusOne(rows, activeModel, similarity, text)
    ensures intent.Some? ==> score >= threshold && OwnsBest(rows, activeModel, similarity, text, intent.value, score)
  {
    var all := Flat(Definitions(Names(rows), rows, activeModel));
    score := 0.0;
    if intent.Some? {
      var k :| FirstBest(all, similarity, text, k) && all[k].intent == intent.value &&
               similarity(text, all[k].embedding) >= threshold && similarity(text, all[k].embedding) > -1.0;
      score := similarity(text, all[k].embedding);
      HydrationIsExact(rows, activeModel, all[k]);
      var i :| 0 <= i < |rows| && Usable(rows[i], activeModel) && rows[i].intent == all[k].intent &&
          rows[i].embedding.value == all[k].embedding;
      assert Score(similarity, text, rows[i]) == score;
      forall r | 0 <= r < |rows| && Usable(rows[r], activeModel) ensures Score(similarity, text, rows[r]) <= score {
        var j := RowIsCandidate(rows, activeModel, r);
      }
    } else if Reaches(rows, activeModel, similarity, text, threshold) &&
        AboveMinusOne(rows, activeModel, similarity, text) {
      var a :| 0 <= a < |rows| && Usable(rows[a], activeModel) && Score(similarity, text, rows[a]) >= threshold;
      var b :| 0 <= b < |rows| && Usable(rows[b], activeModel) && Score(similarity, text, rows[b]) > -1.0;
      var j := RowIsCandidate(rows, activeModel, a);
      var k := RowIsCandidate(rows, activeModel, b);
      assert false;
    }
  }

  /** At -1 it matters: the opposite vector reaches the threshold and is still passed over. */
  lemma OppositeIsPassedOver(similarity: Similarity, text: string, e: seq<int>, model: string)
    requires similarity(text, e) == -1.0 && e != [] && model != ""
    ensures var rows := [ExampleRow("i", Some(e), Some(model))];
            Reaches(rows, Some(model), similarity, text, -1.0) && !AboveMinusOne(rows, Some(model), similarity, text)
  {
    var rows := [ExampleRow("i", Some(e), Some(model))];
    assert Usable(rows[0], Some(model)) && Score(similarity, text, rows[0]) == -1.0;
  }
}
