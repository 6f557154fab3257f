/** The cache in front of the static classifier: keys, payloads, and why no answer ever changes. */
module CachingClassifier {
  import opened Prelude
  import opened Cache
  import opened Messages
  import opened StaticScore
  import opened Fingerprint
  import Tiers

  datatype Json = JNull | JString(text: string) | JInt(n: int) | JReal(x: real) | JObject(fields: map<string, Json>)
    | JOther

  /** A result as the caller gets it: score and confidence are whatever the payload holds. */
  datatype Served = Served(tier: string, strategy: string, score: Json, confidence: Json)

  /** The wrapped classifier: any function of the request. */
  type Inner = Request -> ClassificationResult

  /** The static classifier with its fixed configuration. */
  function Static(text: TextTools, config: Config, tiers: seq<Tiers.Tier>): Inner {
    r => StaticScore.Classify(text, config, tiers, r)
  }

  // ---------------------------------------------------------------------------
  // Payloads
  // ---------------------------------------------------------------------------

  function IntOrNull(n: Option<int>): Json {
    if n.Some? then JInt(n.value) else JNull
  }

  function RealOrNull(x: Option<real>): Json {
    if x.Some? then JReal(x.value) else JNull
  }

  function AsServed(r: ClassificationResult): Served {
    Served(r.tier, r.strategy, IntOrNull(r.score), RealOrNull(r.confidence))
  }

  function ToDict(r: ClassificationResult): Json {
    JObject(map["tier" := JString(r.tier), "strategy" := JString(r.strategy),
                "score" := IntOrNull(r.score), "confidence" := RealOrNull(r.confidence)])
  }

  function Lookup(fields: map<string, Json>, name: string): Json {
    if name in fields then fields[name] else JNull
  }

  /** Absent when the payload is no object or lacks a textual tier or strategy. */
  function FromDict(payload: Json): Option<Served> {
    if !payload.JObject? then None
    else
      var tier, strategy := Lookup(payload.fields, "tier"), Lookup(payload.fields, "strategy");
      if !tier.JString? || !strategy.JString? then None
      else Some(Served(tier.text, strategy.text, Lookup(payload.fields, "score"), Lookup(payload.fields, "confidence")))
  }

  /** What is written is what is read, and different results stay different. */
  lemma PayloadRoundTrip(r: ClassificationResult, q: ClassificationResult)
    ensures FromDict(ToDict(r)) == Some(AsServed(r))
    ensures ToDict(r) == ToDict(q) <==> r == q
    ensures AsServed(r) == AsServed(q) <==> r == q
  {
    assert Lookup(ToDict(r).fields, "tier") == JString(r.tier) &&
           Lookup(ToDict(r).fields, "strategy") == JString(r.strategy);
    assert Lookup(ToDict(r).fields, "score") == IntOrNull(r.score) &&
           Lookup(ToDict(r).fields, "confidence") == RealOrNull(r.confidence);
    assert FromDict(ToDict(q)) == Some(AsServed(q)) by {
      assert Lookup(ToDict(q).fields, "tier") == JString(q.tier) &&
             Lookup(ToDict(q).fields, "strategy") == JString(q.strategy);
      assert Lookup(ToDict(q).fields, "score") == IntOrNull(q.score) &&
             Lookup(ToDict(q).fields, "confidence") == RealOrNull(q.confidence);
    }
  }

  // ---------------------------------------------------------------------------
  // Keys
  // ---------------------------------------------------------------------------

  const KEY_PREFIX := "cache:classifier:"

  const GLOBAL_SCOPE := "_global_"

  /** The text of a UUID, as far as keys depend on it: 36 characters, none a colon. */
  predicate UuidText(text: string) {
    |text| == 36 && forall i :: 0 <= i < |text| ==> text[i] != ':'
  }

  predicate IsTenant(tenant: Option<string>) {
    tenant.Some? ==> UuidText(tenant.value)
  }

  function Scope(tenant: Option<string>): string {
    if tenant.Some? then tenant.value else GLOBAL_SCOPE
  }

  function MakeCacheKey(tenant: Option<string>, fingerprint: string): string {
    KEY_PREFIX + Scope(tenant) + ":" + fingerprint
  }

  function FirstColon(text: string): nat {
    if text == "" || text[0] == ':' then 0 else 1 + FirstColon(text[1..])
  }

  lemma {:induction false} ScopeEndsAtColon(scope: string, rest: string)
    requires forall i :: 0 <= i < |scope| ==> scope[i] != ':'
    ensures FirstColon(scope + ":" + rest) == |scope|
  {
    if scope == "" {
      assert scope + ":" + rest == ":" + rest;
    } else {
      ScopeEndsAtColon(scope[1..], rest);
      assert (scope + ":" + rest)[1..] == scope[1..] + ":" + rest;
    }
  }

  lemma KeyParts(tenant: Option<string>, fingerprint: string)
    requires IsTenant(tenant)
    ensures MakeCacheKey(tenant, fingerprint) == KEY_PREFIX + (Scope(tenant) + ":" + fingerprint)
    ensures FirstColon(Scope(tenant) + ":" + fingerprint) == |Scope(tenant)|
  {
    ScopeEndsAtColon(Scope(tenant), fingerprint);
  }

  /** A key names one tenant, or none, and one fingerprint. */
  lemma KeyIsInjective(a: Option<string>, b: Option<string>, x: string, y: string)
    requires IsTenant(a) && IsTenant(b)
    ensures MakeCacheKey(a, x) == MakeCacheKey(b, y) <==> a == b && x == y
  {
    if MakeCacheKey(a, x) == MakeCacheKey(b, y) {
      KeyParts(a, x);
      KeyParts(b, y);
      SameTail(KEY_PREFIX, Scope(a) + ":" + x, Scope(b) + ":" + y);
      SameCut(Scope(a) + ":", x, Scope(b) + ":", y);
      SameCut(Scope(a), ":", Scope(b), ":");
    }
  }

  // ---------------------------------------------------------------------------
  // One call
  // ---------------------------------------------------------------------------

  type Hash = seq<Byte> -> string

  type Fingerprinter = Request -> string

  /** The digest of the stream a request is fed as. */
  function StreamHash(hash: Hash): Fingerprinter {
    r => hash(Stream(Items(r)))
  }

  /** Which Redis operations of a call go through. */
  datatype Redis = Redis(reached: bool, cleaned: bool, dropped: bool, stored: bool)

  datatype State = State(entries: map<string, Payload<Json>>, hits: nat, misses: nat)

  const EMPTY := State(map[], 0, 0)

  function KeyOf(fp: Fingerprinter, tenant: Option<string>, r: Request): string {
    MakeCacheKey(tenant, fp(r))
  }

  /** The usable result under a key, if Redis answers and the payload has the right shape. */
  function Found(s: State, key: string, reached: bool): Option<Served> {
    if reached && key in s.entries && s.entries[key].Decodes? then FromDict(s.entries[key].value) else None
  }

  /** What one uninterrupted call answers. */
  function Answer(inner: Inner, fp: Fingerprinter, s: State, tenant: Option<string>, r: Request, redis: Redis): Served {
    match Found(s, KeyOf(fp, tenant, r), redis.reached)
    case Some(served) => served
    case None => AsServed(inner(r))
  }

  /** A payload that a call finds and cannot use; a JSON null counts as no payload. */
  predicate Dirty(s: State, key: string, reached: bool) {
    reached && key in s.entries && Found(s, key, reached).None? && s.entries[key] != Decodes(JNull)
  }

  /** The entry that stays when a call finds nothing usable: what did not decode or fit is deleted, if Redis answers. */
  function Cleaned(entries: map<string, Payload<Json>>, key: string, redis: Redis): map<string, Payload<Json>> {
    if !redis.reached || key !in entries then entries
    else if entries[key].Undecodable? then if redis.cleaned then Without(entries, key) else entries
    else if entries[key].value == JNull then entries
    else if redis.dropped then Without(entries, key) else entries
  }

  function AfterCall(inner: Inner, fp: Fingerprinter, s: State, tenant: Option<string>, r: Request, redis: Redis): State
  {
    var key := KeyOf(fp, tenant, r);
    if Found(s, key, redis.reached).Some? then s.(hits := s.hits + 1)
    else
      var kept := Cleaned(s.entries, key, redis);
      State(if redis.stored then kept[key := Decodes(ToDict(inner(r)))] else kept, s.hits, s.misses + 1)
  }

  // ---------------------------------------------------------------------------
  // Calls that interleave
  // ---------------------------------------------------------------------------

  type CallId = nat

  /** Between two awaits of a call: after a read that found nothing usable, after classifying, and at the end. */
  datatype Phase = Missed(dirty: bool) | Computed | Answered(served: Served)

  datatype Call = Call(tenant: Option<string>, request: Request, phase: Phase)

  datatype World = World(shared: State, calls: map<CallId, Call>)

  datatype Event =
    | Look(id: CallId, tenant: Option<string>, request: Request, reached: bool)
    | Drop(id: CallId, dropped: bool)
    | Compute(id: CallId)
    | Store(id: CallId, stored: bool)
    | Evict(key: string)
    | Corrupt(key: string, payload: Payload<Json>)

  function Goto(w: World, id: CallId, phase: Phase): map<CallId, Call>
    requires id in w.calls
  {
    w.calls[id := w.calls[id].(phase := phase)]
  }

  function SetEntries(w: World, entries: map<string, Payload<Json>>): World {
    w.(shared := w.shared.(entries := entries))
  }

  /** One atomic stretch of a call, or one event in Redis; an event that does not fit changes nothing. */
  function After(inner: Inner, fp: Fingerprinter, w: World, e: Event): World {
    match e
    case Look(id, tenant, r, reached) =>
      var key := KeyOf(fp, tenant, r);
      if id in w.calls then w
      else
        var found := Found(w.shared, key, reached);
        if found.Some? then World(w.shared.(hits := w.shared.hits + 1),
                                  w.calls[id := Call(tenant, r, Answered(found.value))])
        else w.(calls := w.calls[id := Call(tenant, r, Missed(Dirty(w.shared, key, reached)))])
    case Drop(id, dropped) =>
      if id !in w.calls || w.calls[id].phase != Missed(true) then w
      else
        var key := KeyOf(fp, w.calls[id].tenant, w.calls[id].request);
        World(if dropped then w.shared.(entries := Without(w.shared.entries, key)) else w.shared,
              Goto(w, id, Missed(false)))
    case Compute(id) =>
      if id !in w.calls || w.calls[id].phase != Missed(false) then w
      else World(w.shared.(misses := w.shared.misses + 1), Goto(w, id, Computed))
    case Store(id, stored) =>
      if id !in w.calls || w.calls[id].phase != Computed then w
      else
        var key, result := KeyOf(fp, w.calls[id].tenant, w.calls[id].request), inner(w.calls[id].request);
        World(if stored then w.shared.(entries := w.shared.entries[key := Decodes(ToDict(result))]) else w.shared,
              Goto(w, id, Answered(AsServed(result))))
    case Evict(key) => SetEntries(w, Without(w.shared.entries, key))
    case Corrupt(key, payload) => SetEntries(w, w.shared.entries[key := payload])
  }

  const NOTHING := World(EMPTY, map[])

  function Run(inner: Inner, fp: Fingerprinter, events: seq<Event>): World {
    if events == [] then NOTHING else After(inner, fp, Run(inner, fp, events[..|events| - 1]), events[|events| - 1])
  }

  /** The read of a call and, if there is something to drop, the drop. */
  function Opened(inner: Inner, fp: Fingerprinter, w: World, id: CallId, tenant: Option<string>, r: Request,
                  redis: Redis): World
  {
    var key := KeyOf(fp, tenant, r);
    var dropped := if key in w.shared.entries && w.shared.entries[key].Undecodable? then redis.cleaned
        else redis.dropped;
    After(inner, fp, After(inner, fp, w, Look(id, tenant, r, redis.reached)), Drop(id, dropped))
  }

  /** A call whose stretches nothing interrupts. */
  function Solo(inner: Inner, fp: Fingerprinter, w: World, id: CallId, tenant: Option<string>, r: Request,
                redis: Redis): World
  {
    After(inner, fp, After(inner, fp, Opened(inner, fp, w, id, tenant, r, redis), Compute(id)), Store(id, redis.stored))
  }

  lemma OpenedCall(inner: Inner, fp: Fingerprinter, w: World, id: CallId, tenant: Option<string>, r: Request,
                   redis: Redis)
    requires id !in w.calls
    ensures var key := KeyOf(fp, tenant, r);
            var found := Found(w.shared, key, redis.reached);
            Opened(inner, fp, w, id, tenant, r, redis) ==
            if found.Some? then World(w.shared.(hits := w.shared.hits + 1),
                                      w.calls[id := Call(tenant, r, Answered(found.value))])
            else World(w.shared.(entries := Cleaned(w.shared.entries, key, redis)),
                       w.calls[id := Call(tenant, r, Missed(false))])
  {
    var key := KeyOf(fp, tenant, r);
    if Found(w.shared, key, redis.reached).None? {
      assert w.calls[id := Call(tenant, r, Missed(true))][id := Call(tenant, r, Missed(false))] ==
             w.calls[id := Call(tenant, r, Missed(false))];
    }
  }

  /** It answers and leaves what the single-call functions say. */
  lemma SoloCall(inner: Inner, fp: Fingerprinter, w: World, id: CallId, tenant: Option<string>, r: Request,
                 redis: Redis)
    requires id !in w.calls
    ensures Solo(inner, fp, w, id, tenant, r, redis).shared == AfterCall(inner, fp, w.shared, tenant, r, redis)
    ensures id in Solo(inner, fp, w, id, tenant, r, redis).calls
    ensures Solo(inner, fp, w, id, tenant, r, redis).calls[id].phase ==
            Answered(Answer(inner, fp, w.shared, tenant, r, redis))
  {
    OpenedCall(inner, fp, w, id, tenant, r, redis);
    var begun := Opened(inner, fp, w, id, tenant, r, redis);
    if begun.calls[id].phase.Answered? {
      assert Solo(inner, fp, w, id, tenant, r, redis) == begun;
    } else {
      ClosedCall(inner, fp, begun, id, redis.stored);
    }
  }

  lemma ClosedCall(inner: Inner, fp: Fingerprinter, w: World, id: CallId, stored: bool)
    requires id in w.calls && w.calls[id].phase == Missed(false)
    ensures var closed := After(inner, fp, After(inner, fp, w, Compute(id)), Store(id, stored));
            var call, entries := w.calls[id], w.shared.entries;
            var key, payload := KeyOf(fp, call.tenant, call.request), Decodes(ToDict(inner(call.request)));
            var stays := if stored then entries[key := payload] else entries;
            && closed.shared == State(stays, w.shared.hits, w.shared.misses + 1)
            && id in closed.calls && closed.calls[id].phase == Answered(AsServed(inner(call.request)))
  {
  }

  // ---------------------------------------------------------------------------
  // Whole runs
  // ---------------------------------------------------------------------------

  /** Corruption that a read can notice: not JSON, or JSON of another shape. */
  predicate Detectable(e: Event) {
    e.Corrupt? && e.payload.Decodes? ==> FromDict(e.payload.value).None?
  }

  ghost predicate AllDetectable(events: seq<Event>) {
    forall i :: 0 <= i < |events| ==> Detectable(events[i])
  }

  /** Some call with this key has this result of the inner classifier. */
  ghost predicate Backed(inner: Inner, fp: Fingerprinter, w: World, key: string, served: Served) {
    exists j :: BackedBy(inner, fp, w, key, served, j)
  }

  ghost predicate BackedBy(inner: Inner, fp: Fingerprinter, w: World, key: string, served: Served, j: CallId) {
    j in w.calls && KeyOf(fp, w.calls[j].tenant, w.calls[j].request) == key &&
        served == AsServed(inner(w.calls[j].request))
  }

  /** Every usable entry and every answer repeats the inner result of some call with the same key. */
  ghost predicate Honest(inner: Inner, fp: Fingerprinter, w: World) {
    && (forall key :: key in w.shared.entries && Found(w.shared, key, true).Some? ==>
          Backed(inner, fp, w, key, Found(w.shared, key, true).value))
    && (forall id :: id in w.calls && w.calls[id].phase.Answered? ==>
          Backed(inner, fp, w, KeyOf(fp, w.calls[id].tenant, w.calls[id].request), w.calls[id].phase.served))
  }

  /** Calls keep their tenant and request for ever. */
  lemma CallsKeep(inner: Inner, fp: Fingerprinter, w: World, e: Event)
    ensures forall j :: j in w.calls ==>
              && j in After(inner, fp, w, e).calls
              && After(inner, fp, w, e).calls[j].tenant == w.calls[j].tenant
              && After(inner, fp, w, e).calls[j].request == w.calls[j].request
  {
  }

  lemma BackedLater(inner: Inner, fp: Fingerprinter, w: World, e: Event, key: string, served: Served)
    requires Backed(inner, fp, w, key, served)
    ensures Backed(inner, fp, After(inner, fp, w, e), key, served)
  {
    CallsKeep(inner, fp, w, e);
    var j :| BackedBy(inner, fp, w, key, served, j);
    assert BackedBy(inner, fp, After(inner, fp, w, e), key, served, j);
  }

  /** A usable entry that an event leaves behind was there before, or is the result the event stored. */
  lemma EntriesStayHonest(inner: Inner, fp: Fingerprinter, w: World, e: Event, key: string)
    requires Honest(inner, fp, w) && Detectable(e)
    requires var w' := After(inner, fp, w, e); key in w'.shared.entries && Found(w'.shared, key, true).Some?
    ensures var w' := After(inner, fp, w, e); Backed(inner, fp, w', key, Found(w'.shared, key, true).value)
  {
    var w' := After(inner, fp, w, e);
    if key in w.shared.entries && w.shared.entries[key] == w'.shared.entries[key] {
      BackedLater(inner, fp, w, e, key, Found(w.shared, key, true).value);
    } else {
      assert e.Store? && e.id in w.calls;
      PayloadRoundTrip(inner(w.calls[e.id].request), inner(w.calls[e.id].request));
      assert BackedBy(inner, fp, w', key, Found(w'.shared, key, true).value, e.id);
    }
  }

  /** An answer was given before, or was read from an honest entry, or is the call's own result. */
  lemma AnswersStayHonest(inner: Inner, fp: Fingerprinter, w: World, e: Event, id: CallId)
    requires Honest(inner, fp, w)
    requires var w' := After(inner, fp, w, e); id in w'.calls && w'.calls[id].phase.Answered?
    ensures var w' := After(inner, fp, w, e);
            Backed(inner, fp, w', KeyOf(fp, w'.calls[id].tenant, w'.calls[id].request), w'.calls[id].phase.served)
  {
    var w' := After(inner, fp, w, e);
    var key, served := KeyOf(fp, w'.calls[id].tenant, w'.calls[id].request), w'.calls[id].phase.served;
    if id in w.calls && w.calls[id] == w'.calls[id] {
      BackedLater(inner, fp, w, e, key, served);
    } else if e.Look? {
      assert Found(w.shared, key, true) == Some(served);
      BackedLater(inner, fp, w, e, key, served);
    } else {
      assert e.Store? && e.id == id;
      assert BackedBy(inner, fp, w', key, served, id);
    }
  }

  lemma {:induction false} AlwaysHonest(inner: Inner, fp: Fingerprinter, events: seq<Event>)
    requires AllDetectable(events)
    ensures Honest(inner, fp, Run(inner, fp, events))
  {
    if events != [] {
      var before, last := Run(inner, fp, events[..|events| - 1]), events[|events| - 1];
      AlwaysHonest(inner, fp, events[..|events| - 1]);
      StaysHonest(inner, fp, before, last);
    }
  }

  lemma StaysHonest(inner: Inner, fp: Fingerprinter, w: World, e: Event)
    requires Honest(inner, fp, w) && Detectable(e)
    ensures Honest(inner, fp, After(inner, fp, w, e))
  {
    var w' := After(inner, fp, w, e);
    forall key | key in w'.shared.entries && Found(w'.shared, key, true).Some?
      ensures Backed(inner, fp, w', key, Found(w'.shared, key, true).value)
    {
      EntriesStayHonest(inner, fp, w, e, key);
    }
    forall id | id in w'.calls && w'.calls[id].phase.Answered?
      ensures Backed(inner, fp, w', KeyOf(fp, w'.calls[id].tenant, w'.calls[id].request), w'.calls[id].phase.served)
    {
      AnswersStayHonest(inner, fp, w, e, id);
    }
  }

  ghost predicate Tenants(w: World) {
    forall id :: id in w.calls ==> IsTenant(w.calls[id].tenant)
  }

  ghost predicate IsAnswered(w: World, id: CallId) {
    id in w.calls && w.calls[id].phase.Answered?
  }

  /** Whatever a call answers is the inner result of a call by the same tenant with the same fingerprint. */
  lemma HitsStayWithTheirTenant(inner: Inner, fp: Fingerprinter, events: seq<Event>, id: CallId) returns (j: CallId)
    requires AllDetectable(events) && Tenants(Run(inner, fp, events)) && IsAnswered(Run(inner, fp, events), id)
    ensures var calls := Run(inner, fp, events).calls;
            && j in calls && calls[j].tenant == calls[id].tenant && fp(calls[j].request) == fp(calls[id].request)
            && calls[id].phase.served == AsServed(inner(calls[j].request))
  {
    AlwaysHonest(inner, fp, events);
    var w := Run(inner, fp, events);
    var key := KeyOf(fp, w.calls[id].tenant, w.calls[id].request);
    assert Backed(inner, fp, w, key, w.calls[id].phase.served);
    j :| BackedBy(inner, fp, w, key, w.calls[id].phase.served, j);
    KeyIsInjective(w.calls[j].tenant, w.calls[id].tenant, fp(w.calls[j].request), fp(w.calls[id].request));
  }

  /** Among the calls, those with the fingerprint of `r` classify like `r`. */
  ghost predicate Separates(inner: Inner, fp: Fingerprinter, w: World, r: Request) {
    forall j :: j in w.calls && fp(w.calls[j].request) == fp(r) ==> inner(w.calls[j].request) == inner(r)
  }

  /**
   In any run, with calls interleaved at their awaits, evictions, failed reads, writes and deletes, and detectable
   corruption, a call answers what the inner classifier would, if fingerprints separate what the classifier does.
   */
  lemma CacheNeverChangesAnswers(inner: Inner, fp: Fingerprinter, events: seq<Event>, id: CallId)
    requires AllDetectable(events) && Tenants(Run(inner, fp, events)) && IsAnswered(Run(inner, fp, events), id)
    requires Separates(inner, fp, Run(inner, fp, events), Run(inner, fp, events).calls[id].request)
    ensures var call := Run(inner, fp, events).calls[id]; call.phase.served == AsServed(inner(call.request))
  {
    var j := HitsStayWithTheirTenant(inner, fp, events, id);
  }

  /** All requests of the run are in the domain, and the hash keeps their streams apart from that of `r`. */
  ghost predicate WellHashed(hash: Hash, w: World, r: Request) {
    InDomain(r) && forall j :: j in w.calls ==> InDomain(w.calls[j].request) && NoCollision(hash, w.calls[j].request, r)
  }

  ghost predicate NoCollision(hash: Hash, a: Request, b: Request) {
    hash(Stream(Items(a))) == hash(Stream(Items(b))) ==> Stream(Items(a)) == Stream(Items(b))
  }

  /** For the static classifier and the fingerprint of the code, on the domain, they do. */
  lemma StaticSeparates(text: TextTools, config: Config, tiers: seq<Tiers.Tier>, hash: Hash, w: World, r: Request)
    requires WellHashed(hash, w, r)
    ensures Separates(Static(text, config, tiers), StreamHash(hash), w, r)
  {
    var inner, fp := Static(text, config, tiers), StreamHash(hash);
    forall j | j in w.calls && fp(w.calls[j].request) == fp(r) ensures inner(w.calls[j].request) == inner(r) {
      assert NoCollision(hash, w.calls[j].request, r);
      EqualStreamsClassifyAlike(text, config, tiers, w.calls[j].request, r);
    }
  }

  lemma StaticAnswersNeverChange(text: TextTools, config: Config, tiers: seq<Tiers.Tier>, hash: Hash,
                                 events: seq<Event>, id: CallId)
    requires var w := Run(Static(text, config, tiers), StreamHash(hash), events);
             AllDetectable(events) && Tenants(w) && IsAnswered(w, id) && WellHashed(hash, w, w.calls[id].request)
    ensures var call := Run(Static(text, config, tiers), StreamHash(hash), events).calls[id];
            call.phase.served == AsServed(Static(text, config, tiers)(call.request))
  {
    var inner, fp := Static(text, config, tiers), StreamHash(hash);
    var w := Run(inner, fp, events);
    StaticSeparates(text, config, tiers, hash, w, w.calls[id].request);
    CacheNeverChangesAnswers(inner, fp, events, id);
  }

  /**
   The precise condition for two requests that hash alike: the second is answered rightly just if both classify alike.
   */
  lemma FirstOfEqualHashesWins(inner: Inner, fp: Fingerprinter, tenant: Option<string>, a: Request, b: Request,
                               redis: Redis)
    requires fp(a) == fp(b) && redis.reached && redis.stored
    ensures Answer(inner, fp, AfterCall(inner, fp, EMPTY, tenant, a, redis), tenant, b, redis) ==
            AsServed(inner(b)) <==>
            inner(a) == inner(b)
  {
    PayloadRoundTrip(inner(a), inner(b));
  }

  /** The calls past their read: answered from the cache, or classified. */
  function Counted(w: World): set<CallId> {
    set id | id in w.calls && !w.calls[id].phase.Missed?
  }

  /** Each of them is counted once, as a hit or as a miss, however the calls interleave. */
  lemma {:induction false} CountersConserve(inner: Inner, fp: Fingerprinter, events: seq<Event>)
    ensures var w := Run(inner, fp, events); w.shared.hits + w.shared.misses == |Counted(w)|
  {
    if events != [] {
      CountersConserve(inner, fp, events[..|events| - 1]);
      CountersStep(inner, fp, Run(inner, fp, events[..|events| - 1]), events[|events| - 1]);
    }
  }

  lemma CountersStep(inner: Inner, fp: Fingerprinter, w: World, e: Event)
    requires w.shared.hits + w.shared.misses == |Counted(w)|
    ensures var w' := After(inner, fp, w, e); w'.shared.hits + w'.shared.misses == |Counted(w')|
  {
    var w' := After(inner, fp, w, e);
    CountedStep(inner, fp, w, e);
    if w'.shared.hits + w'.shared.misses != w.shared.hits + w.shared.misses {
      assert Counted(w') == Counted(w) + {e.id};
    }
  }

  /** The set of counted calls grows by the event's own call exactly when a counter does. */
  lemma CountedStep(inner: Inner, fp: Fingerprinter, w: World, e: Event)
    ensures var w' := After(inner, fp, w, e);
            var rise := w'.shared.hits + w'.shared.misses - w.shared.hits - w.shared.misses;
            && (rise == 0 || rise == 1)
            && (rise == 0 ==> Counted(w') == Counted(w))
            && (rise == 1 ==> (e.Look? || e.Compute?) && e.id !in Counted(w) && Counted(w') == Counted(w) + {e.id})
  {
  }

  /** Event `i` is a read that answers its call from the cache. */
  predicate ServesAt(inner: Inner, fp: Fingerprinter, events: seq<Event>, i: nat)
    requires i < |events|
  {
    events[i].Look? && events[i].id !in Run(inner, fp, events[..i]).calls
    && var key := KeyOf(fp, events[i].tenant, events[i].request);
       && events[i].reached && key in Run(inner, fp, events[..i]).shared.entries
       && var payload := Run(inner, fp, events[..i]).shared.entries[key];
          payload.Decodes? && FromDict(payload.value).Some?
  }

  /** How many events of the run are such reads. */
  function ServedCount(inner: Inner, fp: Fingerprinter, events: seq<Event>): nat {
    if events == [] then 0
    else
      var before := events[..|events| - 1];
      ServedCount(inner, fp, before) + if ServesAt(inner, fp, events, |before|) then 1 else 0
  }

  /** The hit counter counts them, and so the miss counter the calls that were classified. */
  lemma {:induction false} CountersExactly(inner: Inner, fp: Fingerprinter, events: seq<Event>)
    ensures var w := Run(inner, fp, events);
            && w.shared.hits == ServedCount(inner, fp, events)
            && w.shared.misses == |Counted(w)| - ServedCount(inner, fp, events)
  {
    CountersConserve(inner, fp, events);
    if events != [] {
      CountersExactly(inner, fp, events[..|events| - 1]);
    }
  }

  /** What a call stored is what the next read of the same tenant and fingerprint is answered with. */
  lemma StoredIsServed(inner: Inner, fp: Fingerprinter, w: World, id: CallId, next: CallId, r: Request)
    requires id in w.calls && w.calls[id].phase == Computed && next !in w.calls && next != id
    requires fp(r) == fp(w.calls[id].request)
    ensures var tenant, request := w.calls[id].tenant, w.calls[id].request;
            var w' := After(inner, fp, After(inner, fp, w, Store(id, true)), Look(next, tenant, r, true));
            && next in w'.calls && w'.calls[next] == Call(tenant, r, Answered(AsServed(inner(request))))
            && w'.shared.hits == w.shared.hits + 1 && w'.shared.misses == w.shared.misses
  {
    PayloadRoundTrip(inner(w.calls[id].request), inner(w.calls[id].request));
  }

  /** If Redis takes its deletes, a call whose result is not stored leaves nothing unusable under its key. */
  lemma UnusableIsDropped(inner: Inner, fp: Fingerprinter, s: State, tenant: Option<string>, r: Request, redis: Redis)
    requires redis.reached && redis.cleaned && redis.dropped && !redis.stored
    ensures var key, left := KeyOf(fp, tenant, r), AfterCall(inner, fp, s, tenant, r, redis).entries;
            key in left ==> key in s.entries && left[key] == s.entries[key] && left[key].Decodes?
                            && (left[key].value == JNull || FromDict(left[key].value).Some?)
    ensures var key, left := KeyOf(fp, tenant, r), AfterCall(inner, fp, s, tenant, r, redis).entries;
            forall k :: k != key ==> (k in left <==> k in s.entries) && (k in left ==> left[k] == s.entries[k])
  {
  }

  // ---------------------------------------------------------------------------
  // The classifier object
  // ---------------------------------------------------------------------------

  class CachedClassifier {
    const inner: Inner
    const hash: Hash
    const cache: CacheManager?<string, Json>
    var hitCount: nat
    var missCount: nat

    function Now(): State
      requires cache != null
      reads this, cache
    {
      State(cache.entries, hitCount, missCount)
    }

    constructor (inner: Inner, hash: Hash, cache: CacheManager?<string, Json>)
      ensures this.inner == inner && this.hash == hash && this.cache == cache && hitCount == 0 && missCount == 0
    {
      this.inner, this.hash, this.cache := inner, hash, cache;
      hitCount, missCount := 0, 0;
    }

    /** The read: a usable result, or nothing and whatever could be cleaned away is. */
    method Read(key: string, redis: Redis) returns (served: Option<Served>)
      requires cache != null
      modifies cache
      ensures served == Found(old(Now()), key, redis.reached)
      ensures cache.entries == if served.Some? then old(cache.entries) else Cleaned(old(cache.entries), key, redis)
    {
      served := None;
      var payload := cache.Get(key, redis.reached, redis.cleaned);
      if payload.Some? && payload.value != JNull {
        served := FromDict(payload.value);
        if served.None? {
          var _ := cache.Delete(key, redis.dropped);
        }
      }
    }

    method Classify(tenant: Option<string>, r: Request, redis: Redis) returns (result: Served)
      modifies this, if cache == null then {} else {cache}
      ensures cache == null ==> result == AsServed(inner(r)) && hitCount == old(hitCount) && missCount == old(missCount)
      ensures cache != null ==>
                && result == Answer(inner, StreamHash(hash), old(Now()), tenant, r, redis)
                && Now() == AfterCall(inner, StreamHash(hash), old(Now()), tenant, r, redis)
    {
      if cache == null {
        return AsServed(inner(r));
      }
      var bytes := FeedHash(r);
      var key := MakeCacheKey(tenant, hash(bytes));
      var served := Read(key, redis);
      if served.Some? {
        hitCount := hitCount + 1;
        return served.value;
      }
      var computed := inner(r);
      missCount := missCount + 1;
      var _ := cache.Set(key, ToDict(computed), redis.stored);
      result := AsServed(computed);
    }
  }
}
