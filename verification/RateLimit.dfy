/**
 The fixed-window rate limiter: concurrent checks that read the clock, increment a shared counter
 and set its expiry, with replies that may be lost at either step. Time is real, in seconds.
 */
module RateLimit {
  import opened Prelude

  type CallId = nat

  datatype Key = Key(tenant: nat, window: int)

  /** A stored counter; without an expiry it lives for ever. */
  datatype Counter = Counter(count: nat, expiresAt: Option<real>)

  datatype Verdict = Verdict(allowed: bool, limit: int, remaining: int, resetAt: int, degraded: bool)

  const TTL := 120.0

  function WindowOf(time: real): int {
    time.Floor / 60
  }

  function ResetAt(window: int): int {
    (window + 1) * 60
  }

  function Decide(rpm: int, window: int, count: nat): Verdict {
    Verdict(count <= rpm, rpm, Max(0, rpm - count), ResetAt(window), false)
  }

  function Degraded(rpm: int, window: int): Verdict {
    Verdict(false, rpm, 0, ResetAt(window), true)
  }

  // ---------------------------------------------------------------------------
  // The store
  // ---------------------------------------------------------------------------

  predicate Live(counters: map<Key, Counter>, k: Key, now: real) {
    k in counters && (counters[k].expiresAt.Some? ==> now < counters[k].expiresAt.value)
  }

  function CountOf(counters: map<Key, Counter>, k: Key, now: real): nat {
    if Live(counters, k, now) then counters[k].count else 0
  }

  /** INCR: a missing or expired key starts again from zero, without an expiry. */
  function Incremented(counters: map<Key, Counter>, k: Key, now: real): map<Key, Counter> {
    if Live(counters, k, now) then counters[k := counters[k].(count := counters[k].count + 1)]
    else counters[k := Counter(1, None)]
  }

  /** EXPIRE: nothing happens to a key that is not there. */
  function Expiring(counters: map<Key, Counter>, k: Key, now: real): map<Key, Counter> {
    if Live(counters, k, now) then counters[k := counters[k].(expiresAt := Some(now + TTL))] else counters
  }

  // ---------------------------------------------------------------------------
  // Interleaved checks
  // ---------------------------------------------------------------------------

  /** `First` is a check whose INCR answered 1 and that still has to set the expiry. */
  datatype Phase = Waiting | First | Done(verdict: Verdict)

  datatype Call = Call(tenant: nat, rpm: int, readAt: real, phase: Phase) {
    function Window(): int {
      WindowOf(readAt)
    }

    function CounterKey(): Key {
      Key(tenant, Window())
    }
  }

  datatype State = State(now: real, counters: map<Key, Counter>, calls: map<CallId, Call>)

  /** `delivered` tells whether the store applied the command, `answered` whether the reply arrived. */
  datatype Event =
    | Tick(elapsed: real)
    | Begin(call: CallId, tenant: nat, rpm: int)
    | Incr(call: CallId, delivered: bool, answered: bool)
    | Expire(call: CallId, delivered: bool, answered: bool)

  const START := State(0.0, map[], map[])

  predicate Enabled(s: State, e: Event) {
    match e
    case Tick(elapsed) => elapsed >= 0.0
    case Begin(c, _, _) => c !in s.calls
    case Incr(c, delivered, answered) => c in s.calls && s.calls[c].phase.Waiting? && (answered ==> delivered)
    case Expire(c, delivered, answered) => c in s.calls && s.calls[c].phase.First? && (answered ==> delivered)
  }

  function Finish(s: State, c: CallId, p: Phase): State
    requires c in s.calls
  {
    s.(calls := s.calls[c := s.calls[c].(phase := p)])
  }

  function Apply(s: State, e: Event): State
    requires Enabled(s, e)
  {
    match e
    case Tick(elapsed) => s.(now := s.now + elapsed)
    case Begin(c, tenant, rpm) => s.(calls := s.calls[c := Call(tenant, rpm, s.now, Waiting)])
    case Incr(c, delivered, answered) =>
      var call := s.calls[c];
      var k := call.CounterKey();
      var s' := if delivered then s.(counters := Incremented(s.counters, k, s.now)) else s;
      var count := CountOf(s.counters, k, s.now) + 1;
      Finish(s', c,
             if !answered then Done(Degraded(call.rpm, call.Window()))
             else if count == 1 then First
             else Done(Decide(call.rpm, call.Window(), count)))
    case Expire(c, delivered, answered) =>
      var call := s.calls[c];
      var s' := if delivered then s.(counters := Expiring(s.counters, call.CounterKey(), s.now)) else s;
      Finish(s', c, Done(if answered then Decide(call.rpm, call.Window(), 1) else Degraded(call.rpm, call.Window())))
  }

  /** The increment of `e`, if it is one, reaches the store within `delay` seconds of the clock reading. */
  predicate Within(s: State, e: Event, delay: real) {
    e.Incr? && e.call in s.calls ==> s.now <= s.calls[e.call].readAt + delay
  }

  datatype Run = Run(states: seq<State>, events: seq<Event>)

  ghost predicate Steps(r: Run, i: nat, delay: real)
    requires |r.states| == |r.events| + 1 && i < |r.events|
  {
    && Enabled(r.states[i], r.events[i]) && Within(r.states[i], r.events[i], delay)
    && r.states[i + 1] == Apply(r.states[i], r.events[i])
  }

  /** A run in which every increment lands within `delay` seconds. */
  ghost predicate IsRun(r: Run, delay: real) {
    && |r.states| == |r.events| + 1 && r.states[0] == START
    && forall i :: 0 <= i < |r.events| ==> Steps(r, i, delay)
  }

  // ---------------------------------------------------------------------------
  // Invariant: a window's counter outlives the window's last increment
  // ---------------------------------------------------------------------------

  /** The number a check drew from its counter, while it still matters. */
  function Drew(call: Call): Option<int> {
    match call.phase
    case Waiting => None
    case First => Some(1)
    case Done(v) => if v.allowed then Some(v.limit - v.remaining) else None
  }

  ghost predicate CallOk(s: State, c: CallId)
    requires c in s.calls
  {
    var call := s.calls[c];
    && 0.0 <= call.readAt <= s.now
    && (call.phase.Done? ==> call.phase.verdict.limit == call.rpm)
    && (Drew(call).Some? ==>
          && call.CounterKey() in s.counters
          && 1 <= Drew(call).value <= s.counters[call.CounterKey()].count
          && (call.phase.Done? ==> Drew(call).value <= call.rpm))
  }

  ghost predicate DistinctDraws(s: State, c: CallId, d: CallId)
    requires c in s.calls && d in s.calls
  {
    c != d && s.calls[c].CounterKey() == s.calls[d].CounterKey() && Drew(s.calls[c]).Some? && Drew(s.calls[d]).Some? ==>
      Drew(s.calls[c]) != Drew(s.calls[d])
  }

  ghost predicate CounterOk(s: State, k: Key)
    requires k in s.counters
  {
    s.counters[k].expiresAt.Some? ==> s.counters[k].expiresAt.value >= (60 * k.window) as real + TTL
  }

  ghost predicate Valid(s: State) {
    && s.now >= 0.0
    && (forall c :: c in s.calls ==> CallOk(s, c))
    && (forall c, d :: c in s.calls && d in s.calls ==> DistinctDraws(s, c, d))
    && (forall k :: k in s.counters ==> CounterOk(s, k))
  }

  lemma WindowBounds(time: real)
    requires time >= 0.0
    ensures (60 * WindowOf(time)) as real <= time < (60 * WindowOf(time)) as real + 60.0
  {
    var f := time.Floor;
    assert 60 * (f / 60) <= f < 60 * (f / 60) + 60;
    assert f as real <= time < f as real + 1.0;
  }

  /** While a prompt increment can still arrive, an existing counter has not expired. */
  lemma StillLive(s: State, c: CallId)
    requires Valid(s) && c in s.calls && s.now <= s.calls[c].readAt + 60.0
    requires s.calls[c].CounterKey() in s.counters
    ensures Live(s.counters, s.calls[c].CounterKey(), s.now)
  {
    assert CallOk(s, c);
    assert CounterOk(s, s.calls[c].CounterKey());
    WindowBounds(s.calls[c].readAt);
  }

  lemma CountersStep(s: State, e: Event)
    requires Valid(s) && Enabled(s, e) && Within(s, e, 60.0)
    ensures forall k :: k in s.counters ==>
            k in Apply(s, e).counters && s.counters[k].count <= Apply(s, e).counters[k].count
    ensures forall k :: k in Apply(s, e).counters ==> CounterOk(Apply(s, e), k)
  {
    if e.Incr? && s.calls[e.call].CounterKey() in s.counters {
      StillLive(s, e.call);
    }
    if e.Expire? {
      assert CallOk(s, e.call);
      WindowBounds(s.calls[e.call].readAt);
    }
    forall k | k in Apply(s, e).counters ensures CounterOk(Apply(s, e), k) {
      if k in s.counters {
        assert CounterOk(s, k);
      }
    }
  }

  lemma CallsStep(s: State, e: Event, c: CallId)
    requires Valid(s) && Enabled(s, e) && Within(s, e, 60.0) && c in Apply(s, e).calls
    ensures CallOk(Apply(s, e), c)
  {
    CountersStep(s, e);
    if c in s.calls {
      assert CallOk(s, c);
    }
  }

  /** The number just drawn is above everything drawn from that counter before. */
  lemma FreshDraw(s: State, e: Event, d: CallId)
    requires Valid(s) && Enabled(s, e) && Within(s, e, 60.0)
    requires e.Incr? && d in s.calls && d != e.call
    ensures DistinctDraws(Apply(s, e), e.call, d) && DistinctDraws(Apply(s, e), d, e.call)
  {
    assert CallOk(s, d);
    if s.calls[e.call].CounterKey() in s.counters {
      StillLive(s, e.call);
    }
  }

  lemma DrawsStep(s: State, e: Event, c: CallId, d: CallId)
    requires Valid(s) && Enabled(s, e) && Within(s, e, 60.0) && c in Apply(s, e).calls && d in Apply(s, e).calls
    ensures DistinctDraws(Apply(s, e), c, d)
  {
    if c in s.calls && d in s.calls && c != d {
      assert DistinctDraws(s, c, d);
      if e.Incr? && e.call == c {
        FreshDraw(s, e, d);
      } else if e.Incr? && e.call == d {
        FreshDraw(s, e, c);
      }
    }
  }

  lemma ValidStep(s: State, e: Event)
    requires Valid(s) && Enabled(s, e) && Within(s, e, 60.0)
    ensures Valid(Apply(s, e))
  {
    var s' := Apply(s, e);
    CountersStep(s, e);
    forall c | c in s'.calls ensures CallOk(s', c) {
      CallsStep(s, e, c);
    }
    forall c, d | c in s'.calls && d in s'.calls ensures DistinctDraws(s', c, d) {
      DrawsStep(s, e, c, d);
    }
  }

  lemma {:induction false} ValidAlways(r: Run, i: nat)
    requires IsRun(r, 60.0) && i < |r.states|
    ensures Valid(r.states[i])
  {
    if i > 0 {
      ValidAlways(r, i - 1);
      assert Steps(r, i - 1, 60.0);
      ValidStep(r.states[i - 1], r.events[i - 1]);
    }
  }

  // ---------------------------------------------------------------------------
  // The bounds
  // ---------------------------------------------------------------------------

  predicate Allowed(call: Call) {
    call.phase.Done? && call.phase.verdict.allowed
  }

  /** The checks allowed for one tenant and window under a limit of at most `limit`. */
  function AllowedIn(s: State, k: Key, limit: int): set<CallId> {
    set c | c in s.calls && Allowed(s.calls[c]) && s.calls[c].CounterKey() == k && s.calls[c].rpm <= limit
  }

  lemma {:induction false} AtMostLimit(s: State, k: Key, ids: set<CallId>, limit: int)
    requires Valid(s)
    requires forall c :: c in ids ==> c in s.calls && Allowed(s.calls[c]) && s.calls[c].CounterKey() == k
    requires forall c :: c in ids ==> Drew(s.calls[c]).Some? && 1 <= Drew(s.calls[c]).value <= limit
    ensures |ids| <= Max(0, limit)
    decreases Max(0, limit)
  {
    if limit <= 0 {
      if c :| c in ids {
        assert false;
      }
    } else if exists c :: c in ids && Drew(s.calls[c]).value == limit {
      var c :| c in ids && Drew(s.calls[c]).value == limit;
      forall d | d in ids - {c} ensures Drew(s.calls[d]).value <= limit - 1 {
        assert DistinctDraws(s, c, d);
      }
      AtMostLimit(s, k, ids - {c}, limit - 1);
    } else {
      AtMostLimit(s, k, ids, limit - 1);
    }
  }

  /**
   No window ever lets through more requests of a tenant than the limit, lost replies and failed commands included.
   */
  lemma WindowBound(r: Run, i: nat, k: Key, limit: int)
    requires IsRun(r, 60.0) && i < |r.states|
    ensures |AllowedIn(r.states[i], k, limit)| <= Max(0, limit)
  {
    ValidAlways(r, i);
    var s := r.states[i];
    forall c | c in AllowedIn(s, k, limit) ensures Drew(s.calls[c]).Some? && 1 <= Drew(s.calls[c]).value <= limit {
      assert CallOk(s, c);
    }
    AtMostLimit(s, k, AllowedIn(s, k, limit), limit);
  }

  function AllowedBetween(s: State, tenant: nat, limit: int, from: real, to: real): set<CallId> {
    set c | c in s.calls && Allowed(s.calls[c]) && s.calls[c].tenant == tenant && s.calls[c].rpm <= limit
            && from <= s.calls[c].readAt <= to
  }

  /** In any sixty seconds, wherever they start, at most twice the limit is let through. */
  lemma MinuteBound(r: Run, i: nat, tenant: nat, limit: int, from: real)
    requires IsRun(r, 60.0) && i < |r.states| && from >= 0.0
    ensures |AllowedBetween(r.states[i], tenant, limit, from, from + 60.0)| <= 2 * Max(0, limit)
  {
    var s, w := r.states[i], WindowOf(from);
    var early, late := AllowedIn(s, Key(tenant, w), limit), AllowedIn(s, Key(tenant, w + 1), limit);
    WindowBound(r, i, Key(tenant, w), limit);
    WindowBound(r, i, Key(tenant, w + 1), limit);
    WindowBounds(from);
    var all := AllowedBetween(s, tenant, limit, from, from + 60.0);
    forall c | c in all ensures c in early + late {
      WindowBounds(s.calls[c].readAt);
      var v := s.calls[c].Window();
      assert 60 * w < 60 * v + 60 && 60 * v < 60 * w + 120;
    }
    SubsetSize(all, early + late);
    assert |early + late| <= |early| + |late|;
  }

  lemma {:induction false} SubsetSize(a: set<CallId>, b: set<CallId>)
    requires a <= b
    ensures |a| <= |b|
  {
    if a != {} {
      var c :| c in a;
      SubsetSize(a - {c}, b - {c});
    }
  }

  // ---------------------------------------------------------------------------
  // The exact verdict
  // ---------------------------------------------------------------------------

  /** The event adds one to what the tenant has used of this minute of the clock. */
  predicate Delivers(s: State, e: Event, tenant: nat, minute: int) {
    && e.Incr? && e.delivered && e.call in s.calls
    && s.calls[e.call].tenant == tenant && s.calls[e.call].readAt.Floor / 60 == minute
  }

  /** How many increments of the tenant for this minute reached the store in the first `i` events. */
  function Increments(r: Run, i: nat, tenant: nat, minute: int): nat
    requires |r.states| == |r.events| + 1 && i <= |r.events|
  {
    if i == 0 then 0
    else
      Increments(r, i - 1, tenant, minute) +
      if Delivers(r.states[i - 1], r.events[i - 1], tenant, minute) then 1 else 0
  }

  /** No counter loses an increment. */
  lemma {:induction false} CountersAreIncrements(r: Run, i: nat, k: Key)
    requires IsRun(r, 60.0) && i < |r.states|
    ensures Increments(r, i, k.tenant, k.window) ==
            if k in r.states[i].counters then r.states[i].counters[k].count else 0
  {
    if i > 0 {
      CountersAreIncrements(r, i - 1, k);
      assert Steps(r, i - 1, 60.0);
      ValidAlways(r, i - 1);
      var s, e := r.states[i - 1], r.events[i - 1];
      if e.Incr? && s.calls[e.call].CounterKey() in s.counters {
        StillLive(s, e.call);
      }
    }
  }

  /** A command of the check got no reply. */
  predicate Unanswered(e: Event, c: CallId) {
    (e.Incr? || e.Expire?) && e.call == c && !e.answered
  }

  predicate AnyUnanswered(r: Run, i: nat, c: CallId)
    requires i <= |r.events|
  {
    exists j :: 0 <= j < i && Unanswered(r.events[j], c)
  }

  /** The answer says what is left after `n` increments of the minute, and when the next minute begins. */
  ghost predicate Tells(v: Verdict, rpm: int, readAt: real, n: nat) {
    && v.limit == rpm && (v.allowed <==> n <= rpm) && v.remaining == (if n < rpm then rpm - n else 0)
    && NextMinute(v.resetAt, readAt)
  }

  predicate NextMinute(resetAt: int, readAt: real) {
    resetAt % 60 == 0 && readAt < resetAt as real <= readAt + 60.0
  }

  lemma ResetIsNextMinute(time: real)
    requires time >= 0.0
    ensures NextMinute(ResetAt(WindowOf(time)), time)
  {
    WindowBounds(time);
  }

  ghost predicate Told(r: Run, i: nat, c: CallId, j: nat)
    requires |r.states| == |r.events| + 1 && i < |r.states| && c in r.states[i].calls
  {
    var call := r.states[i].calls[c];
    && j < i && r.events[j] == Incr(c, true, true)
    && (call.phase.First? ==> Increments(r, j + 1, call.tenant, call.readAt.Floor / 60) == 1)
    && (call.phase.Done? ==>
          Tells(call.phase.verdict, call.rpm, call.readAt, Increments(r, j + 1, call.tenant, call.readAt.Floor / 60)))
  }

  /** What an increment that is answered leads to. */
  lemma DrawTells(r: Run, i: nat, c: CallId)
    requires IsRun(r, 60.0) && i < |r.events| && r.events[i] == Incr(c, true, true)
    ensures c in r.states[i + 1].calls && Told(r, i + 1, c, i)
    ensures r.states[i + 1].calls[c].phase.Done? ==> !r.states[i + 1].calls[c].phase.verdict.degraded
  {
    assert Steps(r, i, 60.0);
    ValidAlways(r, i);
    var s, call := r.states[i], r.states[i].calls[c];
    CountersAreIncrements(r, i, call.CounterKey());
    assert CallOk(s, c);
    ResetIsNextMinute(call.readAt);
    if call.CounterKey() in s.counters {
      StillLive(s, c);
    }
  }

  /** The answered expiry of a first check. */
  lemma ExpiryTells(r: Run, i: nat, c: CallId, j: nat)
    requires IsRun(r, 60.0) && i < |r.events| && r.events[i] == Expire(c, true, true)
    requires c in r.states[i].calls && Told(r, i, c, j)
    ensures c in r.states[i + 1].calls && Told(r, i + 1, c, j)
    ensures r.states[i + 1].calls[c].phase.Done? && !r.states[i + 1].calls[c].phase.verdict.degraded
  {
    assert Steps(r, i, 60.0);
    ValidAlways(r, i);
    assert CallOk(r.states[i], c);
    ResetIsNextMinute(r.states[i].calls[c].readAt);
  }

  ghost predicate Silent(r: Run, i: nat, c: CallId)
    requires i <= |r.events|
  {
    forall j :: 0 <= j < i ==> !(r.events[j].Incr? && r.events[j].call == c)
                               && !(r.events[j].Expire? && r.events[j].call == c)
  }

  /** A check that says it is degraded had an unanswered command, refuses, and leaves nothing. */
  ghost predicate Refuses(v: Verdict, rpm: int, readAt: real) {
    v.degraded && !v.allowed && v.limit == rpm && v.remaining == 0 && NextMinute(v.resetAt, readAt)
  }

  /** By its phase, what every check has done and been told. */
  ghost predicate History(r: Run, i: nat, c: CallId)
    requires |r.states| == |r.events| + 1 && i < |r.states| && c in r.states[i].calls
  {
    var call := r.states[i].calls[c];
    match call.phase
    case Waiting => Silent(r, i, c)
    case First => !AnyUnanswered(r, i, c) && exists j :: Told(r, i, c, j)
    case Done(v) =>
      if v.degraded then AnyUnanswered(r, i, c) && Refuses(v, call.rpm, call.readAt)
      else !AnyUnanswered(r, i, c) && exists j :: Told(r, i, c, j)
  }

  lemma HistoryStays(r: Run, i: nat, c: CallId)
    requires IsRun(r, 60.0) && i < |r.events| && c in r.states[i].calls && History(r, i, c)
    requires c in r.states[i + 1].calls && r.states[i + 1].calls[c] == r.states[i].calls[c]
    requires !(r.events[i].Incr? && r.events[i].call == c) && !(r.events[i].Expire? && r.events[i].call == c)
    ensures History(r, i + 1, c)
  {
    if j :| 0 <= j < i && Unanswered(r.events[j], c) {
      assert AnyUnanswered(r, i + 1, c);
    }
    if j: nat :| Told(r, i, c, j) {
      assert Told(r, i + 1, c, j);
    }
  }

  lemma HistoryMoves(r: Run, i: nat, c: CallId)
    requires IsRun(r, 60.0) && i < |r.events| && c in r.states[i].calls && History(r, i, c)
    requires (r.events[i].Incr? || r.events[i].Expire?) && r.events[i].call == c
    ensures c in r.states[i + 1].calls && History(r, i + 1, c)
  {
    assert Steps(r, i, 60.0);
    ValidAlways(r, i);
    assert CallOk(r.states[i], c);
    ResetIsNextMinute(r.states[i].calls[c].readAt);
    if !r.events[i].answered {
      assert Unanswered(r.events[i], c);
    } else if r.events[i].Incr? {
      DrawTells(r, i, c);
    } else {
      var j: nat :| Told(r, i, c, j);
      ExpiryTells(r, i, c, j);
    }
  }

  lemma {:induction false} HistoryAlways(r: Run, i: nat, c: CallId)
    requires IsRun(r, 60.0) && i < |r.states| && c in r.states[i].calls
    ensures History(r, i, c)
  {
    assert i > 0 && Steps(r, i - 1, 60.0);
    var e := r.events[i - 1];
    if c !in r.states[i - 1].calls {
      NothingBeforeBegin(r, i - 1, c);
    } else {
      HistoryAlways(r, i - 1, c);
      if (e.Incr? || e.Expire?) && e.call == c {
        HistoryMoves(r, i - 1, c);
      } else {
        HistoryStays(r, i - 1, c);
      }
    }
  }

  lemma {:induction false} NothingBeforeBegin(r: Run, i: nat, c: CallId)
    requires IsRun(r, 60.0) && i < |r.states| && c !in r.states[i].calls
    ensures Silent(r, i, c)
  {
    if i > 0 {
      assert Steps(r, i - 1, 60.0);
      NothingBeforeBegin(r, i - 1, c);
    }
  }

  /**
   The verdict of every check: degraded, and then a refusal, exactly when a command of it got no reply; else
   allowed exactly when no more increments than the limit had reached the store for this tenant and minute, its
   own included, with what is left and the second at which the next minute begins.
   */
  lemma VerdictExactly(r: Run, i: nat, c: CallId) returns (j: nat)
    requires IsRun(r, 60.0) && i < |r.states| && c in r.states[i].calls && r.states[i].calls[c].phase.Done?
    ensures var call := r.states[i].calls[c];
            && (call.phase.verdict.degraded <==> AnyUnanswered(r, i, c))
            && (AnyUnanswered(r, i, c) ==> Refuses(call.phase.verdict, call.rpm, call.readAt))
            && (!AnyUnanswered(r, i, c) ==>
                  && j < i && r.events[j] == Incr(c, true, true)
                  && Tells(call.phase.verdict, call.rpm, call.readAt,
                           Increments(r, j + 1, call.tenant, call.readAt.Floor / 60)))
  {
    HistoryAlways(r, i, c);
    j := 0;
    if !AnyUnanswered(r, i, c) {
      j :| Told(r, i, c, j);
    }
  }

  // ---------------------------------------------------------------------------
  // The assumption on delay is needed, and sixty seconds is the exact bound
  // ---------------------------------------------------------------------------

  /**
   A limit of one, and a second check that reads the clock just before the window ends but increments only once the key
   is gone.
   */
  function LateRun(slack: real): Run
    requires 0.0 < slack <= 60.0
  {
    var k, read := Key(0, 0), 60.0 - slack;
    var one, two := Counter(1, None), Counter(1, Some(120.0));
    var done := Done(Verdict(true, 1, 0, 60, false));
    var early := Call(0, 1, 0.0, done);
    Run([START,
         State(0.0, map[], map[0 := Call(0, 1, 0.0, Waiting)]),
         State(0.0, map[k := one], map[0 := Call(0, 1, 0.0, First)]),
         State(0.0, map[k := two], map[0 := early]),
         State(read, map[k := two], map[0 := early]),
         State(read, map[k := two], map[0 := early, 1 := Call(0, 1, read, Waiting)]),
         State(120.0, map[k := two], map[0 := early, 1 := Call(0, 1, read, Waiting)]),
         State(120.0, map[k := one], map[0 := early, 1 := Call(0, 1, read, First)]),
         State(120.0, map[k := Counter(1, Some(240.0))], map[0 := early, 1 := Call(0, 1, read, done)])],
        [Begin(0, 0, 1), Incr(0, true, true), Expire(0, true, true), Tick(read), Begin(1, 0, 1),
         Tick(60.0 + slack), Incr(1, true, true), Expire(1, true, true)])
  }

  lemma LateRunSteps(slack: real, i: nat)
    requires 0.0 < slack <= 60.0 && i < 8
    ensures Steps(LateRun(slack), i, 60.0 + slack)
  {
    var r := LateRun(slack);
    assert (60.0 - slack).Floor / 60 == 0;
    var got := Apply(r.states[i], r.events[i]);
    assert got.counters == r.states[i + 1].counters;
    assert got.calls == r.states[i + 1].calls;
  }

  /** With any slack beyond sixty seconds the expiry can reset a window that is still being hit. */
  lemma SixtySecondsIsExact(slack: real)
    requires 0.0 < slack <= 60.0
    ensures IsRun(LateRun(slack), 60.0 + slack)
    ensures AllowedIn(LateRun(slack).states[8], Key(0, 0), 1) == {0, 1}
  {
    var r, delay := LateRun(slack), 60.0 + slack;
    forall i: nat | i < |r.events| ensures Steps(r, i, delay) {
      LateRunSteps(slack, i);
    }
    assert (60.0 - slack).Floor / 60 == 0;
  }

  // ---------------------------------------------------------------------------
  // One uninterrupted check
  // ---------------------------------------------------------------------------

  class RateLimiter {
    var counters: map<Key, Counter>

    constructor ()
      ensures counters == map[]
    {
      counters := map[];
    }

    /** `now` is the clock reading, `at` the store's time; the flags say what became of each command. */
    method Check(tenant: nat, rpm: int, now: real, at: real, incr: (bool, bool), expire: (bool, bool))
      returns (verdict: Verdict)
      requires (incr.1 ==> incr.0) && (expire.1 ==> expire.0)
      modifies this
      ensures var k := Key(tenant, WindowOf(now));
              var count := CountOf(old(counters), k, at) + 1;
              var bumped := if incr.0 then Incremented(old(counters), k, at) else old(counters);
              && counters == (if incr.1 && count == 1 && expire.0 then Expiring(bumped, k, at) else bumped)
              && verdict == (if incr.1 && (count == 1 ==> expire.1) then Decide(rpm, k.window, count)
                             else Degraded(rpm, k.window))
      ensures var count := CountOf(old(counters), Key(tenant, now.Floor / 60), at) + 1;
              && (verdict.degraded <==> !incr.1 || (count == 1 && !expire.1))
              && (now >= 0.0 && verdict.degraded ==> Refuses(verdict, rpm, now))
              && (now >= 0.0 && !verdict.degraded ==> Tells(verdict, rpm, now, count))
    {
      if now >= 0.0 {
        ResetIsNextMinute(now);
      }
      var window := WindowOf(now);
      var key := Key(tenant, window);
      var count := CountOf(counters, key, at) + 1;
      if incr.0 {
        counters := Incremented(counters, key, at);
      }
      if !incr.1 {
        return Degraded(rpm, window);
      }
      if count == 1 {
        if expire.0 {
          counters := Expiring(counters, key, at);
        }
        if !expire.1 {
          return Degraded(rpm, window);
        }
      }
      return Verdict(count <= rpm, rpm, Max(0, rpm - count), ResetAt(window), false);
    }
  }
}
