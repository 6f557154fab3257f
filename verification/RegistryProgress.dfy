/** The registry's locks are given back, and so no call waits for ever: each has a continuation that answers it. */
module RegistryProgress {
  import opened Prelude
  import opened RegistryProtocol

  // ---------------------------------------------------------------------------
  // Who holds what
  // ---------------------------------------------------------------------------

  predicate Inside(s: State, c: CallId, l: LockId) {
    c in s.calls && InCriticalSection(s.calls[c].phase) && s.calls[c].phase.lock == l
  }

  predicate AtGuard(s: State, c: CallId) {
    c in s.calls && s.calls[c].phase.InGuard?
  }

  /** A lock is owned by exactly the call inside its section, and the guard by exactly the call at it. */
  ghost predicate HeldExactly(s: State) {
    && (forall l: LockId, c: CallId :: Owns(s, l, c) <==> Inside(s, c, l))
    && (forall c: CallId :: s.guard == Some(c) <==> AtGuard(s, c))
  }

  /** Only a listing reads the database. */
  ghost predicate KindsFit(s: State) {
    forall c: CallId :: KindFits(s, c)
  }

  predicate KindFits(s: State, c: CallId) {
    c in s.calls && s.calls[c].kind.Invalidate? ==>
      !s.calls[c].phase.Reading? && !s.calls[c].phase.Fetched? && !s.calls[c].phase.Returned?
  }

  /** The owner of a lock after an event that is not the taking of it: as before, or none if its holder leaves. */
  lemma OwnersStep(cfg: Config, s: State, e: Event, l: LockId, c: CallId)
    requires HeldExactly(s) && Enabled(s, e)
    ensures Owns(Apply(cfg, s, e), l, c) <==> Inside(Apply(cfg, s, e), c, l)
  {
    assert Owns(s, l, c) <==> Inside(s, c, l);
    if e.TakeLock? {
      OwnersTaken(cfg, s, e.call, l, c);
    } else if e.Recheck? || e.Fill? || e.Pop? || e.Abort? {
      OwnersLeave(cfg, s, e, l, c);
    } else {
      OwnersStay(cfg, s, e, l, c);
    }
  }

  predicate Owns(s: State, l: LockId, c: CallId) {
    l in s.owner && s.owner[l] == c
  }

  lemma OwnersTaken(cfg: Config, s: State, d: CallId, l: LockId, c: CallId)
    requires Enabled(s, TakeLock(d)) && (Owns(s, l, c) <==> Inside(s, c, l))
    ensures Owns(Apply(cfg, s, TakeLock(d)), l, c) <==> Inside(Apply(cfg, s, TakeLock(d)), c, l)
  {
  }

  lemma OwnersLeave(cfg: Config, s: State, e: Event, l: LockId, c: CallId)
    requires HeldExactly(s) && Enabled(s, e) && (e.Recheck? || e.Fill? || e.Pop? || e.Abort?)
    ensures Owns(Apply(cfg, s, e), l, c) <==> Inside(Apply(cfg, s, e), c, l)
  {
    assert Owns(s, l, c) <==> Inside(s, c, l);
    assert Owns(s, l, e.call) <==> Inside(s, e.call, l);
    if InCriticalSection(s.calls[e.call].phase) {
      assert Inside(s, e.call, s.calls[e.call].phase.lock);
      assert Owns(s, s.calls[e.call].phase.lock, e.call);
    }
    if e.call != c && c in Apply(cfg, s, e).calls {
      OthersStay(cfg, s, e, c);
    }
  }

  lemma OwnersStay(cfg: Config, s: State, e: Event, l: LockId, c: CallId)
    requires Enabled(s, e) && (Owns(s, l, c) <==> Inside(s, c, l))
    requires !e.TakeLock? && !e.Recheck? && !e.Fill? && !e.Pop? && !e.Abort?
    ensures Owns(Apply(cfg, s, e), l, c) <==> Inside(Apply(cfg, s, e), c, l)
  {
    if !Moves(e, c) && c in Apply(cfg, s, e).calls {
      OthersStay(cfg, s, e, c);
    }
  }

  lemma GuardStep(cfg: Config, s: State, e: Event, c: CallId)
    requires HeldExactly(s) && Enabled(s, e)
    ensures Apply(cfg, s, e).guard == Some(c) <==> AtGuard(Apply(cfg, s, e), c)
  {
    assert s.guard == Some(c) <==> AtGuard(s, c);
    if !e.Tick? && !e.Write? {
      assert s.guard == Some(e.call) <==> AtGuard(s, e.call);
    }
  }

  lemma HeldStep(cfg: Config, s: State, e: Event)
    requires HeldExactly(s) && Enabled(s, e)
    ensures HeldExactly(Apply(cfg, s, e))
  {
    var s' := Apply(cfg, s, e);
    forall l: LockId, c: CallId ensures Owns(s', l, c) <==> Inside(s', c, l) {
      OwnersStep(cfg, s, e, l, c);
    }
    forall c: CallId ensures s'.guard == Some(c) <==> AtGuard(s', c) {
      GuardStep(cfg, s, e, c);
    }
  }

  lemma KindStep(cfg: Config, s: State, e: Event, c: CallId)
    requires KindFits(s, c) && Enabled(s, e)
    ensures KindFits(Apply(cfg, s, e), c)
  {
    if !Moves(e, c) && c in Apply(cfg, s, e).calls {
      OthersStay(cfg, s, e, c);
    }
  }

  lemma KindsStep(cfg: Config, s: State, e: Event)
    requires KindsFit(s) && Enabled(s, e)
    ensures KindsFit(Apply(cfg, s, e))
  {
    forall c: CallId ensures KindFits(Apply(cfg, s, e), c) {
      assert KindFits(s, c);
      KindStep(cfg, s, e, c);
    }
  }

  /** In every state of every run, after returns, aborts and failed reads alike. */
  lemma {:induction false} HeldAlways(cfg: Config, r: Run, i: nat)
    requires IsRun(cfg, r) && i < |r.states|
    ensures HeldExactly(r.states[i]) && KindsFit(r.states[i])
  {
    if i > 0 {
      HeldAlways(cfg, r, i - 1);
      assert Steps(cfg, r, i - 1);
      HeldStep(cfg, r.states[i - 1], r.events[i - 1]);
      KindsStep(cfg, r.states[i - 1], r.events[i - 1]);
    }
  }

  // ---------------------------------------------------------------------------
  // Progress
  // ---------------------------------------------------------------------------

  function Last(r: Run): State
    requires r.states != []
  {
    r.states[|r.states| - 1]
  }

  /** How many steps of its own a call is away from its end. */
  function Rank(p: Phase): nat {
    match p
    case Arrived => 7
    case AwaitGuard => 6
    case InGuard => 5
    case AwaitLock(_) => 4
    case InSection(_) => 3
    case Reading(_) => 2
    case Fetched(_, _) => 1
    case _ => 0
  }

  /** The call that has to move for `c` to get on: whoever holds what it waits for, or else `c` itself. */
  function Mover(s: State, c: CallId): CallId
    requires c in s.calls
  {
    var p := s.calls[c].phase;
    if p.AwaitGuard? && s.guard.Some? then s.guard.value
    else if p.AwaitLock? && p.lock in s.owner then s.owner[p.lock]
    else c
  }

  /** A call's own next event; the database answers and nobody cancels. */
  function NextOf(s: State, c: CallId): Event
    requires c in s.calls && !Over(s.calls[c].phase)
  {
    match s.calls[c].phase
    case Arrived => Look(c)
    case AwaitGuard => TakeGuard(c)
    case InGuard => ResolveLock(c)
    case AwaitLock(_) => TakeLock(c)
    case InSection(_) => if s.calls[c].kind.List? then Recheck(c) else Pop(c)
    case Reading(_) => Query(c)
    case Fetched(_, _) => Fill(c)
  }

  function RankOf(s: State, c: CallId): nat {
    if c in s.calls then Rank(s.calls[c].phase) else 0
  }

  /** What the call in the way still has to do. */
  function Ahead(s: State, c: CallId): nat
    requires c in s.calls
  {
    if Mover(s, c) == c then 0 else RankOf(s, Mover(s, c))
  }

  lemma MoverCanMove(s: State, c: CallId)
    requires HeldExactly(s) && KindsFit(s) && c in s.calls && !Over(s.calls[c].phase)
    ensures Mover(s, c) in s.calls && !Over(s.calls[Mover(s, c)].phase)
    ensures Enabled(s, NextOf(s, Mover(s, c)))
  {
    var d, p := Mover(s, c), s.calls[c].phase;
    assert KindFits(s, c) && KindFits(s, d);
    if p.AwaitGuard? && s.guard.Some? {
      assert AtGuard(s, d);
    } else if p.AwaitLock? && p.lock in s.owner {
      assert Owns(s, p.lock, d) && Inside(s, d, p.lock);
    }
  }

  /** A step of its own brings a call nearer to its end. */
  lemma OwnStepDescends(cfg: Config, s: State, c: CallId)
    requires c in s.calls && KindFits(s, c) && !Over(s.calls[c].phase) && Enabled(s, NextOf(s, c))
    ensures RankOf(Apply(cfg, s, NextOf(s, c)), c) < RankOf(s, c)
    ensures c in Apply(cfg, s, NextOf(s, c)).calls && !Apply(cfg, s, NextOf(s, c)).calls[c].phase.Failed?
  {
    if InCriticalSection(s.calls[c].phase) {
      SectionStepDescends(cfg, s, c);
    } else if s.calls[c].phase.Arrived? || s.calls[c].phase.AwaitGuard? {
      EntryStepDescends(cfg, s, c);
    } else {
      LockStepDescends(cfg, s, c);
    }
  }

  lemma LockStepDescends(cfg: Config, s: State, c: CallId)
    requires c in s.calls && (s.calls[c].phase.InGuard? || s.calls[c].phase.AwaitLock?) && Enabled(s, NextOf(s, c))
    ensures RankOf(Apply(cfg, s, NextOf(s, c)), c) < RankOf(s, c)
    ensures c in Apply(cfg, s, NextOf(s, c)).calls && !Apply(cfg, s, NextOf(s, c)).calls[c].phase.Failed?
  {
  }

  lemma SectionStepDescends(cfg: Config, s: State, c: CallId)
    requires c in s.calls && KindFits(s, c) && InCriticalSection(s.calls[c].phase) && Enabled(s, NextOf(s, c))
    ensures RankOf(Apply(cfg, s, NextOf(s, c)), c) < RankOf(s, c)
    ensures c in Apply(cfg, s, NextOf(s, c)).calls && !Apply(cfg, s, NextOf(s, c)).calls[c].phase.Failed?
  {
  }

  lemma EntryStepDescends(cfg: Config, s: State, c: CallId)
    requires c in s.calls && (s.calls[c].phase.Arrived? || s.calls[c].phase.AwaitGuard?) && Enabled(s, NextOf(s, c))
    ensures RankOf(Apply(cfg, s, NextOf(s, c)), c) < RankOf(s, c)
    ensures c in Apply(cfg, s, NextOf(s, c)).calls && !Apply(cfg, s, NextOf(s, c)).calls[c].phase.Failed?
  {
  }

  /** A call at the guard leaves it in one step. */
  lemma GuardFreed(cfg: Config, s: State, c: CallId, d: CallId)
    requires HeldExactly(s) && c in s.calls && s.calls[c].phase.AwaitGuard? && s.guard == Some(d)
    ensures d in s.calls && !Over(s.calls[d].phase) && NextOf(s, d) == ResolveLock(d) && Enabled(s, ResolveLock(d))
    ensures Apply(cfg, s, ResolveLock(d)).guard.None? && Apply(cfg, s, ResolveLock(d)).calls[c] == s.calls[c]
  {
    assert AtGuard(s, d);
  }

  /** A call inside the section stays nearer to its end, or leaves the lock free. */
  lemma LockFreed(cfg: Config, s: State, c: CallId, d: CallId)
    requires HeldExactly(s) && KindsFit(s) && c in s.calls && s.calls[c].phase.AwaitLock?
    requires s.calls[c].phase.lock in s.owner && s.owner[s.calls[c].phase.lock] == d
    ensures d in s.calls && !Over(s.calls[d].phase) && Enabled(s, NextOf(s, d))
    ensures var s', l := Apply(cfg, s, NextOf(s, d)), s.calls[c].phase.lock;
            s'.calls[c] == s.calls[c] && (l in s'.owner ==> s'.owner[l] == d && RankOf(s', d) < RankOf(s, d))
  {
    assert Owns(s, s.calls[c].phase.lock, d) && Inside(s, d, s.calls[c].phase.lock);
    assert KindFits(s, d);
  }

  lemma MoverDescends(cfg: Config, s: State, c: CallId, e: Event)
    requires HeldExactly(s) && KindsFit(s) && c in s.calls && !Over(s.calls[c].phase) && Mover(s, c) != c
    requires Mover(s, c) in s.calls && !Over(s.calls[Mover(s, c)].phase)
    requires e == NextOf(s, Mover(s, c)) && Enabled(s, e)
    ensures var s' := Apply(cfg, s, e); s'.calls[c] == s.calls[c] && Ahead(s', c) < Ahead(s, c)
  {
    var d := Mover(s, c);
    if s.calls[c].phase.AwaitGuard? {
      GuardFreed(cfg, s, c, d);
    } else {
      LockFreed(cfg, s, c, d);
    }
  }

  lemma Extend(cfg: Config, r: Run, e: Event) returns (r': Run)
    requires IsRun(cfg, r) && Enabled(Last(r), e)
    ensures IsRun(cfg, r') && r'.states == r.states + [Apply(cfg, Last(r), e)] && r'.events == r.events + [e]
  {
    r' := Run(r.states + [Apply(cfg, Last(r), e)], r.events + [e]);
    forall i | 0 <= i < |r'.events| ensures Steps(cfg, r', i) {
      assert i < |r.events| ==> Steps(cfg, r, i);
    }
  }

  /** `r'` goes on from `r` without a cancelled call or a failed read, a new call, a write or time passing. */
  ghost predicate Continues(r: Run, r': Run) {
    && r.states <= r'.states && r.events <= r'.events
    && forall i :: |r.events| <= i < |r'.events| ==>
         !r'.events[i].Abort? && !r'.events[i].Arrive? && !r'.events[i].Write? && !r'.events[i].Tick?
  }

  predicate Answered(s: State, c: CallId) {
    c in s.calls && if s.calls[c].kind.List? then s.calls[c].phase.Returned? else s.calls[c].phase.Evicted?
  }

  lemma StepsNearer(cfg: Config, s: State, c: CallId, e: Event)
    requires HeldExactly(s) && KindsFit(s) && c in s.calls && !Over(s.calls[c].phase)
    requires Mover(s, c) in s.calls && !Over(s.calls[Mover(s, c)].phase)
    requires e == NextOf(s, Mover(s, c)) && Enabled(s, e)
    ensures var s' := Apply(cfg, s, e);
            && c in s'.calls && !s'.calls[c].phase.Failed?
            && (RankOf(s', c) < RankOf(s, c) || (RankOf(s', c) == RankOf(s, c) && Ahead(s', c) < Ahead(s, c)))
  {
    assert KindFits(s, c);
    if Mover(s, c) == c {
      OwnStepDescends(cfg, s, c);
    } else {
      MoverDescends(cfg, s, c, e);
    }
  }

  /** However many calls are in its way, and whatever was cancelled before: a call that has not failed can finish. */
  lemma {:induction false} CanFinish(cfg: Config, r: Run, c: CallId) returns (r': Run)
    requires IsRun(cfg, r) && c in Last(r).calls && !Last(r).calls[c].phase.Failed?
    ensures IsRun(cfg, r') && Continues(r, r') && Answered(Last(r'), c)
    decreases RankOf(Last(r), c), if c in Last(r).calls then Ahead(Last(r), c) else 0
  {
    HeldAlways(cfg, r, |r.states| - 1);
    if Over(Last(r).calls[c].phase) {
      OverIsAnswered(cfg, r, |r.states| - 1, c);
      r' := r;
    } else {
      MoverCanMove(Last(r), c);
      var next := Extend(cfg, r, NextOf(Last(r), Mover(Last(r), c)));
      StepsNearer(cfg, Last(r), c, NextOf(Last(r), Mover(Last(r), c)));
      r' := CanFinish(cfg, next, c);
    }
  }

  /** Listings never end evicted, and invalidations never with a list. */
  lemma {:induction false} OverIsAnswered(cfg: Config, r: Run, i: nat, c: CallId)
    requires IsRun(cfg, r) && i < |r.states| && c in r.states[i].calls
    ensures Over(r.states[i].calls[c].phase) && !r.states[i].calls[c].phase.Failed? ==> Answered(r.states[i], c)
  {
    if i > 0 {
      assert Steps(cfg, r, i - 1);
      var s, e := r.states[i - 1], r.events[i - 1];
      if c in s.calls && !Moves(e, c) {
        OthersStay(cfg, s, e, c);
      }
      if c in s.calls {
        OverIsAnswered(cfg, r, i - 1, c);
      }
    }
  }

  lemma {:induction false} FailedStays(cfg: Config, r: Run, i: nat, j: nat, c: CallId)
    requires IsRun(cfg, r) && i <= j < |r.states| && c in r.states[i].calls && r.states[i].calls[c].phase.Failed?
    ensures c in r.states[j].calls && r.states[j].calls[c].phase.Failed?
  {
    if i < j {
      FailedStays(cfg, r, i, j - 1, c);
      assert Steps(cfg, r, j - 1);
    }
  }

  /** So in every reachable state a call can still be answered exactly when it was not cancelled and did not fail. */
  lemma AnswerableExactly(cfg: Config, r: Run, c: CallId)
    requires IsRun(cfg, r) && c in Last(r).calls
    ensures (exists r' :: IsRun(cfg, r') && r.states <= r'.states && Answered(Last(r'), c)) <==>
            !Last(r).calls[c].phase.Failed?
  {
    if Last(r).calls[c].phase.Failed? {
      forall r' | IsRun(cfg, r') && r.states <= r'.states ensures !Answered(Last(r'), c) {
        assert r'.states[|r.states| - 1] == Last(r);
        FailedStays(cfg, r', |r.states| - 1, |r'.states| - 1, c);
      }
    } else {
      var r' := CanFinish(cfg, r, c);
    }
  }
}
