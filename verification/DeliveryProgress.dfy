/** No published task is stuck: whatever happened before, it can still be started unless its answer was given up. */
module DeliveryProgress {
  import opened Prelude
  import opened TaskDelivery

  /** `r'` goes on from `r` without a lost answer, and without new tasks. */
  ghost predicate GoesOn(r: Run, r': Run) {
    && r.states <= r'.states && r.events <= r'.events
    && forall i :: |r.events| <= i < |r'.events| ==> !r'.events[i].Break? && !r'.events[i].Publish?
  }

  ghost predicate SameStream(s: State, s': State) {
    s'.stream.log == s.stream.log && Cursor(s'.stream) == Cursor(s.stream)
  }

  /** How far the loop is from its top. */
  function FromTop(s: State): nat {
    match s.loop
    case Top => 0
    case Pruned => 1
    case Waiting(p) =>
      if p in s.polls && s.polls[p].Delivering? && s.polls[p].from + s.polls[p].acks <= s.polls[p].upto
      then s.polls[p].upto - s.polls[p].from - s.polls[p].acks + 3
      else if p in s.polls && s.polls[p].Answered? then 2
      else 1
  }

  /** An answer that is on its way is waited for. */
  function TowardsTop(s: State): Event
    requires !s.loop.Top?
  {
    if s.loop.Pruned? then SkipRound
    else
      var p := s.loop.poll;
      if p !in s.polls then GiveUp
      else
        match s.polls[p]
        case Delivering(_, from, upto, acks) =>
          if from + acks < upto then Acknowledge(p) else if from + acks == upto then Answer(p) else GiveUp
        case Answered(_, _, _) => Receive
        case _ => GiveUp
  }

  lemma NearerTop(cfg: Config, s: State)
    requires Tiled(s) && !s.loop.Top?
    ensures Enabled(cfg, s, TowardsTop(s)) && SameStream(s, Apply(cfg, s, TowardsTop(s)))
    ensures FromTop(Apply(cfg, s, TowardsTop(s))) < FromTop(s)
  {
    if s.loop.Waiting? && s.loop.poll in s.polls {
      assert PollOk(s, s.loop.poll);
    }
  }

  lemma {:induction false} ToTop(cfg: Config, r: Run) returns (r': Run)
    requires IsRun(cfg, r)
    ensures IsRun(cfg, r') && GoesOn(r, r') && Last(r').loop.Top? && SameStream(Last(r), Last(r'))
    decreases FromTop(Last(r))
  {
    if Last(r).loop.Top? {
      r' := r;
    } else {
      Always(cfg, r, |r.states| - 1);
      NearerTop(cfg, Last(r));
      var next := Extend(cfg, r, TowardsTop(Last(r)));
      r' := ToTop(cfg, next);
    }
  }

  /** Once its tasks are finished, the worker's next round finds its hands free. */
  lemma {:induction false} HandsFree(cfg: Config, r: Run) returns (r': Run)
    requires IsRun(cfg, r) && Last(r).loop.Top?
    ensures IsRun(cfg, r') && GoesOn(r, r') && SameStream(Last(r), Last(r'))
    ensures Last(r').loop.Pruned? && Last(r').inFlight == {}
    decreases |Last(r).inFlight - Last(r).finished|
  {
    var s := Last(r);
    if h :| h in s.inFlight - s.finished {
      var next := Extend(cfg, r, Finish(h));
      assert Last(next).inFlight - Last(next).finished == (s.inFlight - s.finished) - {h};
      r' := HandsFree(cfg, next);
    } else {
      r' := Extend(cfg, r, Prune);
    }
  }

  lemma {:induction false} FreshPoll(ids: set<PollId>) returns (p: PollId)
    ensures forall q :: q in ids ==> q < p
  {
    if ids == {} {
      p := 0;
    } else {
      var q :| q in ids;
      p := FreshPoll(ids - {q});
      p := if q < p then p else q + 1;
      forall x | x in ids ensures x < p {
        assert x == q || x in ids - {q};
      }
    }
  }

  /** A round with free hands moves the cursor on, by all there is or by as much as was asked for. */
  lemma NextBatch(cfg: Config, r: Run) returns (r': Run, p: PollId)
    requires IsRun(cfg, r) && Last(r).loop.Pruned? && Last(r).inFlight == {}
    requires cfg.maxParallel >= 1 && cfg.batchMax >= 1 && Cursor(Last(r).stream) < |Last(r).stream.log|
    ensures IsRun(cfg, r') && GoesOn(r, r') && Last(r').stream.log == Last(r).stream.log
    ensures Last(r').loop == Waiting(p) && p in Last(r').polls && Last(r').polls[p].Delivering?
    ensures var from, upto := Cursor(Last(r).stream), Cursor(Last(r').stream);
            && Last(r').polls[p].from == from < upto == Last(r').polls[p].upto
            && (upto == |Last(r).stream.log| || upto == from + Min(cfg.maxParallel, cfg.batchMax))
  {
    p := FreshPoll(Last(r).polls.Keys);
    assert p !in Last(r).polls;
    var asked := Extend(cfg, r, Ask(p));
    Always(cfg, asked, |asked.states| - 1);
    r' := Extend(cfg, asked, Consume(p));
  }

  /** A task not yet delivered comes into some answer that is still on its way to the worker. */
  lemma {:induction false} CanDeliver(cfg: Config, r: Run, m: MessageId) returns (r': Run, p: PollId)
    requires IsRun(cfg, r) && cfg.maxParallel >= 1 && cfg.batchMax >= 1
    requires Cursor(Last(r).stream) <= m < |Last(r).stream.log|
    ensures IsRun(cfg, r') && GoesOn(r, r') && DeliveredBy(Last(r'), m, p) && !Doomed(Last(r'), p)
    decreases m - Cursor(Last(r).stream)
  {
    var top := ToTop(cfg, r);
    var free := HandsFree(cfg, top);
    r', p := NextBatch(cfg, free);
    if Cursor(Last(r').stream) <= m {
      r', p := CanDeliver(cfg, r', m);
    }
  }

  lemma NotYetDelivered(s: State, m: MessageId)
    requires Tiled(s) && Cursor(s.stream) <= m
    ensures !Delivered(s, m)
  {
    assert forall p :: p in s.polls ==> PollOk(s, p);
  }

  /**
   In every reachable state of a worker that takes tasks at all: a published task is started in some continuation
   exactly when no answer that carried it was lost or given up.
   */
  lemma StartableExactly(cfg: Config, r: Run, m: MessageId)
    requires IsRun(cfg, r) && cfg.maxParallel >= 1 && cfg.batchMax >= 1 && m < |Last(r).stream.log|
    ensures (exists r' :: IsRun(cfg, r') && r.states <= r'.states && m in Last(r').started) <==>
            !exists p :: DeliveredBy(Last(r), m, p) && Doomed(Last(r), p)
  {
    Always(cfg, r, |r.states| - 1);
    if Cursor(Last(r).stream) <= m {
      NotYetDelivered(Last(r), m);
      var next, p := CanDeliver(cfg, r, m);
      var r' := OthersCanStart(cfg, next, m, p);
    } else {
      assert Delivered(Last(r), m);
      var p :| DeliveredBy(Last(r), m, p);
      LostExactly(cfg, r, m, p);
    }
  }
}
