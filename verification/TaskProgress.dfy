/** A task gets its answer: which waits and which streams can still be brought to their proper end, and how. */
module TaskProgress {
  import opened Prelude
  import opened TaskWorker
  import opened TaskProtocol

  function Last(r: Run): State
    requires r.states != []
  {
    r.states[|r.states| - 1]
  }

  lemma Extend(cfg: Config, r: Run, e: Event) returns (r': Run)
    requires IsRun(cfg, r) && Enabled(cfg, Last(r), e)
    ensures IsRun(cfg, r') && r'.states == r.states + [Apply(cfg, Last(r), e)] && r'.events == r.events + [e]
  {
    r' := Run(r.states + [Apply(cfg, Last(r), e)], r.events + [e]);
    forall i: nat | i < |r'.events| ensures Steps(cfg, r', i) {
      assert i < |r.events| ==> Steps(cfg, r, i);
    }
  }

  /** Nothing goes wrong, and no time passes. */
  predicate Smooth(e: Event) {
    match e
    case Tick(_) => false
    case TimeOut => false
    case LoopError => false
    case FinalReadError => false
    case Crash => false
    case Publish(accepted) => accepted
    case Post(written) => written
    case Signal(accepted) => accepted
    case _ => true
  }

  /** `r'` goes on from `r` smoothly. */
  ghost predicate Continues(r: Run, r': Run) {
    && r.states <= r'.states && r.events <= r'.events
    && forall i :: |r.events| <= i < |r'.events| ==> Smooth(r'.events[i])
  }

  // ---------------------------------------------------------------------------
  // What else holds of every state
  // ---------------------------------------------------------------------------

  predicate AwaitMode(g: Gateway) {
    g.AStart? || g.ADispatched? || g.ASubscribed? || g.AWait? || g.ARead? || g.AFinal? || g.AReturned? || g.ATimedOut?
    || g.ARaised?
  }

  /** Once dispatched, a task is in the worker's queue; a waiting gateway is subscribed; a stream's loop saw no end. */
  ghost predicate Ready(cfg: Config, s: State) {
    && (cfg.streaming ==> StreamMode(s.gateway)) && (!cfg.streaming ==> AwaitMode(s.gateway))
    && (!s.queued ==> s.gateway.SStart? || s.gateway.SSubscribed? || s.gateway.AStart?)
    && (s.gateway.AStart? || s.gateway.ADispatched? ==> s.doneInbox.None?)
    && (s.gateway.ASubscribed? || s.gateway.AWait? || s.gateway.ARead? ==> s.doneInbox.Some?)
    && (s.gateway.SLoop? ==>
          && s.inbox.Some? && |s.inbox.value| <= |s.published|
          && forall i :: 0 <= i < Taken(s) ==> !s.published[i].done)
    && (s.worker.Working? ==> s.worker.sent <= |Messages(cfg.script)|)
  }

  lemma ReadyStep(cfg: Config, s: State, e: Event)
    requires Ready(cfg, s) && Enabled(cfg, s, e) && (cfg.streaming ==> StreamOk(s))
    ensures Ready(cfg, Apply(cfg, s, e))
  {
    if GatewayEvent(e) || e == Receive {
      GatewayKeepsReady(cfg, s, e);
    } else {
      WorkerKeepsReady(cfg, s, e);
    }
  }

  lemma GatewayKeepsReady(cfg: Config, s: State, e: Event)
    requires Ready(cfg, s) && Enabled(cfg, s, e) && (cfg.streaming ==> StreamOk(s)) && (GatewayEvent(e) || e == Receive)
    ensures Ready(cfg, Apply(cfg, s, e))
  {
    if cfg.streaming && e == Receive {
      ReceiveTakesNext(s);
    }
  }

  lemma WorkerKeepsReady(cfg: Config, s: State, e: Event)
    requires Ready(cfg, s) && Enabled(cfg, s, e) && !GatewayEvent(e) && e != Receive
    ensures Ready(cfg, Apply(cfg, s, e))
  {
    var s' := Apply(cfg, s, e);
    if s.gateway.SLoop? {
      assert Taken(s') == Taken(s) && s.published <= s'.published;
    }
  }

  lemma {:induction false} ReadyAlways(cfg: Config, r: Run, i: nat)
    requires IsRun(cfg, r) && i < |r.states|
    ensures Ready(cfg, r.states[i])
  {
    if i > 0 {
      ReadyAlways(cfg, r, i - 1);
      assert Steps(cfg, r, i - 1);
      if cfg.streaming {
        StreamAlways(cfg, r, i - 1);
      }
      ReadyStep(cfg, r.states[i - 1], r.events[i - 1]);
    }
  }

  // ---------------------------------------------------------------------------
  // Awaiting: at once
  // ---------------------------------------------------------------------------

  predicate Open(g: Gateway) {
    g.AStart? || g.ADispatched? || g.ASubscribed? || g.AWait? || g.ARead? || g.AFinal?
  }

  predicate BeforePost(w: Worker) {
    w.Idle? || w.Working? || w.Posting?
  }

  /** The answer is there or still to come, and so is the signal that brings it. */
  predicate Promising(s: State) {
    && Open(s.gateway)
    && (|| BeforePost(s.worker)
        || (Terminal(s.row) && s.worker.Signalling?)
        || (Terminal(s.row) && (s.gateway.ARead? || s.gateway.AFinal?))
        || (Terminal(s.row) && s.doneInbox.Some? && s.doneInbox.value > 0))
  }

  function WorkLeft(cfg: Config, w: Worker): nat {
    match w
    case Idle => |Messages(cfg.script)| + 4
    case Working(sent) => if sent <= |Messages(cfg.script)| then |Messages(cfg.script)| - sent + 3 else 3
    case Posting => 2
    case Signalling => 1
    case _ => 0
  }

  function GateLeft(g: Gateway): nat {
    match g
    case AStart => 5
    case ADispatched => 4
    case ASubscribed => 3
    case ARead(_) => 2
    case _ => 1
  }

  function WorkerNext(cfg: Config, w: Worker): Event {
    match w
    case Idle => Start
    case Working(sent) => if sent < |Messages(cfg.script)| then Publish(true) else EndStream
    case Posting => Post(true)
    case _ => Signal(true)
  }

  function AwaitNext(cfg: Config, s: State): Event {
    match s.gateway
    case AStart => Dispatch
    case ADispatched => Subscribe
    case ASubscribed => Iterate
    case ARead(_) => ReadRow
    case AFinal => if Terminal(s.row) then FinalRead else WorkerNext(cfg, s.worker)
    case _ => if s.doneInbox.Some? && s.doneInbox.value > 0 then Receive else WorkerNext(cfg, s.worker)
  }

  function Signals(s: State): nat {
    if s.doneInbox.Some? then s.doneInbox.value else 0
  }

  lemma AwaitAdvances(cfg: Config, s: State)
    requires Ready(cfg, s) && !cfg.streaming && Promising(s)
    ensures var e := AwaitNext(cfg, s);
            && Enabled(cfg, s, e) && Smooth(e)
            && var s' := Apply(cfg, s, e);
               && (s'.gateway.AReturned? || Promising(s'))
               && (WorkLeft(cfg, s'.worker) < WorkLeft(cfg, s.worker)
                   || (s'.worker == s.worker
                       && (Signals(s') < Signals(s)
                           || (Signals(s') == Signals(s) && GateLeft(s'.gateway) < GateLeft(s.gateway))
                           || s'.gateway.AReturned?)))
  {
  }

  /** A wait whose signal is still to come is answered without any time passing, if nothing goes wrong. */
  lemma {:induction false} AnsweredAtOnce(cfg: Config, r: Run) returns (r': Run)
    requires IsRun(cfg, r) && !cfg.streaming && Promising(Last(r))
    ensures IsRun(cfg, r') && Continues(r, r')
    ensures Last(r').gateway == AReturned(RowOf(ReportOf(cfg.script)))
    decreases WorkLeft(cfg, Last(r).worker), Signals(Last(r)), GateLeft(Last(r).gateway)
  {
    ReadyAlways(cfg, r, |r.states| - 1);
    AwaitAdvances(cfg, Last(r));
    r' := Extend(cfg, r, AwaitNext(cfg, Last(r)));
    if Last(r').gateway.AReturned? {
      RowAlways(cfg, r', |r'.states| - 1);
    } else {
      r' := AnsweredAtOnce(cfg, r');
    }
  }

  // ---------------------------------------------------------------------------
  // Awaiting: which waits can still be answered
  // ---------------------------------------------------------------------------

  /** The row is written, or the worker has not come to writing it. */
  predicate Answerable(s: State) {
    s.gateway.AReturned? || (Open(s.gateway) && (Terminal(s.row) || BeforePost(s.worker)))
  }

  function DeadlineNext(s: State): Event {
    match s.gateway
    case AStart => Dispatch
    case ADispatched => Subscribe
    case ASubscribed => Iterate
    case ARead(_) => ReadRow
    case AFinal => FinalRead
    case AWait(deadline) => if s.now >= deadline then TimeOut else Tick(deadline - s.now)
    case _ => Tick(0)
  }

  function DeadlineLeft(s: State): nat {
    match s.gateway
    case AStart => 6
    case ADispatched => 5
    case ASubscribed => 4
    case AWait(deadline) => if s.now >= deadline then 2 else 3
    case _ => 1
  }

  /** With the row written, even a wait whose signal was lost is answered at its deadline. */
  lemma {:induction false} AnsweredAtDeadline(cfg: Config, r: Run) returns (r': Run)
    requires IsRun(cfg, r) && !cfg.streaming && Open(Last(r).gateway) && Terminal(Last(r).row)
    ensures IsRun(cfg, r') && r.states <= r'.states
    ensures Last(r').gateway == AReturned(RowOf(ReportOf(cfg.script)))
    decreases DeadlineLeft(Last(r))
  {
    r' := Extend(cfg, r, DeadlineNext(Last(r)));
    if Last(r').gateway.AReturned? {
      RowAlways(cfg, r', |r'.states| - 1);
    } else {
      r' := AnsweredAtDeadline(cfg, r');
    }
  }

  lemma {:induction false} UnanswerableStays(cfg: Config, r: Run, i: nat, j: nat)
    requires IsRun(cfg, r) && !cfg.streaming && i <= j < |r.states| && !Answerable(r.states[i])
    ensures !Answerable(r.states[j])
  {
    if i < j {
      UnanswerableStays(cfg, r, i, j - 1);
      ReadyAlways(cfg, r, j - 1);
      assert Steps(cfg, r, j - 1);
    }
  }

  /**
   In every reachable state: the wait can still return the worker's report exactly when it has not given up, and
   the row is written or the worker, uncrashed, has yet to write it. A lost signal is no obstacle.
   */
  lemma AnswerableExactly(cfg: Config, r: Run)
    requires IsRun(cfg, r) && !cfg.streaming
    ensures (exists r' :: && IsRun(cfg, r') && r.states <= r'.states
                          && Last(r').gateway == AReturned(RowOf(ReportOf(cfg.script)))) <==>
            Answerable(Last(r))
  {
    if !Answerable(Last(r)) {
      forall r' | IsRun(cfg, r') && r.states <= r'.states
        ensures Last(r').gateway != AReturned(RowOf(ReportOf(cfg.script)))
      {
        assert r'.states[|r.states| - 1] == Last(r);
        UnanswerableStays(cfg, r', |r.states| - 1, |r'.states| - 1);
      }
    } else if Last(r).gateway.AReturned? {
      RowAlways(cfg, r, |r.states| - 1);
    } else if Terminal(Last(r).row) {
      var r' := AnsweredAtDeadline(cfg, r);
    } else {
      var r' := AnsweredAtOnce(cfg, r);
    }
  }

  // ---------------------------------------------------------------------------
  // Streaming
  // ---------------------------------------------------------------------------

  function StreamNext(cfg: Config, s: State): Event {
    match s.gateway
    case SStart => Subscribe
    case SSubscribed => Dispatch
    case SDispatched(_) => Iterate
    case _ => if s.inbox.Some? && s.inbox.value != [] then Receive else WorkerNext(cfg, s.worker)
  }

  function StreamGateLeft(g: Gateway): nat {
    match g
    case SStart => 3
    case SSubscribed => 2
    case SDispatched(_) => 1
    case _ => 0
  }

  predicate StreamOpen(g: Gateway) {
    g.SStart? || g.SSubscribed? || g.SDispatched? || g.SLoop?
  }

  /** How many of the worker's messages the gateway has not taken. */
  function ToTake(cfg: Config, s: State): nat {
    if s.inbox.Some? && |s.inbox.value| <= |s.published| && Taken(s) <= |Messages(cfg.script)|
    then |Messages(cfg.script)| - Taken(s) else |Messages(cfg.script)|
  }

  /** What a stream still has to go through: its entry, the messages, and the worker's steps. */
  function StreamLeft(cfg: Config, s: State): nat {
    StreamGateLeft(s.gateway) + ToTake(cfg, s) + WorkLeft(cfg, s.worker)
  }

  /** A smooth event that leaves the stream open, or complete, and nearer to its end. */
  ghost predicate Advances(cfg: Config, s: State, e: Event) {
    && Enabled(cfg, s, e) && Smooth(e)
    && var s' := Apply(cfg, s, e);
       && (StreamOpen(s'.gateway) || (s'.gateway.SEnd? && s'.gateway.complete)) && !s'.worker.Crashed?
       && StreamLeft(cfg, s') < StreamLeft(cfg, s)
  }

  lemma StreamAdvances(cfg: Config, s: State)
    requires Ready(cfg, s) && cfg.streaming && StreamOk(s) && SentIsPublished(cfg, s)
    requires StreamOpen(s.gateway) && !s.worker.Crashed? && HasDone(Messages(cfg.script))
    ensures Advances(cfg, s, StreamNext(cfg, s))
  {
    if !s.gateway.SLoop? {
      EntryAdvances(cfg, s);
    } else if s.inbox.value != [] {
      ReceiveAdvances(cfg, s);
    } else {
      NotAllTaken(cfg, s);
      WorkAdvances(cfg, s);
    }
  }

  lemma EntryAdvances(cfg: Config, s: State)
    requires StreamOk(s) && StreamOpen(s.gateway) && !s.gateway.SLoop? && !s.worker.Crashed?
    ensures Advances(cfg, s, StreamNext(cfg, s))
  {
  }

  lemma ReceiveAdvances(cfg: Config, s: State)
    requires StreamOk(s) && SentIsPublished(cfg, s) && s.gateway.SLoop? && s.inbox.value != [] && !s.worker.Crashed?
    ensures Advances(cfg, s, Receive)
  {
    assert |s.published| <= |Messages(cfg.script)|;
  }

  lemma WorkAdvances(cfg: Config, s: State)
    requires Ready(cfg, s) && StreamOk(s) && SentIsPublished(cfg, s) && s.gateway.SLoop? && s.inbox.value == []
    requires s.worker.Idle? || (s.worker.Working? && s.worker.sent < |Messages(cfg.script)|)
    ensures Advances(cfg, s, WorkerNext(cfg, s.worker))
  {
    var s' := Apply(cfg, s, WorkerNext(cfg, s.worker));
    assert Taken(s') == Taken(s);
  }

  /** A loop that has taken everything published is not at the end: the last message is the one that says done. */
  lemma NotAllTaken(cfg: Config, s: State)
    requires Ready(cfg, s) && cfg.streaming && s.gateway.SLoop? && s.inbox.value == []
    requires SentIsPublished(cfg, s) && !s.worker.Crashed? && HasDone(Messages(cfg.script))
    ensures s.worker.Idle? || (s.worker.Working? && s.worker.sent < |Messages(cfg.script)|)
  {
    DoneIsLast(cfg.script);
    assert Taken(s) == |s.published|;
    assert forall i :: 0 <= i < |s.published| ==> !s.published[i].done;
  }

  lemma CompleteShowsAll(cfg: Config, r: Run)
    requires IsRun(cfg, r) && cfg.streaming && Lossless(r, |r.events|)
    requires Last(r).gateway.SEnd? && Last(r).gateway.complete
    ensures Text(Last(r).gateway.frames) == ReportOf(cfg.script).output
  {
    CompleteExactly(cfg, r, |r.states| - 1);
    StreamRefinesBatch(cfg, r, |r.states| - 1);
  }

  lemma Chains(r: Run, next: Run, r': Run)
    requires Continues(r, next) && Continues(next, r')
    ensures Continues(r, r')
  {
    forall i | |r.events| <= i < |r'.events| ensures Smooth(r'.events[i]) {
      assert i < |next.events| ==> r'.events[i] == next.events[i];
    }
  }

  lemma SmoothExtend(cfg: Config, r: Run, e: Event) returns (next: Run)
    requires IsRun(cfg, r) && Lossless(r, |r.events|) && Enabled(cfg, Last(r), e) && Smooth(e)
    ensures IsRun(cfg, next) && Continues(r, next) && Lossless(next, |next.events|)
    ensures Last(next) == Apply(cfg, Last(r), e)
  {
    next := Extend(cfg, r, e);
  }

  lemma StreamCanAdvance(cfg: Config, r: Run, s: State)
    requires IsRun(cfg, r) && s == Last(r) && cfg.streaming && Lossless(r, |r.events|) && HasDone(Messages(cfg.script))
    requires StreamOpen(s.gateway) && !s.worker.Crashed?
    ensures Advances(cfg, s, StreamNext(cfg, s))
  {
    ReadyAlways(cfg, r, |r.states| - 1);
    StreamAlways(cfg, r, |r.states| - 1);
    SentAlways(cfg, r, |r.states| - 1);
    StreamAdvances(cfg, s);
  }

  /**
   A stream of an executor that says when it is done is completed without any time passing, if nothing is lost
   and the worker does not crash; and then it shows the whole output.
   */
  lemma {:induction false} StreamCanComplete(cfg: Config, r: Run) returns (r': Run)
    requires IsRun(cfg, r) && cfg.streaming && Lossless(r, |r.events|) && HasDone(Messages(cfg.script))
    requires StreamOpen(Last(r).gateway) && !Last(r).worker.Crashed?
    ensures IsRun(cfg, r') && Continues(r, r') && Lossless(r', |r'.events|)
    ensures Last(r').gateway.SEnd? && Last(r').gateway.complete
    ensures Text(Last(r').gateway.frames) == ReportOf(cfg.script).output
    decreases StreamLeft(cfg, Last(r))
  {
    StreamCanAdvance(cfg, r, Last(r));
    var next := SmoothExtend(cfg, r, StreamNext(cfg, Last(r)));
    if StreamOpen(Last(next).gateway) {
      r' := StreamCanComplete(cfg, next);
      Chains(r, next, r');
    } else {
      CompleteShowsAll(cfg, next);
      r' := next;
    }
  }
}
