/**
 Delivery of tasks to one worker: a durable stream with a consumer-group cursor, the gateway's poll
 endpoint that acknowledges on delivery, and the worker's bounded-parallel loop. Poll requests may
 outlive the worker's patience, fail half way, or have their answers lost.
 */
module TaskDelivery {
  import opened Prelude

  type PollId = nat
  type MessageId = nat
  type Handle = nat
  type Task = string

  /** `>` reads from the cursor; `group` is absent until the first consumer creates it. */
  datatype Stream = Stream(log: seq<Task>, group: Option<nat>, acked: set<MessageId>)

  function Cursor(s: Stream): nat {
    if s.group.Some? then s.group.value else 0
  }

  predicate StreamOk(s: Stream) {
    Cursor(s) <= |s.log|
  }

  function Range(from: nat, upto: nat): seq<nat>
    requires from <= upto
  {
    seq(upto - from, i requires 0 <= i < upto - from => from + i)
  }

  /** XREADGROUP from the cursor: at most `count` messages; a count below one is refused by the client library. */
  function AfterConsume(s: Stream, count: int): Stream
    requires StreamOk(s)
  {
    s.(group := Some(if count < 1 then Cursor(s) else Min(|s.log|, Cursor(s) + count)))
  }

  // ---------------------------------------------------------------------------
  // The interleaved system
  // ---------------------------------------------------------------------------

  /**
   A poll request on the gateway: asked for `count`; delivered the batch `from..upto` with the first
   `acks` of it acknowledged; answered; and then either received by the worker or lost.
   */
  datatype Poll =
    | Asked(count: int)
    | Refused(count: int)
    | Delivering(count: int, from: nat, upto: nat, acks: nat)
    | Answered(count: int, from: nat, upto: nat)
    | Received(count: int, from: nat, upto: nat)
    | Lost(count: int, from: nat, upto: nat)

  /** Where the worker's loop stands: at its top, past the pruning of finished tasks, or waiting for a poll. */
  datatype Loop = Top | Pruned | Waiting(poll: PollId)

  /** `started` lists the messages turned into asyncio tasks; a handle is a position in it. */
  datatype State = State(stream: Stream, polls: map<PollId, Poll>, loop: Loop,
                         started: seq<MessageId>, inFlight: set<Handle>, finished: set<Handle>)

  datatype Config = Config(maxParallel: int, batchMax: int)

  datatype Event =
    | Publish(task: Task)
    | Prune
    | Ask(poll: PollId)
    | SkipRound
    | GiveUp
    | Consume(poll: PollId)
    | Acknowledge(poll: PollId)
    | Answer(poll: PollId)
    | Break(poll: PollId)
    | Receive
    | Finish(handle: Handle)

  const INIT := State(Stream([], None, {}), map[], Top, [], {}, {})

  predicate Enabled(cfg: Config, s: State, e: Event) {
    match e
    case Publish(_) => true
    case Prune => s.loop.Top?
    case Ask(p) => s.loop.Pruned? && p !in s.polls && |s.inFlight| < cfg.maxParallel
    case SkipRound => s.loop.Pruned?
    case GiveUp => s.loop.Waiting?
    case Consume(p) => p in s.polls && s.polls[p].Asked? && StreamOk(s.stream)
    case Acknowledge(p) => p in s.polls && s.polls[p].Delivering? && s.polls[p].from + s.polls[p].acks < s.polls[p].upto
    case Answer(p) => p in s.polls && s.polls[p].Delivering? && s.polls[p].from + s.polls[p].acks == s.polls[p].upto
    case Break(p) => p in s.polls && (s.polls[p].Delivering? || s.polls[p].Answered?)
    case Receive =>
      s.loop.Waiting? && s.loop.poll in s.polls && s.polls[s.loop.poll].Answered?
      && s.polls[s.loop.poll].from <= s.polls[s.loop.poll].upto
    case Finish(h) => h in s.inFlight
  }

  function Apply(cfg: Config, s: State, e: Event): State
    requires Enabled(cfg, s, e)
  {
    match e
    case Publish(task) => s.(stream := s.stream.(log := s.stream.log + [task]))
    case Prune => s.(inFlight := s.inFlight - s.finished, loop := Pruned)
    case Ask(p) =>
      s.(polls := s.polls[p := Asked(Min(cfg.maxParallel - |s.inFlight|, cfg.batchMax))], loop := Waiting(p))
    case SkipRound => s.(loop := Top)
    case GiveUp => s.(loop := Top)
    case Consume(p) =>
      var count, stream := s.polls[p].count, AfterConsume(s.stream, s.polls[p].count);
      s.(stream := stream,
         polls := s.polls[p := if count < 1 then Refused(count)
                          else Delivering(count, Cursor(s.stream), Cursor(stream), 0)])
    case Acknowledge(p) =>
      var poll := s.polls[p];
      s.(stream := s.stream.(acked := s.stream.acked + {poll.from + poll.acks}),
         polls := s.polls[p := poll.(acks := poll.acks + 1)])
    case Answer(p) => s.(polls := s.polls[p := Answered(s.polls[p].count, s.polls[p].from, s.polls[p].upto)])
    case Break(p) => s.(polls := s.polls[p := Lost(s.polls[p].count, s.polls[p].from, s.polls[p].upto)])
    case Receive =>
      var poll := s.polls[s.loop.poll];
      var first, last := |s.started|, |s.started| + poll.upto - poll.from;
      s.(polls := s.polls[s.loop.poll := Received(poll.count, poll.from, poll.upto)], loop := Top,
         started := s.started + Range(poll.from, poll.upto),
         inFlight := s.inFlight + HandleSet(first, last))
    case Finish(h) => s.(finished := s.finished + {h})
  }

  predicate Among(h: Handle, first: nat, last: nat) {
    first <= h < last
  }

  function HandleSet(first: nat, last: nat): set<Handle> {
    set h: Handle | first <= h < last && Among(h, first, last)
  }

  datatype Run = Run(states: seq<State>, events: seq<Event>)

  ghost predicate Steps(cfg: Config, r: Run, i: nat)
    requires |r.states| == |r.events| + 1 && i < |r.events|
  {
    Enabled(cfg, r.states[i], r.events[i]) && r.states[i + 1] == Apply(cfg, r.states[i], r.events[i])
  }

  ghost predicate IsRun(cfg: Config, r: Run) {
    && |r.states| == |r.events| + 1 && r.states[0] == INIT
    && forall i :: 0 <= i < |r.events| ==> Steps(cfg, r, i)
  }

  // ---------------------------------------------------------------------------
  // Invariant on batches: they tile the stream up to the cursor
  // ---------------------------------------------------------------------------

  predicate HasBatch(poll: Poll) {
    poll.Delivering? || poll.Answered? || poll.Received? || poll.Lost?
  }

  predicate InBatch(poll: Poll, m: MessageId) {
    HasBatch(poll) && poll.from <= m < poll.upto
  }

  ghost predicate PollOk(s: State, p: PollId)
    requires p in s.polls
  {
    var poll := s.polls[p];
    HasBatch(poll) ==>
      && poll.from <= poll.upto <= Cursor(s.stream)
      && poll.upto <= poll.from + poll.count
      && (poll.Delivering? ==> poll.from + poll.acks <= poll.upto && Settled(s, poll.from, poll.from + poll.acks))
      && (poll.Answered? || poll.Received? ==> Settled(s, poll.from, poll.upto))
  }

  ghost predicate Settled(s: State, from: nat, upto: nat) {
    forall m :: from <= m < upto ==> m in s.stream.acked
  }

  ghost predicate DeliveredBy(s: State, m: MessageId, p: PollId) {
    p in s.polls && InBatch(s.polls[p], m)
  }

  ghost predicate Delivered(s: State, m: MessageId) {
    exists p :: DeliveredBy(s, m, p)
  }

  /** The message came to the worker in an answer. */
  ghost predicate Arrived(s: State, m: MessageId) {
    exists p :: DeliveredBy(s, m, p) && s.polls[p].Received?
  }

  ghost predicate Tiled(s: State) {
    && StreamOk(s.stream)
    && (forall p :: p in s.polls ==> PollOk(s, p))
    && (forall m, p, q :: DeliveredBy(s, m, p) && DeliveredBy(s, m, q) ==> p == q)
    && (forall m: nat :: m < Cursor(s.stream) ==> Delivered(s, m))
  }

  lemma ConsumeTiles(cfg: Config, s: State, p: PollId)
    requires Tiled(s) && Enabled(cfg, s, Consume(p))
    ensures Tiled(Apply(cfg, s, Consume(p)))
  {
    var s' := Apply(cfg, s, Consume(p));
    forall q | q in s'.polls ensures PollOk(s', q) {
      assert q != p ==> PollOk(s, q);
    }
    forall m, q, u | DeliveredBy(s', m, q) && DeliveredBy(s', m, u) ensures q == u {
      assert q != p ==> PollOk(s, q) && DeliveredBy(s, m, q);
      assert u != p ==> PollOk(s, u) && DeliveredBy(s, m, u);
    }
    forall m: nat | m < Cursor(s'.stream) ensures Delivered(s', m) {
      if m < Cursor(s.stream) {
        assert Delivered(s, m);
        var q :| DeliveredBy(s, m, q);
        assert DeliveredBy(s', m, q);
      } else {
        assert DeliveredBy(s', m, p);
      }
    }
  }

  /** No other event moves the cursor or a batch. */
  lemma BatchesStay(cfg: Config, s: State, e: Event)
    requires Tiled(s) && Enabled(cfg, s, e) && !e.Consume?
    ensures Cursor(Apply(cfg, s, e).stream) == Cursor(s.stream) && s.stream.acked <= Apply(cfg, s, e).stream.acked
    ensures forall m, p :: DeliveredBy(s, m, p) <==> DeliveredBy(Apply(cfg, s, e), m, p)
  {
  }

  lemma PollsStay(cfg: Config, s: State, e: Event, p: PollId)
    requires Tiled(s) && Enabled(cfg, s, e) && !e.Consume? && p in Apply(cfg, s, e).polls
    ensures PollOk(Apply(cfg, s, e), p)
  {
    if p in s.polls {
      assert PollOk(s, p);
    }
  }

  lemma TiledStep(cfg: Config, s: State, e: Event)
    requires Tiled(s) && Enabled(cfg, s, e)
    ensures Tiled(Apply(cfg, s, e))
  {
    var s' := Apply(cfg, s, e);
    if e.Consume? {
      ConsumeTiles(cfg, s, e.poll);
    } else {
      BatchesStay(cfg, s, e);
      forall p | p in s'.polls ensures PollOk(s', p) {
        PollsStay(cfg, s, e, p);
      }
      forall m: nat | m < Cursor(s'.stream) ensures Delivered(s', m) {
        assert Delivered(s, m);
        var p :| DeliveredBy(s, m, p);
        assert DeliveredBy(s', m, p);
      }
    }
  }

  // ---------------------------------------------------------------------------
  // Invariant on the worker: bounded, ordered, started exactly from received answers
  // ---------------------------------------------------------------------------

  ghost predicate Bounded(cfg: Config, s: State) {
    && |s.inFlight| <= Max(0, cfg.maxParallel)
    && (forall h :: h in s.inFlight ==> h < |s.started|)
    && (s.loop.Waiting? ==> s.loop.poll in s.polls && |s.inFlight| + s.polls[s.loop.poll].count <= cfg.maxParallel)
  }

  lemma HandleSetSnoc(first: nat, last: nat)
    requires first <= last
    ensures HandleSet(first, last + 1) == HandleSet(first, last) + {last}
  {
  }

  lemma {:induction false} HandleSetSize(first: nat, last: nat)
    requires first <= last
    ensures |HandleSet(first, last)| == last - first
    decreases last - first
  {
    if first < last {
      HandleSetSize(first, last - 1);
      HandleSetSnoc(first, last - 1);
    } else {
      assert HandleSet(first, last) == {};
    }
  }

  lemma {:induction false} PruneShrinks(a: set<Handle>, b: set<Handle>)
    ensures |a - b| <= |a|
  {
    assert |a| == |a - b| + |a * b| by {
      assert (a - b) + (a * b) == a;
    }
  }

  lemma UnionSize(a: set<Handle>, b: set<Handle>)
    ensures |a + b| <= |a| + |b|
  {
  }

  /** The cursor half: the awaited batch is no larger than what was asked for. */
  lemma AwaitedBatchSize(s: State)
    requires Tiled(s) && s.loop.Waiting? && s.loop.poll in s.polls && s.polls[s.loop.poll].Answered?
    ensures var poll := s.polls[s.loop.poll]; poll.from <= poll.upto <= poll.from + poll.count
  {
    assert PollOk(s, s.loop.poll);
  }

  /** The in-flight half: a batch no larger than what was asked for, with the free slots in view, fits. */
  lemma ReceiveFits(cfg: Config, s: State)
    requires Bounded(cfg, s) && Enabled(cfg, s, Receive)
    requires var poll := s.polls[s.loop.poll]; poll.upto <= poll.from + poll.count
    ensures Bounded(cfg, Apply(cfg, s, Receive))
  {
    var poll := s.polls[s.loop.poll];
    ReceivedState(cfg, s, poll.upto - poll.from);
    LaunchFits(s.inFlight, |s.started|, poll.upto - poll.from);
    ReceivedBounded(cfg, s.inFlight, Apply(cfg, s, Receive).inFlight, |s.started|, poll.upto - poll.from, poll.count);
  }

  lemma ReceivedState(cfg: Config, s: State, n: nat)
    requires Enabled(cfg, s, Receive) && n == s.polls[s.loop.poll].upto - s.polls[s.loop.poll].from
    ensures var s' := Apply(cfg, s, Receive);
            && s'.inFlight == s.inFlight + HandleSet(|s.started|, |s.started| + n)
            && |s'.started| == |s.started| + n && s'.loop == Top
  {
  }

  lemma ReceivedBounded(cfg: Config, before: set<Handle>, after: set<Handle>, first: nat, n: nat, count: int)
    requires n <= count && |before| + count <= cfg.maxParallel && |after| <= |before| + n
    ensures |after| <= Max(0, cfg.maxParallel)
  {
  }

  lemma LaunchFits(inFlight: set<Handle>, first: nat, n: nat)
    requires forall h :: h in inFlight ==> h < first
    ensures |inFlight + HandleSet(first, first + n)| <= |inFlight| + n
    ensures var all := inFlight + HandleSet(first, first + n); forall h :: h in all ==> h < first + n
  {
    HandleSetSize(first, first + n);
    UnionSize(inFlight, HandleSet(first, first + n));
  }

  lemma BoundedStep(cfg: Config, s: State, e: Event)
    requires Tiled(s) && Bounded(cfg, s) && Enabled(cfg, s, e)
    ensures Bounded(cfg, Apply(cfg, s, e))
  {
    if e == Receive {
      AwaitedBatchSize(s);
      ReceiveFits(cfg, s);
    } else {
      PruneShrinks(s.inFlight, s.finished);
    }
  }

  predicate Increasing(ids: seq<MessageId>) {
    forall i, j :: 0 <= i < j < |ids| ==> ids[i] < ids[j]
  }

  /** The poll the worker waits for holds nothing that was started, and nothing published before it. */
  ghost predicate AwaitedAhead(s: State, p: PollId) {
    && p in s.polls && !s.polls[p].Received?
    && (HasBatch(s.polls[p]) ==> forall k :: 0 <= k < |s.started| ==> s.started[k] < s.polls[p].from)
  }

  ghost predicate StartedOk(s: State) {
    && Increasing(s.started)
    && (forall k :: 0 <= k < |s.started| ==> s.started[k] < Cursor(s.stream))
    && (forall m: nat :: m in s.started <==> Arrived(s, m))
    && (s.loop.Waiting? ==> AwaitedAhead(s, s.loop.poll))
  }

  lemma ReceiveStarts(cfg: Config, s: State)
    requires StartedOk(s) && Enabled(cfg, s, Receive) && PollOk(s, s.loop.poll)
    ensures StartedOk(Apply(cfg, s, Receive))
  {
    var s' := Apply(cfg, s, Receive);
    ReceiveExtends(cfg, s);
    forall m: nat ensures m in s'.started <==> Arrived(s', m) {
      if m in s'.started {
        StartedArrived(cfg, s, m);
      }
      if Arrived(s', m) {
        ArrivedStarted(cfg, s, m);
      }
    }
  }

  /** The batch lies after everything started so far, and before the cursor. */
  lemma ReceiveExtends(cfg: Config, s: State)
    requires Enabled(cfg, s, Receive) && PollOk(s, s.loop.poll) && AwaitedAhead(s, s.loop.poll)
    requires Increasing(s.started) && forall k :: 0 <= k < |s.started| ==> s.started[k] < Cursor(s.stream)
    ensures var s' := Apply(cfg, s, Receive);
            && Increasing(s'.started) && s'.loop == Top
            && forall k :: 0 <= k < |s'.started| ==> s'.started[k] < Cursor(s'.stream)
  {
    var batch := Range(s.polls[s.loop.poll].from, s.polls[s.loop.poll].upto);
    assert Apply(cfg, s, Receive).started == s.started + batch;
  }

  lemma StartedArrived(cfg: Config, s: State, m: nat)
    requires StartedOk(s) && Enabled(cfg, s, Receive) && m in Apply(cfg, s, Receive).started
    ensures Arrived(Apply(cfg, s, Receive), m)
  {
    var s', w := Apply(cfg, s, Receive), s.loop.poll;
    if m in s.started {
      assert Arrived(s, m);
      var p :| DeliveredBy(s, m, p) && s.polls[p].Received?;
      assert DeliveredBy(s', m, p) && s'.polls[p].Received?;
    } else {
      assert m in Range(s.polls[w].from, s.polls[w].upto);
      assert DeliveredBy(s', m, w) && s'.polls[w].Received?;
    }
  }

  lemma ArrivedStarted(cfg: Config, s: State, m: nat)
    requires StartedOk(s) && Enabled(cfg, s, Receive) && Arrived(Apply(cfg, s, Receive), m)
    ensures m in Apply(cfg, s, Receive).started
  {
    var s', w := Apply(cfg, s, Receive), s.loop.poll;
    var p :| DeliveredBy(s', m, p) && s'.polls[p].Received?;
    if p == w {
      assert Range(s.polls[w].from, s.polls[w].upto)[m - s.polls[w].from] == m;
    } else {
      assert DeliveredBy(s, m, p) && s.polls[p].Received?;
      assert Arrived(s, m);
    }
  }

  /** Any other event neither starts a task nor turns a poll into a received one. */
  lemma OthersStartNothing(cfg: Config, s: State, e: Event, m: MessageId)
    requires Tiled(s) && StartedOk(s) && Enabled(cfg, s, e) && e != Receive
    ensures m in s.started <==> Arrived(Apply(cfg, s, e), m)
  {
    var s' := Apply(cfg, s, e);
    if Arrived(s, m) {
      var p :| DeliveredBy(s, m, p) && s.polls[p].Received?;
      assert DeliveredBy(s', m, p) && s'.polls[p].Received?;
    }
    if Arrived(s', m) {
      var p :| DeliveredBy(s', m, p) && s'.polls[p].Received?;
      assert DeliveredBy(s, m, p) && s.polls[p].Received?;
    }
  }

  lemma StartedStep(cfg: Config, s: State, e: Event)
    requires Tiled(s) && StartedOk(s) && Enabled(cfg, s, e)
    ensures StartedOk(Apply(cfg, s, e))
  {
    if e == Receive {
      assert PollOk(s, s.loop.poll);
      ReceiveStarts(cfg, s);
    } else {
      forall m: nat ensures m in Apply(cfg, s, e).started <==> Arrived(Apply(cfg, s, e), m) {
        OthersStartNothing(cfg, s, e, m);
      }
    }
  }

  lemma {:induction false} Always(cfg: Config, r: Run, i: nat)
    requires IsRun(cfg, r) && i < |r.states|
    ensures Tiled(r.states[i]) && Bounded(cfg, r.states[i]) && StartedOk(r.states[i])
  {
    if i > 0 {
      Always(cfg, r, i - 1);
      assert Steps(cfg, r, i - 1);
      TiledStep(cfg, r.states[i - 1], r.events[i - 1]);
      BoundedStep(cfg, r.states[i - 1], r.events[i - 1]);
      StartedStep(cfg, r.states[i - 1], r.events[i - 1]);
    }
  }

  // ---------------------------------------------------------------------------
  // What holds of every run
  // ---------------------------------------------------------------------------

  /** Tasks are started in publish order and none twice, and only after they were acknowledged. */
  lemma StartedOnceInOrder(cfg: Config, r: Run, i: nat)
    requires IsRun(cfg, r) && i < |r.states|
    ensures Increasing(r.states[i].started)
    ensures forall k :: 0 <= k < |r.states[i].started| ==>
              r.states[i].started[k] < |r.states[i].stream.log| && r.states[i].started[k] in r.states[i].stream.acked
  {
    Always(cfg, r, i);
    var s := r.states[i];
    forall k | 0 <= k < |s.started| ensures s.started[k] in s.stream.acked {
      assert s.started[k] in s.started && Arrived(s, s.started[k]);
      var p :| DeliveredBy(s, s.started[k], p) && s.polls[p].Received?;
      assert PollOk(s, p);
    }
  }

  /** The worker never holds more than `max_parallel` tasks; with a limit of zero or less it holds none. */
  lemma BoundedParallelism(cfg: Config, r: Run, i: nat)
    requires IsRun(cfg, r) && i < |r.states|
    ensures |r.states[i].inFlight| <= Max(0, cfg.maxParallel)
  {
    Always(cfg, r, i);
  }

  /** Everything behind the cursor was handed to exactly one poll, and is started just if that poll's answer arrived. */
  lemma DeliveryIsAPartition(cfg: Config, r: Run, i: nat, m: MessageId) returns (p: PollId)
    requires IsRun(cfg, r) && i < |r.states| && m < Cursor(r.states[i].stream)
    ensures DeliveredBy(r.states[i], m, p)
    ensures forall q :: DeliveredBy(r.states[i], m, q) ==> q == p
    ensures m in r.states[i].started <==> r.states[i].polls[p].Received?
  {
    Always(cfg, r, i);
    assert Delivered(r.states[i], m);
    p :| DeliveredBy(r.states[i], m, p);
  }

  /** The answer of this poll will not come: it was lost, or the worker no longer waits for it. */
  predicate Doomed(s: State, p: PollId) {
    p in s.polls && HasBatch(s.polls[p]) && !s.polls[p].Received? && (s.polls[p].Lost? || s.loop != Waiting(p))
  }

  lemma {:induction false} DoomedStays(cfg: Config, r: Run, i: nat, j: nat, m: MessageId, p: PollId)
    requires IsRun(cfg, r) && i <= j < |r.states| && DeliveredBy(r.states[i], m, p) && Doomed(r.states[i], p)
    ensures DeliveredBy(r.states[j], m, p) && Doomed(r.states[j], p)
  {
    if i < j {
      DoomedStays(cfg, r, i, j - 1, m, p);
      assert Steps(cfg, r, j - 1);
    }
  }

  /**
   The price of acknowledging on delivery: a task in a doomed answer is never started, by this poll or any later one.
   */
  lemma LostIsNeverStarted(cfg: Config, r: Run, i: nat, j: nat, m: MessageId, p: PollId)
    requires IsRun(cfg, r) && i <= j < |r.states| && DeliveredBy(r.states[i], m, p) && Doomed(r.states[i], p)
    ensures m !in r.states[j].started
  {
    DoomedStays(cfg, r, i, j, m, p);
    Always(cfg, r, j);
    assert !Arrived(r.states[j], m);
  }

  function Last(r: Run): State
    requires r.states != []
  {
    r.states[|r.states| - 1]
  }

  lemma Extend(cfg: Config, r: Run, e: Event) returns (r': Run)
    requires IsRun(cfg, r) && Enabled(cfg, Last(r), e)
    ensures IsRun(cfg, r') && r.states <= r'.states && Last(r') == Apply(cfg, Last(r), e)
    ensures r'.events == r.events + [e]
  {
    r' := Run(r.states + [Apply(cfg, Last(r), e)], r.events + [e]);
    forall i: nat | i < |r'.events| ensures Steps(cfg, r', i) {
      assert i < |r.events| ==> Steps(cfg, r, i);
    }
  }

  /** Any other delivered task can still be started: the run can be continued to where it is. */
  lemma {:induction false} OthersCanStart(cfg: Config, r: Run, m: MessageId, p: PollId) returns (r': Run)
    requires IsRun(cfg, r) && DeliveredBy(Last(r), m, p) && !Doomed(Last(r), p)
    ensures IsRun(cfg, r') && r.states <= r'.states && m in Last(r').started
    decreases var poll := Last(r).polls[p];
              if poll.Delivering? then poll.upto - poll.from - poll.acks + 2 else if poll.Answered? then 1 else 0
  {
    Always(cfg, r, |r.states| - 1);
    var s, poll := Last(r), Last(r).polls[p];
    assert PollOk(s, p);
    if poll.Received? {
      assert Arrived(s, m);
      r' := r;
    } else {
      var e := if poll.Answered? then Receive else if poll.from + poll.acks < poll.upto then Acknowledge(p)
          else Answer(p);
      var next := Extend(cfg, r, e);
      r' := OthersCanStart(cfg, next, m, p);
    }
  }

  /** So a delivered task is lost for good exactly when its poll is doomed. */
  lemma LostExactly(cfg: Config, r: Run, m: MessageId, p: PollId)
    requires IsRun(cfg, r) && DeliveredBy(Last(r), m, p)
    ensures Doomed(Last(r), p) <==>
            forall r' :: IsRun(cfg, r') && r.states <= r'.states ==> m !in Last(r').started
  {
    if Doomed(Last(r), p) {
      forall r' | IsRun(cfg, r') && r.states <= r'.states ensures m !in Last(r').started {
        assert r'.states[|r.states| - 1] == Last(r);
        LostIsNeverStarted(cfg, r', |r.states| - 1, |r'.states| - 1, m, p);
      }
    } else {
      var r' := OthersCanStart(cfg, r, m, p);
    }
  }

  /** One task, delivered and acknowledged; then the answer breaks on its way. */
  function LostRun(cfg: Config, task: Task): Run
    requires cfg.maxParallel >= 1 && cfg.batchMax >= 1
  {
    var n := Min(cfg.maxParallel, cfg.batchMax);
    var unread, read, acked := Stream([task], None, {}), Stream([task], Some(1), {}), Stream([task], Some(1), {0});
    Run([INIT,
         State(unread, map[], Top, [], {}, {}),
         State(unread, map[], Pruned, [], {}, {}),
         State(unread, map[0 := Asked(n)], Waiting(0), [], {}, {}),
         State(read, map[0 := Delivering(n, 0, 1, 0)], Waiting(0), [], {}, {}),
         State(acked, map[0 := Delivering(n, 0, 1, 1)], Waiting(0), [], {}, {}),
         State(acked, map[0 := Answered(n, 0, 1)], Waiting(0), [], {}, {}),
         State(acked, map[0 := Lost(n, 0, 1)], Waiting(0), [], {}, {})],
        [Publish(task), Prune, Ask(0), Consume(0), Acknowledge(0), Answer(0), Break(0)])
  }

  lemma LostRunAsks(cfg: Config, task: Task, i: nat)
    requires cfg.maxParallel >= 1 && cfg.batchMax >= 1 && i < 3
    ensures Steps(cfg, LostRun(cfg, task), i)
  {
    var r := LostRun(cfg, task);
    var got := Apply(cfg, r.states[i], r.events[i]);
    assert got.stream == r.states[i + 1].stream && got.polls == r.states[i + 1].polls;
  }

  lemma LostRunDelivers(cfg: Config, task: Task, i: nat)
    requires cfg.maxParallel >= 1 && cfg.batchMax >= 1 && 3 <= i < 5
    ensures Steps(cfg, LostRun(cfg, task), i)
  {
    var r := LostRun(cfg, task);
    var got := Apply(cfg, r.states[i], r.events[i]);
    assert got.stream == r.states[i + 1].stream && got.polls == r.states[i + 1].polls;
  }

  lemma LostRunBreaks(cfg: Config, task: Task, i: nat)
    requires cfg.maxParallel >= 1 && cfg.batchMax >= 1 && 5 <= i < 7
    ensures Steps(cfg, LostRun(cfg, task), i)
  {
    var r := LostRun(cfg, task);
    var got := Apply(cfg, r.states[i], r.events[i]);
    assert got.stream == r.states[i + 1].stream && got.polls == r.states[i + 1].polls;
  }

  /** It happens: here a published and acknowledged task can never be started any more. */
  lemma AcknowledgedAndLost(cfg: Config, task: Task)
    requires cfg.maxParallel >= 1 && cfg.batchMax >= 1
    ensures var r := LostRun(cfg, task);
            && IsRun(cfg, r) && 0 in Last(r).stream.acked && DeliveredBy(Last(r), 0, 0)
            && forall r' :: IsRun(cfg, r') && r.states <= r'.states ==> 0 !in Last(r').started
  {
    var r := LostRun(cfg, task);
    forall i: nat | i < |r.events| ensures Steps(cfg, r, i) {
      if i < 3 {
        LostRunAsks(cfg, task, i);
      } else if i < 5 {
        LostRunDelivers(cfg, task, i);
      } else {
        LostRunBreaks(cfg, task, i);
      }
    }
    LostExactly(cfg, r, 0, 0);
  }

  // ---------------------------------------------------------------------------
  // The objects
  // ---------------------------------------------------------------------------

  datatype Message = Message(id: MessageId, task: Task)

  /** The batch a consume returns, each task with its message id. */
  function Batch(s: Stream, upto: nat): seq<Message>
    requires Cursor(s) <= upto <= |s.log|
  {
    seq(upto - Cursor(s), i requires 0 <= i < upto - Cursor(s) => Message(Cursor(s) + i, s.log[Cursor(s) + i]))
  }

  /** What acknowledging the next message of a batch adds to the answer and to the acknowledged ids. */
  lemma AcknowledgeNext(s: Stream, k: nat, message: Message, upto: nat)
    requires Cursor(s) <= upto <= |s.log| && k < |Batch(s, upto)| && message == Batch(s, upto)[k]
    ensures message.id == Cursor(s) + k
    ensures s.log[Cursor(s)..Cursor(s) + k] + [message.task] == s.log[Cursor(s)..Cursor(s) + k + 1]
    ensures HandleSet(Cursor(s), Cursor(s) + k + 1) == HandleSet(Cursor(s), Cursor(s) + k) + {message.id}
  {
    HandleSetSnoc(Cursor(s), Cursor(s) + k);
  }

  class StreamManager {
    var stream: Stream

    constructor ()
      ensures stream == Stream([], None, {})
    {
      stream := Stream([], None, {});
    }

    method Publish(task: Task) returns (id: MessageId)
      modifies this
      ensures id == |old(stream).log| && stream == old(stream).(log := old(stream).log + [task])
    {
      id := |stream.log|;
      stream := stream.(log := stream.log + [task]);
    }

    /** Creates the group if need be, then reads from its cursor. `None` stands for the library's refusal. */
    method Consume(count: int) returns (messages: Option<seq<Message>>)
      requires StreamOk(stream)
      modifies this
      ensures StreamOk(stream) && stream == AfterConsume(old(stream), count)
      ensures messages.None? <==> count < 1
      ensures messages.Some? ==> messages.value == Batch(old(stream), Cursor(stream)) && |messages.value| <= count
      ensures messages.Some? ==> |messages.value| == count || Cursor(stream) == |stream.log|
    {
      if stream.group.None? {
        stream := stream.(group := Some(0));
      }
      if count < 1 {
        return None;
      }
      var from, upto := Cursor(stream), Min(|stream.log|, Cursor(stream) + count);
      var results: seq<Message> := [];
      for k := from to upto
        invariant results == Batch(stream, upto)[..k - from]
      {
        results := results + [Message(k, stream.log[k])];
      }
      stream := stream.(group := Some(upto));
      messages := Some(results);
    }

    method Acknowledge(id: MessageId)
      modifies this
      ensures stream == old(stream).(acked := old(stream).acked + {id})
    {
      stream := stream.(acked := stream.acked + {id});
    }

    /** The poll endpoint: deliver, acknowledge everything delivered, answer the bare tasks. */
    method PollTasks(count: int) returns (tasks: Option<seq<Task>>)
      requires StreamOk(stream)
      modifies this
      ensures StreamOk(stream)
      ensures var read := HandleSet(Cursor(old(stream)), Cursor(stream));
              stream == AfterConsume(old(stream), count).(acked := old(stream).acked + read)
      ensures tasks.None? <==> count < 1
      ensures tasks.Some? ==> tasks.value == old(stream).log[Cursor(old(stream))..Cursor(stream)]
      ensures tasks.Some? ==> |tasks.value| <= count && (|tasks.value| == count || Cursor(stream) == |stream.log|)
    {
      ghost var before := stream;
      var messages := Consume(count);
      ghost var after := stream;
      if messages.None? {
        assert stream.acked == before.acked + HandleSet(Cursor(before), Cursor(stream));
        return None;
      }
      var answer: seq<Task> := [];
      for k := 0 to |messages.value|
        invariant stream == after.(acked := before.acked + HandleSet(Cursor(before), Cursor(before) + k))
        invariant answer == before.log[Cursor(before)..Cursor(before) + k]
      {
        var message := messages.value[k];
        AcknowledgeNext(before, k, message, Cursor(after));
        answer := answer + [message.task];
        Acknowledge(message.id);
      }
      tasks := Some(answer);
    }
  }

  lemma LaunchOne(inFlight: set<Handle>, before: set<Handle>, first: nat, launched: nat)
    requires first <= launched && inFlight == before + HandleSet(first, launched)
    ensures inFlight + {launched} == before + HandleSet(first, launched + 1)
    ensures launched !in inFlight ==> |inFlight + {launched}| == |inFlight| + 1
  {
    HandleSetSnoc(first, launched);
  }

  /** The worker's loop body, with what each await brought as a parameter. */
  class WorkerLoop {
    const maxParallel: int
    const batchMax: int
    var inFlight: set<Handle>
    var launched: nat

    ghost predicate Valid()
      reads this
    {
      |inFlight| <= Max(0, maxParallel) && forall h :: h in inFlight ==> h < launched
    }

    constructor (maxParallel: int, batchMax: int)
      ensures this.maxParallel == maxParallel && this.batchMax == batchMax && inFlight == {} && launched == 0 && Valid()
    {
      this.maxParallel, this.batchMax := maxParallel, batchMax;
      inFlight, launched := {}, 0;
    }

    /** Finished tasks leave; the answer is what to ask for, or nothing when the worker is full. */
    method Prepare(done: set<Handle>) returns (request: Option<int>)
      requires Valid()
      modifies this
      ensures Valid() && launched == old(launched) && inFlight == old(inFlight) - done
      ensures request.None? <==> |inFlight| >= maxParallel
      ensures request.Some? ==> request.value == Min(maxParallel - |inFlight|, batchMax)
    {
      PruneShrinks(inFlight, done);
      inFlight := inFlight - done;
      if |inFlight| >= maxParallel {
        return None;
      }
      request := Some(Min(maxParallel - |inFlight|, batchMax));
    }

    /** One asyncio task per delivered task. */
    method Launch(tasks: seq<Task>)
      requires Valid() && |inFlight| + |tasks| <= maxParallel
      modifies this
      ensures Valid() && launched == old(launched) + |tasks|
      ensures inFlight == old(inFlight) + HandleSet(old(launched), launched)
      ensures |inFlight| == |old(inFlight)| + |tasks|
    {
      ghost var first, before := launched, inFlight;
      for k := 0 to |tasks|
        invariant launched == first + k && inFlight == before + HandleSet(first, launched)
        invariant |inFlight| == |before| + k && forall h :: h in inFlight ==> h < launched
      {
        LaunchOne(inFlight, before, first, launched);
        inFlight := inFlight + {launched};
        launched := launched + 1;
      }
    }

    /**
     A whole round against the endpoint: never over the limit, whatever the batch setting, and as much as there
     is up to the limit and the batch setting.
     */
    method Round(gateway: StreamManager, done: set<Handle>) returns (tasks: seq<Task>)
      requires Valid() && StreamOk(gateway.stream)
      modifies this, gateway
      ensures Valid() && StreamOk(gateway.stream)
      ensures Cursor(old(gateway.stream)) <= Cursor(gateway.stream) <= |old(gateway.stream).log|
      ensures gateway.stream.log == old(gateway.stream).log
      ensures gateway.stream.acked == old(gateway.stream).acked +
              HandleSet(Cursor(old(gateway.stream)), Cursor(gateway.stream))
      ensures tasks == old(gateway.stream).log[Cursor(old(gateway.stream))..Cursor(gateway.stream)]
      ensures launched == old(launched) + |tasks|
      ensures inFlight == (old(inFlight) - done) + HandleSet(old(launched), launched)
      ensures || |inFlight| >= maxParallel || |tasks| == batchMax || batchMax < 1
              || Cursor(gateway.stream) == |gateway.stream.log|
    {
      ghost var before := gateway.stream;
      var request := Prepare(done);
      if request.None? {
        return [];
      }
      var answer := gateway.PollTasks(request.value);
      if answer.None? {
        return [];
      }
      tasks := answer.value;
      assert |tasks| == Cursor(gateway.stream) - Cursor(before);
      Launch(tasks);
    }
  }
}
