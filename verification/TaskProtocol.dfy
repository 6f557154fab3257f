/**
 One executor task end to end: the gateway either forwards the worker's chunks as they come or
 waits for completion and reads the task row; the worker consumes its executor, publishes on a
 lossy channel, posts the result and signals. Every step of either side is an event, and events
 interleave freely.
 */
module TaskProtocol {
  import opened Prelude
  import opened TaskWorker

  datatype Status = Pending | Dispatched | Succeeded | FailedStatus

  datatype TaskRow = TaskRow(status: Status, output: Option<string>, error: Option<string>)

  /** What the client of a streaming call receives. */
  datatype Frame = Role | Delta(text: string) | Stop | ErrorFrame(message: string)

  /**
   The gateway's side. `SLoop` and `SEnd` carry the frames yielded so far and the error kept for the
   end; `complete` tells whether the loop saw the done message. `AWait` is inside the message loop,
   `ARead` about to read the row for a message, `AFinal` about to make the last read, which may raise.
   */
  datatype Gateway =
    | SStart
    | SSubscribed
    | SDispatched(frames: seq<Frame>)
    | SLoop(frames: seq<Frame>, kept: Option<string>, deadline: int)
    | SEnd(frames: seq<Frame>, kept: Option<string>, complete: bool)
    | SAborted(frames: seq<Frame>)
    | AStart
    | ADispatched
    | ASubscribed
    | AWait(deadline: int)
    | ARead(deadline: int)
    | AFinal
    | AReturned(row: TaskRow)
    | ATimedOut
    | ARaised

  /** The worker's side; `Working` counts the messages handed to the channel. */
  datatype Worker = Idle | Working(sent: nat) | Posting | Signalling | Finished | Crashed

  datatype State = State(now: int, row: TaskRow, queued: bool, worker: Worker, published: seq<Chunk>,
                         inbox: Option<seq<Chunk>>, doneInbox: Option<nat>, gateway: Gateway)

  datatype Config = Config(script: Script, timeout: nat, streaming: bool)

  /** `LoopError` is any exception inside a message loop: of the channel, or of a read of the row. */
  datatype Event =
    | Tick(elapsed: nat)
    | Subscribe
    | Dispatch
    | Iterate
    | Receive
    | TimeOut
    | ReadRow
    | LoopError
    | FinalRead
    | FinalReadError
    | Start
    | Publish(accepted: bool)
    | EndStream
    | Post(written: bool)
    | Signal(accepted: bool)
    | Crash

  function Start0(cfg: Config): State {
    State(0, TaskRow(Dispatched, None, None), false, Idle, [], None, None, if cfg.streaming then SStart else AStart)
  }

  predicate Terminal(row: TaskRow) {
    row.status.Succeeded? || row.status.FailedStatus?
  }

  /** The row `update_task_result` leaves for a report. */
  function RowOf(report: Report): TaskRow {
    TaskRow(if report.success then Succeeded else FailedStatus, Some(report.output), report.error)
  }

  function DeltaFrames(chunk: Chunk): seq<Frame> {
    if chunk.delta == "" then [] else [Delta(chunk.delta)]
  }

  function Closing(kept: Option<string>): seq<Frame> {
    if kept.Some? then [Stop, ErrorFrame(kept.value)] else [Stop]
  }

  predicate Enabled(cfg: Config, s: State, e: Event) {
    match e
    case Tick(_) => true
    case Subscribe => s.gateway.SStart? || s.gateway.ADispatched?
    case Dispatch => s.gateway.SSubscribed? || s.gateway.AStart?
    case Iterate => s.gateway.SDispatched? || s.gateway.ASubscribed?
    case Receive =>
      || (s.gateway.SLoop? && s.inbox.Some? && s.inbox.value != [])
      || (s.gateway.AWait? && s.doneInbox.Some? && s.doneInbox.value > 0)
    case TimeOut => (s.gateway.SLoop? || s.gateway.AWait?) && s.now >= s.gateway.deadline
    case ReadRow => s.gateway.ARead?
    case LoopError =>
      s.gateway.SLoop? || s.gateway.ADispatched? || s.gateway.ASubscribed? || s.gateway.AWait? || s.gateway.ARead?
    case FinalRead => s.gateway.AFinal?
    case FinalReadError => s.gateway.AFinal?
    case Start => s.worker.Idle? && s.queued
    case Publish(_) => s.worker.Working? && s.worker.sent < |Messages(cfg.script)|
    case EndStream => s.worker.Working? && s.worker.sent == |Messages(cfg.script)|
    case Post(_) => s.worker.Posting?
    case Signal(_) => s.worker.Signalling?
    case Crash => !s.worker.Finished? && !s.worker.Crashed?
  }

  /** One chunk forwarded: a frame for a delta, the error kept, and the end on `done`. */
  function Forwarded(g: Gateway, chunk: Chunk): Gateway
    requires g.SLoop?
  {
    var frames := g.frames + DeltaFrames(chunk);
    var kept := if Truthy(chunk.error) then chunk.error else g.kept;
    if chunk.done then SEnd(frames + Closing(kept), kept, true) else SLoop(frames, kept, g.deadline)
  }

  function Apply(cfg: Config, s: State, e: Event): State
    requires Enabled(cfg, s, e)
  {
    match e
    case Tick(elapsed) => s.(now := s.now + elapsed)
    case Subscribe =>
      if s.gateway.SStart? then s.(inbox := Some([]), gateway := SSubscribed)
      else s.(doneInbox := Some(0), gateway := ASubscribed)
    case Dispatch =>
      if s.gateway.SSubscribed? then s.(queued := true, gateway := SDispatched([Role]))
      else s.(queued := true, gateway := ADispatched)
    case Iterate =>
      if s.gateway.SDispatched? then s.(gateway := SLoop(s.gateway.frames, None, s.now + cfg.timeout))
      else s.(gateway := AWait(s.now + cfg.timeout))
    case Receive =>
      if s.gateway.SLoop? then s.(inbox := Some(s.inbox.value[1..]), gateway := Forwarded(s.gateway, s.inbox.value[0]))
      else s.(doneInbox := Some(s.doneInbox.value - 1), gateway := ARead(s.gateway.deadline))
    case TimeOut =>
      if s.gateway.SLoop? then s.(gateway := SEnd(s.gateway.frames + Closing(s.gateway.kept), s.gateway.kept, false))
      else s.(gateway := AFinal)
    case ReadRow => s.(gateway := if Terminal(s.row) then AReturned(s.row) else AWait(s.gateway.deadline))
    case LoopError => s.(gateway := if s.gateway.SLoop? then SAborted(s.gateway.frames) else AFinal)
    case FinalRead => s.(gateway := if Terminal(s.row) then AReturned(s.row) else ATimedOut)
    case FinalReadError => s.(gateway := ARaised)
    case Start => s.(worker := Working(0))
    case Publish(accepted) =>
      var chunk := Messages(cfg.script)[s.worker.sent];
      var s' := s.(worker := Working(s.worker.sent + 1));
      if !accepted then s'
      else s'.(published := s.published + [chunk],
               inbox := if s.inbox.Some? then Some(s.inbox.value + [chunk]) else None)
    case EndStream => s.(worker := Posting)
    case Post(written) => s.(row := if written then RowOf(ReportOf(cfg.script)) else s.row, worker := Signalling)
    case Signal(accepted) =>
      s.(worker := Finished,
         doneInbox := if accepted && s.doneInbox.Some? then Some(s.doneInbox.value + 1) else s.doneInbox)
    case Crash => s.(worker := Crashed)
  }

  datatype Run = Run(states: seq<State>, events: seq<Event>)

  ghost predicate Steps(cfg: Config, r: Run, i: nat)
    requires |r.states| == |r.events| + 1 && i < |r.events|
  {
    Enabled(cfg, r.states[i], r.events[i]) && r.states[i + 1] == Apply(cfg, r.states[i], r.events[i])
  }

  ghost predicate IsRun(cfg: Config, r: Run) {
    && |r.states| == |r.events| + 1 && r.states[0] == Start0(cfg)
    && forall i :: 0 <= i < |r.events| ==> Steps(cfg, r, i)
  }

  // ---------------------------------------------------------------------------
  // Streaming: nothing published is missed
  // ---------------------------------------------------------------------------

  function Text(frames: seq<Frame>): string {
    if frames == [] then ""
    else
      var last := frames[|frames| - 1];
      Text(frames[..|frames| - 1]) + if last.Delta? then last.text else ""
  }

  /** The frames for a chunk sequence, before the closing ones. */
  function FramesOf(chunks: seq<Chunk>): seq<Frame> {
    if chunks == [] then [Role] else FramesOf(chunks[..|chunks| - 1]) + DeltaFrames(chunks[|chunks| - 1])
  }

  /** How much of what was published the gateway has taken from its subscription. */
  function Taken(s: State): nat
    requires s.inbox.Some? && |s.inbox.value| <= |s.published|
  {
    |s.published| - |s.inbox.value|
  }

  ghost predicate StreamOk(s: State) {
    && (s.gateway.SStart? ==> s.inbox.None? && !s.queued)
    && (s.gateway.SSubscribed? ==> s.inbox == Some([]) && !s.queued)
    && (!s.queued ==> s.worker.Idle? || s.worker.Crashed?)
    && (s.worker.Idle? || !s.queued ==> s.published == [])
    && (!s.gateway.SStart? ==>
          && s.inbox.Some? && |s.inbox.value| <= |s.published|
          && s.inbox.value == s.published[Taken(s)..])
    && (s.gateway.SDispatched? ==> Taken(s) == 0 && s.gateway.frames == [Role])
    && (s.gateway.SLoop? ==>
          s.gateway.frames == FramesOf(s.published[..Taken(s)]) && s.gateway.kept == LastError(s.published[..Taken(s)]))
    && (s.gateway.SEnd? ==>
          && s.gateway.frames == FramesOf(s.published[..Taken(s)]) + Closing(s.gateway.kept)
          && s.gateway.kept == LastError(s.published[..Taken(s)])
          && (s.gateway.complete ==> Taken(s) > 0 && s.published[Taken(s) - 1].done))
    && (s.gateway.SAborted? ==> s.gateway.frames == FramesOf(s.published[..Taken(s)]))
  }

  predicate StreamMode(g: Gateway) {
    g.SStart? || g.SSubscribed? || g.SDispatched? || g.SLoop? || g.SEnd? || g.SAborted?
  }

  /** Receiving moves the boundary between taken and waiting by exactly one message. */
  lemma ReceiveTakesNext(s: State)
    requires StreamOk(s) && s.gateway.SLoop? && s.inbox.value != []
    ensures var n := Taken(s);
            && s.published[n] == s.inbox.value[0] && s.inbox.value[1..] == s.published[n + 1..]
            && FramesOf(s.published[..n + 1]) == s.gateway.frames + DeltaFrames(s.inbox.value[0])
            && LastError(s.published[..n + 1]) == Forwarded(s.gateway, s.inbox.value[0]).kept
  {
    var n := Taken(s);
    assert s.published[..n + 1][..n] == s.published[..n];
    assert s.published[..n + 1] == s.published[..n] + [s.published[n]];
  }

  lemma PublishKeepsTaken(cfg: Config, s: State, accepted: bool)
    requires StreamOk(s) && StreamMode(s.gateway) && Enabled(cfg, s, Publish(accepted))
    ensures StreamOk(Apply(cfg, s, Publish(accepted)))
  {
    var s' := Apply(cfg, s, Publish(accepted));
    if accepted {
      assert s'.published[..Taken(s')] == s.published[..Taken(s)];
    }
  }

  lemma StreamStep(cfg: Config, s: State, e: Event)
    requires StreamOk(s) && StreamMode(s.gateway) && Enabled(cfg, s, e)
    ensures StreamOk(Apply(cfg, s, e)) && StreamMode(Apply(cfg, s, e).gateway)
  {
    if e.Publish? {
      PublishKeepsTaken(cfg, s, e.accepted);
    } else if e == Receive {
      ReceiveKeepsOk(cfg, s);
    } else if GatewayEvent(e) {
      GatewayStep(cfg, s, e);
    } else {
      WorkerStep(cfg, s, e);
    }
  }

  predicate GatewayEvent(e: Event) {
    e.Subscribe? || e.Dispatch? || e.Iterate? || e.TimeOut? || e.ReadRow? || e.LoopError? || e.FinalRead? ||
        e.FinalReadError?
  }

  lemma ReceiveKeepsOk(cfg: Config, s: State)
    requires StreamOk(s) && StreamMode(s.gateway) && Enabled(cfg, s, Receive)
    ensures StreamOk(Apply(cfg, s, Receive)) && StreamMode(Apply(cfg, s, Receive).gateway)
  {
    ReceiveTakesNext(s);
  }

  lemma GatewayStep(cfg: Config, s: State, e: Event)
    requires StreamOk(s) && StreamMode(s.gateway) && Enabled(cfg, s, e) && GatewayEvent(e)
    ensures StreamOk(Apply(cfg, s, e)) && StreamMode(Apply(cfg, s, e).gateway)
  {
  }

  lemma WorkerStep(cfg: Config, s: State, e: Event)
    requires StreamOk(s) && StreamMode(s.gateway) && Enabled(cfg, s, e)
    requires !GatewayEvent(e) && !e.Publish? && e != Receive
    ensures StreamOk(Apply(cfg, s, e)) && StreamMode(Apply(cfg, s, e).gateway)
  {
    var s' := Apply(cfg, s, e);
    assert s'.gateway == s.gateway && s'.inbox == s.inbox && s'.published == s.published && s'.queued == s.queued;
    SameStream(s, s');
  }

  /** The invariant looks at gateway, subscription, publications and queue, and at the worker only before it starts. */
  lemma SameStream(s: State, s': State)
    requires StreamOk(s)
    requires s'.gateway == s.gateway && s'.inbox == s.inbox && s'.published == s.published && s'.queued == s.queued
    requires s'.worker.Idle? ==> s.worker.Idle?
    requires !s.queued ==> s'.worker.Idle? || s'.worker.Crashed?
    ensures StreamOk(s')
  {
  }

  lemma {:induction false} StreamAlways(cfg: Config, r: Run, i: nat)
    requires IsRun(cfg, r) && cfg.streaming && i < |r.states|
    ensures StreamOk(r.states[i]) && StreamMode(r.states[i].gateway)
  {
    if i > 0 {
      StreamAlways(cfg, r, i - 1);
      assert Steps(cfg, r, i - 1);
      StreamStep(cfg, r.states[i - 1], r.events[i - 1]);
    }
  }

  function Frames(g: Gateway): seq<Frame> {
    if g.SDispatched? || g.SLoop? || g.SEnd? || g.SAborted? then g.frames else []
  }

  lemma TextAppend(frames: seq<Frame>, last: Frame)
    ensures Text(frames + [last]) == Text(frames) + if last.Delta? then last.text else ""
  {
    assert (frames + [last])[..|frames|] == frames;
  }

  lemma FramesAppend(chunks: seq<Chunk>, last: Chunk)
    ensures FramesOf(chunks + [last]) == FramesOf(chunks) + DeltaFrames(last)
  {
    assert (chunks + [last])[..|chunks|] == chunks;
  }

  /** The closing frames add no text. */
  lemma ClosingIsSilent(frames: seq<Frame>, kept: Option<string>)
    ensures Text(frames + Closing(kept)) == Text(frames)
  {
    TextAppend(frames, Stop);
    if kept.Some? {
      TextAppend(frames + [Stop], ErrorFrame(kept.value));
      assert frames + Closing(kept) == frames + [Stop] + [ErrorFrame(kept.value)];
    }
  }

  lemma {:induction false} TextOfFrames(chunks: seq<Chunk>)
    ensures Text(FramesOf(chunks)) == Join(chunks)
  {
    if chunks == [] {
      TextAppend([], Role);
      assert [] + [Role] == [Role];
    } else {
      var before, last := chunks[..|chunks| - 1], chunks[|chunks| - 1];
      TextOfFrames(before);
      if last.delta != "" {
        TextAppend(FramesOf(before), Delta(last.delta));
      } else {
        assert FramesOf(chunks) == FramesOf(before);
      }
    }
  }

  /** At every moment, lost publishes or not, the client's text is a prefix of what was published. */
  lemma ClientTextIsAPrefix(cfg: Config, r: Run, i: nat)
    requires IsRun(cfg, r) && cfg.streaming && i < |r.states|
    ensures Text(Frames(r.states[i].gateway)) <= Join(r.states[i].published)
  {
    StreamAlways(cfg, r, i);
    var s := r.states[i];
    if Frames(s.gateway) != [] {
      var taken := s.published[..Taken(s)];
      TextOfFrames(taken);
      if s.gateway.SEnd? {
        ClosingIsSilent(FramesOf(taken), s.gateway.kept);
      }
      assert s.gateway.SDispatched? ==> taken == [];
      JoinPrefix(s.published, Taken(s));
    }
  }

  // ---------------------------------------------------------------------------
  // Streaming refines batch
  // ---------------------------------------------------------------------------

  /** Up to `i`, no publish was refused. */
  ghost predicate Lossless(r: Run, i: nat)
    requires i <= |r.events|
  {
    forall k :: 0 <= k < i && r.events[k].Publish? ==> r.events[k].accepted
  }

  ghost predicate SentIsPublished(cfg: Config, s: State) {
    match s.worker
    case Idle => s.published == []
    case Working(sent) => sent <= |Messages(cfg.script)| && s.published == Messages(cfg.script)[..sent]
    case Posting => s.published == Messages(cfg.script)
    case Signalling => s.published == Messages(cfg.script)
    case Finished => s.published == Messages(cfg.script)
    case Crashed => s.published <= Messages(cfg.script)
  }

  lemma {:induction false} SentAlways(cfg: Config, r: Run, i: nat)
    requires IsRun(cfg, r) && i < |r.states| && Lossless(r, i)
    ensures SentIsPublished(cfg, r.states[i])
  {
    if i > 0 {
      SentAlways(cfg, r, i - 1);
      assert Steps(cfg, r, i - 1);
      var s, e := r.states[i - 1], r.events[i - 1];
      if e.Publish? {
        assert Messages(cfg.script)[..s.worker.sent + 1] == Messages(cfg.script)[..s.worker.sent] +
               [Messages(cfg.script)[s.worker.sent]];
      }
    }
  }

  // ---------------------------------------------------------------------------
  // How a loop ends
  // ---------------------------------------------------------------------------

  ghost predicate Never(r: Run, i: nat, e: Event)
    requires i <= |r.events|
  {
    forall k :: 0 <= k < i ==> r.events[k] != e
  }

  /** Neither the deadline nor an exception has ended the message loop yet. */
  predicate Undisturbed(g: Gateway) {
    match g
    case SEnd(_, _, complete) => complete
    case SAborted(_) => false
    case AFinal => false
    case AReturned(_) => false
    case ATimedOut => false
    case ARaised => false
    case _ => true
  }

  lemma {:induction false} UndisturbedSoFar(cfg: Config, r: Run, i: nat)
    requires IsRun(cfg, r) && i < |r.states| && Undisturbed(r.states[i].gateway)
    ensures Never(r, i, TimeOut) && Never(r, i, LoopError)
  {
    if i > 0 {
      assert Steps(cfg, r, i - 1);
      UndisturbedSoFar(cfg, r, i - 1);
    }
  }

  /** A stream that ended without the done message ended on its deadline. */
  lemma {:induction false} EndedByDeadline(cfg: Config, r: Run, i: nat) returns (k: nat)
    requires IsRun(cfg, r) && i < |r.states| && r.states[i].gateway.SEnd? && !r.states[i].gateway.complete
    ensures k < i && r.events[k] == TimeOut
    ensures r.states[k].gateway.SLoop? && r.states[k].now >= r.states[k].gateway.deadline
  {
    assert Steps(cfg, r, i - 1);
    if r.events[i - 1] == TimeOut {
      k := i - 1;
    } else {
      k := EndedByDeadline(cfg, r, i - 1);
    }
  }

  /** An ended stream is complete exactly when no deadline was taken in its loop. */
  lemma CompleteExactly(cfg: Config, r: Run, i: nat)
    requires IsRun(cfg, r) && i < |r.states| && r.states[i].gateway.SEnd?
    ensures r.states[i].gateway.complete <==> Never(r, i, TimeOut)
  {
    if r.states[i].gateway.complete {
      UndisturbedSoFar(cfg, r, i);
    } else {
      var k := EndedByDeadline(cfg, r, i);
    }
  }

  /**
   With no refused publish, a stream that ended before its deadline has given the client exactly the
   output the worker posts: the role frame, one frame per non-empty delta, the stop frame, and the
   error frame precisely when some message carried an error.
   */
  lemma StreamRefinesBatch(cfg: Config, r: Run, i: nat)
    requires IsRun(cfg, r) && cfg.streaming && i < |r.states| && Lossless(r, i)
    requires r.states[i].gateway.SEnd? && Never(r, i, TimeOut)
    ensures Text(r.states[i].gateway.frames) == ReportOf(cfg.script).output
    ensures r.states[i].gateway.frames == FramesOf(Messages(cfg.script)) + Closing(LastError(Messages(cfg.script)))
    ensures ReadsAs(r.states[i].gateway.frames, Spoken(Messages(cfg.script)), LastError(Messages(cfg.script)))
    ensures Terminal(r.states[i].row) ==> r.states[i].row == RowOf(ReportOf(cfg.script))
  {
    CompleteExactly(cfg, r, i);
    StreamAlways(cfg, r, i);
    SentAlways(cfg, r, i);
    RowAlways(cfg, r, i);
    var s, all := r.states[i], Messages(cfg.script);
    var n := Taken(s);
    DoneIsLast(cfg.script);
    assert s.published[n - 1] == all[n - 1];
    assert s.published[..n] == all;
    TextOfFrames(all);
    ClosingIsSilent(FramesOf(all), s.gateway.kept);
    MessagesCarryOutput(cfg.script);
    ClosedReadsAs(all);
  }

  /**
   How a stream reads to a client: the role first and once; a text frame for each non-empty delta, in order;
   one stop frame after all text; and then, just if there was an error, one error frame with its message.
   */
  ghost predicate ReadsAs(frames: seq<Frame>, texts: seq<string>, error: Option<string>) {
    var last := |frames| - 1;
    var stop := if error.Some? then last - 1 else last;
    && stop == |texts| + 1
    && (forall i :: 0 <= i <= last ==>
          && (frames[i].Role? <==> i == 0)
          && (frames[i].Delta? <==> 0 < i < stop)
          && (frames[i].Stop? <==> i == stop)
          && (frames[i].ErrorFrame? <==> i == stop + 1))
    && (forall i :: 0 <= i < |texts| ==> frames[i + 1] == Delta(texts[i]))
    && (error.Some? ==> frames[last] == ErrorFrame(error.value))
  }

  /** The deltas that say something. */
  function Spoken(chunks: seq<Chunk>): seq<string> {
    if chunks == [] then []
    else
      var before, last := Spoken(chunks[..|chunks| - 1]), chunks[|chunks| - 1].delta;
      if last == "" then before else before + [last]
  }

  lemma {:induction false} FramesAreSpoken(chunks: seq<Chunk>)
    ensures var frames, texts := FramesOf(chunks), Spoken(chunks);
            && |frames| == |texts| + 1 && frames[0].Role?
            && forall i :: 0 <= i < |texts| ==> frames[i + 1] == Delta(texts[i])
  {
    if chunks != [] {
      FramesAreSpoken(chunks[..|chunks| - 1]);
    }
  }

  lemma ClosedReadsAs(chunks: seq<Chunk>)
    ensures ReadsAs(FramesOf(chunks) + Closing(LastError(chunks)), Spoken(chunks), LastError(chunks))
  {
    FramesAreSpoken(chunks);
    var frames := FramesOf(chunks) + Closing(LastError(chunks));
    var texts := Spoken(chunks);
    assert forall i :: 0 <= i < |texts| ==> frames[i + 1] == Delta(texts[i]);
    forall i | 0 < i <= |texts| ensures frames[i].Delta? {
      assert frames[(i - 1) + 1] == Delta(texts[i - 1]);
    }
  }

  /**
   Every ended stream, deadline or not, lossless or not, reads as what it took: with no deadline taken and no
   publish lost, as all the worker's messages.
   */
  lemma StreamReadsAs(cfg: Config, r: Run, i: nat)
    requires IsRun(cfg, r) && cfg.streaming && i < |r.states| && r.states[i].gateway.SEnd?
    ensures r.states[i].inbox.Some? && |r.states[i].inbox.value| <= |r.states[i].published|
    ensures var taken := r.states[i].published[..Taken(r.states[i])];
            && ReadsAs(r.states[i].gateway.frames, Spoken(taken), LastError(taken))
            && (Lossless(r, i) && Never(r, i, TimeOut) ==> taken == Messages(cfg.script))
  {
    StreamAlways(cfg, r, i);
    ClosedReadsAs(r.states[i].published[..Taken(r.states[i])]);
    if Lossless(r, i) && Never(r, i, TimeOut) {
      CompleteExactly(cfg, r, i);
      TakesAll(cfg, r, i);
    }
  }

  lemma TakesAll(cfg: Config, r: Run, i: nat)
    requires IsRun(cfg, r) && cfg.streaming && i < |r.states| && Lossless(r, i)
    requires r.states[i].gateway.SEnd? && r.states[i].gateway.complete
    ensures StreamOk(r.states[i]) && r.states[i].published[..Taken(r.states[i])] == Messages(cfg.script)
  {
    StreamAlways(cfg, r, i);
    SentAlways(cfg, r, i);
    DoneIsLast(cfg.script);
    var s, all := r.states[i], Messages(cfg.script);
    assert s.published[Taken(s) - 1] == all[Taken(s) - 1];
  }

  /** An ended lossless stream, deadline or not, has all the text exactly when what it did not take carries none. */
  lemma EndedTextExactly(cfg: Config, r: Run, i: nat) returns (n: nat)
    requires IsRun(cfg, r) && cfg.streaming && i < |r.states| && Lossless(r, i) && r.states[i].gateway.SEnd?
    ensures r.states[i].inbox.Some? && |r.states[i].inbox.value| <= |r.states[i].published|
    ensures n == Taken(r.states[i]) <= |Messages(cfg.script)|
    ensures Text(r.states[i].gateway.frames) == Join(Messages(cfg.script)[..n])
    ensures Text(r.states[i].gateway.frames) == ReportOf(cfg.script).output <==> Join(Messages(cfg.script)[n..]) == ""
  {
    StreamAlways(cfg, r, i);
    SentAlways(cfg, r, i);
    var s := r.states[i];
    n := Taken(s);
    TakenText(cfg, s);
    OutputSplits(cfg.script, n);
  }

  lemma TakenText(cfg: Config, s: State)
    requires StreamOk(s) && SentIsPublished(cfg, s) && s.gateway.SEnd?
    ensures Taken(s) <= |Messages(cfg.script)| && Text(s.gateway.frames) == Join(Messages(cfg.script)[..Taken(s)])
  {
    assert s.published <= Messages(cfg.script);
    assert s.published[..Taken(s)] == Messages(cfg.script)[..Taken(s)];
    TextOfFrames(s.published[..Taken(s)]);
    ClosingIsSilent(FramesOf(s.published[..Taken(s)]), s.gateway.kept);
  }

  lemma OutputSplits(script: Script, n: nat)
    requires n <= |Messages(script)|
    ensures ReportOf(script).output == Join(Messages(script)[..n]) + Join(Messages(script)[n..])
  {
    MessagesCarryOutput(script);
    JoinConcat(Messages(script)[..n], Messages(script)[n..]);
    assert Messages(script) == Messages(script)[..n] + Messages(script)[n..];
  }

  /** At every moment of such a run the text is a prefix of the output to be posted. */
  lemma StreamIsPrefixOfOutput(cfg: Config, r: Run, i: nat)
    requires IsRun(cfg, r) && cfg.streaming && i < |r.states| && Lossless(r, i)
    ensures Text(Frames(r.states[i].gateway)) <= ReportOf(cfg.script).output
  {
    ClientTextIsAPrefix(cfg, r, i);
    SentAlways(cfg, r, i);
    PublishedText(cfg, r.states[i]);
  }

  lemma PublishedText(cfg: Config, s: State)
    requires SentIsPublished(cfg, s)
    ensures Join(s.published) <= ReportOf(cfg.script).output
  {
    assert s.published == Messages(cfg.script)[..|s.published|];
    JoinPrefix(Messages(cfg.script), |s.published|);
    MessagesCarryOutput(cfg.script);
  }

  /** A stream that times out before the worker has said anything closes as if it were complete. */
  function SilentRun(cfg: Config): Run
    requires cfg.streaming
  {
    var row, t := TaskRow(Dispatched, None, None), cfg.timeout;
    Run([Start0(cfg),
         State(0, row, false, Idle, [], Some([]), None, SSubscribed),
         State(0, row, true, Idle, [], Some([]), None, SDispatched([Role])),
         State(0, row, true, Idle, [], Some([]), None, SLoop([Role], None, t)),
         State(t, row, true, Idle, [], Some([]), None, SLoop([Role], None, t)),
         State(t, row, true, Idle, [], Some([]), None, SEnd([Role, Stop], None, false))],
        [Subscribe, Dispatch, Iterate, Tick(t), TimeOut])
  }

  /** So the deadline matters: an ended stream without an error frame need not hold the output. */
  lemma TimeoutLooksComplete(cfg: Config)
    requires cfg.streaming
    ensures IsRun(cfg, SilentRun(cfg)) && Lossless(SilentRun(cfg), 5)
    ensures SilentRun(cfg).states[5].gateway == SEnd([Role, Stop], None, false)
  {
    var r := SilentRun(cfg);
    assert [Role] + Closing(None) == [Role, Stop];
    assert Steps(cfg, r, 0) && Steps(cfg, r, 1) && Steps(cfg, r, 2) && Steps(cfg, r, 3) && Steps(cfg, r, 4);
  }

  // ---------------------------------------------------------------------------
  // One deadline, or a deadline after every message
  // ---------------------------------------------------------------------------

  /** When the iteration that is under way at `i` began. */
  function StartedAt(r: Run, i: nat): int
    requires |r.states| == |r.events| + 1 && i < |r.states|
  {
    if i == 0 then 0 else if r.events[i - 1] == Iterate then r.states[i - 1].now else StartedAt(r, i - 1)
  }

  /** When it last handed out a message, or began. */
  function HeardAt(r: Run, i: nat): int
    requires |r.states| == |r.events| + 1 && i < |r.states|
  {
    if i == 0 then 0
    else if r.events[i - 1] == Iterate || r.events[i - 1] == Receive then r.states[i - 1].now
    else HeardAt(r, i - 1)
  }

  predicate InLoop(g: Gateway) {
    g.SLoop? || g.AWait? || g.ARead?
  }

  /** No message was handed out later than the first instant of the iteration. */
  ghost predicate SilentAfterStart(r: Run, i: nat)
    requires |r.states| == |r.events| + 1 && i < |r.states|
  {
    forall k :: 0 <= k < i && r.events[k] == Receive ==> r.states[k].now == StartedAt(r, i)
  }

  lemma {:induction false} DeadlineIsFromTheStart(cfg: Config, r: Run, i: nat)
    requires IsRun(cfg, r) && i < |r.states| && InLoop(r.states[i].gateway)
    ensures r.states[i].gateway.deadline == StartedAt(r, i) + cfg.timeout
    ensures StartedAt(r, i) <= HeardAt(r, i) <= r.states[i].now
    ensures HeardAt(r, i) == StartedAt(r, i) <==> SilentAfterStart(r, i)
  {
    assert Steps(cfg, r, i - 1);
    if r.events[i - 1] == Iterate {
      NothingBeforeIterate(cfg, r, i - 1);
    } else {
      DeadlineIsFromTheStart(cfg, r, i - 1);
      ClockIsMonotone(cfg, r, i - 1, i);
    }
  }

  lemma {:induction false} NothingBeforeIterate(cfg: Config, r: Run, i: nat)
    requires IsRun(cfg, r) && i < |r.states|
    requires Undisturbed(r.states[i].gateway) && !InLoop(r.states[i].gateway) && !r.states[i].gateway.SEnd?
    ensures Never(r, i, Receive)
  {
    if i > 0 {
      assert Steps(cfg, r, i - 1);
      NothingBeforeIterate(cfg, r, i - 1);
    }
  }

  /** Nothing but the clock moves. */
  function Waited(cfg: Config, s: State, d: nat): State {
    Apply(cfg, s, Tick(d))
  }

  /**
   The documented reading stops a timeout after the last message, the code a timeout after the start. The
   code is never the later one. Both have the same deadline exactly when no message came after the first
   instant. And if nothing more comes, the code can stop at a moment at which the documentation would wait on
   exactly when some message did, the documented deadline has not passed, and no read is under way.
   */
  lemma IdleReadingExactly(cfg: Config, r: Run, i: nat)
    requires IsRun(cfg, r) && i < |r.states| && InLoop(r.states[i].gateway)
    ensures var s := r.states[i];
            var coded, documented := s.gateway.deadline, HeardAt(r, i) + cfg.timeout;
            && coded <= documented
            && (coded == documented <==> SilentAfterStart(r, i))
            && ((exists d: nat :: Enabled(cfg, Waited(cfg, s, d), TimeOut) && Waited(cfg, s, d).now < documented) <==>
                !s.gateway.ARead? && !SilentAfterStart(r, i) && s.now < documented)
  {
    DeadlineIsFromTheStart(cfg, r, i);
    var s := r.states[i];
    var d: nat := if s.now < s.gateway.deadline then s.gateway.deadline - s.now else 0;
    assert s.gateway.ARead? || Enabled(cfg, Waited(cfg, s, d), TimeOut);
  }

  const TWO_CHUNKS := Script([Chunk("a", false, None), Chunk("b", true, None)], Exhausted)

  /** A message arrives one instant before the deadline, and the stream ends at the deadline all the same. */
  function ImpatientRun(cfg: Config): Run
    requires cfg.streaming && cfg.timeout >= 2 && cfg.script == TWO_CHUNKS
  {
    var row, t, a := TaskRow(Dispatched, None, None), cfg.timeout, cfg.script.chunks[0];
    var begun := SLoop([Role], None, t);
    var heard := SLoop([Role, Delta("a")], None, t);
    Run([Start0(cfg),
         State(0, row, false, Idle, [], Some([]), None, SSubscribed),
         State(0, row, true, Idle, [], Some([]), None, SDispatched([Role])),
         State(0, row, true, Idle, [], Some([]), None, begun),
         State(0, row, true, Working(0), [], Some([]), None, begun),
         State(t - 1, row, true, Working(0), [], Some([]), None, begun),
         State(t - 1, row, true, Working(1), [a], Some([a]), None, begun),
         State(t - 1, row, true, Working(1), [a], Some([]), None, heard),
         State(t, row, true, Working(1), [a], Some([]), None, heard),
         State(t, row, true, Working(1), [a], Some([]), None, SEnd([Role, Delta("a"), Stop], None, false))],
        [Subscribe, Dispatch, Iterate, Start, Tick(t - 1), Publish(true), Receive, Tick(1), TimeOut])
  }

  lemma ImpatientStart(cfg: Config, i: nat)
    requires cfg.streaming && cfg.timeout >= 2 && cfg.script == TWO_CHUNKS && i < 3
    ensures Steps(cfg, ImpatientRun(cfg), i)
  {
  }

  lemma ImpatientWorker(cfg: Config, i: nat)
    requires cfg.streaming && cfg.timeout >= 2 && cfg.script == TWO_CHUNKS && 3 <= i < 6
    ensures Steps(cfg, ImpatientRun(cfg), i)
  {
    MessagesOfTwo();
    if i == 5 {
      assert [] + [cfg.script.chunks[0]] == [cfg.script.chunks[0]];
    }
  }

  lemma ImpatientEnd(cfg: Config, i: nat)
    requires cfg.streaming && cfg.timeout >= 2 && cfg.script == TWO_CHUNKS && 6 <= i < 9
    ensures Steps(cfg, ImpatientRun(cfg), i)
  {
    var r := ImpatientRun(cfg);
    MessagesOfTwo();
    if i == 7 {
      assert r.states[8] == r.states[7].(now := cfg.timeout);
    } else if i == 6 {
      assert [cfg.script.chunks[0]][1..] == [];
      assert [Role] + DeltaFrames(cfg.script.chunks[0]) == [Role, Delta("a")];
    } else {
      assert [Role, Delta("a")] + Closing(None) == [Role, Delta("a"), Stop];
    }
  }

  lemma MessagesOfTwo()
    ensures Messages(TWO_CHUNKS) == TWO_CHUNKS.chunks
  {
    var chunks := TWO_CHUNKS.chunks;
    assert chunks[1].done && chunks[1..] == [chunks[1]];
    assert Consumed(chunks[1..]) == [chunks[1]];
    assert chunks == [chunks[0]] + [chunks[1]];
  }

  lemma TextOfOneDelta()
    ensures Text([Role, Delta("a"), Stop]) == "a"
  {
    TextAppend([], Role);
    TextAppend([Role], Delta("a"));
    TextAppend([Role, Delta("a")], Stop);
    assert [] + [Role] == [Role] && [Role] + [Delta("a")] == [Role, Delta("a")];
    assert [Role, Delta("a")] + [Stop] == [Role, Delta("a"), Stop];
  }

  lemma OutputOfTwo()
    ensures ReportOf(TWO_CHUNKS).output == "ab"
  {
    var chunks := TWO_CHUNKS.chunks;
    MessagesOfTwo();
    MessagesCarryOutput(TWO_CHUNKS);
    JoinLast([], chunks[0]);
    JoinLast([chunks[0]], chunks[1]);
    assert [] + [chunks[0]] == [chunks[0]] && [chunks[0]] + [chunks[1]] == chunks;
  }

  lemma ImpatientHeard(cfg: Config)
    requires cfg.streaming && cfg.timeout >= 2 && cfg.script == TWO_CHUNKS
    ensures HeardAt(ImpatientRun(cfg), 8) == cfg.timeout - 1
  {
    var r := ImpatientRun(cfg);
    assert r.events[7] == Tick(1) && r.events[6] == Receive;
    assert HeardAt(r, 7) == r.states[6].now;
  }

  /** So the documented idle timeout is not what the code does: here it would have waited on, and text is lost. */
  lemma StopsInMidStream(cfg: Config)
    requires cfg.streaming && cfg.timeout >= 2 && cfg.script == TWO_CHUNKS
    ensures var r := ImpatientRun(cfg);
            && IsRun(cfg, r) && Lossless(r, 9) && r.events[8] == TimeOut
            && r.states[8].now < HeardAt(r, 8) + cfg.timeout
            && r.states[9].gateway == SEnd([Role, Delta("a"), Stop], None, false)
            && Text([Role, Delta("a"), Stop]) == "a" && ReportOf(cfg.script).output == "ab"
  {
    var r := ImpatientRun(cfg);
    forall i: nat | i < |r.events| ensures Steps(cfg, r, i) {
      if i < 3 {
        ImpatientStart(cfg, i);
      } else if i < 6 {
        ImpatientWorker(cfg, i);
      } else {
        ImpatientEnd(cfg, i);
      }
    }
    ImpatientHeard(cfg);
    TextOfOneDelta();
    OutputOfTwo();
  }

  // ---------------------------------------------------------------------------
  // Awaiting completion
  // ---------------------------------------------------------------------------

  ghost predicate RowOk(cfg: Config, s: State) {
    && (Terminal(s.row) ==> s.row == RowOf(ReportOf(cfg.script)))
    && (s.gateway.AReturned? ==> s.gateway.row == RowOf(ReportOf(cfg.script)) && Terminal(s.row))
  }

  lemma {:induction false} RowAlways(cfg: Config, r: Run, i: nat)
    requires IsRun(cfg, r) && i < |r.states|
    ensures RowOk(cfg, r.states[i])
  {
    if i > 0 {
      RowAlways(cfg, r, i - 1);
      assert Steps(cfg, r, i - 1);
    }
  }

  lemma {:induction false} TerminalIsStable(cfg: Config, r: Run, i: nat, j: nat)
    requires IsRun(cfg, r) && i <= j < |r.states| && Terminal(r.states[i].row)
    ensures Terminal(r.states[j].row)
  {
    if i < j {
      TerminalIsStable(cfg, r, i, j - 1);
      assert Steps(cfg, r, j - 1);
    }
  }

  predicate AwaitEnded(g: Gateway) {
    g.AReturned? || g.ATimedOut?
  }

  /** The one place a timeout can be raised: a last read that found the row not yet terminal. */
  lemma {:induction false} TimedOutAt(cfg: Config, r: Run, j: nat) returns (f: nat)
    requires IsRun(cfg, r) && j < |r.states| && r.states[j].gateway.ATimedOut?
    ensures f < j && r.events[f] == FinalRead && r.states[f].gateway.AFinal? && !Terminal(r.states[f].row)
  {
    assert Steps(cfg, r, j - 1);
    if r.events[j - 1] == FinalRead {
      f := j - 1;
    } else {
      f := TimedOutAt(cfg, r, j - 1);
    }
  }

  ghost predicate NoLoopError(r: Run, i: nat)
    requires i <= |r.events|
  {
    forall k :: 0 <= k < i ==> r.events[k] != LoopError
  }

  predicate Iterating(g: Gateway) {
    g.AWait? || g.ARead?
  }

  /** The last read is made because the deadline passed or because the loop raised, and for no other reason. */
  lemma {:induction false} GaveUpAt(cfg: Config, r: Run, f: nat) returns (k: nat)
    requires IsRun(cfg, r) && f < |r.states| && r.states[f].gateway.AFinal?
    ensures k < f && Never(r, k, TimeOut) && Never(r, k, LoopError)
    ensures r.events[k] == LoopError ||
            (r.events[k] == TimeOut && InLoop(r.states[k].gateway) && r.states[k].now >= r.states[k].gateway.deadline)
    ensures forall j :: k < j < f ==> r.events[j] != TimeOut && r.events[j] != LoopError
  {
    assert Steps(cfg, r, f - 1);
    if r.states[f - 1].gateway.AFinal? {
      k := GaveUpAt(cfg, r, f - 1);
    } else {
      k := f - 1;
      UndisturbedSoFar(cfg, r, k);
    }
  }

  /** So exactly one of the two happened: a wait gave up before its deadline just if its loop raised. */
  lemma GaveUpExactly(cfg: Config, r: Run, f: nat)
    requires IsRun(cfg, r) && f < |r.states| && r.states[f].gateway.AFinal?
    ensures Never(r, f, TimeOut) <==> !Never(r, f, LoopError)
  {
    var k := GaveUpAt(cfg, r, f);
  }

  /** Without an exception in the loop the last read comes only once the deadline set at `m` has passed. */
  lemma {:induction false} FinalIsLate(cfg: Config, r: Run, f: nat) returns (m: nat)
    requires IsRun(cfg, r) && f < |r.states| && NoLoopError(r, f)
    requires r.states[f].gateway.AFinal? || Iterating(r.states[f].gateway)
    ensures m < f && r.events[m] == Iterate
    ensures r.states[f].gateway.AFinal? ==> r.states[f].now >= r.states[m].now + cfg.timeout
    ensures Iterating(r.states[f].gateway) ==> r.states[f].gateway.deadline == r.states[m].now + cfg.timeout
  {
    assert Steps(cfg, r, f - 1);
    if r.events[f - 1] == Iterate {
      m := f - 1;
    } else {
      m := FinalIsLate(cfg, r, f - 1);
    }
  }

  lemma {:induction false} ClockIsMonotone(cfg: Config, r: Run, i: nat, j: nat)
    requires IsRun(cfg, r) && i <= j < |r.states|
    ensures r.states[i].now <= r.states[j].now
  {
    if i < j {
      ClockIsMonotone(cfg, r, i, j - 1);
      assert Steps(cfg, r, j - 1);
    }
  }

  /**
   No false timeout. If the wait ended in a timeout, the wait began at some `m`, and the row was not
   terminal at any moment before the deadline counted from there, although the done signal may have
   been lost because the task is dispatched before the subscription.
   */
  lemma NoFalseTimeout(cfg: Config, r: Run, j: nat, i: nat) returns (m: nat)
    requires IsRun(cfg, r) && j < |r.states| && r.states[j].gateway.ATimedOut? && NoLoopError(r, j)
    requires i < |r.states|
    ensures m < j && r.events[m] == Iterate
    ensures r.states[i].now < r.states[m].now + cfg.timeout ==> !Terminal(r.states[i].row)
  {
    var f := TimedOutAt(cfg, r, j);
    m := FinalIsLate(cfg, r, f);
    if r.states[i].now < r.states[m].now + cfg.timeout && Terminal(r.states[i].row) {
      if f <= i {
        ClockIsMonotone(cfg, r, f, i);
      } else {
        TerminalIsStable(cfg, r, i, f);
      }
    }
  }

  /**
   Whatever fails, a wait that answers is right about the row: it returned the worker's report, or it timed
   out and the row was still open at the last read `f` and at every moment before it. Only a last read that
   raises gives no answer.
   */
  lemma AwaitIsHonest(cfg: Config, r: Run, j: nat, i: nat) returns (f: nat)
    requires IsRun(cfg, r) && j < |r.states| && AwaitEnded(r.states[j].gateway)
    ensures r.states[j].gateway.AReturned? ==>
              && var row, report := r.states[j].gateway.row, ReportOf(cfg.script);
              && row.status == (if report.success then Succeeded else FailedStatus)
              && row.output == Some(report.output) && row.error == report.error
    ensures r.states[j].gateway.ATimedOut? ==>
              f < j && r.events[f] == FinalRead && (i <= f ==> !Terminal(r.states[i].row))
  {
    RowAlways(cfg, r, j);
    f := 0;
    if r.states[j].gateway.ATimedOut? {
      f := TimedOutAt(cfg, r, j);
      if i <= f && Terminal(r.states[i].row) {
        TerminalIsStable(cfg, r, i, f);
      }
    }
  }

  /** Up to `i`, every posted result was written. */
  ghost predicate PostsWritten(r: Run, i: nat)
    requires i <= |r.events|
  {
    forall k :: 0 <= k < i && r.events[k].Post? ==> r.events[k].written
  }

  /** The worker writes before it signals, so a signal in hand means the row is there to be read. */
  lemma {:induction false} SignalFollowsRow(cfg: Config, r: Run, i: nat)
    requires IsRun(cfg, r) && i < |r.states| && PostsWritten(r, i)
    ensures r.states[i].worker.Signalling? || r.states[i].worker.Finished? ==> Terminal(r.states[i].row)
    ensures r.states[i].doneInbox.Some? && r.states[i].doneInbox.value > 0 ==> Terminal(r.states[i].row)
    ensures r.states[i].gateway.ARead? ==> Terminal(r.states[i].row)
  {
    if i > 0 {
      SignalFollowsRow(cfg, r, i - 1);
      assert Steps(cfg, r, i - 1);
    }
  }

  /** Hence the first done message ends the wait with the report; the loop never has to go round again. */
  lemma FirstSignalSuffices(cfg: Config, r: Run, i: nat)
    requires IsRun(cfg, r) && i < |r.events| && PostsWritten(r, i) && r.events[i] == ReadRow
    ensures r.states[i + 1].gateway == AReturned(RowOf(ReportOf(cfg.script)))
  {
    assert Steps(cfg, r, i);
    SignalFollowsRow(cfg, r, i);
    RowAlways(cfg, r, i);
  }

  /** Both modes answer alike: a complete lossless stream of a task shows the text a returned wait carries. */
  lemma ModesAgree(cfg: Config, r: Run, i: nat, cfg': Config, r': Run, j: nat)
    requires cfg.script == cfg'.script && cfg.streaming
    requires IsRun(cfg, r) && i < |r.states| && Lossless(r, i) && r.states[i].gateway.SEnd? && Never(r, i, TimeOut)
    requires IsRun(cfg', r') && j < |r'.states| && r'.states[j].gateway.AReturned?
    ensures r'.states[j].gateway.row.output == Some(Text(r.states[i].gateway.frames))
    ensures forall m :: m != "" ==>
              (r'.states[j].gateway.row.error == Some(m) ==> ErrorFrame(m) in r.states[i].gateway.frames)
    ensures !(cfg.script.ending == Raised("") && !HasDone(cfg.script.chunks) && LastError(cfg.script.chunks).None?) ==>
              (r'.states[j].gateway.row.status.FailedStatus? <==>
               exists m :: ErrorFrame(m) in r.states[i].gateway.frames)
  {
    CompleteExactly(cfg, r, i);
    StreamRefinesBatch(cfg, r, i);
    StreamAlways(cfg, r, i);
    RowAlways(cfg', r', j);
    OutcomesAgreeExactly(cfg.script);
    var frames, error := r.states[i].gateway.frames, LastError(Messages(cfg.script));
    assert error.Some? ==> frames[|frames| - 1] == ErrorFrame(error.value);
  }

  /** An exception right after dispatch makes the wait give up although the row is written in time. */
  function HastyRun(cfg: Config): Run
    requires !cfg.streaming && cfg.script == Script([], Exhausted)
  {
    var row := TaskRow(Dispatched, None, None);
    Run([Start0(cfg),
         State(0, row, true, Idle, [], None, None, ADispatched),
         State(0, row, true, Idle, [], None, None, AFinal),
         State(0, row, true, Idle, [], None, None, ATimedOut),
         State(0, row, true, Working(0), [], None, None, ATimedOut),
         State(0, row, true, Posting, [], None, None, ATimedOut),
         State(0, TaskRow(Succeeded, Some(""), None), true, Signalling, [], None, None, ATimedOut)],
        [Dispatch, LoopError, FinalRead, Start, EndStream, Post(true)])
  }

  /** So the absence of such exceptions is needed for `NoFalseTimeout`: here all of it happens at time zero. */
  lemma LoopErrorForcesFalseTimeout(cfg: Config)
    requires !cfg.streaming && cfg.script == Script([], Exhausted)
    ensures IsRun(cfg, HastyRun(cfg))
    ensures HastyRun(cfg).states[6].gateway.ATimedOut? && Terminal(HastyRun(cfg).states[6].row)
  {
    HastyStart(cfg);
    HastyEnd(cfg);
  }

  lemma HastyStart(cfg: Config)
    requires !cfg.streaming && cfg.script == Script([], Exhausted)
    ensures forall i :: 0 <= i < 3 ==> Steps(cfg, HastyRun(cfg), i)
  {
    var r := HastyRun(cfg);
    assert Steps(cfg, r, 0);
    assert Steps(cfg, r, 1);
    assert Steps(cfg, r, 2);
  }

  lemma HastyEnd(cfg: Config)
    requires !cfg.streaming && cfg.script == Script([], Exhausted)
    ensures forall i :: 3 <= i < 6 ==> Steps(cfg, HastyRun(cfg), i)
  {
    var r := HastyRun(cfg);
    assert Messages(cfg.script) == [] && RowOf(ReportOf(cfg.script)) == TaskRow(Succeeded, Some(""), None);
    assert Steps(cfg, r, 3);
    assert Steps(cfg, r, 4);
    assert Steps(cfg, r, 5);
  }

  // ---------------------------------------------------------------------------
  // The gateway's loops
  // ---------------------------------------------------------------------------

  /** The loop over the messages a subscription hands out until `done` or the deadline. */
  method ForwardChunks(delivered: seq<Chunk>) returns (frames: seq<Frame>, kept: Option<string>)
    ensures frames == FramesOf(Consumed(delivered)) && kept == LastError(Consumed(delivered))
  {
    frames, kept := [Role], None;
    ghost var taken: seq<Chunk> := [];
    for n := 0 to |delivered|
      invariant taken == delivered[..n]
      invariant forall k :: 0 <= k < n ==> !delivered[k].done
      invariant frames == FramesOf(taken) && kept == LastError(taken)
    {
      var chunk := delivered[n];
      JoinLast(taken, chunk);
      FramesAppend(taken, chunk);
      taken := taken + [chunk];
      if chunk.delta != "" {
        frames := frames + [Delta(chunk.delta)];
      }
      if Truthy(chunk.error) {
        kept := chunk.error;
      }
      if chunk.done {
        ConsumedIsPrefix(delivered, n + 1);
        assert taken == Consumed(delivered);
        return;
      }
    }
    ConsumedIsPrefix(delivered, |delivered|);
    assert taken == Consumed(delivered);
  }

  /** The streaming generator: role, deltas, then the closing frames. */
  method StreamWorkerResponse(delivered: seq<Chunk>) returns (frames: seq<Frame>)
    ensures frames == FramesOf(Consumed(delivered)) + Closing(LastError(Consumed(delivered)))
    ensures ReadsAs(frames, Spoken(Consumed(delivered)), LastError(Consumed(delivered)))
    ensures Text(frames) == Join(Consumed(delivered))
  {
    var kept;
    frames, kept := ForwardChunks(delivered);
    TextOfFrames(Consumed(delivered));
    ClosingIsSilent(frames, kept);
    ClosedReadsAs(Consumed(delivered));
    frames := frames + if kept.Some? then [Stop, ErrorFrame(kept.value)] else [Stop];
  }

  /**
   The wait loop: `seen[k]` is the row as read after the k-th done message that came before the deadline
   or an exception in the loop, and `last` the row at the final read.
   */
  method AwaitTaskCompletion(seen: seq<TaskRow>, last: TaskRow) returns (result: Option<TaskRow>)
    ensures result.Some? ==> Terminal(result.value)
    ensures result.None? <==> !Terminal(last) && forall k :: 0 <= k < |seen| ==> !Terminal(seen[k])
    ensures forall k :: 0 <= k < |seen| && Terminal(seen[k]) && (forall j :: 0 <= j < k ==> !Terminal(seen[j])) ==>
              result == Some(seen[k])
    ensures (forall k :: 0 <= k < |seen| ==> !Terminal(seen[k])) && Terminal(last) ==> result == Some(last)
  {
    for k := 0 to |seen|
      invariant forall j :: 0 <= j < k ==> !Terminal(seen[j])
    {
      if Terminal(seen[k]) {
        return Some(seen[k]);
      }
    }
    result := if Terminal(last) then Some(last) else None;
  }
}
