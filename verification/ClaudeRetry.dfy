/**
 The Claude executor's retry loop: attempts whose rate-limit errors are swallowed and retried, any
 other terminal chunk passed on, a closing chunk of the loop's own when an attempt yields none, and
 exceptions that the loop does not catch.
 */
module ClaudeRetry {
  import opened Prelude
  import opened TaskWorker

  /** A chunk of an attempt, with the stderr text collected when it is looked at. */
  datatype Seen = Seen(chunk: Chunk, stderr: string)

  /** After its chunks an attempt ends, or raises the timeout the loop catches, or an exception it does not. */
  datatype AttemptEnd = Ended | TimedOut | Threw(message: string)

  datatype Attempt = Attempt(seen: seq<Seen>, stderrAtEnd: string, end: AttemptEnd)

  type Detector = string -> bool

  const EXHAUSTED := Chunk("", true, Some("Rate limit retries exhausted"))
  const EXITED := Chunk("", true, Some("claude exited"))
  const TIMED_OUT := Chunk("", true, Some("Total execution timed out"))

  predicate Swallowed(x: Seen, limited: Detector) {
    Truthy(x.chunk.error) && limited(x.chunk.error.value + x.stderr)
  }

  /** What the loop passes on of an attempt: everything but swallowed errors, up to the first done chunk. */
  function PassedOn(seen: seq<Seen>, limited: Detector): seq<Chunk> {
    if seen == [] then []
    else if Swallowed(seen[0], limited) then PassedOn(seen[1..], limited)
    else if seen[0].chunk.done then [seen[0].chunk]
    else [seen[0].chunk] + PassedOn(seen[1..], limited)
  }

  predicate Finishes(seen: seq<Seen>, limited: Detector) {
    exists i :: 0 <= i < |seen| && seen[i].chunk.done && !Swallowed(seen[i], limited)
  }

  predicate HadDelta(seen: seq<Seen>) {
    exists i :: 0 <= i < |seen| && seen[i].chunk.delta != ""
  }

  predicate RateLimited(a: Attempt, limited: Detector) {
    (exists i :: 0 <= i < |a.seen| && Swallowed(a.seen[i], limited)) || (!HadDelta(a.seen) && limited(a.stderrAtEnd))
  }

  /** Whether attempt `a` is followed by another one while retries remain. */
  predicate Retries(a: Attempt, limited: Detector) {
    !Finishes(a.seen, limited) && a.end.Ended? && RateLimited(a, limited)
  }

  /** Attempt `a` ends the whole execution with an exception: it raises one before a done chunk was passed on. */
  predicate Escapes(a: Attempt, limited: Detector) {
    !Finishes(a.seen, limited) && a.end.Threw?
  }

  function Closing(a: Attempt, limited: Detector): seq<Chunk> {
    if Finishes(a.seen, limited) || a.end.Threw? then []
    else if a.end.TimedOut? then [TIMED_OUT]
    else if RateLimited(a, limited) then [EXHAUSTED]
    else [EXITED]
  }

  /** Everything the executor emits from attempt `k` on, with `remaining` retries left. */
  function Emitted(attempts: nat -> Attempt, limited: Detector, k: nat, remaining: int): seq<Chunk>
    decreases Max(0, remaining)
  {
    if Retries(attempts(k), limited) && remaining > 0
    then PassedOn(attempts(k).seen, limited) + Emitted(attempts, limited, k + 1, remaining - 1)
    else PassedOn(attempts(k).seen, limited) + Closing(attempts(k), limited)
  }

  /** How many subprocesses are started from attempt `k` on. */
  function AttemptsFrom(attempts: nat -> Attempt, limited: Detector, k: nat, remaining: int): nat
    decreases Max(0, remaining)
  {
    if Retries(attempts(k), limited) && remaining > 0 then 1 + AttemptsFrom(attempts, limited, k + 1, remaining - 1)
        else 1
  }

  /** The attempt that ends the execution. */
  function LastAttempt(attempts: nat -> Attempt, limited: Detector, k: nat, remaining: int): (last: nat)
    ensures last == k + AttemptsFrom(attempts, limited, k, remaining) - 1
    decreases Max(0, remaining)
  {
    if Retries(attempts(k), limited) && remaining > 0 then LastAttempt(attempts, limited, k + 1, remaining - 1) else k
  }

  /** How the generator stops: by itself, or with the exception of its last attempt. */
  function EndingOf(attempts: nat -> Attempt, limited: Detector, k: nat, remaining: int): Ending {
    var a := attempts(LastAttempt(attempts, limited, k, remaining));
    if Escapes(a, limited) then Raised(a.end.message) else Exhausted
  }

  ghost predicate NoneDone(chunks: seq<Chunk>) {
    forall i :: 0 <= i < |chunks| ==> !chunks[i].done
  }

  ghost predicate OneDoneLast(chunks: seq<Chunk>) {
    chunks != [] && chunks[|chunks| - 1].done && forall i :: 0 <= i < |chunks| - 1 ==> !chunks[i].done
  }

  lemma FinishesCons(seen: seq<Seen>, limited: Detector)
    requires seen != []
    ensures Finishes(seen, limited) <==>
            (seen[0].chunk.done && !Swallowed(seen[0], limited)) || Finishes(seen[1..], limited)
  {
    var rest := seen[1..];
    if Finishes(rest, limited) {
      var i :| 0 <= i < |rest| && rest[i].chunk.done && !Swallowed(rest[i], limited);
      assert seen[i + 1] == rest[i];
    }
    if Finishes(seen, limited) {
      var i :| 0 <= i < |seen| && seen[i].chunk.done && !Swallowed(seen[i], limited);
      assert i > 0 ==> rest[i - 1] == seen[i];
    }
  }

  lemma AfterPlain(plain: seq<Chunk>, rest: seq<Chunk>)
    ensures NoneDone(plain) ==>
            (OneDoneLast(plain + rest) <==> OneDoneLast(rest)) && (NoneDone(plain + rest) <==> NoneDone(rest))
    ensures OneDoneLast(plain) ==> !NoneDone(plain)
  {
    var all := plain + rest;
    assert forall i :: 0 <= i < |rest| ==> all[|plain| + i] == rest[i];
  }

  lemma {:induction false} PassedOnShape(seen: seq<Seen>, limited: Detector)
    ensures Finishes(seen, limited) ==> OneDoneLast(PassedOn(seen, limited))
    ensures !Finishes(seen, limited) ==> NoneDone(PassedOn(seen, limited))
  {
    if seen != [] {
      FinishesCons(seen, limited);
      PassedOnShape(seen[1..], limited);
      AfterPlain([seen[0].chunk], PassedOn(seen[1..], limited));
    }
  }

  /** Exactly one done chunk comes out, and comes last, unless the last attempt escapes: then none comes out. */
  lemma {:induction false} EmitsOneDoneLast(attempts: nat -> Attempt, limited: Detector, k: nat, remaining: int)
    ensures var emitted, last := Emitted(attempts, limited, k, remaining), LastAttempt(attempts, limited, k, remaining);
            && (OneDoneLast(emitted) <==> !Escapes(attempts(last), limited))
            && (NoneDone(emitted) <==> Escapes(attempts(last), limited))
    decreases Max(0, remaining)
  {
    var a := attempts(k);
    PassedOnShape(a.seen, limited);
    if Retries(a, limited) && remaining > 0 {
      EmitsOneDoneLast(attempts, limited, k + 1, remaining - 1);
      AfterPlain(PassedOn(a.seen, limited), Emitted(attempts, limited, k + 1, remaining - 1));
    } else {
      AfterPlain(PassedOn(a.seen, limited), Closing(a, limited));
      assert Finishes(a.seen, limited) || a.end.Threw? ==>
               PassedOn(a.seen, limited) + Closing(a, limited) == PassedOn(a.seen, limited);
    }
  }

  /** An attempt that showed any text is retried only for an error of its own, never for what standard error says. */
  lemma TextForbidsRetry(a: Attempt, limited: Detector)
    requires exists i :: 0 <= i < |a.seen| && a.seen[i].chunk.delta != ""
    requires forall i :: 0 <= i < |a.seen| ==> !Truthy(a.seen[i].chunk.error)
    ensures !Retries(a, limited)
    ensures a.end.Ended? && (forall i :: 0 <= i < |a.seen| ==> !a.seen[i].chunk.done) ==>
              Closing(a, limited) == [EXITED]
  {
    assert HadDelta(a.seen);
  }

  /** At most one attempt more than the configured retries; every attempt but the last one ran into the rate limit. */
  lemma {:induction false} AttemptsBound(attempts: nat -> Attempt, limited: Detector, k: nat, remaining: int)
    ensures 1 <= AttemptsFrom(attempts, limited, k, remaining) <= Max(0, remaining) + 1
    ensures forall i: nat :: k <= i < k + AttemptsFrom(attempts, limited, k, remaining) - 1 ==>
            Retries(attempts(i), limited)
    ensures var last := k + AttemptsFrom(attempts, limited, k, remaining) - 1;
            Retries(attempts(last), limited) ==> last == k + Max(0, remaining)
    decreases Max(0, remaining)
  {
    if Retries(attempts(k), limited) && remaining > 0 {
      AttemptsBound(attempts, limited, k + 1, remaining - 1);
    }
  }

  // ---------------------------------------------------------------------------
  // Attempts as the subprocess produces them
  // ---------------------------------------------------------------------------

  /**
   How one subprocess goes: it exits; the operating system (a missed deadline included) raises, which the
   attempt catches; or something else raises, such as an argument with a null byte or an overlong line.
   */
  datatype Outcome =
    | Exited(deltas: seq<string>, code: int, stderr: string)
    | OsFailure(deltas: seq<string>, message: string, stderrAtError: string, stderrAtEnd: string)
    | OtherFailure(deltas: seq<string>, message: string)

  function ExitText(code: int): string {
    if code < 0 then "exit -" + Digits(-code) else "exit " + Digits(code)
  }

  function Digits(n: nat): string {
    if n < 10 then ["0123456789"[n]] else Digits(n / 10) + ["0123456789"[n % 10]]
  }

  function DeltaChunks(deltas: seq<string>, stderr: string): seq<Seen> {
    seq(|deltas|, i requires 0 <= i < |deltas| => Seen(Chunk(deltas[i], false, None), stderr))
  }

  function TerminalOf(o: Outcome): Seen
    requires !o.OtherFailure?
  {
    match o
    case Exited(_, code, stderr) =>
      Seen(Chunk("", true, if code == 0 then None else Some(if stderr != "" then stderr else ExitText(code))), stderr)
    case OsFailure(_, message, stderr, _) => Seen(Chunk("", true, Some(message)), stderr)
  }

  function RunOnce(o: Outcome): Attempt {
    match o
    case Exited(deltas, _, stderr) => Attempt(DeltaChunks(deltas, "") + [TerminalOf(o)], stderr, Ended)
    case OsFailure(deltas, _, _, stderr) => Attempt(DeltaChunks(deltas, "") + [TerminalOf(o)], stderr, Ended)
    case OtherFailure(deltas, message) => Attempt(DeltaChunks(deltas, ""), "", Threw(message))
  }

  /** Its terminal chunk is a rate-limit error. */
  predicate HitsLimit(o: Outcome, limited: Detector) {
    !o.OtherFailure? && Swallowed(TerminalOf(o), limited)
  }

  function Concat(texts: seq<string>): string {
    if texts == [] then "" else Concat(texts[..|texts| - 1]) + texts[|texts| - 1]
  }

  function DeltaSeq(deltas: seq<string>): seq<Chunk> {
    seq(|deltas|, i requires 0 <= i < |deltas| => Chunk(deltas[i], false, None))
  }

  lemma {:induction false} DeltaTexts(deltas: seq<string>)
    ensures Join(DeltaSeq(deltas)) == Concat(deltas) && LastError(DeltaSeq(deltas)).None?
  {
    if deltas != [] {
      var n := |deltas| - 1;
      DeltaTexts(deltas[..n]);
      assert DeltaSeq(deltas)[..n] == DeltaSeq(deltas[..n]);
    }
  }

  /** Plain chunks at the front pass unchanged. */
  lemma {:induction false} DeltasPass(deltas: seq<string>, rest: seq<Seen>, limited: Detector)
    ensures PassedOn(DeltaChunks(deltas, "") + rest, limited) == DeltaSeq(deltas) + PassedOn(rest, limited)
  {
    var all := DeltaChunks(deltas, "") + rest;
    if deltas == [] {
      assert all == rest;
    } else {
      DeltasPass(deltas[1..], rest, limited);
      var first := Chunk(deltas[0], false, None);
      assert all[0].chunk == first && all[1..] == DeltaChunks(deltas[1..], "") + rest;
      assert DeltaSeq(deltas) == [first] + DeltaSeq(deltas[1..]);
      Regroup([first], DeltaSeq(deltas[1..]), PassedOn(rest, limited));
    }
  }

  /**
   A subprocess run gives its deltas and then its terminal chunk, unless that is a rate-limit error: then it is
   retried. One that raises anything but an operating-system error gives only its deltas, and escapes.
   */
  lemma RunOncePasses(o: Outcome, limited: Detector)
    ensures PassedOn(RunOnce(o).seen, limited) ==
            DeltaSeq(o.deltas) + if o.OtherFailure? || HitsLimit(o, limited) then [] else [TerminalOf(o).chunk]
    ensures Finishes(RunOnce(o).seen, limited) <==> !o.OtherFailure? && !HitsLimit(o, limited)
    ensures Retries(RunOnce(o), limited) <==> HitsLimit(o, limited)
    ensures Escapes(RunOnce(o), limited) <==> o.OtherFailure?
    ensures Closing(RunOnce(o), limited) == if HitsLimit(o, limited) then [EXHAUSTED] else []
  {
    var a, n := RunOnce(o), |o.deltas|;
    assert forall i :: 0 <= i < n ==> !a.seen[i].chunk.done;
    if o.OtherFailure? {
      DeltasPass(o.deltas, [], limited);
      assert a.seen + [] == a.seen;
    } else {
      var last := TerminalOf(o);
      DeltasPass(o.deltas, [last], limited);
      assert a.seen[n] == last && [last][1..] == [];
    }
  }

  function Attempts(outcomes: nat -> Outcome): nat -> Attempt {
    (i: nat) => RunOnce(outcomes(i))
  }

  /** The deltas of `n` attempts from `k` on, in order. */
  function AllDeltas(outcomes: nat -> Outcome, k: nat, n: nat): string
    decreases n
  {
    if n == 0 then "" else Concat(outcomes(k).deltas) + AllDeltas(outcomes, k + 1, n - 1)
  }

  lemma {:induction false} LastErrorAfter(a: seq<Chunk>, b: seq<Chunk>)
    ensures LastError(a + b) == if LastError(b).Some? then LastError(b) else LastError(a)
  {
    if b == [] {
      assert a + b == a;
    } else {
      var n := |b| - 1;
      LastErrorAfter(a, b[..n]);
      assert (a + b)[..|a + b| - 1] == a + b[..n];
    }
  }

  /** The delta chunks of `n` attempts from `k` on, in order. */
  function DeltaChain(outcomes: nat -> Outcome, k: nat, n: nat): seq<Chunk>
    decreases n
  {
    if n == 0 then [] else DeltaSeq(outcomes(k).deltas) + DeltaChain(outcomes, k + 1, n - 1)
  }

  lemma {:induction false} ChainText(outcomes: nat -> Outcome, k: nat, n: nat)
    ensures Join(DeltaChain(outcomes, k, n)) == AllDeltas(outcomes, k, n) && LastError(DeltaChain(outcomes, k, n)).None?
    decreases n
  {
    if n > 0 {
      ChainText(outcomes, k + 1, n - 1);
      DeltaTexts(outcomes(k).deltas);
      JoinConcat(DeltaSeq(outcomes(k).deltas), DeltaChain(outcomes, k + 1, n - 1));
      LastErrorAfter(DeltaSeq(outcomes(k).deltas), DeltaChain(outcomes, k + 1, n - 1));
    }
  }

  /** The chunk that closes an execution whose last attempt went as `o`, if it does not escape. */
  function ClosingOf(o: Outcome, limited: Detector): seq<Chunk> {
    if o.OtherFailure? then [] else if HitsLimit(o, limited) then [EXHAUSTED] else [TerminalOf(o).chunk]
  }

  lemma GoesOn(outcomes: nat -> Outcome, limited: Detector, k: nat, remaining: int)
    requires HitsLimit(outcomes(k), limited) && remaining > 0
    ensures var attempts := Attempts(outcomes);
            && Emitted(attempts, limited, k, remaining) ==
               DeltaSeq(outcomes(k).deltas) + Emitted(attempts, limited, k + 1, remaining - 1)
            && AttemptsFrom(attempts, limited, k, remaining) ==
                1 + AttemptsFrom(attempts, limited, k + 1, remaining - 1)
            && EndingOf(attempts, limited, k, remaining) == EndingOf(attempts, limited, k + 1, remaining - 1)
  {
    assert Attempts(outcomes)(k) == RunOnce(outcomes(k));
    RunOncePasses(outcomes(k), limited);
    assert DeltaSeq(outcomes(k).deltas) + [] == DeltaSeq(outcomes(k).deltas);
  }

  lemma StopsHere(outcomes: nat -> Outcome, limited: Detector, k: nat, remaining: int)
    requires !(HitsLimit(outcomes(k), limited) && remaining > 0)
    ensures var attempts, o := Attempts(outcomes), outcomes(k);
            && Emitted(attempts, limited, k, remaining) == DeltaSeq(o.deltas) + ClosingOf(o, limited)
            && AttemptsFrom(attempts, limited, k, remaining) == 1
            && EndingOf(attempts, limited, k, remaining) == if o.OtherFailure? then Raised(o.message) else Exhausted
  {
    assert Attempts(outcomes)(k) == RunOnce(outcomes(k));
    RunOncePasses(outcomes(k), limited);
    assert DeltaSeq(outcomes(k).deltas) + [] == DeltaSeq(outcomes(k).deltas);
  }

  /** `emitted` and `ending` are what attempts `k..k+n` show: all their deltas, then what the last one closes with. */
  ghost predicate Tells(outcomes: nat -> Outcome, limited: Detector, k: nat, n: nat, emitted: seq<Chunk>,
                        ending: Ending)
  {
    n > 0 && var last := outcomes(k + n - 1);
    && emitted == DeltaChain(outcomes, k, n) + ClosingOf(last, limited)
    && ending == if last.OtherFailure? then Raised(last.message) else Exhausted
  }

  lemma TellsOne(outcomes: nat -> Outcome, limited: Detector, k: nat)
    ensures var o := outcomes(k);
            Tells(outcomes, limited, k, 1, DeltaSeq(o.deltas) + ClosingOf(o, limited),
                  if o.OtherFailure? then Raised(o.message) else Exhausted)
  {
    assert DeltaChain(outcomes, k, 1) == DeltaSeq(outcomes(k).deltas) + DeltaChain(outcomes, k + 1, 0);
  }

  lemma TellsMore(outcomes: nat -> Outcome, limited: Detector, k: nat, n: nat, rest: seq<Chunk>, ending: Ending)
    requires Tells(outcomes, limited, k + 1, n, rest, ending)
    ensures Tells(outcomes, limited, k, n + 1, DeltaSeq(outcomes(k).deltas) + rest, ending)
  {
    var last := outcomes(k + 1 + n - 1);
    assert k + 1 + n - 1 == k + (n + 1) - 1;
    Regroup(DeltaSeq(outcomes(k).deltas), DeltaChain(outcomes, k + 1, n), ClosingOf(last, limited));
  }

  /**
   What the client sees of a whole execution: every attempt's text in order, retried ones included, and at
   the end the last attempt's own terminal chunk, or the exhaustion error if that too hit the rate limit, or
   nothing but an exception if it raised one the executor does not catch. The loop's other two closing
   chunks never appear.
   */
  lemma {:induction false} ExecutionMeaning(outcomes: nat -> Outcome, limited: Detector, k: nat, remaining: int)
    ensures Tells(outcomes, limited, k, AttemptsFrom(Attempts(outcomes), limited, k, remaining),
                  Emitted(Attempts(outcomes), limited, k, remaining),
                      EndingOf(Attempts(outcomes), limited, k, remaining))
    decreases Max(0, remaining)
  {
    if HitsLimit(outcomes(k), limited) && remaining > 0 {
      ExecutionMeaning(outcomes, limited, k + 1, remaining - 1);
      GoesOn(outcomes, limited, k, remaining);
      TellsMore(outcomes, limited, k, AttemptsFrom(Attempts(outcomes), limited, k + 1, remaining - 1),
                Emitted(Attempts(outcomes), limited, k + 1, remaining - 1),
                EndingOf(Attempts(outcomes), limited, k + 1, remaining - 1));
    } else {
      StopsHere(outcomes, limited, k, remaining);
      TellsOne(outcomes, limited, k);
    }
  }

  lemma Regroup(a: seq<Chunk>, b: seq<Chunk>, c: seq<Chunk>)
    ensures a + (b + c) == (a + b) + c
  {
  }

  /** The worker's script for an execution. */
  function Execution(attempts: nat -> Attempt, limited: Detector, retries: int): Script {
    Script(Emitted(attempts, limited, 0, retries), EndingOf(attempts, limited, 0, retries))
  }

  /**
   A consumer that stops at the first done chunk takes the whole emission, and finds one unless an attempt escaped.
   */
  lemma EmissionIsConsumedWhole(attempts: nat -> Attempt, limited: Detector, retries: int)
    ensures var script := Execution(attempts, limited, retries);
            Consumed(script.chunks) == script.chunks && (HasDone(script.chunks) <==> script.ending.Exhausted?)
  {
    EmitsOneDoneLast(attempts, limited, 0, retries);
    var emitted := Emitted(attempts, limited, 0, retries);
    ConsumedIsPrefix(emitted, |emitted|);
    assert emitted[..|emitted|] == emitted;
  }

  /** A script whose chunks are text and what its last process closes with, and which a consumer takes whole. */
  ghost predicate Closed(script: Script, chain: seq<Chunk>, last: Outcome, limited: Detector) {
    && script.chunks == chain + ClosingOf(last, limited) && LastError(chain).None?
    && script.ending == (if last.OtherFailure? then Raised(last.message) else Exhausted)
    && Consumed(script.chunks) == script.chunks && (HasDone(script.chunks) <==> script.ending.Exhausted?)
  }

  lemma ExecutionCloses(outcomes: nat -> Outcome, limited: Detector, retries: int)
    ensures var n := AttemptsFrom(Attempts(outcomes), limited, 0, retries);
            && Closed(Execution(Attempts(outcomes), limited, retries), DeltaChain(outcomes, 0, n), outcomes(n - 1),
                      limited)
            && Join(DeltaChain(outcomes, 0, n)) == AllDeltas(outcomes, 0, n)
  {
    EmissionIsConsumedWhole(Attempts(outcomes), limited, retries);
    ExecutionMeaning(outcomes, limited, 0, retries);
    ChainText(outcomes, 0, AttemptsFrom(Attempts(outcomes), limited, 0, retries));
  }

  /** The worker's report on it, all its text. */
  ghost predicate Reported(script: Script, text: string, last: Outcome, limited: Detector) {
    var report := ReportOf(script);
    && report.output == text
    && (report.success <==> !last.OtherFailure? && !Truthy(TerminalOf(last).chunk.error))
    && (HitsLimit(last, limited) ==> report.error == EXHAUSTED.error)
    && (last.OtherFailure? ==>
          && report.error == Some(last.message) && NoneDone(script.chunks)
          && Messages(script) == script.chunks + [Chunk("", true, Some(last.message))])
  }

  /**
   So the worker's report on an execution: all the text; success just if the last attempt neither escaped nor
   closed with an error text. For an escaped exception the worker adds the terminal message the executor owed.
   */
  lemma ReportOfExecution(outcomes: nat -> Outcome, limited: Detector, retries: int)
    ensures var n := AttemptsFrom(Attempts(outcomes), limited, 0, retries);
            Reported(Execution(Attempts(outcomes), limited, retries), AllDeltas(outcomes, 0, n), outcomes(n - 1),
                     limited)
  {
    var n := AttemptsFrom(Attempts(outcomes), limited, 0, retries);
    ExecutionCloses(outcomes, limited, retries);
    ReportOfClosed(Execution(Attempts(outcomes), limited, retries), DeltaChain(outcomes, 0, n), outcomes(n - 1),
                   limited);
  }

  /** The process came to a good end, or met an operating-system error that says nothing, such as a missed deadline. */
  predicate EndsWell(o: Outcome) {
    match o
    case Exited(_, code, _) => code == 0
    case OsFailure(_, message, _, _) => message == ""
    case OtherFailure(_, _) => false
  }

  /** What a process that did not end well is blamed for. */
  function Complaint(o: Outcome): string {
    match o
    case Exited(_, code, stderr) => if stderr != "" then stderr else ExitText(code)
    case OsFailure(_, message, _, _) => message
    case OtherFailure(_, message) => message
  }

  /** The text the rate-limit detector is shown: the complaint, and what standard error held at that moment. */
  function Shown(o: Outcome): string
    requires !o.OtherFailure?
  {
    Complaint(o) + match o
      case Exited(_, _, stderr) => stderr
      case OsFailure(_, _, stderr, _) => stderr
  }

  /** A process hits the rate limit just if it ends badly and says so. */
  lemma HitsLimitExactly(o: Outcome, limited: Detector)
    ensures HitsLimit(o, limited) <==> !o.OtherFailure? && !EndsWell(o) && limited(Shown(o))
  {
    if o.Exited? {
      ExitTextIsDecimal(o.code);
    }
  }

  function Value(digits: string): int {
    if digits == "" then 0
    else 10 * Value(digits[..|digits| - 1]) + digits[|digits| - 1] as int - '0' as int
  }

  lemma {:induction false} DigitsAreDecimal(n: nat)
    ensures Value(Digits(n)) == n && |Digits(n)| > 0
    ensures forall i :: 0 <= i < |Digits(n)| ==> '0' <= Digits(n)[i] <= '9'
  {
    if n < 10 {
      assert Digits(n)[..0] == "";
      assert n == 0 || n == 1 || n == 2 || n == 3 || n == 4 || n == 5 || n == 6 || n == 7 || n == 8 || n == 9;
    } else {
      DigitsAreDecimal(n / 10);
      DigitsAreDecimal(n % 10);
      assert Digits(n)[..|Digits(n)| - 1] == Digits(n / 10);
    }
  }

  /** The exit text ends in the code in decimal digits, after a sign if it is negative. */
  lemma ExitTextIsDecimal(code: int)
    ensures exists digits :: Value(digits) == (if code < 0 then -code else code)
                             && ExitText(code) == "exit " + (if code < 0 then "-" else "") + digits
  {
    var digits := Digits(if code < 0 then -code else code);
    DigitsAreDecimal(if code < 0 then -code else code);
    assert code < 0 ==> "exit -" + digits == "exit " + "-" + digits;
    assert code >= 0 ==> "exit " + digits == "exit " + "" + digits;
  }

  /** The report is the one its last process deserves. */
  ghost predicate Deserved(report: Report, last: Outcome, limited: Detector) {
    && (report.success <==> EndsWell(last))
    && (EndsWell(last) ==> report.error.None?)
    && (!EndsWell(last) ==>
          report.error == Some(if !last.OtherFailure? && limited(Shown(last)) then "Rate limit retries exhausted"
                               else Complaint(last)))
  }

  lemma ClosingErrors(last: Outcome, limited: Detector)
    requires !last.OtherFailure?
    ensures var closing := ClosingOf(last, limited);
            && |closing| == 1
            && (EndsWell(last) <==> !Truthy(closing[0].error))
            && (!EndsWell(last) ==>
                  closing[0].error == Some(if limited(Shown(last)) then "Rate limit retries exhausted"
                                           else Complaint(last)))
  {
    HitsLimitExactly(last, limited);
    if last.Exited? {
      ExitTextIsDecimal(last.code);
    }
  }

  lemma ClosedDeserves(script: Script, chain: seq<Chunk>, last: Outcome, limited: Detector)
    requires Closed(script, chain, last, limited)
    ensures Deserved(ReportOf(script), last, limited)
  {
    ClosedText(chain, ClosingOf(last, limited));
    if !last.OtherFailure? {
      ClosingErrors(last, limited);
    }
  }

  /**
   The report read off the last process alone: success just if it ended well; else the exhaustion error if it
   hit the rate limit, and otherwise its complaint.
   */
  lemma ReportFromLast(outcomes: nat -> Outcome, limited: Detector, retries: int)
    ensures var n := AttemptsFrom(Attempts(outcomes), limited, 0, retries);
            Deserved(ReportOf(Execution(Attempts(outcomes), limited, retries)), outcomes(n - 1), limited)
  {
    var n := AttemptsFrom(Attempts(outcomes), limited, 0, retries);
    ExecutionCloses(outcomes, limited, retries);
    ClosedDeserves(Execution(Attempts(outcomes), limited, retries), DeltaChain(outcomes, 0, n), outcomes(n - 1),
                   limited);
  }

  lemma ReportOfClosed(script: Script, chain: seq<Chunk>, last: Outcome, limited: Detector)
    requires Closed(script, chain, last, limited)
    ensures Reported(script, Join(chain), last, limited)
  {
    ClosedText(chain, ClosingOf(last, limited));
    if last.OtherFailure? {
      assert forall i :: 0 <= i < |script.chunks| ==> !script.chunks[i].done;
    } else {
      ClosingShape(last, limited);
    }
  }

  lemma ClosingShape(last: Outcome, limited: Detector)
    requires !last.OtherFailure?
    ensures var closing := ClosingOf(last, limited);
            && |closing| == 1 && closing[0].delta == ""
            && (Truthy(closing[0].error) <==> Truthy(TerminalOf(last).chunk.error))
            && (HitsLimit(last, limited) ==> closing[0].error == EXHAUSTED.error && Truthy(closing[0].error))
  {
  }

  lemma ClosedText(chain: seq<Chunk>, closing: seq<Chunk>)
    requires |closing| <= 1 && LastError(chain).None?
    ensures Join(chain + closing) == if closing == [] then Join(chain) else Join(chain) + closing[0].delta
    ensures LastError(chain + closing) == if closing != [] && Truthy(closing[0].error) then closing[0].error else None
  {
    if closing == [] {
      assert chain + closing == chain;
    } else {
      JoinLast(chain, closing[0]);
      assert closing == [closing[0]];
    }
  }

  /** A missed deadline surfaces as an operating-system error without text, and so the worker reports success. */
  lemma DeadlineReportsSuccess(outcomes: nat -> Outcome, limited: Detector, retries: int)
    requires outcomes(0).OsFailure? && outcomes(0).message == ""
    ensures ReportOf(Execution(Attempts(outcomes), limited, retries)) == Report(true, Concat(outcomes(0).deltas), None)
  {
    FirstAttemptDecides(outcomes, limited, retries);
    EmissionIsConsumedWhole(Attempts(outcomes), limited, retries);
    ReportOfExecution(outcomes, limited, retries);
  }

  lemma FirstAttemptDecides(outcomes: nat -> Outcome, limited: Detector, retries: int)
    requires !HitsLimit(outcomes(0), limited)
    ensures AttemptsFrom(Attempts(outcomes), limited, 0, retries) == 1
    ensures AllDeltas(outcomes, 0, 1) == Concat(outcomes(0).deltas)
  {
    StopsHere(outcomes, limited, 0, retries);
    assert AllDeltas(outcomes, 0, 1) == Concat(outcomes(0).deltas) + AllDeltas(outcomes, 1, 0);
  }

  // ---------------------------------------------------------------------------
  // An input on which no done chunk comes out
  // ---------------------------------------------------------------------------

  const NULL_BYTE := "embedded null byte"

  /** The command line: system prompt, configuration file and model only when given. */
  function Arguments(command: string, system: string, mcpConfig: string, model: string): seq<string> {
    [command, "--print", "--dangerously-skip-permissions", "--output-format", "stream-json", "--verbose"]
    + (if system != "" then ["--append-system-prompt", system] else [])
    + (if mcpConfig != "" then ["--mcp-config", mcpConfig] else [])
    + (if model != "" then ["--model", model] else [])
  }

  predicate HasNull(arguments: seq<string>) {
    exists i :: 0 <= i < |arguments| && '\0' in arguments[i]
  }

  /** Creating the process refuses arguments with a null byte by an exception that is no `OSError`. */
  function Launched(arguments: seq<string>, world: nat -> Outcome): nat -> Outcome {
    (i: nat) => if HasNull(arguments) then OtherFailure([], NULL_BYTE) else world(i)
  }

  /** A system prompt with a null character: nothing is emitted, and the worker alone tells the gateway. */
  lemma NullByteEmitsNothing(command: string, system: string, mcpConfig: string, model: string, world: nat -> Outcome,
                             limited: Detector, retries: int)
    requires '\0' in system
    ensures var script :=
            Execution(Attempts(Launched(Arguments(command, system, mcpConfig, model), world)), limited, retries);
            && script == Script([], Raised(NULL_BYTE)) && ReportOf(script) == Report(false, "", Some(NULL_BYTE))
            && Messages(script) == [Chunk("", true, Some(NULL_BYTE))]
  {
    var arguments := Arguments(command, system, mcpConfig, model);
    var outcomes := Launched(arguments, world);
    assert arguments[7] == system && HasNull(arguments);
    assert outcomes(0) == OtherFailure([], NULL_BYTE);
    FirstAttemptDecides(outcomes, limited, retries);
    ExecutionMeaning(outcomes, limited, 0, retries);
    assert DeltaChain(outcomes, 0, 1) == DeltaSeq([]) + DeltaChain(outcomes, 1, 0);
    assert DeltaChain(outcomes, 0, 1) == [];
  }

  // ---------------------------------------------------------------------------
  // The loop
  // ---------------------------------------------------------------------------

  method Execute(attempts: nat -> Attempt, limited: Detector, retries: int)
    returns (emitted: seq<Chunk>, used: nat, ending: Ending)
    ensures Script(emitted, ending) == Execution(attempts, limited, retries)
    ensures if ending.Exhausted? then OneDoneLast(emitted) else NoneDone(emitted)
    ensures used == AttemptsFrom(attempts, limited, 0, retries) && used <= Max(0, retries) + 1
  {
    emitted, used, ending := [], 0, Exhausted;
    var remaining, done := retries, false;
    while !done
      invariant !done ==>
                  emitted + Emitted(attempts, limited, used, remaining) == Emitted(attempts, limited, 0, retries)
      invariant !done ==>
                  used + AttemptsFrom(attempts, limited, used, remaining) == AttemptsFrom(attempts, limited, 0, retries)
      invariant !done ==> LastAttempt(attempts, limited, used, remaining) == LastAttempt(attempts, limited, 0, retries)
      invariant done ==> emitted == Emitted(attempts, limited, 0, retries)
      invariant done ==> used == AttemptsFrom(attempts, limited, 0, retries)
      invariant done ==> ending == EndingOf(attempts, limited, 0, retries)
      decreases !done, Max(0, remaining)
    {
      var all, closing, retry, escaped := RunAttempt(attempts(used), limited, emitted);
      Unfold(attempts, limited, used, remaining, emitted);
      used, emitted := used + 1, all;
      if retry && remaining > 0 {
        remaining := remaining - 1;
      } else {
        emitted := emitted + closing;
        ending := if escaped then Raised(attempts(used - 1).end.message) else Exhausted;
        done := true;
      }
    }
    EmitsOneDoneLast(attempts, limited, 0, retries);
    AttemptsBound(attempts, limited, 0, retries);
  }

  lemma Unfold(attempts: nat -> Attempt, limited: Detector, k: nat, remaining: int, before: seq<Chunk>)
    ensures Retries(attempts(k), limited) && remaining > 0 ==>
              && before + PassedOn(attempts(k).seen, limited) + Emitted(attempts, limited, k + 1, remaining - 1) ==
                 before + Emitted(attempts, limited, k, remaining)
              && AttemptsFrom(attempts, limited, k, remaining) ==
                  1 + AttemptsFrom(attempts, limited, k + 1, remaining - 1)
              && LastAttempt(attempts, limited, k, remaining) == LastAttempt(attempts, limited, k + 1, remaining - 1)
    ensures !(Retries(attempts(k), limited) && remaining > 0) ==>
              && before + PassedOn(attempts(k).seen, limited) + Closing(attempts(k), limited) ==
                 before + Emitted(attempts, limited, k, remaining)
              && AttemptsFrom(attempts, limited, k, remaining) == 1 && LastAttempt(attempts, limited, k, remaining) == k
  {
  }

  /** One attempt: what it adds, what would close the stream after it, and whether it asks for a retry. */
  method RunAttempt(attempt: Attempt, limited: Detector, emitted: seq<Chunk>)
    returns (all: seq<Chunk>, closing: seq<Chunk>, retry: bool, escaped: bool)
    ensures all == emitted + PassedOn(attempt.seen, limited)
    ensures closing == Closing(attempt, limited) && retry == Retries(attempt, limited)
    ensures escaped == Escapes(attempt, limited)
  {
    var finished, rateLimited;
    all, finished, rateLimited := Drain(attempt, limited, emitted);
    retry := !finished && attempt.end.Ended? && rateLimited;
    escaped := !finished && attempt.end.Threw?;
    closing := if finished || escaped then []
               else if attempt.end.TimedOut? then [TIMED_OUT]
               else if rateLimited then [EXHAUSTED]
               else [EXITED];
  }

  /** The inner loop over one attempt's chunks. */
  method Drain(attempt: Attempt, limited: Detector, emitted: seq<Chunk>)
    returns (all: seq<Chunk>, finished: bool, rateLimited: bool)
    ensures all == emitted + PassedOn(attempt.seen, limited)
    ensures finished == Finishes(attempt.seen, limited)
    ensures !finished ==> rateLimited == RateLimited(attempt, limited)
  {
    all, finished, rateLimited := emitted, false, false;
    var hadDelta := false;
    for i := 0 to |attempt.seen|
      invariant all + PassedOn(attempt.seen[i..], limited) == emitted + PassedOn(attempt.seen, limited)
      invariant !finished && forall k :: 0 <= k < i ==>
                !attempt.seen[k].chunk.done || Swallowed(attempt.seen[k], limited)
      invariant hadDelta <==> exists k :: 0 <= k < i && attempt.seen[k].chunk.delta != ""
      invariant rateLimited <==> exists k :: 0 <= k < i && Swallowed(attempt.seen[k], limited)
    {
      var x := attempt.seen[i];
      assert attempt.seen[i..][1..] == attempt.seen[i + 1..];
      if x.chunk.delta != "" {
        hadDelta := true;
      }
      if Swallowed(x, limited) {
        rateLimited := true;
        continue;
      }
      all := all + [x.chunk];
      if x.chunk.done {
        finished := true;
        return;
      }
    }
    if !hadDelta && limited(attempt.stderrAtEnd) {
      rateLimited := true;
    }
  }
}
