/** One invocation of the `/rasterize` handler (cmd/pdfrasterizer/main.go)
    with sequential semantics, as the trace of events it produces. The two
    goroutines become "both started, both awaited, Ghostscript's first"; what
    they do is given as their outcomes. `defer` is a stack of deferred
    actions unwound last-in first-out on every return. */
module Handler {
  import opened Wrappers
  import opened Errors
  import Http
  import opened Events
  import opened Fifo
  import Ghostscript
  import opened Planning

  const GsLogPrefix := "ghostscript run: "
  const OutputLogPrefix := "output err: "

  /** An action registered with `defer`. */
  datatype Deferred = CleanupFifo(path: string) | CloseRequestBody

  function RunDeferred(d: Deferred, remove: Outcome<Error>): seq<Event>
  {
    match d
    case CleanupFifo(p) => Cleanup(p, remove)
    case CloseRequestBody => [CloseBody]
  }

  /** Running one deferred action: the FIFO cleanup removes its FIFO once,
      closing the body removes nothing; neither starts or awaits a task. */
  lemma RunDeferredEffects(d: Deferred, remove: Outcome<Error>, k: Kind)
    ensures k == Launch || k == Receive ==> Select(RunDeferred(d, remove), k) == []
    ensures k == Removal ==> Select(RunDeferred(d, remove), k) == if d.CleanupFifo? then [Remove(d.path)] else []
  {
    if d.CloseRequestBody? {
      SelectOne(CloseBody, k);
    }
  }

  /** What `return` runs: the deferred actions, last registered first. */
  function Unwind(deferred: seq<Deferred>, remove: Outcome<Error>): seq<Event>
  {
    if deferred == [] then []
    else RunDeferred(deferred[|deferred| - 1], remove) + Unwind(deferred[..|deferred| - 1], remove)
  }

  /** Unwinding any stack of deferred actions starts and awaits no task. */
  lemma {:induction false} UnwindStartsNoTask(deferred: seq<Deferred>, remove: Outcome<Error>, k: Kind)
    requires k == Launch || k == Receive
    ensures Select(Unwind(deferred, remove), k) == []
    decreases |deferred|
  {
    if deferred != [] {
      var last := RunDeferred(deferred[|deferred| - 1], remove);
      var init := deferred[..|deferred| - 1];
      UnwindStartsNoTask(init, remove, k);
      RunDeferredEffects(deferred[|deferred| - 1], remove, k);
      SelectAppend(last, Unwind(init, remove), k);
    }
  }

  /** The action deferred last is the first to run. */
  lemma UnwindPush(deferred: seq<Deferred>, d: Deferred, remove: Outcome<Error>)
    ensures Unwind(deferred + [d], remove) == RunDeferred(d, remove) + Unwind(deferred, remove)
  {
    var ds := deferred + [d];
    assert ds[|ds| - 1] == d;
    assert ds[..|ds| - 1] == deferred;
  }

  /** `defer` is last-in first-out: what was deferred later runs before
      everything deferred earlier. */
  lemma {:induction false} UnwindLifo(earlier: seq<Deferred>, later: seq<Deferred>, remove: Outcome<Error>)
    ensures Unwind(earlier + later, remove) == Unwind(later, remove) + Unwind(earlier, remove)
    decreases |later|
  {
    if later == [] {
      assert earlier + later == earlier;
    } else {
      var front, d := later[..|later| - 1], later[|later| - 1];
      assert later == front + [d];
      assert earlier + later == (earlier + front) + [d];
      UnwindPush(earlier + front, d, remove);
      UnwindPush(front, d, remove);
      UnwindLifo(earlier, front, remove);
      var x, y, z := RunDeferred(d, remove), Unwind(front, remove), Unwind(earlier, remove);
      assert x + (y + z) == (x + y) + z;
    }
  }

  /** The events of the tail of a streamed response: the request body is
      closed, then the FIFO is removed (the defers in reverse order). */
  function StreamTail(path: string, remove: Outcome<Error>): seq<Event>
  {
    [CloseBody] + Cleanup(path, remove)
  }

  /** The shape of a streamed response: the FIFO is created, the response
      Content-Type is set before either task starts, the copy task and then
      Ghostscript are launched, both outcomes are received (Ghostscript's
      first), each error is logged right after its receive and nothing else
      happens in between, and only after that the body is closed and the
      FIFO removed. */
  predicate Streams(trace: seq<Event>, plan: Plan, gsRun: Outcome<Error>, output: Outcome<Error>, remove: Outcome<Error>)
  {
    var tail := StreamTail(plan.outputPath, remove);
    && |trace| >= 4 + |tail|
    && trace[..4] == [MkFifo(plan.outputPath, FifoMode, true), SetHeader("Content-Type", plan.contentType),
                      StartCopy(plan.outputPath), StartGs(plan.argv)]
    && trace[4..|trace| - |tail|] == JoinEvents(gsRun, output)
    && trace[|trace| - |tail|..] == tail
    && Select(trace[..|trace| - |tail|], Receive) == [AwaitGs(gsRun), AwaitCopy(output)]
    && Select(trace, Launch) == [StartCopy(plan.outputPath), StartGs(plan.argv)]
    && Select(trace, Logging) == LogIfFailed(GsLogPrefix, gsRun) + LogIfFailed(OutputLogPrefix, output)
                               + LogIfFailed(CleanupLogPrefix, remove)
  }

  /** The handler. `mkfifo`, `gsRun`, `output` and `remove` are the results
      of `syscall.Mkfifo`, of running Ghostscript, of opening and copying the
      FIFO, and of `os.Remove`; `token` is the random FIFO name.

      The response status is the planned one: task and cleanup outcomes never
      change it. A wrong Content-Type is answered before anything else
      happens; otherwise the FIFO is attempted first, and a failed mkfifo is
      a 500 with nothing to clean up. The FIFO is removed exactly once when
      it was created and never otherwise, and no task is started unless the
      request is streamed. */
  method HandleRasterize(h: Http.Header, token: Token, mkfifo: Outcome<Error>,
                         gsRun: Outcome<Error>, output: Outcome<Error>, remove: Outcome<Error>)
    returns (status: int, trace: seq<Event>)
    ensures status == StatusOf(PlanRequest(h, mkfifo, token))
    ensures !ContentTypeOk(h) ==> trace == [WriteError(Http.StatusBadRequest, ContentTypeRequired)]
    ensures ContentTypeOk(h) ==> |trace| > 0 && trace[0] == MkFifo(FifoPath(token), FifoMode, mkfifo.Pass?)
    ensures ContentTypeOk(h) && mkfifo.Fail? ==>
              trace == [MkFifo(FifoPath(token), FifoMode, false),
                        WriteError(Http.StatusInternalServerError, Text(mkfifo.error))]
    ensures Select(trace, Removal) == if ContentTypeOk(h) && mkfifo.Pass? then [Remove(FifoPath(token))] else []
    ensures !PlanRequest(h, mkfifo, token).Proceed? ==> Select(trace, Launch) == []
    ensures PlanRequest(h, mkfifo, token).Proceed? ==>
              Streams(trace, PlanRequest(h, mkfifo, token).plan, gsRun, output, remove)
  {
    trace := [];
    var deferred: seq<Deferred> := [];

    if Http.Get(h, "Content-Type") != PdfContentType {
      status := Http.StatusBadRequest;
      trace := trace + [WriteError(status, ContentTypeRequired)];
      SelectOne(WriteError(status, ContentTypeRequired), Removal);
      SelectOne(WriteError(status, ContentTypeRequired), Launch);
      return;
    }

    var imageType := NegotiateImageType(Http.Get(h, "Accept"));

    var fifo, events := RandomFifoName(token, mkfifo);
    trace := trace + events;
    match fifo {
      case Failure(err) =>
        status := Http.StatusInternalServerError;
        trace := trace + [WriteError(status, Text(err))];
        SelectNone(trace, Removal);
        SelectNone(trace, Launch);
        return;
      case Success(outputPath) =>
        deferred := deferred + [CleanupFifo(outputPath)];

        match GsDevice(imageType) {
          case Failure(err) =>
            status := Http.StatusBadRequest;
            trace := trace + [WriteError(status, Text(err))] + Unwind(deferred, remove);
            return;
          case Success(gsDevice) =>
            var argv := Ghostscript.Argv(outputPath, gsDevice);
            status := Http.StatusOK;
            trace := Stream(trace, deferred, Plan(imageType, gsDevice, outputPath, argv, imageType), gsRun, output, remove);
        }
    }
  }

  /** The rest of the handler once the FIFO exists and the device is known:
      `trace` and `deferred` are what happened and what was deferred so far.
      It defers closing the request body, sets the response Content-Type,
      starts the copy task and then Ghostscript, receives both outcomes and
      logs their errors, and returns, which unwinds both defers. */
  method Stream(trace0: seq<Event>, deferred0: seq<Deferred>, plan: Plan,
                gsRun: Outcome<Error>, output: Outcome<Error>, remove: Outcome<Error>)
    returns (trace: seq<Event>)
    requires trace0 == [MkFifo(plan.outputPath, FifoMode, true)]
    requires deferred0 == [CleanupFifo(plan.outputPath)]
    ensures Streams(trace, plan, gsRun, output, remove)
    ensures Select(trace, Removal) == [Remove(plan.outputPath)]
  {
    trace := trace0;
    var deferred := deferred0 + [CloseRequestBody];

    trace := trace + [SetHeader("Content-Type", plan.contentType)];
    trace := trace + [StartCopy(plan.outputPath)];
    trace := trace + [StartGs(plan.argv)];
    trace := trace + [AwaitGs(gsRun)] + LogIfFailed(GsLogPrefix, gsRun);
    trace := trace + [AwaitCopy(output)] + LogIfFailed(OutputLogPrefix, output);
    ghost var joined := trace;
    assert joined == Joined(plan.contentType, plan.outputPath, plan.argv, gsRun, output);

    assert deferred == [CleanupFifo(plan.outputPath), CloseRequestBody];
    UnwindStreaming(plan.outputPath, remove);
    trace := trace + Unwind(deferred, remove);
    assert trace == joined + StreamTail(plan.outputPath, remove);
    StreamingTrace(plan, gsRun, output, remove);
  }

  /** Unwinding the streaming path's two defers closes the body first and
      removes the FIFO last. */
  lemma UnwindStreaming(path: string, remove: Outcome<Error>)
    ensures Unwind([CleanupFifo(path), CloseRequestBody], remove) == StreamTail(path, remove)
  {
    var ds := [CleanupFifo(path), CloseRequestBody];
    assert ds[..1] == [CleanupFifo(path)];
    assert [CleanupFifo(path)][..0] == [];
    assert Unwind([CleanupFifo(path)], remove) == Cleanup(path, remove) + Unwind([], remove);
  }

  /** The streaming path's events up to the join, and what each kind of
      selection finds in them. */
  function Joined(contentType: string, path: string, argv: seq<string>,
                  gsRun: Outcome<Error>, output: Outcome<Error>): seq<Event>
  {
    Started(contentType, path, argv) + JoinEvents(gsRun, output)
  }

  /** The events of receiving both task outcomes, Ghostscript's first. */
  function JoinEvents(gsRun: Outcome<Error>, output: Outcome<Error>): seq<Event>
  {
    [AwaitGs(gsRun)] + (LogIfFailed(GsLogPrefix, gsRun) + ([AwaitCopy(output)] + LogIfFailed(OutputLogPrefix, output)))
  }

  lemma JoinEventsSelect(gsRun: Outcome<Error>, output: Outcome<Error>, k: Kind)
    ensures Select(JoinEvents(gsRun, output), k) ==
              Select([AwaitGs(gsRun)], k) + (Select(LogIfFailed(GsLogPrefix, gsRun), k)
              + (Select([AwaitCopy(output)], k) + Select(LogIfFailed(OutputLogPrefix, output), k)))
  {
    SelectFour([AwaitGs(gsRun)], LogIfFailed(GsLogPrefix, gsRun), [AwaitCopy(output)], LogIfFailed(OutputLogPrefix, output), k);
  }

  lemma SelectFour(a: seq<Event>, b: seq<Event>, c: seq<Event>, d: seq<Event>, k: Kind)
    ensures Select(a + (b + (c + d)), k) == Select(a, k) + (Select(b, k) + (Select(c, k) + Select(d, k)))
  {
    SelectAppend(c, d, k);
    SelectAppend(b, c + d, k);
    SelectAppend(a, b + (c + d), k);
  }

  /** Receiving the outcomes removes nothing and launches nothing. */
  lemma JoinEventsNone(gsRun: Outcome<Error>, output: Outcome<Error>, k: Kind)
    requires k == Removal || k == Launch
    ensures Select(JoinEvents(gsRun, output), k) == []
  {
    JoinEventsSelect(gsRun, output, k);
    SelectOne(AwaitGs(gsRun), k);
    SelectOne(AwaitCopy(output), k);
    SelectLogIfFailed(GsLogPrefix, gsRun, k);
    SelectLogIfFailed(OutputLogPrefix, output, k);
  }

  /** Receiving the outcomes logs each failure, Ghostscript's first. */
  lemma JoinEventsLogs(gsRun: Outcome<Error>, output: Outcome<Error>)
    ensures Select(JoinEvents(gsRun, output), Logging) == LogIfFailed(GsLogPrefix, gsRun) + LogIfFailed(OutputLogPrefix, output)
  {
    JoinEventsSelect(gsRun, output, Logging);
    SelectOne(AwaitGs(gsRun), Logging);
    SelectOne(AwaitCopy(output), Logging);
    SelectLogIfFailed(GsLogPrefix, gsRun, Logging);
    SelectLogIfFailed(OutputLogPrefix, output, Logging);
  }

  lemma StreamTailSelect(path: string, remove: Outcome<Error>)
    ensures Select(StreamTail(path, remove), Removal) == [Remove(path)]
    ensures Select(StreamTail(path, remove), Launch) == []
    ensures Select(StreamTail(path, remove), Logging) == LogIfFailed(CleanupLogPrefix, remove)
  {
    SelectCons(CloseBody, Cleanup(path, remove), Removal);
    SelectCons(CloseBody, Cleanup(path, remove), Launch);
    SelectCons(CloseBody, Cleanup(path, remove), Logging);
  }

  /** The first four events of the streaming path. */
  function Started(contentType: string, path: string, argv: seq<string>): seq<Event>
  {
    [MkFifo(path, FifoMode, true), SetHeader("Content-Type", contentType), StartCopy(path), StartGs(argv)]
  }

  lemma StartedSelect(contentType: string, path: string, argv: seq<string>, k: Kind)
    ensures Select(Started(contentType, path, argv), k) == if k == Launch then [StartCopy(path), StartGs(argv)] else []
  {
    var started := Started(contentType, path, argv);
    assert started == [started[0]] + ([started[1]] + ([started[2]] + [started[3]]));
    SelectOne(started[3], k);
    SelectCons(started[2], [started[3]], k);
    SelectCons(started[1], [started[2]] + [started[3]], k);
    SelectCons(started[0], [started[1]] + ([started[2]] + [started[3]]), k);
  }

  /** The streaming path's trace has the shape `Streams` describes and
      removes the FIFO exactly once. */
  lemma StreamingTrace(plan: Plan, gsRun: Outcome<Error>, output: Outcome<Error>, remove: Outcome<Error>)
    ensures var joined := Joined(plan.contentType, plan.outputPath, plan.argv, gsRun, output);
            var trace := joined + StreamTail(plan.outputPath, remove);
            && Streams(trace, plan, gsRun, output, remove)
            && Select(trace, Removal) == [Remove(plan.outputPath)]
  {
    var joined := Joined(plan.contentType, plan.outputPath, plan.argv, gsRun, output);
    var tail := StreamTail(plan.outputPath, remove);
    var trace := joined + tail;
    assert trace[..|trace| - |tail|] == joined;
    assert trace[|trace| - |tail|..] == tail;
    assert trace[..4] == Started(plan.contentType, plan.outputPath, plan.argv);
    assert trace[4..|trace| - |tail|] == joined[4..] == JoinEvents(gsRun, output);
    StreamingRemovals(plan.contentType, plan.outputPath, plan.argv, gsRun, output, remove);
    StreamingLaunches(plan.contentType, plan.outputPath, plan.argv, gsRun, output, remove);
    StreamingReceives(plan.contentType, plan.outputPath, plan.argv, gsRun, output);
    StreamingLogs(plan.contentType, plan.outputPath, plan.argv, gsRun, output, remove);
  }

  /** Selecting from the streaming path's trace, segment by segment. */
  lemma StreamingSplit(contentType: string, path: string, argv: seq<string>,
                       gsRun: Outcome<Error>, output: Outcome<Error>, remove: Outcome<Error>, k: Kind)
    ensures Select(Joined(contentType, path, argv, gsRun, output), k)
            == Select(Started(contentType, path, argv), k) + Select(JoinEvents(gsRun, output), k)
    ensures Select(Joined(contentType, path, argv, gsRun, output) + StreamTail(path, remove), k)
            == Select(Started(contentType, path, argv), k) + Select(JoinEvents(gsRun, output), k)
               + Select(StreamTail(path, remove), k)
  {
    SelectSegments(Started(contentType, path, argv), JoinEvents(gsRun, output), StreamTail(path, remove), k);
  }

  lemma SelectSegments(a: seq<Event>, b: seq<Event>, c: seq<Event>, k: Kind)
    ensures Select(a + b, k) == Select(a, k) + Select(b, k)
    ensures Select(a + b + c, k) == Select(a, k) + Select(b, k) + Select(c, k)
  {
    SelectAppend(a, b, k);
    SelectAppend(a + b, c, k);
  }

  /** On the streaming path the FIFO is removed once, at the end. */
  lemma StreamingRemovals(contentType: string, path: string, argv: seq<string>,
                          gsRun: Outcome<Error>, output: Outcome<Error>, remove: Outcome<Error>)
    ensures Select(Joined(contentType, path, argv, gsRun, output) + StreamTail(path, remove), Removal) == [Remove(path)]
  {
    StreamingSplit(contentType, path, argv, gsRun, output, remove, Removal);
    StartedSelect(contentType, path, argv, Removal);
    JoinEventsNone(gsRun, output, Removal);
    StreamTailSelect(path, remove);
  }

  /** On the streaming path both tasks are launched, the copy first. */
  lemma StreamingLaunches(contentType: string, path: string, argv: seq<string>,
                          gsRun: Outcome<Error>, output: Outcome<Error>, remove: Outcome<Error>)
    ensures Select(Joined(contentType, path, argv, gsRun, output) + StreamTail(path, remove), Launch)
            == [StartCopy(path), StartGs(argv)]
  {
    StreamingSplit(contentType, path, argv, gsRun, output, remove, Launch);
    StartedSelect(contentType, path, argv, Launch);
    JoinEventsNone(gsRun, output, Launch);
    StreamTailSelect(path, remove);
  }

  /** Before the defers run, both outcomes have been received, Ghostscript's first. */
  lemma StreamingReceives(contentType: string, path: string, argv: seq<string>,
                          gsRun: Outcome<Error>, output: Outcome<Error>)
    ensures Select(Joined(contentType, path, argv, gsRun, output), Receive) == [AwaitGs(gsRun), AwaitCopy(output)]
  {
    StreamingSplit(contentType, path, argv, gsRun, output, Pass, Receive);
    StartedSelect(contentType, path, argv, Receive);
    JoinEventsSelect(gsRun, output, Receive);
    SelectOne(AwaitGs(gsRun), Receive);
    SelectOne(AwaitCopy(output), Receive);
    SelectLogIfFailed(GsLogPrefix, gsRun, Receive);
    SelectLogIfFailed(OutputLogPrefix, output, Receive);
  }

  /** The only log lines are those of a failed task and a failed removal, in that order. */
  lemma StreamingLogs(contentType: string, path: string, argv: seq<string>,
                      gsRun: Outcome<Error>, output: Outcome<Error>, remove: Outcome<Error>)
    ensures Select(Joined(contentType, path, argv, gsRun, output) + StreamTail(path, remove), Logging)
            == LogIfFailed(GsLogPrefix, gsRun) + LogIfFailed(OutputLogPrefix, output) + LogIfFailed(CleanupLogPrefix, remove)
  {
    StreamingSplit(contentType, path, argv, gsRun, output, remove, Logging);
    StartedSelect(contentType, path, argv, Logging);
    JoinEventsLogs(gsRun, output);
    StreamTailSelect(path, remove);
  }
}
