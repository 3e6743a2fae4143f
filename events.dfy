/** The observable effects of one invocation of the `/rasterize` handler,
    in the order they happen. Goroutine launches and channel receives
    appear as `Start…` and `Await…` events; what the two tasks do in between
    (open the FIFO, copy, run Ghostscript) is summed up in the outcome that
    the `Await…` event carries. */
module Events {
  import opened Wrappers
  import opened Errors

  datatype Event =
    | WriteError(status: int, message: string)      // http.Error(w, message, status)
    | MkFifo(path: string, mode: int, created: bool) // syscall.Mkfifo and whether it succeeded
    | SetHeader(name: string, value: string)        // w.Header().Set(name, value)
    | StartCopy(path: string)                       // the task copying the FIFO to the response is launched
    | StartGs(argv: seq<string>)                    // the task running Ghostscript is launched
    | AwaitGs(outcome: Outcome<Error>)              // receive from the Ghostscript task's channel
    | AwaitCopy(outcome: Outcome<Error>)            // receive from the copy task's channel
    | CloseBody                                     // r.Body.Close()
    | Remove(path: string)                          // os.Remove(path)
    | Log(message: string)                          // log.Printf

  /** The kinds of event the handler's guarantees are stated about. */
  datatype Kind = Removal | Launch | Receive | Logging

  predicate Is(k: Kind, e: Event)
  {
    match k
    case Removal => e.Remove?
    case Launch => e.StartCopy? || e.StartGs?
    case Receive => e.AwaitGs? || e.AwaitCopy?
    case Logging => e.Log?
  }

  /** The events of `t` of kind `k`, in their order in `t`. */
  function Select(t: seq<Event>, k: Kind): (r: seq<Event>)
    ensures |r| <= |t|
  {
    if t == [] then [] else (if Is(k, t[0]) then [t[0]] else []) + Select(t[1..], k)
  }

  /** Selecting from a concatenation concatenates the selections. */
  lemma {:induction false} SelectAppend(a: seq<Event>, b: seq<Event>, k: Kind)
    ensures Select(a + b, k) == Select(a, k) + Select(b, k)
  {
    if a == [] {
      assert a + b == b;
    } else {
      var first := if Is(k, a[0]) then [a[0]] else [];
      var ab := a + b;
      assert ab[0] == a[0];
      assert ab[1..] == a[1..] + b;
      SelectAppend(a[1..], b, k);
      calc {
        Select(ab, k);
        first + Select(a[1..] + b, k);
        first + (Select(a[1..], k) + Select(b, k));
        (first + Select(a[1..], k)) + Select(b, k);
        Select(a, k) + Select(b, k);
      }
    }
  }

  /** Selecting from a sequence that starts with `e`. */
  lemma SelectCons(e: Event, t: seq<Event>, k: Kind)
    ensures Select([e] + t, k) == (if Is(k, e) then [e] else []) + Select(t, k)
  {
    assert ([e] + t)[1..] == t;
  }

  /** Selecting from a single event. */
  lemma SelectOne(e: Event, k: Kind)
    ensures Select([e], k) == if Is(k, e) then [e] else []
  {
    SelectCons(e, [], k);
  }

  /** Nothing is selected from a sequence with no event of the kind. */
  lemma {:induction false} SelectNone(t: seq<Event>, k: Kind)
    requires forall i :: 0 <= i < |t| ==> !Is(k, t[i])
    ensures Select(t, k) == []
  {
    if t != [] {
      SelectNone(t[1..], k);
    }
  }

  /** Everything is selected from a sequence whose events are all of the kind. */
  lemma {:induction false} SelectAll(t: seq<Event>, k: Kind)
    requires forall i :: 0 <= i < |t| ==> Is(k, t[i])
    ensures Select(t, k) == t
  {
    if t != [] {
      SelectAll(t[1..], k);
    }
  }

  /** `log.Printf(prefix + "%v", err)` when the outcome is an error, nothing
      otherwise. */
  function LogIfFailed(prefix: string, o: Outcome<Error>): (t: seq<Event>)
    ensures |t| <= 1
    ensures forall i :: 0 <= i < |t| ==> t[i].Log?
    ensures t != [] <==> o.Fail?
  {
    match o
    case Pass => []
    case Fail(err) => [Log(prefix + Text(err))]
  }

  /** A log line is selected as a log line and as nothing else. */
  lemma SelectLogIfFailed(prefix: string, o: Outcome<Error>, k: Kind)
    ensures Select(LogIfFailed(prefix, o), k) == if k == Logging then LogIfFailed(prefix, o) else []
  {
    if o.Fail? {
      SelectOne(Log(prefix + Text(o.error)), k);
    }
  }
}
