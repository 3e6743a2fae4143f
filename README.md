# pdfrasterizer: a Dafny model of the `/rasterize` handler and its client

pdfrasterizer turns PDF documents into raster images. Its HTTP handler for
`POST /rasterize` checks the request's `Content-Type` and picks PNG or JPEG
from the `Accept` header. It then creates a named pipe (FIFO) under `/tmp`
and runs Ghostscript with that pipe as its output. Concurrently it copies
the pipe into the HTTP response, and it removes the pipe once both tasks
are done. A small client library builds an authenticated request to that
endpoint.

This project models that core in Dafny 4.11:

- **Planning** (`planning.dfy`, with `ghostscript.dfy` and `fifo.dfy`): the
  handler's decisions as total functions. Inputs are the request headers,
  the outcome of `mkfifo` and the random token. `PlanRequest` returns either
  a rejection (400 or 500) or a plan. A plan holds the image type, the
  Ghostscript device, the FIFO path, the argument vector and the response
  `Content-Type`.
- **Lifecycle** (`handler.dfy`, with `events.dfy`): `HandleRasterize` is an
  imperative method that appends the handler's effects, in order, to an
  event trace. Go's `defer` is a stack of deferred actions. Every `return`
  unwinds it last-in first-out. The two goroutines become "launch both,
  then receive Ghostscript's result, then the copy's". Their outcomes and
  the outcomes of `mkfifo` and `os.Remove` are inputs.
- **Client** (`client.dfy`): `New` with an abstract token provider, and
  `Rasterize` as the request record handed to the transport. The
  transport's answer is a parameter.

Supporting modules: `wrappers.dfy` (Option, Result, Outcome), `errors.dfy`
(Go errors, `%w` wrapping, `Unwrap`) and `http.dfy` (`http.Header`'s `Get`
and `Set`, status codes).

The central property is on `Handler.HandleRasterize`. It holds for every
invocation that returns, which on the streaming path means that both tasks
have delivered their outcome (see "## Left out" for a run in which they
never do). Select the `Remove` events of its trace: they are exactly
`[Remove(FifoPath(token))]` when the FIFO was created, and empty otherwise. A created FIFO is always the trace's
first event, and on the streaming path its removal is the last action,
after both task outcomes have been received. The response status is
`StatusOf(PlanRequest(...))`. That value depends neither on the task
outcomes nor on the removal's outcome.

Two facts about the code shape the model:

- `client.go` defines only `Rasterize`, which asks for JPEG. The
  command-line client calls `RasterizeToPng`
  (cmd/pdfrasterizer/main.go:157), which does not exist and is not
  modelled.
- The FIFO is removed by one unguarded `os.Remove`
  (cmd/pdfrasterizer/main.go:175). It is removed once because the handler
  defers the cleanup once (cmd/pdfrasterizer/main.go:66).

## Model

| member | source | states |
|---|---|---|
| Planning.PlanRequest | cmd/pdfrasterizer/main.go:46-94 | a rejection is a 400 or a 500; a plan renders the image type with the device the `switch` picks for it, writes into the token's FIFO, runs the fixed Ghostscript template with that path and device, and answers with the image type |
| Planning.ContentTypeGate | cmd/pdfrasterizer/main.go:47-50 | a `Content-Type` other than exactly `application/pdf` yields 400 with the fixed message, whatever the FIFO and token would be; 400 happens if and only if the content type is wrong |
| Planning.NegotiateImageType | cmd/pdfrasterizer/main.go:52-57 | the image type is `image/jpeg` if and only if `Accept` is exactly `image/jpeg`, and `image/png` for every other value, so negotiation never fails |
| Planning.GsDevice | cmd/pdfrasterizer/main.go:68-77 | `jpeg` exactly for `image/jpeg`, `png16m` exactly for `image/png`, otherwise the error "unsupported requested image type: " followed by the type |
| Planning.NegotiatedTypeHasDevice | cmd/pdfrasterizer/main.go:68-81 | every negotiated image type has a device, so the switch's default branch and its 400 cannot be reached |
| Planning.MkfifoFailureIs500 | cmd/pdfrasterizer/main.go:61-65 | with a valid content type, a failed `mkfifo` yields 500 with the error's text; 500 happens if and only if that is the case |
| Planning.ProceedPlan | cmd/pdfrasterizer/main.go:52-98 | a plan exists if and only if the content type is valid and `mkfifo` succeeded; its device matches the negotiated image type; its output path is the token's FIFO; its argument vector is the fixed template; its response `Content-Type` is the image type |
| Planning.StatusIsOneOfThree | cmd/pdfrasterizer/main.go:46-98 | the response status is 200, 400 or 500 and does not depend on the random token |
| Ghostscript.Argv | cmd/pdfrasterizer/main.go:83-94 | eleven arguments: the program `./gs`, the output path right after `-o`, `-sDEVICE=` followed by the device, and `-` last, so the document is read from stdin |
| Ghostscript.ParseArgvInvertsArgv | cmd/pdfrasterizer/main.go:83-94 | every built command line matches the fixed template, and the template gives back the output path and device it was built from |
| Ghostscript.ArgvFromParse | cmd/pdfrasterizer/main.go:83-94 | an argument vector that matches the template is exactly the one built from its output path and device |
| Ghostscript.OnlyPathAndDeviceVary | cmd/pdfrasterizer/main.go:83-94 | every element except the output path (position 4) and `-sDEVICE=`+device (position 8) is the same for all requests; two vectors are equal if and only if their paths and devices are |
| Fifo.FifoPath | cmd/pdfrasterizer/main.go:168 | the FIFO path is `/tmp/` followed by the token, with no further separator, so it names an entry directly inside `/tmp` |
| Fifo.FifoPathInjective | cmd/pdfrasterizer/main.go:168 | two tokens give the same FIFO path if and only if they are equal |
| Fifo.RandomFifoName | cmd/pdfrasterizer/main.go:167-172 | creates the FIFO with mode 0600; the path is returned if and only if `mkfifo` succeeded; otherwise `mkfifo`'s error is returned |
| Fifo.Cleanup | cmd/pdfrasterizer/main.go:174-178 | the cleanup removes the FIFO exactly once, first; a removal error is only logged under "randomFifoName cleanup: " |
| Handler.HandleRasterize | cmd/pdfrasterizer/main.go:46-124 | the status is the planned one, unaffected by task and removal outcomes; a wrong content type produces only the 400 write; a failed `mkfifo` produces only the attempt and the 500 write; the FIFO is removed exactly once if it was created and never otherwise; no task starts unless the request is streamed; on the streaming path the trace has the shape of `Handler.Streams`: the FIFO, the response `Content-Type`, the two launches, then exactly the two receives each followed only by its own error's log line, then closing the body and removing the FIFO, with nothing else in between |
| Handler.Stream | cmd/pdfrasterizer/main.go:96-124 | after `mkfifo` succeeds with the FIFO cleanup deferred, the rest of the handler produces a trace with the exact shape of `Handler.Streams` (no event besides the receives and their log lines between the launches and the defers) and removes the FIFO exactly once |
| Handler.RunDeferredEffects | cmd/pdfrasterizer/main.go:66-96 | a deferred action neither starts nor awaits a task; the deferred FIFO cleanup removes its FIFO once, closing the request body removes nothing |
| Handler.UnwindPush | cmd/pdfrasterizer/main.go:66-96 | `Handler.Unwind` runs the action deferred last before all the others |
| Handler.UnwindLifo | cmd/pdfrasterizer/main.go:66-96 | `Handler.Unwind` is last-in first-out: for any stack split into earlier and later defers, the later ones all run before the earlier ones |
| Handler.UnwindStartsNoTask | cmd/pdfrasterizer/main.go:66-96 | unwinding any stack of deferred actions launches no task and receives no outcome |
| Handler.UnwindStreaming | cmd/pdfrasterizer/main.go:66-96 | the two defers of the streaming path run in reverse order: the request body is closed, then the FIFO is removed |
| Handler.StreamingTrace | cmd/pdfrasterizer/main.go:98-124 | the streaming trace creates the FIFO and sets `Content-Type` to the image type before launching the copy task and then Ghostscript; between the launches and the defers there are only the two receives, Ghostscript's first, each followed only by its own error's log line; it removes the FIFO once, at the end |
| Handler.StreamingLaunches | cmd/pdfrasterizer/main.go:102-116 | exactly two tasks are launched on the streaming path: the copy from the FIFO, then Ghostscript with the planned argument vector |
| Handler.StreamingReceives | cmd/pdfrasterizer/main.go:118-124 | both task outcomes are received exactly once, Ghostscript's first, then the copy's |
| Handler.StreamingLogs | cmd/pdfrasterizer/main.go:118-124 | the only log lines are the ones for a failed Ghostscript run, a failed copy and a failed removal, in that order (that each follows its own receive and that no other event reacts to an error is stated by `Handler.Streams`, see `Handler.StreamingTrace`) |
| Handler.StreamingRemovals | cmd/pdfrasterizer/main.go:66 | on the streaming path the FIFO is removed exactly once |
| RasterizerClient.TokenFromEnv | pkg/pdfrasterizerclient/client.go:19-21 | fails if and only if `PDFRASTERIZER_TOKEN` is unset; otherwise it yields the variable's value |
| RasterizerClient.NoToken | pkg/pdfrasterizerclient/client.go:23-25 | the provider never fails and yields the empty token |
| RasterizerClient.New | pkg/pdfrasterizerclient/client.go:32-39 | fails if and only if the token provider fails, with an error that unwraps to the provider's error and reads "getToken: " followed by it; on success the client holds exactly the base URL and the token |
| RasterizerClient.NewWithNoToken | pkg/pdfrasterizerclient/client.go:23-25 | with `NoToken`, construction always succeeds and the token is empty |
| RasterizerClient.NewFromEnv | pkg/pdfrasterizerclient/client.go:19-36 | with the environment provider, construction fails if and only if the variable is unset, with the wrapped "getToken: " error; otherwise the client holds the variable's value |
| RasterizerClient.RasterizeRequest | pkg/pdfrasterizerclient/client.go:46-51 | the request is a POST to the base URL followed by `/rasterize`; it carries the client's token and the single header `Accept: image/jpeg`, and sends the document unchanged as `application/pdf` |
| RasterizerClient.Rasterize | pkg/pdfrasterizerclient/client.go:41-56 | fails if and only if the transport fails, with an error that unwraps to the transport's error and reads "PDF rasterizer: " followed by it; on success it returns the transport's body unchanged |
| RasterizerClient.RasterizeRequestIsServedAsJpeg | pkg/pdfrasterizerclient/client.go:41-51 | the request passes the handler's content-type check and negotiates `image/jpeg`, so the handler plans a JPEG response with the `jpeg` device whenever the FIFO can be made |

## Left out

- Runs that never return: the trace properties hold only for invocations in which both tasks finish. If Ghostscript exits without opening the FIFO for writing (for example when `./gs` cannot be started, cmd/pdfrasterizer/main.go:115), the copy task's `os.Open` (cmd/pdfrasterizer/main.go:103) waits for a writer forever. Then `<-outputDone` (cmd/pdfrasterizer/main.go:122) never returns, the deferred cleanup never runs and the FIFO is never removed. The model gives every task an outcome, so it cannot express this hang.
- Goroutines and channels (`runSimpleTaskAsync`, cmd/pdfrasterizer/main.go:181-187): the two tasks are modelled as "both launched, both received, Ghostscript's first". FIFO blocking, back-pressure and the interleaving of the copy with Ghostscript's writes are not modelled.
- Running Ghostscript and rasterizing the PDF: only the argument vector is modelled. The run's result is an input.
- `syscall.Mkfifo`, `os.Open`/`io.Copy` on the FIFO, `os.Remove` and `cryptorandombytes.Base64Url` are OS calls and randomness. Their results are inputs. The token is any non-empty string over the URL-safe base64 alphabet. Its length is not modelled.
- Uniqueness of FIFO names across concurrent requests depends on randomness. Only the injectivity of the token-to-path mapping is proved.
- `http.Header` key canonicalisation: header names are looked up in their canonical form (`Content-Type`, `Accept`).
- The body and headers that `http.Error` writes are not modelled. A rejection is its status and message.
- A panic inside the handler, which would also run the deferred actions, is not modelled.
- CLI wiring and the command-line client (`main`, `clientEntry`, `client`, cmd/pdfrasterizer/main.go:24-41 and 130-165), the Lambda adapter, and cmd/pdfrasterizer/server.go: all of this is command and server plumbing.
- The `ezhttp` transport is an unseen library. It is a function from request to body-or-error, so its non-2xx handling is not modelled. `RasterizerClient.WireHeader` is the model's assumption about the headers the handler then sees: the listed headers, then the body's content type. The `Authorization` header's wire form is not modelled. The request context is left out.
- `RasterizerClient.TokenFromEnv` takes the environment lookup as an `Option`. Whether an empty value counts as unset is decided by gokit's `envvar`, which is not part of this model. The error text "ENV not defined: PDFRASTERIZER_TOKEN" is assumed to be `envvar.Required`'s wording.
- `RasterizeToPng`, which the command-line client calls, does not exist in `client.go` and is not modelled.
