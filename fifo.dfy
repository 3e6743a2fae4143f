/** `randomFifoName` (cmd/pdfrasterizer/main.go): the named pipe through
    which Ghostscript hands its output to the handler. The random token and
    the results of `syscall.Mkfifo` and `os.Remove` are parameters. */
module Fifo {
  import opened Wrappers
  import opened Errors
  import opened Events

  const TmpDir := "/tmp"

  /** The permission bits passed to `syscall.Mkfifo`: octal 0600, read and
      write for the owner only. */
  const FifoMode := 384

  const CleanupLogPrefix := "randomFifoName cleanup: "

  /** A character of the URL-safe base64 alphabet, padding included. */
  predicate IsTokenChar(c: char)
  {
    ('A' <= c <= 'Z') || ('a' <= c <= 'z') || ('0' <= c <= '9') || c == '-' || c == '_' || c == '='
  }

  /** What `cryptorandombytes.Base64Url(8)` returns: a non-empty string over
      the URL-safe base64 alphabet. It never holds a path separator. */
  type Token = t: string | |t| > 0 && forall i :: 0 <= i < |t| ==> IsTokenChar(t[i]) witness "A"

  /** `filepath.Join("/tmp", token)`. Because a token holds neither '/' nor
      '.', joining cleans nothing away: the path names an entry directly
      inside /tmp whose name is the token. */
  function FifoPath(token: Token): (p: string)
    ensures |p| == |TmpDir| + 1 + |token|
    ensures p[..|TmpDir| + 1] == TmpDir + "/"
    ensures p[|TmpDir| + 1..] == token
    ensures forall i :: |TmpDir| + 1 <= i < |p| ==> p[i] != '/'
  {
    TmpDir + "/" + token
  }

  /** Distinct tokens give distinct FIFO paths, and a path gives back its
      token: the handler's FIFOs are as unique as its tokens. */
  lemma FifoPathInjective(a: Token, b: Token)
    ensures FifoPath(a) == FifoPath(b) <==> a == b
  {
    if FifoPath(a) == FifoPath(b) {
      assert a == FifoPath(a)[|TmpDir| + 1..];
    }
  }

  /** `randomFifoName`: creates the FIFO with mode 0600 and hands back its
      path (the cleanup closure is `Cleanup` on that path); when `mkfifo`
      fails, its error is returned and there is no path to clean up. */
  method RandomFifoName(token: Token, mkfifo: Outcome<Error>) returns (r: Result<string, Error>, events: seq<Event>)
    ensures events == [MkFifo(FifoPath(token), FifoMode, mkfifo.Pass?)]
    ensures r.Success? <==> mkfifo.Pass?
    ensures r.Success? ==> r.value == FifoPath(token)
    ensures r.Failure? ==> r.error == mkfifo.error
  {
    var randomPath := FifoPath(token);
    events := [MkFifo(randomPath, FifoMode, mkfifo.Pass?)];
    match mkfifo {
      case Fail(err) =>
        r := Failure(err);
      case Pass =>
        r := Success(randomPath);
    }
  }

  /** The cleanup closure that `randomFifoName` returns: removes the FIFO
      once, and only logs when the removal fails. */
  function Cleanup(path: string, remove: Outcome<Error>): (t: seq<Event>)
    ensures |t| > 0 && t[0] == Remove(path)
    ensures Select(t, Removal) == [Remove(path)]
    ensures Select(t, Logging) == LogIfFailed(CleanupLogPrefix, remove)
    ensures Select(t, Launch) == [] && Select(t, Receive) == []
  {
    var logged := LogIfFailed(CleanupLogPrefix, remove);
    SelectNone(logged, Removal);
    SelectNone(logged, Launch);
    SelectNone(logged, Receive);
    SelectAll(logged, Logging);
    SelectCons(Remove(path), logged, Removal);
    SelectCons(Remove(path), logged, Launch);
    SelectCons(Remove(path), logged, Receive);
    SelectCons(Remove(path), logged, Logging);
    [Remove(path)] + logged
  }
}
